/** comment_campaign/queueing.py: Redis leases that only their owner can change, and the gate
    that lets concurrent callers create one job. */
module JobQueue {
  import opened Sorting

  /* The lease operations, as the server's atomic commands see them. */

  datatype Entry = Entry(owner: string, ttl: nat)

  type Store = map<string, Entry>

  function SetIfAbsent(store: Store, key: string, entry: Entry): Store {
    if key in store then store else store[key := entry]
  }

  function DeleteIfOwner(store: Store, key: string, owner: string): Store {
    if key in store && store[key].owner == owner then store - {key} else store
  }

  function ExpireIfOwner(store: Store, key: string, owner: string, ttl: nat): Store {
    if key in store && store[key].owner == owner then store[key := Entry(owner, ttl)] else store
  }

  class Redis {
    var store: Store

    constructor ()
      ensures store == map[]
    {
      store := map[];
    }
  }

  /** A lease on one key for one owner. */
  class Lease {
    const redis: Redis
    const key: string
    const owner: string
    const ttl: nat

    constructor (redis: Redis, key: string, owner: string, ttl: nat)
      requires owner != "" && ttl > 0
      ensures this.redis == redis && this.key == key && this.owner == owner && this.ttl == ttl
    {
      this.redis, this.key, this.owner, this.ttl := redis, key, owner, ttl;
    }

    /** None when the server cannot be reached; the command may still have run. */
    method Acquire() returns (granted: Option<bool>)
      modifies redis
      ensures redis.store in {old(redis.store), SetIfAbsent(old(redis.store), key, Entry(owner, ttl))}
      ensures granted.Some? ==> granted.value == (key !in old(redis.store))
      ensures granted.Some? ==> redis.store == SetIfAbsent(old(redis.store), key, Entry(owner, ttl))
    {
      if * {
        return None;
      }
      granted := Some(key !in redis.store);
      if key !in redis.store {
        redis.store := redis.store[key := Entry(owner, ttl)];
      }
      if * {
        granted := None;
      }
    }

    method Refresh(seconds: nat) returns (extended: Option<bool>)
      requires seconds > 0
      modifies redis
      ensures redis.store in {old(redis.store), ExpireIfOwner(old(redis.store), key, owner, seconds)}
      ensures extended.Some? ==> extended.value == (key in old(redis.store) && old(redis.store)[key].owner == owner)
      ensures extended.Some? ==> redis.store == ExpireIfOwner(old(redis.store), key, owner, seconds)
    {
      if * {
        return None;
      }
      extended := Some(key in redis.store && redis.store[key].owner == owner);
      if extended.value {
        redis.store := redis.store[key := Entry(owner, seconds)];
      }
      if * {
        extended := None;
      }
    }

    method Release() returns (released: Option<bool>)
      modifies redis
      ensures redis.store in {old(redis.store), DeleteIfOwner(old(redis.store), key, owner)}
      ensures released.Some? ==> released.value == (key in old(redis.store) && old(redis.store)[key].owner == owner)
      ensures released.Some? ==> redis.store == DeleteIfOwner(old(redis.store), key, owner)
    {
      if * {
        return None;
      }
      released := Some(key in redis.store && redis.store[key].owner == owner);
      if released.value {
        redis.store := redis.store - {key};
      }
      if * {
        released := None;
      }
    }
  }

  /* Any number of callers with one job id, interleaved. */

  /** Where a caller stands. `Checked` has seen no job and goes for the gate; `Holding` won
      the gate and looks once more; `Creating` is about to enqueue; `Queued` refreshes its
      gate; `Failing` releases it after an exception; `Done` has returned a job or raised. */
  datatype Pc =
    Start | Checked | Holding | Creating | Enqueued | Failing | Watching(left: nat) | Done(got: bool)

  /** The shared gate and job, the callers, and how many jobs were ever created. `fetchable`
      says the job record can be fetched. Caller names stand for their random owner tokens. */
  datatype World = World(store: Store, fetchable: bool, created: nat, callers: map<string, Pc>)

  datatype Move =
    | Fetch(who: string, answered: bool)
    | TakeGate(who: string, answered: bool, applied: bool)
    | FetchAgain(who: string, answered: bool)
    | Enqueue(who: string, answered: bool, applied: bool)
    | Extend(who: string, answered: bool, applied: bool)
    | GiveUp(who: string, answered: bool, applied: bool)
    | Watch(who: string, answered: bool)
    | GateExpires
    | RecordExpires

  const GATE := "job"
  const GATE_SECONDS := 30
  const RESULT_SECONDS := 86400

  predicate GateFree(w: World) {
    GATE !in w.store
  }

  predicate HoldsGate(w: World, who: string) {
    GATE in w.store && w.store[GATE].owner == who
  }

  function At(w: World, who: string): Pc {
    if who in w.callers then w.callers[who] else Done(false)
  }

  function Go(w: World, who: string, pc: Pc): World {
    w.(callers := w.callers[who := pc])
  }

  /** A caller's next atomic action; moves that do not fit the caller's place do nothing.
      `answered` false means the client saw an exception, `applied` whether the server acted. */
  function Next(w: World, m: Move, attempts: nat): World {
    match m
    case Fetch(who, answered) =>
      if At(w, who) != Start then w
      else Go(w, who, if !answered then Done(false) else if w.fetchable then Done(true) else Checked)
    case TakeGate(who, answered, applied) =>
      if At(w, who) != Checked then w
      else
        var taken := SetIfAbsent(w.store, GATE, Entry(who, GATE_SECONDS));
        if !answered then Go(w, who, Done(false)).(store := if applied then taken else w.store)
        else Go(w, who, if GateFree(w) then Holding else Watching(attempts)).(store := taken)
    case FetchAgain(who, answered) =>
      if At(w, who) != Holding then w
      else Go(w, who, if !answered then Failing else if w.fetchable then Done(true) else Creating)
    case Enqueue(who, answered, applied) =>
      if At(w, who) != Creating then w
      else
        var after := if answered || applied then w.(created := w.created + 1, fetchable := true) else w;
        Go(after, who, if answered then Enqueued else Failing)
    case Extend(who, answered, applied) =>
      if At(w, who) != Enqueued then w
      else Go(w, who, Done(true)).(store :=
        if answered || applied then ExpireIfOwner(w.store, GATE, who, RESULT_SECONDS) else w.store)
    case GiveUp(who, answered, applied) =>
      if At(w, who) != Failing then w
      else Go(w, who, Done(false)).(store := if answered || applied then DeleteIfOwner(w.store, GATE, who) else w.store)
    case Watch(who, answered) =>
      if !At(w, who).Watching? then w
      else if !answered || At(w, who).left == 0 then Go(w, who, Done(false))
      else Go(w, who, if w.fetchable then Done(true) else Watching(At(w, who).left - 1))
    case GateExpires => w.(store := w.store - {GATE})
    case RecordExpires => w.(fetchable := false)
  }

  function Play(w: World, moves: seq<Move>, attempts: nat): World {
    if moves == [] then w else Next(Play(w, moves[..|moves| - 1], attempts), moves[|moves| - 1], attempts)
  }

  predicate Fresh(w: World) {
    GateFree(w) && !w.fetchable && w.created == 0 && forall who :: who in w.callers ==> w.callers[who] == Start
  }

  /** Between taking the gate and enqueueing. */
  predicate Critical(pc: Pc) {
    pc == Holding || pc == Creating
  }

  /** The gate does not expire under a caller that still has to enqueue, and the job record
      outlives the run. */
  predicate Timely(w: World, m: Move) {
    match m
    case GateExpires => GATE in w.store ==> !Critical(At(w, w.store[GATE].owner))
    case RecordExpires => false
    case _ => true
  }

  predicate AllTimely(w: World, moves: seq<Move>, attempts: nat) {
    forall i :: 0 <= i < |moves| ==> Timely(Play(w, moves[..i], attempts), moves[i])
  }

  /** While nobody can lose the gate, only its owner is in the critical section, and a caller
      about to create has seen that no job exists. */
  predicate Exclusive(w: World) {
    && (forall who :: who in w.callers && Critical(w.callers[who]) ==> HoldsGate(w, who))
    && (forall who :: who in w.callers && w.callers[who] == Creating ==> w.created == 0)
    && w.created <= 1 && (w.fetchable <==> w.created == 1)
  }

  lemma ExclusiveNext(w: World, m: Move, attempts: nat)
    requires Exclusive(w) && Timely(w, m)
    ensures Exclusive(Next(w, m, attempts))
  {
  }

  /** Whatever the interleaving, the failures and the lost answers, one job at most is
      created while the gate outlives its critical section and the record stays fetchable. */
  lemma {:induction false} AtMostOneJob(w: World, moves: seq<Move>, attempts: nat)
    requires Fresh(w) && AllTimely(w, moves, attempts)
    ensures Exclusive(Play(w, moves, attempts)) && Play(w, moves, attempts).created <= 1
  {
    if moves != [] {
      var front := moves[..|moves| - 1];
      forall i | 0 <= i < |front|
        ensures Timely(Play(w, front[..i], attempts), front[i])
      {
        assert front[..i] == moves[..i];
      }
      AtMostOneJob(w, front, attempts);
      ExclusiveNext(Play(w, front, attempts), moves[|moves| - 1], attempts);
    }
  }

  function Mover(m: Move): Option<string> {
    match m
    case GateExpires => None
    case RecordExpires => None
    case _ => Some(m.who)
  }

  /** The entry under `key` is gone or changed after the move. */
  predicate Touches(w: World, m: Move, attempts: nat, key: string)
    requires key in w.store
  {
    key !in Next(w, m, attempts).store || Next(w, m, attempts).store[key] != w.store[key]
  }

  /** If the entry goes or changes, its owner moved or it expired. */
  predicate OwnersMove(w: World, m: Move, attempts: nat, key: string) {
    key in w.store && Touches(w, m, attempts, key) ==>
      Mover(m) == Some(w.store[key].owner) || (m == GateExpires && key == GATE)
  }

  lemma TouchedBy(w: World, m: Move, attempts: nat, key: string)
    requires key in w.store && Touches(w, m, attempts, key)
    ensures Mover(m) == Some(w.store[key].owner) || (m == GateExpires && key == GATE)
  {
  }

  /** At any point of any schedule, expiries included, an entry goes or changes only by a
      move of its owner or by its own expiry. */
  lemma OnlyTheOwnerTouches(w: World, moves: seq<Move>, attempts: nat, key: string)
    ensures forall i :: 0 <= i < |moves| ==> OwnersMove(Play(w, moves[..i], attempts), moves[i], attempts, key)
  {
    forall i | 0 <= i < |moves|
      ensures OwnersMove(Play(w, moves[..i], attempts), moves[i], attempts, key)
    {
      var before := Play(w, moves[..i], attempts);
      if key in before.store && Touches(before, moves[i], attempts, key) {
        TouchedBy(before, moves[i], attempts, key);
      }
    }
  }

  /** Over a whole schedule in which its owner does not move, an entry survives unchanged
      unless it expires. */
  lemma {:induction false} AbsentOwnerKeepsEntry(w: World, moves: seq<Move>, attempts: nat, key: string)
    requires key in w.store && forall m :: m in moves ==> Mover(m) != Some(w.store[key].owner)
    ensures
      var after := Play(w, moves, attempts).store;
      (key in after && after[key] == w.store[key]) || (key == GATE && GateExpires in moves)
  {
    if moves != [] {
      var front, last := moves[..|moves| - 1], moves[|moves| - 1];
      AbsentOwnerKeepsEntry(w, front, attempts, key);
      assert last in moves;
      var before := Play(w, front, attempts);
      if key in before.store && before.store[key] == w.store[key] && Touches(before, last, attempts, key) {
        TouchedBy(before, last, attempts, key);
      }
    }
  }

  /* Exactly when a second job can be created. */

  /** Callers that may still create a job. */
  predicate MayCreate(pc: Pc) {
    pc == Start || pc == Checked || Critical(pc)
  }

  /** One caller at most is left that may create a job. */
  ghost predicate Spent(w: World) {
    && w.created <= 1
    && (w.created == 1 ==> forall a :: !MayCreate(At(w, a)))
    && forall a, b :: MayCreate(At(w, a)) && MayCreate(At(w, b)) ==> a == b
  }

  /** The one job is fetchable and nobody is about to create another. */
  ghost predicate Settled(w: World) {
    w.created == 1 && w.fetchable && forall a :: At(w, a) != Creating
  }

  /** What holds as long as no harmful expiry has happened, even if untimely ones have. */
  ghost predicate Sound(w: World) {
    Exclusive(w) || Spent(w) || Settled(w)
  }

  /** An expiry that leaves room for a second job: the gate lapses under a caller that has not
      yet enqueued the first job while another has yet to pass the gate, or the record of the
      first job lapses while some caller may still create one. */
  ghost predicate Harmful(w: World, m: Move) {
    match m
    case GateExpires =>
      && GATE in w.store && Critical(At(w, w.store[GATE].owner)) && w.created == 0
      && exists b :: b != w.store[GATE].owner && At(w, b) in {Start, Checked}
    case RecordExpires => w.created == 1 && exists b :: MayCreate(At(w, b))
    case _ => false
  }

  ghost predicate AllHarmless(w: World, moves: seq<Move>, attempts: nat) {
    forall i :: 0 <= i < |moves| ==> !Harmful(Play(w, moves[..i], attempts), moves[i])
  }

  lemma SpentNext(w: World, m: Move, attempts: nat)
    requires Spent(w)
    ensures Spent(Next(w, m, attempts))
  {
    var w' := Next(w, m, attempts);
    forall a
      ensures MayCreate(At(w', a)) ==> MayCreate(At(w, a))
      ensures w'.created != w.created ==> !MayCreate(At(w', a))
    {
    }
  }

  lemma SettledNext(w: World, m: Move, attempts: nat)
    requires Settled(w) && m != RecordExpires
    ensures Settled(Next(w, m, attempts))
  {
    forall a
      ensures At(Next(w, m, attempts), a) != Creating
    {
      assert At(w, a) != Creating;
    }
  }

  lemma SoundNext(w: World, m: Move, attempts: nat)
    requires Sound(w) && !Harmful(w, m)
    ensures Sound(Next(w, m, attempts))
  {
    if Spent(w) {
      SpentNext(w, m, attempts);
    } else if Settled(w) {
      if m == RecordExpires {
        SettledLapses(w, attempts);
      } else {
        SettledNext(w, m, attempts);
      }
    } else {
      ExclusiveLapses(w, m, attempts);
    }
  }

  lemma SettledLapses(w: World, attempts: nat)
    requires Settled(w) && !Harmful(w, RecordExpires)
    ensures Spent(Next(w, RecordExpires, attempts))
  {
    forall a
      ensures !MayCreate(At(Next(w, RecordExpires, attempts), a))
    {
      assert !MayCreate(At(w, a));
    }
  }

  lemma ExclusiveLapses(w: World, m: Move, attempts: nat)
    requires Exclusive(w) && !Settled(w) && !Harmful(w, m)
    ensures Sound(Next(w, m, attempts))
  {
    assert w.created == 0 by {
      assert forall a :: At(w, a) == Creating ==> a in w.callers;
    }
    if Timely(w, m) {
      ExclusiveNext(w, m, attempts);
    } else if m == GateExpires {
      OwnerAlone(w, attempts);
    } else {
      assert Next(w, m, attempts) == w;
    }
  }

  lemma OwnerAlone(w: World, attempts: nat)
    requires Exclusive(w) && w.created == 0 && !Timely(w, GateExpires) && !Harmful(w, GateExpires)
    ensures Spent(Next(w, GateExpires, attempts))
  {
    var w', owner := Next(w, GateExpires, attempts), w.store[GATE].owner;
    forall a | MayCreate(At(w', a))
      ensures a == owner
    {
      assert At(w, a) == At(w', a);
      assert Critical(At(w, a)) ==> a in w.callers;
    }
  }

  lemma TimelyIsHarmless(w: World, m: Move)
    requires Timely(w, m)
    ensures !Harmful(w, m)
  {
  }

  lemma {:induction false} SoundRun(w: World, moves: seq<Move>, attempts: nat)
    requires Sound(w) && AllHarmless(w, moves, attempts)
    ensures Sound(Play(w, moves, attempts))
  {
    if moves != [] {
      var n := |moves| - 1;
      HarmlessPrefix(w, moves, attempts, n);
      SoundRun(w, moves[..n], attempts);
      SoundNext(Play(w, moves[..n], attempts), moves[n], attempts);
    }
  }

  lemma HarmlessPrefix(w: World, moves: seq<Move>, attempts: nat, n: nat)
    requires n <= |moves| && AllHarmless(w, moves, attempts)
    ensures AllHarmless(w, moves[..n], attempts)
  {
    forall i | 0 <= i < n
      ensures !Harmful(Play(w, moves[..n][..i], attempts), moves[..n][i])
    {
      assert moves[..n][..i] == moves[..i];
    }
  }

  lemma TimelyRunIsHarmless(w: World, moves: seq<Move>, attempts: nat)
    requires AllTimely(w, moves, attempts)
    ensures AllHarmless(w, moves, attempts)
  {
    forall i | 0 <= i < |moves|
      ensures !Harmful(Play(w, moves[..i], attempts), moves[i])
    {
      TimelyIsHarmless(Play(w, moves[..i], attempts), moves[i]);
    }
  }

  /** Some timely continuation creates two jobs. */
  ghost predicate CanRepeat(w: World, attempts: nat) {
    exists rest :: AllTimely(w, rest, attempts) && Play(w, rest, attempts).created >= 2
  }

  lemma {:induction false} PlayFirst(w: World, m: Move, rest: seq<Move>, attempts: nat)
    ensures Play(w, [m] + rest, attempts) == Play(Next(w, m, attempts), rest, attempts)
  {
    if rest == [] {
      assert [m] + rest == [m] && [m][..0] == [];
    } else {
      var n := |rest| - 1;
      assert ([m] + rest)[..n + 1] == [m] + rest[..n];
      PlayFirst(w, m, rest[..n], attempts);
    }
  }

  lemma TimelyFirst(w: World, m: Move, rest: seq<Move>, attempts: nat)
    requires Timely(w, m) && AllTimely(Next(w, m, attempts), rest, attempts)
    ensures AllTimely(w, [m] + rest, attempts)
  {
    var moves := [m] + rest;
    forall i | 0 <= i < |moves|
      ensures Timely(Play(w, moves[..i], attempts), moves[i])
    {
      if i == 0 {
        assert Play(w, [], attempts) == w && moves[..0] == [];
      } else {
        assert moves[..i] == [m] + rest[..i - 1] && moves[i] == rest[i - 1];
        PlayFirst(w, m, rest[..i - 1], attempts);
      }
    }
  }

  lemma MoveThenRepeat(w: World, m: Move, attempts: nat)
    requires Timely(w, m) && CanRepeat(Next(w, m, attempts), attempts)
    ensures CanRepeat(w, attempts)
  {
    var w' := Next(w, m, attempts);
    var rest :| AllTimely(w', rest, attempts) && Play(w', rest, attempts).created >= 2;
    PlayFirst(w, m, rest, attempts);
    TimelyFirst(w, m, rest, attempts);
  }

  lemma AlreadyTwo(w: World, attempts: nat)
    requires w.created >= 2
    ensures CanRepeat(w, attempts)
  {
    assert AllTimely(w, [], attempts) && Play(w, [], attempts) == w;
  }

  /** Moves a caller still has to make before it enqueues. */
  function Distance(pc: Pc): nat {
    if pc == Start then 3 else if pc == Checked then 2 else if pc == Holding then 1 else 0
  }

  /** With no record to be seen, a caller past the gate or before a free one gets to enqueue
      a second job: after the first, or beside a caller about to create it. */
  lemma {:induction false} SecondCaller(w: World, a: string, b: string, attempts: nat)
    requires !w.fetchable || At(w, b) == Creating
    requires w.created >= 1 || (a != b && At(w, a) == Creating)
    requires Critical(At(w, b)) || (MayCreate(At(w, b)) && GateFree(w))
    ensures CanRepeat(w, attempts)
    decreases Distance(At(w, b)), if w.created >= 1 then 0 else 1
  {
    match At(w, b)
    case Start =>
      SecondCaller(Next(w, Fetch(b, true), attempts), a, b, attempts);
      MoveThenRepeat(w, Fetch(b, true), attempts);
    case Checked =>
      SecondCaller(Next(w, TakeGate(b, true, true), attempts), a, b, attempts);
      MoveThenRepeat(w, TakeGate(b, true, true), attempts);
    case Holding =>
      SecondCaller(Next(w, FetchAgain(b, true), attempts), a, b, attempts);
      MoveThenRepeat(w, FetchAgain(b, true), attempts);
    case Creating =>
      if w.created >= 1 {
        AlreadyTwo(Next(w, Enqueue(b, true, true), attempts), attempts);
        MoveThenRepeat(w, Enqueue(b, true, true), attempts);
      } else {
        SecondCaller(Next(w, Enqueue(a, true, true), attempts), a, b, attempts);
        MoveThenRepeat(w, Enqueue(a, true, true), attempts);
      }
  }

  lemma LapsedGateRepeats(w: World, attempts: nat)
    requires Exclusive(w) && Harmful(w, GateExpires)
    ensures CanRepeat(Next(w, GateExpires, attempts), attempts)
  {
    var w', a := Next(w, GateExpires, attempts), w.store[GATE].owner;
    var b :| b != a && At(w, b) in {Start, Checked};
    assert At(w', a) == At(w, a) && At(w', b) == At(w, b);
    if At(w, a) == Holding {
      SecondCaller(Next(w', FetchAgain(a, true), attempts), a, b, attempts);
      MoveThenRepeat(w', FetchAgain(a, true), attempts);
    } else {
      SecondCaller(w', a, b, attempts);
    }
  }

  lemma LapsedRecordRepeats(w: World, attempts: nat)
    requires Harmful(w, RecordExpires)
    ensures CanRepeat(Next(w, RecordExpires, attempts), attempts)
  {
    var w' := Next(w, RecordExpires, attempts);
    var b :| MayCreate(At(w, b));
    assert At(w', b) == At(w, b);
    if Critical(At(w, b)) || GateFree(w) {
      SecondCaller(w', b, b, attempts);
    } else if Critical(At(w, w.store[GATE].owner)) {
      var o := w.store[GATE].owner;
      assert At(w', o) == At(w, o);
      SecondCaller(w', o, o, attempts);
    } else {
      assert Timely(w', GateExpires);
      SecondCaller(Next(w', GateExpires, attempts), b, b, attempts);
      MoveThenRepeat(w', GateExpires, attempts);
    }
  }

  lemma SoundNeverRepeats(w: World, attempts: nat)
    requires Sound(w)
    ensures !CanRepeat(w, attempts)
  {
    forall rest | AllTimely(w, rest, attempts)
      ensures Play(w, rest, attempts).created <= 1
    {
      TimelyRunIsHarmless(w, rest, attempts);
      SoundRun(w, rest, attempts);
    }
  }

  /** A move makes a second job possible exactly when it is a harmful expiry. */
  lemma SecondJobIff(w: World, m: Move, attempts: nat)
    requires Sound(w)
    ensures Harmful(w, m) <==> CanRepeat(Next(w, m, attempts), attempts)
  {
    if Harmful(w, m) {
      if m == GateExpires {
        HarmfulIsExclusive(w);
        LapsedGateRepeats(w, attempts);
      } else {
        LapsedRecordRepeats(w, attempts);
      }
    } else {
      SoundNext(w, m, attempts);
      SoundNeverRepeats(Next(w, m, attempts), attempts);
    }
  }

  lemma HarmfulIsExclusive(w: World)
    requires Sound(w) && Harmful(w, GateExpires)
    ensures Exclusive(w)
  {
    var b :| b != w.store[GATE].owner && At(w, b) in {Start, Checked};
    assert MayCreate(At(w, b)) && MayCreate(At(w, w.store[GATE].owner));
  }

  /** From fresh callers on: two jobs are out of reach all along a schedule exactly when none
      of its expiries is harmful. */
  lemma TwoJobsIff(w: World, moves: seq<Move>, attempts: nat)
    requires Fresh(w)
    ensures AllHarmless(w, moves, attempts)
      <==> forall i :: 0 <= i <= |moves| ==> !CanRepeat(Play(w, moves[..i], attempts), attempts)
  {
    if AllHarmless(w, moves, attempts) {
      forall i | 0 <= i <= |moves|
        ensures !CanRepeat(Play(w, moves[..i], attempts), attempts)
      {
        HarmlessPrefix(w, moves, attempts, i);
        SoundRun(w, moves[..i], attempts);
        SoundNeverRepeats(Play(w, moves[..i], attempts), attempts);
      }
    } else {
      var i := FirstHarmful(w, moves, attempts);
      HarmlessThenHarmful(w, moves, attempts, i);
    }
  }

  lemma {:induction false} FirstHarmful(w: World, moves: seq<Move>, attempts: nat) returns (i: nat)
    requires !AllHarmless(w, moves, attempts)
    ensures i < |moves| && Harmful(Play(w, moves[..i], attempts), moves[i])
    ensures AllHarmless(w, moves[..i], attempts)
  {
    var n := |moves| - 1;
    if AllHarmless(w, moves[..n], attempts) {
      i := n;
      forall j | 0 <= j < n
        ensures !Harmful(Play(w, moves[..j], attempts), moves[j])
      {
        assert moves[..n][..j] == moves[..j] && moves[..n][j] == moves[j];
      }
    } else {
      i := FirstHarmful(w, moves[..n], attempts);
      assert moves[..n][..i] == moves[..i];
    }
  }

  lemma HarmlessThenHarmful(w: World, moves: seq<Move>, attempts: nat, i: nat)
    requires Fresh(w) && i < |moves|
    requires AllHarmless(w, moves[..i], attempts) && Harmful(Play(w, moves[..i], attempts), moves[i])
    ensures CanRepeat(Play(w, moves[..i + 1], attempts), attempts)
  {
    SoundRun(w, moves[..i], attempts);
    SecondJobIff(Play(w, moves[..i], attempts), moves[i], attempts);
    assert moves[..i + 1][..i] == moves[..i];
  }

  /* What a caller gets. */

  predicate HasJob(pc: Pc) {
    pc == Enqueued || pc == Done(true)
  }

  /** Whoever was given a job was given one that was created. */
  ghost predicate Backed(w: World) {
    (w.fetchable ==> w.created > 0) && forall who :: who in w.callers && HasJob(w.callers[who]) ==> w.created > 0
  }

  /** Over every schedule: a caller that returns a job returns one that was created. */
  lemma {:induction false} ReturnedIsCreated(w: World, moves: seq<Move>, attempts: nat)
    requires Fresh(w)
    ensures Backed(Play(w, moves, attempts))
  {
    if moves != [] {
      ReturnedIsCreated(w, moves[..|moves| - 1], attempts);
    }
  }

  /** Left alone, a caller that finds neither job nor gate creates the job, keeps the gate for
      the time of the result, and returns the job. */
  lemma LoneCallerCreates(w: World, who: string, attempts: nat, applied: bool)
    requires At(w, who) == Start && !w.fetchable && GateFree(w)
    ensures
      var gated := Next(Next(w, Fetch(who, true), attempts), TakeGate(who, true, applied), attempts);
      var queued := Next(Next(gated, FetchAgain(who, true), attempts), Enqueue(who, true, applied), attempts);
      var w' := Next(queued, Extend(who, true, applied), attempts);
      && At(w', who) == Done(true) && w'.created == w.created + 1 && w'.fetchable
      && GATE in w'.store && w'.store[GATE] == Entry(who, 86400)
      && GATE in queued.store && queued.store[GATE] == Entry(who, 30)
  {
  }

  /** A caller that sees the job at any look returns it without creating another. */
  lemma SeenIsReturned(w: World, who: string, m: Move, attempts: nat)
    requires w.fetchable
    requires (m == Fetch(who, true) && At(w, who) == Start) || (m == FetchAgain(who, true) && At(w, who) == Holding)
      || (m == Watch(who, true) && At(w, who).Watching? && At(w, who).left > 0)
    ensures At(Next(w, m, attempts), who) == Done(true) && Next(w, m, attempts).created == w.created
  {
  }

  /** A caller that fails under its gate gives the gate back, so that another may try. */
  lemma FailureFreesTheGate(w: World, who: string, attempts: nat, applied: bool)
    requires At(w, who) == Failing && HoldsGate(w, who)
    ensures GateFree(Next(w, GiveUp(who, true, applied), attempts))
    ensures At(Next(w, GiveUp(who, true, applied), attempts), who) == Done(false)
  {
  }

  function Looks(who: string, n: nat): (moves: seq<Move>)
    ensures |moves| == n && forall i :: 0 <= i < n ==> moves[i] == Watch(who, true)
  {
    seq(n, _ => Watch(who, true))
  }

  /** A caller kept from the gate looks as often as configured before it raises. */
  lemma LooksInVain(w: World, who: string, n: nat, attempts: nat)
    requires At(w, who) == Watching(n) && !w.fetchable
    ensures forall k :: 0 <= k <= n ==> At(Play(w, Looks(who, k), attempts), who) == Watching(n - k)
    ensures At(Play(w, Looks(who, n + 1), attempts), who) == Done(false)
  {
    forall k | 0 <= k <= n
      ensures At(Play(w, Looks(who, k), attempts), who) == Watching(n - k)
    {
      LooksOn(w, who, n, k, attempts);
    }
    assert Looks(who, n + 1)[..n] == Looks(who, n);
  }

  lemma {:induction false} LooksOn(w: World, who: string, n: nat, k: nat, attempts: nat)
    requires At(w, who) == Watching(n) && !w.fetchable && k <= n
    ensures At(Play(w, Looks(who, k), attempts), who) == Watching(n - k)
    ensures !Play(w, Looks(who, k), attempts).fetchable
  {
    if k > 0 {
      LooksOn(w, who, n, k - 1, attempts);
      assert Looks(who, k)[..k - 1] == Looks(who, k - 1);
    }
  }

  /** The caller has had no trouble so far, or gave up looking. */
  ghost predicate Untroubled(w: World, moves: seq<Move>, attempts: nat, who: string) {
    && At(Play(w, moves, attempts), who) != Failing
    && (At(Play(w, moves, attempts), who) == Done(false) ==>
         exists i :: 0 <= i < |moves| && At(Play(w, moves[..i], attempts), who) == Watching(0))
  }

  /** Over every schedule: a caller all of whose calls are answered raises only when another held
      the gate and no job was seen at any of its looks. */
  lemma {:induction false} AnsweredRaisesOnlyAfterLooking(w: World, moves: seq<Move>, attempts: nat, who: string)
    requires Fresh(w) && who in w.callers
    requires forall m :: m in moves && Mover(m) == Some(who) ==> m.answered
    ensures who in Play(w, moves, attempts).callers && Untroubled(w, moves, attempts, who)
  {
    if moves != [] {
      var n := |moves| - 1;
      AnsweredRaisesOnlyAfterLooking(w, moves[..n], attempts, who);
      var before, last := Play(w, moves[..n], attempts), moves[n];
      assert last in moves;
      if At(before, who) == Done(false) {
        var i :| 0 <= i < n && At(Play(w, moves[..n][..i], attempts), who) == Watching(0);
        assert moves[..n][..i] == moves[..i];
      }
    }
  }

  /* Both harmful expiries do occur. */

  const TWO_CALLERS := World(map[], false, 0, map["a" := Start, "b" := Start])

  lemma PlayLast(w: World, moves: seq<Move>, m: Move, attempts: nat)
    ensures Play(w, moves + [m], attempts) == Next(Play(w, moves, attempts), m, attempts)
  {
    assert (moves + [m])[..|moves|] == moves;
  }

  /** The first caller has taken the gate and looked again. */
  lemma FirstPasses(attempts: nat) returns (moves: seq<Move>)
    ensures AllTimely(TWO_CALLERS, moves, attempts)
    ensures Play(TWO_CALLERS, moves, attempts)
      == World(map[GATE := Entry("a", GATE_SECONDS)], false, 0, map["a" := Creating, "b" := Start])
  {
    moves := [Fetch("a", true)] + [TakeGate("a", true, true)] + [FetchAgain("a", true)];
    assert Play(TWO_CALLERS, [], attempts) == TWO_CALLERS;
    PlayLast(TWO_CALLERS, [], Fetch("a", true), attempts);
    assert [] + [Fetch("a", true)] == [Fetch("a", true)];
    PlayLast(TWO_CALLERS, [Fetch("a", true)], TakeGate("a", true, true), attempts);
    PlayLast(TWO_CALLERS, [Fetch("a", true)] + [TakeGate("a", true, true)], FetchAgain("a", true), attempts);
    forall i | 0 <= i < |moves|
      ensures Timely(Play(TWO_CALLERS, moves[..i], attempts), moves[i])
    {
      assert Mover(moves[i]).Some?;
    }
  }

  /** A gate that lapses before its holder enqueues leads to two jobs. */
  lemma ExpiredGateCreatesTwo(attempts: nat)
    ensures exists moves ::
      var w := Play(TWO_CALLERS, moves, attempts);
      AllTimely(TWO_CALLERS, moves, attempts) && CanRepeat(Next(w, GateExpires, attempts), attempts)
  {
    var moves := FirstPasses(attempts);
    var w := Play(TWO_CALLERS, moves, attempts);
    assert At(w, "b") == Start;
    assert Exclusive(w);
    SecondJobIff(w, GateExpires, attempts);
  }

  /** So does a record that lapses before the other caller has looked. */
  lemma ExpiredRecordCreatesTwo(attempts: nat)
    ensures exists moves ::
      var w := Play(TWO_CALLERS, moves, attempts);
      AllTimely(TWO_CALLERS, moves, attempts) && CanRepeat(Next(w, RecordExpires, attempts), attempts)
  {
    var first := FirstPasses(attempts);
    var moves := first + [Enqueue("a", true, true)];
    PlayLast(TWO_CALLERS, first, Enqueue("a", true, true), attempts);
    var w := Play(TWO_CALLERS, moves, attempts);
    forall i | 0 <= i < |moves|
      ensures Timely(Play(TWO_CALLERS, moves[..i], attempts), moves[i])
    {
      if i < |first| {
        assert moves[..i] == first[..i] && moves[i] == first[i];
      }
    }
    assert MayCreate(At(w, "b"));
    assert Exclusive(w);
    SecondJobIff(w, RecordExpires, attempts);
  }
}
