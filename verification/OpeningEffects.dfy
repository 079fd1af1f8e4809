/** comment_campaign/profile_gateway.py: the effect of opening a batch of profiles on leases,
    quarantine and running browsers, on every exit, and what follows from it. */
module OpeningEffects {
  import opened Sorting

  datatype Key = ProfileKey(ref: string) | CampaignKey(id: string)

  datatype Code =
    | ProfileStartFailed
    | ProfileCloseFailed
    | CdpConnectFailed
    | RedisUnavailable
    | InvalidStateTransition
    | IdentityStale
    | AdsPowerUnavailable
    | Unexpected

  /** How one awaited call ends: normally, with a campaign error, with any other exception,
      or by cancellation, which no handler of the gateway catches. */
  datatype Reply = Fine | Refused(code: Code) | Broken | Cancelled

  /** The steps of handling a failed opening, each of which may itself be cut short: closing
      and releasing by cancellation, quarantining by a failing store, and releasing the
      campaign, last, by cancellation. */
  datatype Stage = Closing | Releasing | Quarantining | Finishing

  /** How an opening ends. It is interrupted when it is cancelled while opening. */
  datatype Attempt = Opened | Failed(code: Code) | Interrupted | CutShort(stage: Stage)

  datatype Metadata = Metadata(enabled: bool, healthy: bool)

  function Keys(refs: set<string>): set<Key> {
    set r | r in refs :: ProfileKey(r)
  }

  function CampaignKeys(campaign: Option<string>): set<Key> {
    if campaign.Some? then {CampaignKey(campaign.value)} else {}
  }

  /** Which keys a batch adds when it opens. */
  function BatchKeys(refs: seq<string>, campaign: Option<string>): set<Key> {
    Keys(ToSet(refs)) + CampaignKeys(campaign)
  }

  predicate Confirmed(closed: map<string, bool>, raw: string) {
    raw in closed && closed[raw]
  }

  /** The refs whose browser was closed without being seen inactive. */
  function Unconfirmed(refs: seq<string>, raws: seq<string>, closed: map<string, bool>): set<string>
    requires |refs| == |raws|
  {
    set i | 0 <= i < |refs| && raws[i] in closed && !closed[raws[i]] :: refs[i]
  }

  /** The key belongs to a browser confirmed closed. */
  ghost predicate Released(rawToRef: map<string, string>, closed: map<string, bool>, key: Key) {
    exists raw :: raw in rawToRef && Confirmed(closed, raw) && key == ProfileKey(rawToRef[raw])
  }

  /** The key belongs to a profile never started, or started and confirmed closed. */
  ghost predicate Idle(refs: seq<string>, raws: seq<string>, started: seq<string>, closed: map<string, bool>, key: Key)
    requires |refs| == |raws|
  {
    exists i :: 0 <= i < |refs| && IdleAt(refs, raws, started, closed, key, i)
  }

  predicate IdleAt(
    refs: seq<string>, raws: seq<string>, started: seq<string>, closed: map<string, bool>, key: Key, i: nat)
    requires i < |refs| == |raws|
  {
    key == ProfileKey(refs[i]) && (raws[i] !in started || Confirmed(closed, raws[i]))
  }

  /* What one opening does, from its batch and its course. */

  /** The profiles to open, their raw ids, the campaign lease to take with them, and whether
      leases are taken at all. */
  datatype Batch = Batch(refs: seq<string>, raws: seq<string>, campaign: Option<string>, hasFactory: bool)

  /** The raw ids whose start was begun, what closing found out, and how many profiles the
      release and the quarantine passes have visited. */
  datatype Course = Course(started: seq<string>, closed: map<string, bool>, visited: nat, marked: nat)

  /** What an opening can change: the store, the leases, the browsers this gateway may be
      running, and those that are running. */
  datatype View = View(metadata: map<string, Metadata>, leases: set<Key>, mine: set<string>, live: set<string>)

  ghost predicate Proper(b: Batch) {
    |b.refs| == |b.raws| && Distinct(b.refs) && Distinct(b.raws)
  }

  ghost predicate Fits(b: Batch, c: Course) {
    && c.started <= b.raws && (forall raw :: raw in c.closed ==> raw in c.started)
    && c.visited <= |b.refs| && c.marked <= |b.refs|
  }

  /** The batch's profiles whose browser was started and not seen inactive since. */
  ghost function Running(b: Batch, c: Course): set<string>
    requires Proper(b)
  {
    set i | 0 <= i < |b.refs| && b.raws[i] in c.started && !Confirmed(c.closed, b.raws[i]) :: b.refs[i]
  }

  /** The profiles the quarantine pass has marked. */
  ghost function Marked(b: Batch, c: Course): set<string>
    requires Proper(b) && Fits(b, c)
  {
    Unconfirmed(b.refs[..c.marked], b.raws[..c.marked], c.closed)
  }

  predicate GivenUpAt(b: Batch, c: Course, key: Key, i: nat)
    requires i < |b.refs| == |b.raws|
  {
    key == ProfileKey(b.refs[i]) && (Confirmed(c.closed, b.raws[i]) || (i < c.visited && b.raws[i] !in c.started))
  }

  /** The lease was given up: its browser was confirmed closed, or the release pass came by
      and it was never started. */
  ghost predicate GivenUp(b: Batch, c: Course, key: Key)
    requires Proper(b)
  {
    exists i :: 0 <= i < |b.refs| && GivenUpAt(b, c, key, i)
  }

  ghost predicate AllClosed(c: Course) {
    forall raw :: raw in c.started ==> raw in c.closed
  }

  /** Where each ending leaves the handling of the failure. */
  ghost predicate Reached(attempt: Attempt, b: Batch, c: Course) {
    match attempt
    case Opened => c == Course(b.raws, map[], 0, 0)
    case Interrupted => c.closed == map[] && c.visited == 0 && c.marked == 0
    case Failed(_) => AllClosed(c) && c.visited == |b.refs| && c.marked == |b.refs|
    case CutShort(stage) =>
      match stage
      case Closing => c.visited == 0 && c.marked == 0
      case Releasing => AllClosed(c) && c.marked == 0
      case Quarantining => AllClosed(c) && c.visited == |b.refs|
      case Finishing => AllClosed(c) && c.visited == |b.refs| && c.marked == |b.refs|
  }

  /** The campaign lease is given up last. */
  predicate Settles(attempt: Attempt) {
    attempt.Failed? || attempt == CutShort(Finishing)
  }

  /** Leases outside the batch are as before; within it those given up are gone and the others
      held if they were before, and all of them once a browser was started. */
  ghost predicate LeasesAfter(before: set<Key>, after: set<Key>, b: Batch, c: Course, settled: bool)
    requires Proper(b)
  {
    && (forall key :: key in after ==> key in before || (b.hasFactory && key in BatchKeys(b.refs, b.campaign)))
    && (forall key :: key in after ==> !Surrendered(b, c, settled, key))
    && (forall key :: key in before && !Surrendered(b, c, settled, key) ==> key in after)
    && (b.hasFactory && c.started != [] ==>
         forall key :: key in BatchKeys(b.refs, b.campaign) && !Surrendered(b, c, settled, key) ==> key in after)
  }

  ghost predicate Surrendered(b: Batch, c: Course, settled: bool, key: Key)
    requires Proper(b)
  {
    GivenUp(b, c, key) || (settled && key in CampaignKeys(b.campaign))
  }

  ghost predicate Quarantined(before: map<string, Metadata>, after: map<string, Metadata>, marked: set<string>) {
    && after.Keys == before.Keys
    && forall r :: r in before ==> after[r] == if r in marked then Metadata(false, false) else before[r]
  }

  ghost predicate MineAfter(before: set<string>, after: set<string>, c: Course) {
    forall raw :: raw in after <==> (raw in before || raw in c.started) && !Confirmed(c.closed, raw)
  }

  /** No browser runs that this gateway does not know of, unless it did so before. */
  ghost predicate NoneUnknown(before: View, after: View) {
    forall raw :: raw in after.live && raw !in after.mine ==> raw in before.live && raw !in before.mine
  }

  /** The whole effect of an opening, on every exit. */
  ghost predicate Ran(before: View, after: View, b: Batch, attempt: Attempt, c: Course) {
    && Proper(b) && Fits(b, c) && Reached(attempt, b, c)
    && LeasesAfter(before.leases, after.leases, b, c, Settles(attempt))
    && Quarantined(before.metadata, after.metadata, Marked(b, c))
    && MineAfter(before.mine, after.mine, c)
    && NoneUnknown(before, after)
  }

  ghost predicate DistinctRaws(rawIds: map<string, string>) {
    forall r, q :: r in rawIds && q in rawIds && r != q ==> rawIds[r] != rawIds[q]
  }

  /** Each of these browsers holds the lease of its profile. */
  ghost predicate GuardedBy(rawIds: map<string, string>, browsers: set<string>, leases: set<Key>) {
    forall ref :: ref in rawIds && rawIds[ref] in browsers ==> ProfileKey(ref) in leases
  }

  ghost predicate Resolved(rawIds: map<string, string>, b: Batch) {
    && |b.refs| == |b.raws|
    && forall i :: 0 <= i < |b.refs| ==> b.refs[i] in rawIds && b.raws[i] == rawIds[b.refs[i]]
  }

  /** The release pass came by no profile whose browser was running before and was not
      started again. */
  ghost predicate SparesRunning(before: set<string>, b: Batch, c: Course)
    requires Proper(b) && Fits(b, c)
  {
    forall i :: 0 <= i < c.visited && b.raws[i] !in c.started ==> b.raws[i] !in before
  }

  function RefsOf(rawToRef: map<string, string>, raws: seq<string>): (refs: seq<string>)
    ensures |refs| == |raws|
  {
    seq(|raws|, i requires 0 <= i < |raws| => if raws[i] in rawToRef then rawToRef[raws[i]] else raws[i])
  }

  /* Small steps of the passes. */

  lemma DistinctPrefix(raws: seq<string>, n: nat)
    requires Distinct(raws) && n <= |raws|
    ensures Distinct(raws[..n])
  {
    forall i, j | 0 <= i < j < n
      ensures raws[..n][i] != raws[..n][j]
    {
      assert raws[i] != raws[j];
    }
  }

  lemma KeysStep(refs: seq<string>, i: nat)
    requires i < |refs|
    ensures Keys(ToSet(refs[..i + 1])) == Keys(ToSet(refs[..i])) + {ProfileKey(refs[i])}
    ensures Keys(ToSet(refs[..i + 1])) <= Keys(ToSet(refs))
  {
    PrefixSet(refs, i);
    assert ToSet(refs[..i + 1]) <= ToSet(refs);
  }

  /** The leases of the first `i` profiles were taken. */
  predicate TakenUpTo(before: set<Key>, after: set<Key>, hasFactory: bool, refs: seq<string>, i: nat)
    requires i <= |refs|
  {
    after == before + if hasFactory then Keys(ToSet(refs[..i])) else {}
  }

  lemma TakenOneMore(before: set<Key>, after: set<Key>, hasFactory: bool, refs: seq<string>, i: nat)
    requires i < |refs| && TakenUpTo(before, after, hasFactory, refs, i)
    ensures TakenUpTo(before, after + (if hasFactory then {ProfileKey(refs[i])} else {}), hasFactory, refs, i + 1)
    ensures before <= after <= before + if hasFactory then Keys(ToSet(refs)) else {}
  {
    KeysStep(refs, i);
  }

  /** The mapping gained at most the batch's entries. */
  ghost predicate Remapped(
    before: map<string, string>, after: map<string, string>, refs: seq<string>, raws: seq<string>)
    requires |refs| == |raws|
  {
    forall raw :: raw in after ==> FromBefore(before, after, raw) || FromBatch(after, refs, raws, raw)
  }

  predicate FromBefore(before: map<string, string>, after: map<string, string>, raw: string) {
    raw in after && raw in before && after[raw] == before[raw]
  }

  ghost predicate FromBatch(after: map<string, string>, refs: seq<string>, raws: seq<string>, raw: string)
    requires |refs| == |raws|
  {
    raw in after && exists i :: 0 <= i < |raws| && raws[i] == raw && after[raw] == refs[i]
  }

  lemma RemappedStep(
    before: map<string, string>, after: map<string, string>, refs: seq<string>, raws: seq<string>, i: nat)
    requires |refs| == |raws| && i < |refs| && Remapped(before, after, refs, raws)
    ensures Remapped(before, after[raws[i] := refs[i]], refs, raws)
  {
    var after' := after[raws[i] := refs[i]];
    forall raw | raw in after'
      ensures FromBefore(before, after', raw) || FromBatch(after', refs, raws, raw)
    {
      if raw != raws[i] {
        assert FromBefore(before, after, raw) || FromBatch(after, refs, raws, raw);
      }
    }
  }

  /** The first `i` profiles are mapped, and nothing else new is. */
  ghost predicate MappedUpTo(
    before: map<string, string>, after: map<string, string>, refs: seq<string>, raws: seq<string>, i: nat)
    requires |refs| == |raws| && i <= |refs|
  {
    Remapped(before, after, refs, raws) && forall j :: 0 <= j < i ==> raws[j] in after && after[raws[j]] == refs[j]
  }

  lemma MappedNext(
    before: map<string, string>, after: map<string, string>, refs: seq<string>, raws: seq<string>, i: nat)
    requires |refs| == |raws| && i < |refs| && Distinct(raws) && MappedUpTo(before, after, refs, raws, i)
    ensures MappedUpTo(before, after[raws[i] := refs[i]], refs, raws, i + 1)
  {
    RemappedStep(before, after, refs, raws, i);
  }

  /** The started raw ids are mapped to their refs. */
  ghost predicate MapsStarted(mapped: map<string, string>, b: Batch, started: seq<string>)
    requires Proper(b)
  {
    forall i :: 0 <= i < |b.refs| && b.raws[i] in started ==> b.raws[i] in mapped && mapped[b.raws[i]] == b.refs[i]
  }

  lemma AllMapped(before: map<string, string>, after: map<string, string>, b: Batch, started: seq<string>)
    requires Proper(b)
    ensures MappedUpTo(before, after, b.refs, b.raws, |b.refs|) ==> MapsStarted(after, b, started)
    ensures MapsStarted(after, b, [])
  {
  }

  lemma RemappedStaysMapped(
    rawIds: map<string, string>, before: map<string, string>, after: map<string, string>, b: Batch)
    requires Resolved(rawIds, b) && Remapped(before, after, b.refs, b.raws)
    ensures MappedBy(rawIds, before) ==> MappedBy(rawIds, after)
  {
    if MappedBy(rawIds, before) {
      forall raw | raw in after
        ensures after[raw] in rawIds && rawIds[after[raw]] == raw
      {
        assert FromBefore(before, after, raw) || FromBatch(after, b.refs, b.raws, raw);
      }
    }
  }

  /** A raw id is mapped only to the ref it belongs to. */
  ghost predicate MappedBy(rawIds: map<string, string>, rawToRef: map<string, string>) {
    forall raw :: raw in rawToRef ==> rawToRef[raw] in rawIds && rawIds[rawToRef[raw]] == raw
  }

  /** Exactly the confirmed browsers are no longer mapped. */
  ghost predicate Forgot(before: map<string, string>, after: map<string, string>, closed: map<string, bool>) {
    && (forall raw :: raw in after <==> raw in before && !Confirmed(closed, raw))
    && forall raw :: raw in after ==> after[raw] == before[raw]
  }

  /** `ever` has an entry for each of `closed`, and forgets no confirmation. */
  ghost predicate Remembers(closed: map<string, bool>, ever: map<string, bool>) {
    closed.Keys == ever.Keys && forall raw :: Confirmed(closed, raw) ==> Confirmed(ever, raw)
  }

  lemma RememberStep(closed: map<string, bool>, ever: map<string, bool>, raw: string, confirmed: bool)
    requires Remembers(closed, ever)
    ensures Remembers(closed[raw := confirmed], ever[raw := confirmed || Confirmed(ever, raw)])
    ensures raw !in closed && ever == closed ==>
      ever[raw := confirmed || Confirmed(ever, raw)] == closed[raw := confirmed]
  {
    var closed', ever' := closed[raw := confirmed], ever[raw := confirmed || Confirmed(ever, raw)];
    forall r | Confirmed(closed', r)
      ensures Confirmed(ever', r)
    {
      if r != raw {
        assert Confirmed(closed, r);
      }
    }
  }

  lemma ReleasedStep(mapped: map<string, string>, closed: map<string, bool>, raw: string, confirmed: bool)
    requires !Confirmed(closed, raw)
    ensures forall key :: Released(mapped, closed[raw := confirmed], key) <==>
      Released(mapped, closed, key) || (confirmed && raw in mapped && key == ProfileKey(mapped[raw]))
  {
    var closed' := closed[raw := confirmed];
    forall key
      ensures Released(mapped, closed', key) <==>
        Released(mapped, closed, key) || (confirmed && raw in mapped && key == ProfileKey(mapped[raw]))
    {
      if Released(mapped, closed, key) {
        var r :| r in mapped && Confirmed(closed, r) && key == ProfileKey(mapped[r]);
        assert Confirmed(closed', r);
      }
      if confirmed && raw in mapped && key == ProfileKey(mapped[raw]) {
        assert Confirmed(closed', raw);
      }
      if Released(mapped, closed', key) {
        var r :| r in mapped && Confirmed(closed', r) && key == ProfileKey(mapped[r]);
        assert r != raw ==> Confirmed(closed, r);
      }
    }
  }

  /** What closing some browsers did to the running ones, the mapping and the leases. */
  ghost predicate ClosingDid(
    mine: set<string>, mine': set<string>, mapped: map<string, string>, mapped': map<string, string>,
    leases: set<Key>, leases': set<Key>, closed: map<string, bool>)
  {
    && (forall raw :: raw in mine' <==> raw in mine && !Confirmed(closed, raw))
    && Forgot(mapped, mapped', closed)
    && forall key :: key in leases' <==> key in leases && !Released(mapped, closed, key)
  }

  lemma ClosingStep(
    mine: set<string>, mine': set<string>, mapped: map<string, string>, mapped': map<string, string>,
    leases: set<Key>, leases': set<Key>, closed: map<string, bool>, raw: string, confirmed: bool)
    requires ClosingDid(mine, mine', mapped, mapped', leases, leases', closed)
    ensures ClosingDid(
      mine, mine' - if confirmed then {raw} else {}, mapped, mapped' - if confirmed then {raw} else {},
      leases, leases' - if confirmed && raw in mapped' then {ProfileKey(mapped'[raw])} else {},
      closed[raw := confirmed || Confirmed(closed, raw)])
  {
    if Confirmed(closed, raw) {
      assert closed[raw := true] == closed;
    } else {
      ReleasedStep(mapped, closed, raw, confirmed);
    }
  }

  /** Where closing stands: what its answer says, and what it did. */
  ghost predicate ClosingStands(
    mine: set<string>, mine': set<string>, mapped: map<string, string>, mapped': map<string, string>,
    leases: set<Key>, leases': set<Key>, closed: map<string, bool>, ever: map<string, bool>, raws: seq<string>, i: nat)
    requires i <= |raws|
  {
    && closed.Keys == ToSet(raws[..i])
    && Remembers(closed, ever) && (Distinct(raws) ==> ever == closed)
    && ClosingDid(mine, mine', mapped, mapped', leases, leases', ever)
  }

  lemma ClosingGoesOn(
    mine: set<string>, mine': set<string>, mapped: map<string, string>, mapped': map<string, string>,
    leases: set<Key>, leases': set<Key>, closed: map<string, bool>, ever: map<string, bool>, raws: seq<string>, i: nat,
    confirmed: bool)
    requires i < |raws|
    requires ClosingStands(mine, mine', mapped, mapped', leases, leases', closed, ever, raws, i)
    ensures
      var raw := raws[i];
      ClosingStands(
        mine, mine' - if confirmed then {raw} else {}, mapped, mapped' - if confirmed then {raw} else {},
        leases, leases' - if confirmed && raw in mapped' then {ProfileKey(mapped'[raw])} else {},
        closed[raw := confirmed], ever[raw := confirmed || Confirmed(ever, raw)], raws, i + 1)
  {
    PrefixSet(raws, i);
    if Distinct(raws) {
      NewInPrefix(raws, i);
    }
    RememberStep(closed, ever, raws[i], confirmed);
    ClosingStep(mine, mine', mapped, mapped', leases, leases', ever, raws[i], confirmed);
  }

  lemma IdleStep(refs: seq<string>, raws: seq<string>, started: seq<string>, closed: map<string, bool>, i: nat)
    requires |refs| == |raws| && i < |refs|
    ensures forall key :: Idle(refs[..i + 1], raws[..i + 1], started, closed, key) <==>
      Idle(refs[..i], raws[..i], started, closed, key) || IdleAt(refs, raws, started, closed, key, i)
  {
    forall key
      ensures Idle(refs[..i + 1], raws[..i + 1], started, closed, key) <==>
        Idle(refs[..i], raws[..i], started, closed, key) || IdleAt(refs, raws, started, closed, key, i)
    {
      if Idle(refs[..i], raws[..i], started, closed, key) {
        var j :| 0 <= j < i && IdleAt(refs[..i], raws[..i], started, closed, key, j);
        assert IdleAt(refs[..i + 1], raws[..i + 1], started, closed, key, j);
      }
      if IdleAt(refs, raws, started, closed, key, i) {
        assert IdleAt(refs[..i + 1], raws[..i + 1], started, closed, key, i);
      }
      if Idle(refs[..i + 1], raws[..i + 1], started, closed, key) {
        var j :| 0 <= j < i + 1 && IdleAt(refs[..i + 1], raws[..i + 1], started, closed, key, j);
        assert j < i ==> IdleAt(refs[..i], raws[..i], started, closed, key, j);
      }
    }
  }

  lemma UnconfirmedStep(refs: seq<string>, raws: seq<string>, closed: map<string, bool>, i: nat)
    requires |refs| == |raws| && i < |refs|
    ensures Unconfirmed(refs[..i + 1], raws[..i + 1], closed) == Unconfirmed(refs[..i], raws[..i], closed)
      + if raws[i] in closed && !closed[raws[i]] then {refs[i]} else {}
  {
  }

  ghost predicate LetGo(b: Batch, c: Course, mapped: map<string, string>, key: Key)
    requires Proper(b) && Fits(b, c)
  {
    || Released(mapped, c.closed, key)
    || Idle(b.refs[..c.visited], b.raws[..c.visited], c.started, c.closed, key)
  }

  /** Closing and releasing give up exactly the leases `GivenUp` speaks of. */
  lemma GivenUpMeans(b: Batch, c: Course, mapped: map<string, string>)
    requires Proper(b) && Fits(b, c)
    requires forall i :: 0 <= i < |b.refs| && b.raws[i] in c.started ==>
      b.raws[i] in mapped && mapped[b.raws[i]] == b.refs[i]
    ensures forall key :: GivenUp(b, c, key) <==> LetGo(b, c, mapped, key)
  {
    forall key
      ensures GivenUp(b, c, key) <==> LetGo(b, c, mapped, key)
    {
      if GivenUp(b, c, key) {
        var i :| 0 <= i < |b.refs| && GivenUpAt(b, c, key, i);
        if Confirmed(c.closed, b.raws[i]) {
          assert b.raws[i] in c.started && mapped[b.raws[i]] == b.refs[i];
        } else {
          assert IdleAt(b.refs[..c.visited], b.raws[..c.visited], c.started, c.closed, key, i);
        }
      }
      if Released(mapped, c.closed, key) {
        var raw :| raw in mapped && Confirmed(c.closed, raw) && key == ProfileKey(mapped[raw]);
        var i := Locate(c.started, raw);
        assert b.raws[i] == raw && GivenUpAt(b, c, key, i);
      }
      if Idle(b.refs[..c.visited], b.raws[..c.visited], c.started, c.closed, key) {
        var i :| 0 <= i < c.visited
          && IdleAt(b.refs[..c.visited], b.raws[..c.visited], c.started, c.closed, key, i);
        assert GivenUpAt(b, c, key, i);
      }
    }
  }

  lemma ResolvedIsProper(rawIds: map<string, string>, b: Batch)
    requires DistinctRaws(rawIds) && Resolved(rawIds, b) && Distinct(b.refs)
    ensures Proper(b)
  {
    forall i, j | 0 <= i < j < |b.raws|
      ensures b.raws[i] != b.raws[j]
    {
      assert b.refs[i] != b.refs[j];
    }
  }

  /** Before anything failed: leases taken, browsers started, nothing given up. */
  lemma NothingGivenUp(before: View, after: View, b: Batch, c: Course)
    requires Proper(b) && c.started <= b.raws && c == Course(c.started, map[], 0, 0)
    requires before.leases <= after.leases
      <= before.leases + if b.hasFactory then BatchKeys(b.refs, b.campaign) else {}
    requires b.hasFactory && c.started != [] ==> after.leases == before.leases + BatchKeys(b.refs, b.campaign)
    requires after.metadata == before.metadata && after.mine == before.mine + ToSet(c.started)
    requires forall raw :: raw in after.live && raw !in before.live ==> raw in c.started
    ensures Ran(before, after, b, Interrupted, c)
    ensures c.started == b.raws ==> Ran(before, after, b, Opened, c)
  {
    assert forall key :: !GivenUp(b, c, key);
    assert Marked(b, c) == {};
  }

  /** Cleaning up after a failed opening, as a whole. */
  lemma CleanedUp(before: View, running: View, after: View, b: Batch, c: Course, attempt: Attempt)
    requires Proper(b) && Fits(b, c) && Reached(attempt, b, c)
    requires Ran(before, running, b, Interrupted, Course(c.started, map[], 0, 0))
    requires forall key :: key in after.leases <==> key in running.leases && !Surrendered(b, c, Settles(attempt), key)
    requires Quarantined(running.metadata, after.metadata, Marked(b, c))
    requires forall raw :: raw in after.mine <==> raw in running.mine && !Confirmed(c.closed, raw)
    requires forall raw :: Confirmed(c.closed, raw) ==> raw !in after.live
    requires after.live <= running.live
    ensures Ran(before, after, b, attempt, c)
  {
    var c0 := Course(c.started, map[], 0, 0);
    assert forall key :: !GivenUp(b, c0, key);
    assert Marked(b, c0) == {};
  }

  lemma AllConfirmed(b: Batch, c: Course)
    requires Proper(b) && Fits(b, c) && AllClosed(c)
    ensures Running(b, c) != {} <==> exists raw :: raw in c.closed && !c.closed[raw]
  {
    if raw :| raw in c.closed && !c.closed[raw] {
      var i := Locate(c.started, raw);
      assert b.raws[i] == raw && b.refs[i] in Running(b, c);
    }
    if r :| r in Running(b, c) {
      var i :| 0 <= i < |b.refs| && b.refs[i] == r && b.raws[i] in c.started && !Confirmed(c.closed, b.raws[i]);
      assert b.raws[i] in c.closed;
    }
  }

  /* What the effect of an opening means. */

  /** Running browsers keep their leases exactly when the release pass spared every profile
      that was running before and was not started again: on every exit. */
  lemma GuardedIff(rawIds: map<string, string>, before: View, after: View, b: Batch, attempt: Attempt, c: Course)
    requires DistinctRaws(rawIds) && Resolved(rawIds, b) && b.hasFactory
    requires Ran(before, after, b, attempt, c) && GuardedBy(rawIds, before.mine, before.leases)
    ensures GuardedBy(rawIds, after.mine, after.leases) <==> SparesRunning(before.mine, b, c)
  {
    if SparesRunning(before.mine, b, c) {
      forall ref | ref in rawIds && rawIds[ref] in after.mine
        ensures ProfileKey(ref) in after.leases
      {
        SparedIsHeld(rawIds, before, after, b, attempt, c, ref);
      }
    } else {
      var i :| 0 <= i < c.visited && b.raws[i] !in c.started && b.raws[i] in before.mine;
      assert GivenUpAt(b, c, ProfileKey(b.refs[i]), i);
      assert GivenUp(b, c, ProfileKey(b.refs[i]));
      assert b.refs[i] in rawIds && rawIds[b.refs[i]] in after.mine;
    }
  }

  lemma SparedIsHeld(
    rawIds: map<string, string>, before: View, after: View, b: Batch, attempt: Attempt, c: Course, ref: string)
    requires DistinctRaws(rawIds) && Resolved(rawIds, b) && b.hasFactory
    requires Ran(before, after, b, attempt, c) && GuardedBy(rawIds, before.mine, before.leases)
    requires SparesRunning(before.mine, b, c) && ref in rawIds && rawIds[ref] in after.mine
    ensures ProfileKey(ref) in after.leases
  {
    var key := ProfileKey(ref);
    forall i | 0 <= i < |b.refs|
      ensures !GivenUpAt(b, c, key, i)
    {
      assert b.raws[i] == rawIds[b.refs[i]];
    }
    assert !Surrendered(b, c, Settles(attempt), key);
    if rawIds[ref] in c.started {
      var i := Locate(c.started, rawIds[ref]);
      assert b.raws[i] == rawIds[ref] && b.refs[i] == ref;
      assert ref in ToSet(b.refs) && key in BatchKeys(b.refs, b.campaign);
    }
  }

  lemma OpeningGuards(rawIds: map<string, string>, before: View, after: View, b: Batch, attempt: Attempt, c: Course)
    requires DistinctRaws(rawIds) && Resolved(rawIds, b) && Ran(before, after, b, attempt, c)
    ensures b.hasFactory && GuardedBy(rawIds, before.mine, before.leases) ==>
      (GuardedBy(rawIds, after.mine, after.leases) <==> SparesRunning(before.mine, b, c))
    ensures (forall r :: r in b.refs && r in rawIds ==> rawIds[r] !in before.mine) ==> SparesRunning(before.mine, b, c)
    ensures before.live <= before.mine ==> after.live <= after.mine
  {
    if b.hasFactory && GuardedBy(rawIds, before.mine, before.leases) {
      GuardedIff(rawIds, before, after, b, attempt, c);
    }
  }

  /** A quarantined profile no longer resolves; after a plain failure every running one is
      quarantined. */
  lemma QuarantineBars(before: View, after: View, b: Batch, attempt: Attempt, c: Course)
    requires Ran(before, after, b, attempt, c)
    ensures attempt.Failed? ==> Marked(b, c) == Running(b, c)
    ensures forall r :: r in Marked(b, c) && r in after.metadata ==> after.metadata[r] == Metadata(false, false)
  {
    if attempt.Failed? {
      assert b.refs[..c.marked] == b.refs && b.raws[..c.marked] == b.raws;
    }
  }

  lemma OtherKeysKept(before: View, after: View, b: Batch, attempt: Attempt, c: Course, key: Key)
    requires Ran(before, after, b, attempt, c) && key !in BatchKeys(b.refs, b.campaign)
    ensures key in after.leases <==> key in before.leases
  {
    forall i | 0 <= i < |b.refs|
      ensures !GivenUpAt(b, c, key, i)
    {
      assert b.refs[i] in ToSet(b.refs);
    }
  }

  /** Success takes every lease of the batch and changes nothing in the store. */
  lemma SuccessHoldsAll(before: View, after: View, b: Batch, c: Course)
    requires Ran(before, after, b, Opened, c) && b.refs != []
    ensures after.leases == before.leases + if b.hasFactory then BatchKeys(b.refs, b.campaign) else {}
    ensures after.metadata == before.metadata && after.mine == before.mine + ToSet(b.raws)
  {
    assert forall key :: !GivenUp(b, c, key);
    assert Marked(b, c) == {};
  }

  /** After a plain failure: of the batch's profile leases exactly those of running browsers
      are held, the campaign lease is not, and every other lease is as before. */
  ghost predicate AfterFailure(before: set<Key>, after: set<Key>, b: Batch, running: set<string>) {
    forall key :: key in after <==>
      && key !in CampaignKeys(b.campaign)
      && if key.ProfileKey? && key.ref in b.refs then key.ref in running && (b.hasFactory || key in before)
         else key in before
  }

  lemma FailureKeepsRunning(before: View, after: View, b: Batch, code: Code, c: Course)
    requires Ran(before, after, b, Failed(code), c)
    ensures AfterFailure(before.leases, after.leases, b, Running(b, c))
    ensures Quarantined(before.metadata, after.metadata, Running(b, c))
  {
    QuarantineBars(before, after, b, Failed(code), c);
    forall key
      ensures GivenUp(b, c, key) <==> key.ProfileKey? && key.ref in b.refs && key.ref !in Running(b, c)
    {
      if key.ProfileKey? && key.ref in b.refs {
        var i := Locate(b.refs, key.ref);
        assert GivenUpAt(b, c, key, i) <==> b.refs[i] !in Running(b, c);
      }
    }
    forall r | r in b.refs
      ensures ProfileKey(r) in BatchKeys(b.refs, b.campaign)
    {
      assert r in ToSet(b.refs);
    }
  }

  /** What is lost when the handling of a failure is itself cut short: every running browser
      still holds its lease, but those not reached by the quarantine pass still resolve, and
      the campaign lease is still held unless only its own release was cancelled. */
  lemma WhatACutLeaves(before: View, after: View, b: Batch, stage: Stage, c: Course)
    requires Ran(before, after, b, CutShort(stage), c) && b.hasFactory && c.started != []
    ensures forall r :: r in Running(b, c) ==> ProfileKey(r) in after.leases
    ensures stage != Finishing ==> CampaignKeys(b.campaign) <= after.leases
    ensures stage == Finishing ==> CampaignKeys(b.campaign) !! after.leases && Marked(b, c) == Running(b, c)
    ensures stage == Closing || stage == Releasing ==> Marked(b, c) == {} && after.metadata == before.metadata
    ensures Marked(b, c) <= Running(b, c)
    ensures forall i :: 0 <= i < |b.refs| && b.refs[i] in Running(b, c) && b.raws[i] in c.closed ==>
      (b.refs[i] in Marked(b, c) <==> i < c.marked)
    ensures forall r :: r in Running(b, c) - Marked(b, c) && r in before.metadata ==>
      r in after.metadata && after.metadata[r] == before.metadata[r]
  {
    forall r | r in Running(b, c)
      ensures ProfileKey(r) in after.leases
    {
      RunningIsHeld(before, after, b, stage, c, r);
    }
    if stage == Finishing {
      assert b.refs[..c.marked] == b.refs && b.raws[..c.marked] == b.raws;
    }
    forall key | key in CampaignKeys(b.campaign)
      ensures !GivenUp(b, c, key)
    {
    }
    MarkedAre(b, c);
  }

  lemma MarkedAre(b: Batch, c: Course)
    requires Proper(b) && Fits(b, c)
    ensures Marked(b, c) <= Running(b, c)
    ensures forall i :: 0 <= i < |b.refs| && b.refs[i] in Running(b, c) && b.raws[i] in c.closed ==>
      (b.refs[i] in Marked(b, c) <==> i < c.marked)
  {
    forall i | 0 <= i < c.marked && b.refs[i] in Running(b, c) && b.raws[i] in c.closed
      ensures b.refs[i] in Marked(b, c)
    {
      assert b.refs[..c.marked][i] == b.refs[i];
    }
  }

  lemma RunningIsHeld(before: View, after: View, b: Batch, stage: Stage, c: Course, r: string)
    requires Ran(before, after, b, CutShort(stage), c) && b.hasFactory && c.started != []
    requires r in Running(b, c)
    ensures ProfileKey(r) in after.leases
  {
    var key := ProfileKey(r);
    assert r in ToSet(b.refs) && key in BatchKeys(b.refs, b.campaign);
    forall i | 0 <= i < |b.refs|
      ensures !GivenUpAt(b, c, key, i)
    {
    }
  }

  /** Closing on its own never takes a lease from a browser that may be running. */
  lemma ClosingGuards(
    rawIds: map<string, string>, mine: set<string>, mine': set<string>, mapped: map<string, string>,
    mapped': map<string, string>, leases: set<Key>, leases': set<Key>, closed: map<string, bool>)
    requires MappedBy(rawIds, mapped)
    requires ClosingDid(mine, mine', mapped, mapped', leases, leases', closed)
    ensures GuardedBy(rawIds, mine, leases) ==> GuardedBy(rawIds, mine', leases')
  {
  }

  /** A profile the quarantine pass has reached is marked, if its browser is still mapped. */
  lemma MarkedAfterClosing(
    before: map<string, Metadata>, after: map<string, Metadata>, mapped: map<string, string>, raws: seq<string>,
    closed: map<string, bool>, marked: nat)
    requires marked <= |raws| && forall raw :: raw in raws ==> raw in closed
    requires forall raw :: raw in mapped ==> !Confirmed(closed, raw)
    requires Quarantined(before, after, Unconfirmed(RefsOf(mapped, raws)[..marked], raws[..marked], closed))
    ensures forall i :: 0 <= i < marked && raws[i] in mapped && mapped[raws[i]] in after ==>
      after[mapped[raws[i]]] == Metadata(false, false)
  {
    var refs := RefsOf(mapped, raws);
    forall i | 0 <= i < marked && raws[i] in mapped && mapped[raws[i]] in after
      ensures after[mapped[raws[i]]] == Metadata(false, false)
    {
      assert raws[i] in closed && !closed[raws[i]] && refs[i] == mapped[raws[i]];
      assert refs[..marked][i] in Unconfirmed(refs[..marked], raws[..marked], closed);
    }
  }

  /* The check before the call. */

  /** A profile of the batch has a browser of this gateway that may be running. */
  ghost predicate RunningBefore(before: View, b: Batch) {
    exists raw :: raw in b.raws && raw in before.mine
  }

  lemma RunningBeforeMeans(rawIds: map<string, string>, before: View, b: Batch)
    requires Resolved(rawIds, b)
    ensures RunningBefore(before, b) <==> exists r :: r in b.refs && r in rawIds && rawIds[r] in before.mine
  {
    if RunningBefore(before, b) {
      var raw :| raw in b.raws && raw in before.mine;
      var i := Locate(b.raws, raw);
      assert b.refs[i] in b.refs;
    }
    if r :| r in b.refs && r in rawIds && rawIds[r] in before.mine {
      var i := Locate(b.refs, r);
      assert b.raws[i] in b.raws;
    }
  }

  /** Every exit an opening of this batch can take leaves running browsers their leases. */
  ghost predicate AlwaysGuards(rawIds: map<string, string>, before: View, b: Batch) {
    forall after, attempt, c :: Ran(before, after, b, attempt, c) ==> GuardedBy(rawIds, after.mine, after.leases)
  }

  /** Known before the call: an opening keeps running browsers their leases on every exit
      exactly when it is asked for no profile that may be running. */
  lemma AlwaysGuardsIff(rawIds: map<string, string>, before: View, b: Batch)
    requires DistinctRaws(rawIds) && Resolved(rawIds, b) && Proper(b) && b.hasFactory
    requires GuardedBy(rawIds, before.mine, before.leases)
    ensures AlwaysGuards(rawIds, before, b) <==> !RunningBefore(before, b)
  {
    if RunningBefore(before, b) {
      RefusedReopening(rawIds, before, b);
    } else {
      forall after, attempt, c | Ran(before, after, b, attempt, c)
        ensures GuardedBy(rawIds, after.mine, after.leases)
      {
        assert SparesRunning(before.mine, b, c);
        GuardedIff(rawIds, before, after, b, attempt, c);
      }
    }
  }

  /** What refusing the batch's first lease leads to: nothing was started, and the release pass
      gives up every profile lease of the batch, whoever acquired it. */
  function AfterRefusal(before: View, b: Batch): View {
    before.(leases := before.leases - BatchKeys(b.refs, b.campaign))
  }

  lemma RefusedReopening(rawIds: map<string, string>, before: View, b: Batch)
    requires DistinctRaws(rawIds) && Resolved(rawIds, b) && Proper(b) && b.hasFactory
    ensures Ran(before, AfterRefusal(before, b), b, Failed(ProfileStartFailed), Course([], map[], |b.refs|, |b.refs|))
    ensures RunningBefore(before, b) ==>
      !GuardedBy(rawIds, AfterRefusal(before, b).mine, AfterRefusal(before, b).leases)
  {
    var c := Course([], map[], |b.refs|, |b.refs|);
    forall key
      ensures GivenUp(b, c, key) <==> key.ProfileKey? && key.ref in b.refs
    {
      if key.ProfileKey? && key.ref in b.refs {
        var i := Locate(b.refs, key.ref);
        assert GivenUpAt(b, c, key, i);
      }
    }
    assert forall r :: r in b.refs <==> r in ToSet(b.refs);
    assert Marked(b, c) == {};
    if RunningBefore(before, b) {
      var raw :| raw in b.raws && raw in before.mine;
      var i := Locate(b.raws, raw);
      assert b.refs[i] in rawIds && rawIds[b.refs[i]] == raw && b.refs[i] in ToSet(b.refs);
    }
  }

  /** One instance: opening a profile again while its browser runs. Its lease is refused,
      because every acquisition has its own owner, and the first one is given up. */
  lemma ReopeningLosesTheLease()
    ensures
      var rawIds := map["p" := "x"];
      var b := Batch(["p"], ["x"], None, true);
      var before := View(map["p" := Metadata(true, true)], {ProfileKey("p")}, {"x"}, {"x"});
      var after := before.(leases := {});
      && DistinctRaws(rawIds) && Resolved(rawIds, b) && GuardedBy(rawIds, before.mine, before.leases)
      && Ran(before, after, b, Failed(ProfileStartFailed), Course([], map[], 1, 1))
      && !GuardedBy(rawIds, after.live, after.leases)
  {
    var rawIds := map["p" := "x"];
    var b := Batch(["p"], ["x"], None, true);
    var before := View(map["p" := Metadata(true, true)], {ProfileKey("p")}, {"x"}, {"x"});
    RefusedReopening(rawIds, before, b);
    assert BatchKeys(b.refs, b.campaign) == {ProfileKey("p")};
    assert AfterRefusal(before, b) == before.(leases := {});
    assert "p" in rawIds;
  }
}
