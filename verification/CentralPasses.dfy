/** What a whole scheduler pass achieves: the activation fixpoint, the absence of dependency
    deadlock, and why a considered subtask can stay queued. */
module CentralPasses {
  import opened Sorting
  import opened TaskGraph
  import opened CentralModel
  import opened CentralSafety

  function ActivateAll(rows: seq<string>): (trace: seq<Action>)
    ensures |trace| == |rows| && forall i :: 0 <= i < |rows| ==> trace[i] == Activate(rows[i])
  {
    seq(|rows|, i requires 0 <= i < |rows| => Activate(rows[i]))
  }

  function DispatchAll(rows: seq<string>, now: int): (trace: seq<Action>)
    ensures |trace| == |rows| && forall i :: 0 <= i < |rows| ==> trace[i] == Dispatch(rows[i], now)
  {
    seq(|rows|, i requires 0 <= i < |rows| => Dispatch(rows[i], now))
  }

  lemma RunActivate(s: State, rows: seq<string>, i: nat)
    requires i < |rows|
    ensures Run(s, ActivateAll(rows)[..i + 1]) == StepActivate(Run(s, ActivateAll(rows)[..i]), rows[i])
  {
    RunNext(s, ActivateAll(rows), i);
  }

  lemma RunDispatch(s: State, rows: seq<string>, now: int, i: nat)
    requires i < |rows|
    ensures Run(s, DispatchAll(rows, now)[..i + 1]) == StepDispatch(Run(s, DispatchAll(rows, now)[..i]), rows[i], now)
  {
    RunNext(s, DispatchAll(rows, now), i);
  }

  predicate InScope(s: State, tenant: Option<string>, id: string) {
    id in s.subtasks && (tenant.None? || s.subtasks[id].tenant == tenant.value)
  }

  predicate IsWaiting(s: State, tenant: Option<string>, id: string) {
    InScope(s, tenant, id) && s.subtasks[id].status == Waiting
  }

  function WaitingIds(s: State, tenant: Option<string>): set<string> {
    set id | id in s.subtasks && IsWaiting(s, tenant, id)
  }

  /** The rows a pass reads: the waiting ones in scope, each once, in any order. */
  ghost predicate Lists(s: State, tenant: Option<string>, rows: seq<string>) {
    Distinct(rows) && forall id :: id in rows <==> IsWaiting(s, tenant, id)
  }

  /* What activation steps may have done since `s`. */

  predicate Ready(s: State, id: string) {
    ParentsDelivered(s, id)
  }

  /** A chain of waiting ancestors in scope leads to a failed or cancelled one. */
  ghost predicate DoomedWithin(s: State, tenant: Option<string>, id: string, n: nat)
    decreases n, 1
  {
    IsWaiting(s, tenant, id) && exists p :: p in ParentsOf(s, id) && Dooms(s, tenant, p, n)
  }

  ghost predicate Dooms(s: State, tenant: Option<string>, p: string, n: nat)
    decreases n, 0
  {
    p in s.subtasks && (s.subtasks[p].status in {Failed, Cancelled} || (n > 0 && DoomedWithin(s, tenant, p, n - 1)))
  }

  ghost predicate Doomed(s: State, tenant: Option<string>, id: string) {
    exists n: nat :: DoomedWithin(s, tenant, id, n)
  }

  /** Row `id` of `s'` is row `id` of `s`, moved by activation only. */
  ghost predicate MovedRow(s: State, s': State, tenant: Option<string>, id: string)
    requires id in s.subtasks && id in s'.subtasks
  {
    var row, row' := s.subtasks[id], s'.subtasks[id];
    && row' == row.(
         status := row'.status, revision := row.revision + if row'.status == row.status then 0 else 1)
    && (row' == row
        || (IsWaiting(s, tenant, id) && row'.status == Queued && Ready(s, id))
        || (IsWaiting(s, tenant, id) && row'.status == Failed && Doomed(s, tenant, id)))
  }

  ghost predicate Moved(s: State, s': State, tenant: Option<string>) {
    && s' == s.(subtasks := s'.subtasks) && s'.subtasks.Keys == s.subtasks.Keys
    && forall id :: id in s.subtasks ==> MovedRow(s, s', tenant, id)
  }

  lemma SameGraph(s: State, s': State, id: string)
    requires s'.edges == s.edges
    ensures ParentsOf(s', id) == ParentsOf(s, id)
  {
  }

  lemma DoomedByParent(s: State, tenant: Option<string>, id: string, p: string)
    requires IsWaiting(s, tenant, id) && p in ParentsOf(s, id) && p in s.subtasks
    requires s.subtasks[p].status in {Failed, Cancelled} || Doomed(s, tenant, p)
    ensures Doomed(s, tenant, id)
  {
    if s.subtasks[p].status in {Failed, Cancelled} {
      assert Dooms(s, tenant, p, 0) && DoomedWithin(s, tenant, id, 0);
    } else {
      var n: nat :| DoomedWithin(s, tenant, p, n);
      assert Dooms(s, tenant, p, n + 1) && DoomedWithin(s, tenant, id, n + 1);
    }
  }

  lemma ReadyNotDoomed(s: State, tenant: Option<string>, id: string)
    ensures Ready(s, id) ==> !Doomed(s, tenant, id)
  {
    if Ready(s, id) {
      forall n: nat
        ensures !DoomedWithin(s, tenant, id, n)
      {
        forall p | p in ParentsOf(s, id)
          ensures !Dooms(s, tenant, p, n)
        {
          assert Delivered(s, p);
          assert n > 0 ==> !IsWaiting(s, tenant, p) && !DoomedWithin(s, tenant, p, n - 1);
        }
      }
    }
  }

  /** What activation sees later is what it would have seen at the start. */
  lemma ActivationSince(s: State, s': State, tenant: Option<string>, id: string)
    requires Moved(s, s', tenant) && IsWaiting(s', tenant, id)
    ensures IsWaiting(s, tenant, id)
    ensures Activation(s', id) == Queued ==> Ready(s, id)
    ensures Activation(s', id) == Failed ==> Doomed(s, tenant, id)
  {
    assert MovedRow(s, s', tenant, id);
    SameGraph(s, s', id);
    forall p | p in ParentsOf(s, id) && p in s.subtasks
      ensures Delivered(s', p) ==> Delivered(s, p)
      ensures s'.subtasks[p].status in {Failed, Cancelled} ==> Doomed(s, tenant, id)
    {
      assert MovedRow(s, s', tenant, p);
      if s'.subtasks[p].status in {Failed, Cancelled} {
        DoomedByParent(s, tenant, id, p);
      }
    }
  }

  lemma MovedStep(s: State, s': State, tenant: Option<string>, id: string)
    requires Moved(s, s', tenant) && InScope(s, tenant, id)
    ensures Moved(s, StepActivate(s', id), tenant)
  {
    var s'' := StepActivate(s', id);
    ActivatedRow(s, s', tenant, id);
    forall k | k in s.subtasks && k != id
      ensures MovedRow(s, s'', tenant, k)
    {
      assert MovedRow(s, s', tenant, k) && s''.subtasks[k] == s'.subtasks[k];
    }
  }

  lemma ActivatedRow(s: State, s': State, tenant: Option<string>, id: string)
    requires Moved(s, s', tenant) && InScope(s, tenant, id)
    ensures id in StepActivate(s', id).subtasks && MovedRow(s, StepActivate(s', id), tenant, id)
  {
    assert MovedRow(s, s', tenant, id);
    if s'.subtasks[id].status == Waiting {
      ActivationSince(s, s', tenant, id);
    }
  }

  /** A status activation would give stays the one it would give. */
  lemma ActivationStable(s: State, s': State, tenant: Option<string>, id: string)
    requires Moved(s, s', tenant) && IsWaiting(s, tenant, id) && Activation(s, id) != Waiting
    ensures Activation(s', id) == Activation(s, id)
  {
    SameGraph(s, s', id);
    forall p | p in ParentsOf(s, id) && p in s.subtasks
      ensures Delivered(s, p) ==> Delivered(s', p) && s'.subtasks[p].status == Success
      ensures s.subtasks[p].status in {Failed, Cancelled} ==> s'.subtasks[p].status in {Failed, Cancelled}
    {
      assert MovedRow(s, s', tenant, p);
    }
  }

  /* One pass. */

  lemma MovedReflexive(s: State, tenant: Option<string>)
    ensures Moved(s, s, tenant)
  {
    forall id | id in s.subtasks
      ensures MovedRow(s, s, tenant, id)
    {
    }
  }

  /** A pass over rows in scope only moves rows by activation, also when earlier passes did. */
  lemma {:induction false} PassMoves(s: State, before: State, tenant: Option<string>, rows: seq<string>, n: nat)
    requires Moved(s, before, tenant) && n <= |rows| && forall id :: id in rows ==> InScope(s, tenant, id)
    ensures Moved(s, Run(before, ActivateAll(rows)[..n]), tenant)
  {
    if n == 0 {
      assert Run(before, ActivateAll(rows)[..0]) == before;
    } else {
      var id := rows[n - 1];
      assert id in rows;
      PassMoves(s, before, tenant, rows, n - 1);
      MovedStep(s, Run(before, ActivateAll(rows)[..n - 1]), tenant, id);
      RunActivate(before, rows, n - 1);
    }
  }

  /** A row that could move at the start moves when it is visited. */
  lemma VisitedActs(s: State, s': State, tenant: Option<string>, id: string)
    requires Moved(s, s', tenant) && IsWaiting(s, tenant, id) && Activation(s, id) != Waiting
    ensures id in StepActivate(s', id).subtasks && StepActivate(s', id).subtasks[id].status == Activation(s, id)
  {
    assert MovedRow(s, s', tenant, id);
    if s'.subtasks[id].status == Waiting {
      ActivationStable(s, s', tenant, id);
    } else {
      MovedStatus(s, s', tenant, id);
    }
  }

  lemma SettledStays(s: State, other: string, id: string)
    requires id in s.subtasks && s.subtasks[id].status != Waiting
    ensures id in StepActivate(s, other).subtasks && StepActivate(s, other).subtasks[id] == s.subtasks[id]
  {
  }

  /** A listed row leaves the waiting stage in the pass that could move it at the start. */
  lemma {:induction false} PassActs(s: State, tenant: Option<string>, rows: seq<string>, i: nat, n: nat)
    requires (forall id :: id in rows ==> InScope(s, tenant, id)) && i < n <= |rows|
    requires IsWaiting(s, tenant, rows[i]) && Activation(s, rows[i]) != Waiting
    ensures rows[i] in Run(s, ActivateAll(rows)[..n]).subtasks
    ensures Run(s, ActivateAll(rows)[..n]).subtasks[rows[i]].status == Activation(s, rows[i])
    decreases n
  {
    if i == n - 1 {
      MovedReflexive(s, tenant);
      PassMoves(s, s, tenant, rows, n - 1);
      VisitedActs(s, Run(s, ActivateAll(rows)[..n - 1]), tenant, rows[i]);
    } else {
      PassActs(s, tenant, rows, i, n - 1);
      SettledStays(Run(s, ActivateAll(rows)[..n - 1]), rows[n - 1], rows[i]);
    }
    RunActivate(s, rows, n - 1);
  }

  lemma MovedStatus(s: State, s': State, tenant: Option<string>, id: string)
    requires Moved(s, s', tenant) && IsWaiting(s, tenant, id) && s'.subtasks[id].status != Waiting
    requires Activation(s, id) != Waiting
    ensures s'.subtasks[id].status == Activation(s, id)
  {
    assert MovedRow(s, s', tenant, id);
    if Activation(s, id) == Failed {
      var p :| p in ParentsOf(s, id) && p in s.subtasks && s.subtasks[p].status in {Failed, Cancelled};
    } else {
      ReadyNotDoomed(s, tenant, id);
    }
  }

  ghost predicate Stable(s: State, tenant: Option<string>) {
    forall id :: IsWaiting(s, tenant, id) ==> Activation(s, id) == Waiting
  }

  lemma {:induction false} StablePass(s: State, tenant: Option<string>, rows: seq<string>, n: nat)
    requires Stable(s, tenant) && n <= |rows| && forall id :: id in rows ==> InScope(s, tenant, id)
    ensures Run(s, ActivateAll(rows)[..n]) == s
  {
    if n > 0 {
      StablePass(s, tenant, rows, n - 1);
      var trace := ActivateAll(rows);
      RunActivate(s, rows, n - 1);
      assert rows[n - 1] in rows;
    }
  }

  /** A pass changes nothing exactly when the state is stable; otherwise fewer rows wait. */
  lemma PassProgress(s: State, tenant: Option<string>, rows: seq<string>)
    requires Lists(s, tenant, rows)
    ensures
      var s' := Run(s, ActivateAll(rows));
      && Moved(s, s', tenant)
      && (s' == s <==> Stable(s, tenant))
      && (s' != s ==> |WaitingIds(s', tenant)| < |WaitingIds(s, tenant)|)
  {
    var trace := ActivateAll(rows);
    var s' := Run(s, trace);
    assert trace[..|rows|] == trace;
    MovedReflexive(s, tenant);
    PassMoves(s, s, tenant, rows, |rows|);
    if Stable(s, tenant) {
      StablePass(s, tenant, rows, |rows|);
    } else {
      var id :| IsWaiting(s, tenant, id) && Activation(s, id) != Waiting;
      var i := Locate(rows, id);
      PassActs(s, tenant, rows, i, |rows|);
      FewerWaiting(s, s', tenant, id);
    }
  }

  lemma FewerWaiting(s: State, s': State, tenant: Option<string>, id: string)
    requires Moved(s, s', tenant) && IsWaiting(s, tenant, id) && !IsWaiting(s', tenant, id)
    ensures |WaitingIds(s', tenant)| < |WaitingIds(s, tenant)|
  {
    forall k | k in WaitingIds(s', tenant)
      ensures k in WaitingIds(s, tenant) && k != id
    {
      assert MovedRow(s, s', tenant, k);
    }
    SubsetSize(WaitingIds(s', tenant), WaitingIds(s, tenant) - {id});
  }

  /* Repeated passes. */

  ghost function RunPasses(s: State, passes: seq<seq<string>>): State {
    if passes == [] then s else Run(RunPasses(s, passes[..|passes| - 1]), ActivateAll(passes[|passes| - 1]))
  }

  /** Each pass reads the rows waiting when it starts. */
  ghost predicate Listed(s: State, tenant: Option<string>, passes: seq<seq<string>>) {
    forall i :: 0 <= i < |passes| ==> Lists(RunPasses(s, passes[..i]), tenant, passes[i])
  }

  lemma {:induction false} PassesSettle(s: State, tenant: Option<string>, passes: seq<seq<string>>)
    requires Listed(s, tenant, passes)
    ensures
      var s' := RunPasses(s, passes);
      Moved(s, s', tenant) && (Stable(s', tenant) || |WaitingIds(s', tenant)| + |passes| <= |WaitingIds(s, tenant)|)
  {
    if passes != [] {
      var n := |passes| - 1;
      var front := passes[..n];
      forall i | 0 <= i < |front|
        ensures Lists(RunPasses(s, front[..i]), tenant, front[i])
      {
        assert front[..i] == passes[..i];
      }
      PassesSettle(s, tenant, front);
      var before := RunPasses(s, front);
      PassProgress(before, tenant, passes[n]);
      NextPassMoves(s, before, tenant, passes[n]);
    } else {
      MovedReflexive(s, tenant);
    }
  }

  lemma NextPassMoves(s: State, before: State, tenant: Option<string>, rows: seq<string>)
    requires Moved(s, before, tenant) && Lists(before, tenant, rows)
    ensures Moved(s, Run(before, ActivateAll(rows)), tenant)
  {
    forall id | id in rows
      ensures InScope(s, tenant, id)
    {
      assert IsWaiting(before, tenant, id) && MovedRow(s, before, tenant, id);
    }
    PassMoves(s, before, tenant, rows, |rows|);
    assert ActivateAll(rows)[..|rows|] == ActivateAll(rows);
  }

  /** In a settled state every row that was waiting has exactly the status the start decided. */
  lemma {:induction false} DoomedFails(s: State, s': State, tenant: Option<string>, id: string, n: nat)
    requires Moved(s, s', tenant) && Stable(s', tenant) && DoomedWithin(s, tenant, id, n)
    ensures id in s'.subtasks && s'.subtasks[id].status == Failed
    decreases n
  {
    SameGraph(s, s', id);
    var p :| p in ParentsOf(s, id) && Dooms(s, tenant, p, n);
    assert MovedRow(s, s', tenant, id) && MovedRow(s, s', tenant, p);
    if s.subtasks[p].status !in {Failed, Cancelled} {
      DoomedFails(s, s', tenant, p, n - 1);
    }
    assert ParentFailed(s', id);
    assert Doomed(s, tenant, id);
    ReadyNotDoomed(s, tenant, id);
    assert IsWaiting(s', tenant, id) ==> Activation(s', id) == Waiting;
  }

  ghost predicate Settled(s: State, s': State, tenant: Option<string>, id: string) {
    && id in s.subtasks && id in s'.subtasks
    && if !IsWaiting(s, tenant, id) then s'.subtasks[id] == s.subtasks[id]
       else
         && (s'.subtasks[id].status == Failed <==> Doomed(s, tenant, id))
         && (s'.subtasks[id].status == Queued <==> Ready(s, id))
         && s'.subtasks[id].status in {Waiting, Queued, Failed}
  }

  lemma NoneWaiting(s: State, tenant: Option<string>)
    ensures |WaitingIds(s, tenant)| == 0 ==> Stable(s, tenant)
  {
    if |WaitingIds(s, tenant)| == 0 {
      forall id
        ensures !IsWaiting(s, tenant, id)
      {
        assert id !in WaitingIds(s, tenant);
      }
    }
  }

  /** Passes repeated at least as often as rows wait reach one fixpoint, whatever the row
      orders: doomed rows failed, ready rows queued, the rest waiting, all else untouched. */
  lemma ActivationFixpoint(s: State, tenant: Option<string>, passes: seq<seq<string>>)
    requires Listed(s, tenant, passes) && |passes| >= |WaitingIds(s, tenant)|
    ensures Stable(RunPasses(s, passes), tenant)
    ensures forall id :: id in s.subtasks ==> Settled(s, RunPasses(s, passes), tenant, id)
  {
    var s' := RunPasses(s, passes);
    PassesSettle(s, tenant, passes);
    NoneWaiting(s', tenant);
    forall id | id in s.subtasks
      ensures Settled(s, s', tenant, id)
    {
      assert MovedRow(s, s', tenant, id);
      if IsWaiting(s, tenant, id) {
        if Doomed(s, tenant, id) {
          var n: nat :| DoomedWithin(s, tenant, id, n);
          DoomedFails(s, s', tenant, id, n);
        }
        if Ready(s, id) {
          ReadyNotDoomed(s, tenant, id);
          ReadyActivates(s, s', tenant, id);
        }
      }
    }
  }

  /** The fixpoint is one state, whatever the passes read first. */
  lemma FixpointUnique(s: State, tenant: Option<string>, passes: seq<seq<string>>, passes': seq<seq<string>>)
    requires Listed(s, tenant, passes) && |passes| >= |WaitingIds(s, tenant)|
    requires Listed(s, tenant, passes') && |passes'| >= |WaitingIds(s, tenant)|
    ensures RunPasses(s, passes) == RunPasses(s, passes')
  {
    var p, q := RunPasses(s, passes), RunPasses(s, passes');
    PassesSettle(s, tenant, passes);
    PassesSettle(s, tenant, passes');
    ActivationFixpoint(s, tenant, passes);
    ActivationFixpoint(s, tenant, passes');
    forall id | id in s.subtasks
      ensures p.subtasks[id] == q.subtasks[id]
    {
      assert MovedRow(s, p, tenant, id) && MovedRow(s, q, tenant, id);
      assert Settled(s, p, tenant, id) && Settled(s, q, tenant, id);
    }
    assert p.subtasks == q.subtasks;
  }

  lemma ReadyActivates(s: State, s': State, tenant: Option<string>, id: string)
    requires Moved(s, s', tenant) && Ready(s, id) && IsWaiting(s, tenant, id)
    ensures Activation(s, id) == Queued && Activation(s', id) == Queued
  {
    ActivationStable(s, s', tenant, id);
  }

  /* No dependency deadlock. */

  predicate IsWaitingIn(s: State, task: string, id: string) {
    id in s.subtasks && s.subtasks[id].task == task && s.subtasks[id].status == Waiting
  }

  /** In an acyclic graph some waiting subtask has no waiting parent. */
  lemma SourceOfWaiting(s: State, task: string) returns (id: string)
    requires !HasCycle(s.edges) && exists w :: IsWaitingIn(s, task, w)
    ensures IsWaitingIn(s, task, id) && forall p :: p in ParentsOf(s, id) ==> !IsWaitingIn(s, task, p)
  {
    var waiting := set w | w in s.subtasks && IsWaitingIn(s, task, w);
    var w :| IsWaitingIn(s, task, w);
    assert w in waiting;
    if forall v :: v in waiting ==> HasParentIn(s.edges, waiting, v) {
      ClosedHasCycle(s.edges, waiting);
    }
    id :| id in waiting && !HasParentIn(s.edges, waiting, id);
    forall p | p in ParentsOf(s, id)
      ensures p !in waiting
    {
      assert Edge(p, id) in s.edges;
    }
  }

  /** If everything in a task that is past waiting has been delivered and something waits,
      the next pass over it queues at least one subtask: the task can always go on. */
  lemma NoDependencyDeadlock(s: State, tenant: Option<string>, task: string, rows: seq<string>) returns (id: string)
    requires Safe(s) && Lists(s, tenant, rows)
    requires exists w :: IsWaitingIn(s, task, w)
    requires forall k :: k in s.subtasks && s.subtasks[k].task == task ==>
      if s.subtasks[k].status == Waiting then InScope(s, tenant, k) else Delivered(s, k)
    ensures IsWaitingIn(s, task, id)
    ensures
      var s' := Run(s, ActivateAll(rows));
      id in s'.subtasks && s'.subtasks[id].status == Queued
  {
    id := SourceOfWaiting(s, task);
    forall p | p in ParentsOf(s, id)
      ensures Delivered(s, p)
    {
      assert Edge(p, id) in s.edges && Joins(s, Edge(p, id));
      assert !IsWaitingIn(s, task, p);
    }
    assert IsWaiting(s, tenant, id) && Activation(s, id) == Queued;
    var i := Locate(rows, id);
    assert ActivateAll(rows)[..|rows|] == ActivateAll(rows);
    PassActs(s, tenant, rows, i, |rows|);
  }

  /* Dispatching. */

  /** Why a queued row cannot be dispatched. */
  predicate Blocked(s: State, id: string, now: int)
    requires id in s.subtasks
  {
    var account := EligibleAccount(s, s.subtasks[id]);
    || account.None?
    || Busy(s, id, s.subtasks[id].tenant, account.value.profile)
    || PickDevice(s, s.subtasks[id].tenant, account.value.device, now).None?
  }

  /** `s'` differs from `s` by dispatches: devices and accounts are the same, leases stay. */
  ghost predicate DispatchedSince(s: State, s': State) {
    && s'.accounts == s.accounts && s'.devices == s.devices && s'.config == s.config
    && s'.subtasks.Keys == s.subtasks.Keys
    && forall k :: k in s.subtasks ==> LeaseKept(s.subtasks[k], s'.subtasks[k])
  }

  predicate LeaseKept(row: Subtask, row': Subtask) {
    && row'.tenant == row.tenant && row'.account == row.account && row'.probe == row.probe
    && (Leased(row.status) ==> Leased(row'.status) && row'.profile == row.profile)
    && (row.status != Queued ==> row' == row)
  }

  lemma DispatchedStep(s: State, s': State, id: string, now: int)
    requires DispatchedSince(s, s')
    ensures DispatchedSince(s, StepDispatch(s', id, now))
  {
  }

  lemma StillBlocked(s: State, s': State, id: string, now: int)
    requires DispatchedSince(s, s') && id in s.subtasks && Blocked(s, id, now)
    ensures Blocked(s', id, now)
  {
    var account := EligibleAccount(s, s.subtasks[id]);
    assert LeaseKept(s.subtasks[id], s'.subtasks[id]);
    if account.Some? && Busy(s, id, s.subtasks[id].tenant, account.value.profile) {
      var other :| other in s.subtasks && other != id
        && Holds(s.subtasks[other], s.subtasks[id].tenant, account.value.profile);
      assert LeaseKept(s.subtasks[other], s'.subtasks[other]);
      assert Holds(s'.subtasks[other], s'.subtasks[id].tenant, account.value.profile);
    }
  }

  lemma DispatchOrBlock(s: State, id: string, now: int)
    requires id in s.subtasks && s.subtasks[id].status == Queued
    ensures
      var s' := StepDispatch(s, id, now);
      id in s'.subtasks && (s'.subtasks[id].status == Assigned <==> !Blocked(s, id, now))
      && (s'.subtasks[id].status == Queued <==> Blocked(s, id, now))
  {
  }

  lemma {:induction false} DispatchPass(s: State, rows: seq<string>, now: int, n: nat)
    requires n <= |rows|
    ensures DispatchedSince(s, Run(s, DispatchAll(rows, now)[..n]))
  {
    if n > 0 {
      DispatchPass(s, rows, now, n - 1);
      var trace := DispatchAll(rows, now);
      RunDispatch(s, rows, now, n - 1);
      DispatchedStep(s, Run(s, trace[..n - 1]), rows[n - 1], now);
    }
  }

  lemma BlockedStep(s: State, target: string, id: string, now: int)
    requires id in s.subtasks
    requires target != id && s.subtasks[id].status == Queued ==> Blocked(s, id, now)
    ensures
      var s' := StepDispatch(s, target, now);
      id in s'.subtasks && (s'.subtasks[id].status == Queued ==> Blocked(s', id, now))
  {
    var s' := StepDispatch(s, target, now);
    KeptReflexive(s);
    DispatchedStep(s, s, target, now);
    assert LeaseKept(s.subtasks[id], s'.subtasks[id]);
    if s.subtasks[id].status == Queued {
      DispatchOrBlock(s, id, now);
      if Blocked(s, id, now) {
        StillBlocked(s, s', id, now);
      }
    }
  }

  /** After a dispatch pass, whatever was considered and is still queued is blocked: its
      account does not qualify, its profile is taken, or no device is online. */
  lemma {:induction false} StillQueuedIsBlocked(s: State, rows: seq<string>, now: int, i: nat, n: nat)
    requires i < n <= |rows| && rows[i] in s.subtasks
    ensures rows[i] in Run(s, DispatchAll(rows, now)[..n]).subtasks
    ensures
      var s' := Run(s, DispatchAll(rows, now)[..n]);
      s'.subtasks[rows[i]].status == Queued ==> Blocked(s', rows[i], now)
    decreases n
  {
    if i < n - 1 {
      StillQueuedIsBlocked(s, rows, now, i, n - 1);
    } else {
      DispatchPass(s, rows, now, n - 1);
    }
    BlockedStep(Run(s, DispatchAll(rows, now)[..n - 1]), rows[n - 1], rows[i], now);
    RunDispatch(s, rows, now, n - 1);
  }

  lemma KeptReflexive(s: State)
    ensures DispatchedSince(s, s)
  {
  }
}
