/** What every run of the central service keeps: dependencies, fencing, profile exclusivity
    and the retry budget. */
module CentralSafety {
  import opened Sorting
  import opened TaskGraph
  import opened CentralModel

  /* The shape of a step: most steps rewrite one row and append to the logs. */

  /** `s'` is `s` with row `id` replaced and the logs extended. */
  ghost predicate RowStep(s: State, s': State, id: string) {
    && id in s.subtasks && id in s'.subtasks
    && s'.subtasks == s.subtasks[id := s'.subtasks[id]]
    && s'.edges == s.edges
    && s.handles <= s'.handles && s.results <= s'.results && s.outbox <= s'.outbox
    && s'.subtasks[id].tenant == s.subtasks[id].tenant && s'.subtasks[id].task == s.subtasks[id].task
    && (s.subtasks[id].status == Success ==> s'.subtasks[id].status == Success)
    && s.subtasks[id].generation <= s'.subtasks[id].generation
  }

  /** Rows, edges and logs are untouched. */
  ghost predicate SameRows(s: State, s': State) {
    && s'.subtasks == s.subtasks && s'.edges == s.edges && s'.handles == s.handles
    && s'.results == s.results && s'.outbox == s.outbox
  }

  /** An edge joins two stored rows of one task. */
  predicate Joins(s: State, e: Edge<string>) {
    && e.parent in s.subtasks && e.child in s.subtasks
    && s.subtasks[e.parent].task == s.subtasks[e.child].task
  }

  /** The step inserted rows and edges between inserted rows. */
  ghost predicate InsertStep(s: State, s': State) {
    && (forall id :: id in s.subtasks ==> id in s'.subtasks && s'.subtasks[id] == s.subtasks[id])
    && s.edges <= s'.edges
    && s'.handles == s.handles && s'.results == s.results && s'.outbox == s.outbox
    && (forall e :: e in s'.edges && e !in s.edges ==>
         e.parent !in s.subtasks && e.child !in s.subtasks && Joins(s', e))
    && (forall id :: id in s'.subtasks && id !in s.subtasks ==> NewRow(s'.subtasks[id]))
    && (forall id :: id in s'.subtasks && id !in s.subtasks && ParentsOf(s', id) != {} ==>
         s'.subtasks[id].status == Waiting)
  }

  /** The three shapes a step may have. */
  ghost predicate Shaped(s: State, s': State, target: Option<string>) {
    || SameRows(s, s')
    || (target.Some? && RowStep(s, s', target.value))
    || (target.None? && InsertStep(s, s'))
  }

  predicate NewRow(row: Subtask) {
    row.status in {Waiting, Queued} && row.generation == 0 && row.attempts == 0
  }

  /** The one subtask a step may rewrite. */
  function Target(a: Action): Option<string> {
    match a
    case Reclaim(id, _) => Some(id)
    case Activate(id) => Some(id)
    case Dispatch(id, _) => Some(id)
    case Submit(_, m) => Some(m.subtask)
    case Renew(_, id, _, _, _) => Some(id)
    case Deliver(_, id, _) => Some(id)
    case Requeue(_, id) => Some(id)
    case Terminate(_, id) => Some(id)
    case _ => None
  }

  /** Steps of the scheduler's own passes; the other row steps answer a call. */
  predicate Internal(a: Action) {
    a.Reclaim? || a.Activate? || a.Dispatch?
  }

  ghost predicate Wired(s: State) {
    forall e :: e in s.edges ==> Joins(s, e)
  }

  lemma NewEdgeEnds(request: TaskRequest, ids: seq<string>, i: nat)
    requires |ids| == |request.accounts| && KnownEdges(request.accounts, request.dependencies)
    requires i < |request.dependencies|
    ensures NewEdges(request, ids)[i].parent in ids && NewEdges(request, ids)[i].child in ids
  {
    assert request.dependencies[i] in request.dependencies;
  }

  lemma NewParents(request: TaskRequest, ids: seq<string>, k: nat, e: Edge<string>)
    requires |ids| == |request.accounts| && Distinct(ids) && KnownEdges(request.accounts, request.dependencies)
    requires k < |ids| && e in NewEdges(request, ids) && e.child == ids[k]
    ensures HasParents(request, request.accounts[k])
  {
    var i := Locate(NewEdges(request, ids), e);
    var dependency := request.dependencies[i];
    assert dependency in request.dependencies;
    var j := Position(request.accounts, dependency.child);
    assert ids[j] == ids[k];
  }

  lemma PositionUnique(xs: seq<string>, i: nat)
    requires Distinct(xs) && i < |xs|
    ensures Position(xs, xs[i]) == i
  {
    var j := Position(xs, xs[i]);
  }

  lemma CreateShape(s: State, request: TaskRequest, ids: seq<string>, created: int)
    requires Wired(s) && Insertable(s, request, ids)
    ensures InsertStep(s, Inserted(s, request, ids, created))
  {
    var s' := Inserted(s, request, ids, created);
    forall e | e in s'.edges && e !in s.edges
      ensures e.parent in ids && e.child in ids && Joins(s', e)
    {
      var i := Locate(NewEdges(request, ids), e);
      NewEdgeEnds(request, ids, i);
      NewRows(request, ids, created);
    }
    forall id | id in ids && ParentsOf(s', id) != {}
      ensures s'.subtasks[id].status == Waiting
    {
      ChildrenWait(s, request, ids, created, id);
    }
    NewRows(request, ids, created);
  }

  lemma NewRows(request: TaskRequest, ids: seq<string>, created: int)
    requires |ids| == |request.accounts|
    ensures forall id :: id in ids ==>
      id in NewSubtasks(request, ids, created) && NewRow(NewSubtasks(request, ids, created)[id])
      && NewSubtasks(request, ids, created)[id].task == request.task
  {
  }

  lemma ChildrenWait(s: State, request: TaskRequest, ids: seq<string>, created: int, id: string)
    requires Wired(s) && Insertable(s, request, ids) && id in ids
    requires ParentsOf(Inserted(s, request, ids, created), id) != {}
    ensures NewSubtasks(request, ids, created)[id].status == Waiting
  {
    var k := Locate(ids, id);
    PositionUnique(ids, k);
    var p :| p in ParentsOf(Inserted(s, request, ids, created), id);
    var e := Edge(p, id);
    assert e !in s.edges by {
      assert Wired(s) && id !in s.subtasks;
    }
    NewParents(request, ids, k, e);
  }

  lemma StepShape(s: State, a: Action)
    requires Wired(s)
    ensures Shaped(s, Step(s, a), Target(a))
  {
    match a
    case Create(request, ids, created) =>
      if Creatable(s, request, ids) {
        CreateShape(s, request, ids, created);
      }
    case Probe(tenant, account, task, id, created) =>
      if Probeable(s, tenant, account, task, id) {
        ProbeShape(s, tenant, account, task, id, created);
      }
    case AccountsChange(_) =>
    case DevicesChange(_) =>
    case _ =>
      if Internal(a) {
        InternalShape(s, a);
      } else {
        ExternalShape(s, a);
      }
  }

  lemma InternalShape(s: State, a: Action)
    requires Internal(a)
    ensures SameRows(s, Step(s, a)) || RowStep(s, Step(s, a), Target(a).value)
  {
  }

  lemma ExternalShape(s: State, a: Action)
    requires Target(a).Some? && !Internal(a)
    ensures SameRows(s, Step(s, a)) || RowStep(s, Step(s, a), Target(a).value)
  {
  }

  lemma ProbeShape(s: State, tenant: string, account: string, task: string, id: string, created: int)
    requires Wired(s) && Probeable(s, tenant, account, task, id)
    ensures InsertStep(s, StepProbe(s, tenant, account, task, id, created))
  {
    var s' := StepProbe(s, tenant, account, task, id, created);
    assert s'.edges == s.edges;
    assert ParentsOf(s', id) == {};
  }

  /* Dependencies: a subtask past the waiting stage has all its parents delivered. */

  predicate Gated(status: Status) {
    status in {Queued, Assigned, Running, DeadLetter, Cancelled}
  }

  ghost predicate ParentsHeld(s: State) {
    forall id :: id in s.subtasks && Gated(s.subtasks[id].status) ==> ParentsDelivered(s, id)
  }

  /** The only way past the gate is through delivered parents. */
  lemma GateEntry(s: State, a: Action, id: string)
    requires Target(a) == Some(id) && id in s.subtasks
    ensures id in Step(s, a).subtasks
    ensures Gated(Step(s, a).subtasks[id].status) ==> Gated(s.subtasks[id].status) || ParentsDelivered(s, id)
  {
  }

  lemma DeliveredStays(s: State, s': State, target: Option<string>, p: string)
    requires Shaped(s, s', target) && Delivered(s, p)
    ensures Delivered(s', p)
  {
  }

  lemma ParentsHeldStep(s: State, a: Action)
    requires Wired(s) && ParentsHeld(s)
    ensures Wired(Step(s, a)) && ParentsHeld(Step(s, a))
  {
    StepShape(s, a);
    if Target(a).Some? && Target(a).value in s.subtasks {
      GateEntry(s, a, Target(a).value);
    }
    ParentsHeldMove(s, Step(s, a), Target(a));
  }

  lemma ParentsHeldMove(s: State, s': State, target: Option<string>)
    requires Wired(s) && ParentsHeld(s) && Shaped(s, s', target)
    requires target.Some? && target.value in s.subtasks && target.value in s'.subtasks ==>
      (Gated(s'.subtasks[target.value].status) ==>
        Gated(s.subtasks[target.value].status) || ParentsDelivered(s, target.value))
    ensures Wired(s') && ParentsHeld(s')
  {
    forall id | id in s'.subtasks && Gated(s'.subtasks[id].status)
      ensures ParentsDelivered(s', id)
    {
      if id in s.subtasks {
        OldParents(s, s', target, id);
        forall p | p in ParentsOf(s', id)
          ensures Delivered(s', p)
        {
          DeliveredStays(s, s', target, p);
        }
      }
    }
  }

  lemma OldParents(s: State, s': State, target: Option<string>, id: string)
    requires Wired(s) && Shaped(s, s', target) && id in s.subtasks
    ensures ParentsOf(s', id) == ParentsOf(s, id)
  {
    forall p
      ensures p in ParentsOf(s', id) <==> p in ParentsOf(s, id)
    {
      if p in ParentsOf(s, id) {
        assert Edge(p, id) in s.edges;
        assert Edge(p, id) in s'.edges;
      }
      if p in ParentsOf(s', id) {
        assert Edge(p, id) in s'.edges;
      }
    }
  }

  /* The dependency graph stays acyclic. */

  lemma OldPartClosed(s: State, s': State, c: set<string>)
    requires Wired(s) && InsertStep(s, s') && BackwardClosed(s'.edges, c)
    ensures BackwardClosed(s.edges, set v | v in c && v in s.subtasks)
  {
    var kept := set v | v in c && v in s.subtasks;
    forall v | v in kept
      ensures HasParentIn(s.edges, kept, v)
    {
      assert HasParentIn(s'.edges, c, v);
      var u :| u in c && Edge(u, v) in s'.edges;
      assert Edge(u, v) in s.edges;
    }
  }

  lemma NewPartClosed(s: State, request: TaskRequest, ids: seq<string>, created: int, c: set<string>)
    requires Wired(s) && Insertable(s, request, ids) && c !! s.subtasks.Keys && c != {}
    requires BackwardClosed(Inserted(s, request, ids, created).edges, c)
    ensures HasCycle(request.dependencies)
  {
    var named := set a | a in request.accounts && IdOf(request, ids, a) in c;
    forall a | a in named
      ensures HasParentIn(request.dependencies, named, a)
    {
      NewEdgeInto(s, request, ids, created, c, IdOf(request, ids, a));
      NamedParent(request, ids, c, named, a);
    }
    var v :| v in c;
    NewEdgeInto(s, request, ids, created, c, v);
    var e :| EdgeInto(request, ids, c, v, e);
    assert e.child in named;
    ClosedHasCycle(request.dependencies, named);
  }

  lemma NamedParent(request: TaskRequest, ids: seq<string>, c: set<string>, named: set<string>, a: string)
    requires |ids| == |request.accounts| && Distinct(ids) && a in request.accounts
    requires forall x :: x in named <==> x in request.accounts && IdOf(request, ids, x) in c
    requires exists e :: EdgeInto(request, ids, c, IdOf(request, ids, a), e)
    ensures HasParentIn(request.dependencies, named, a)
  {
    var e :| EdgeInto(request, ids, c, IdOf(request, ids, a), e);
    assert ids[Position(request.accounts, a)] == ids[Position(request.accounts, e.child)];
    assert e == Edge(e.parent, a);
  }

  ghost predicate EdgeInto(request: TaskRequest, ids: seq<string>, c: set<string>, v: string, e: Edge<string>)
    requires |ids| == |request.accounts|
  {
    && e in request.dependencies && e.parent in request.accounts && e.child in request.accounts
    && IdOf(request, ids, e.child) == v && IdOf(request, ids, e.parent) in c
  }

  lemma NewEdgeInto(s: State, request: TaskRequest, ids: seq<string>, created: int, c: set<string>, v: string)
    requires Wired(s) && Insertable(s, request, ids) && c !! s.subtasks.Keys && v in c
    requires BackwardClosed(Inserted(s, request, ids, created).edges, c)
    ensures exists e :: EdgeInto(request, ids, c, v, e)
  {
    var s' := Inserted(s, request, ids, created);
    assert HasParentIn(s'.edges, c, v);
    var u :| u in c && Edge(u, v) in s'.edges;
    assert s'.edges == s.edges + NewEdges(request, ids);
    assert Edge(u, v) in s.edges ==> Edge(u, v).child in s.subtasks;
    DependencyBehind(request, ids, u, v, c);
  }

  lemma DependencyBehind(request: TaskRequest, ids: seq<string>, u: string, v: string, c: set<string>)
    requires |ids| == |request.accounts| && KnownEdges(request.accounts, request.dependencies)
    requires Edge(u, v) in NewEdges(request, ids) && u in c
    ensures exists e :: EdgeInto(request, ids, c, v, e)
  {
    var i := Locate(NewEdges(request, ids), Edge(u, v));
    assert request.dependencies[i] in request.dependencies;
    assert EdgeInto(request, ids, c, v, request.dependencies[i]);
  }

  lemma CreateCycle(s: State, request: TaskRequest, ids: seq<string>, created: int)
    requires Wired(s) && Insertable(s, request, ids) && HasCycle(Inserted(s, request, ids, created).edges)
    ensures HasCycle(s.edges) || HasCycle(request.dependencies)
  {
    var s' := Inserted(s, request, ids, created);
    CreateShape(s, request, ids, created);
    var walk :| Cycle(s'.edges, walk);
    var c := ToSet(walk);
    CycleIsClosed(s'.edges, walk);
    OldPartClosed(s, s', c);
    var kept := set v | v in c && v in s.subtasks;
    if kept != {} {
      ClosedHasCycle(s.edges, kept);
    } else {
      forall v | v in c
        ensures v !in s.subtasks
      {
        assert v !in kept;
      }
      NewPartClosed(s, request, ids, created, c);
    }
  }

  lemma AcyclicStep(s: State, a: Action)
    requires Wired(s) && !HasCycle(s.edges)
    ensures !HasCycle(Step(s, a).edges)
  {
    StepShape(s, a);
    if a.Create? && Creatable(s, a.request, a.ids) && HasCycle(Step(s, a).edges) {
      CreateCycle(s, a.request, a.ids, a.created);
    }
  }

  /* Fencing: every lease generation is announced once and answered at most once. */

  ghost predicate MessagesFenced(s: State) {
    && (forall i :: 0 <= i < |s.outbox| ==>
         s.outbox[i].subtask in s.subtasks && s.outbox[i].generation <= s.subtasks[s.outbox[i].subtask].generation)
    && forall i, j :: 0 <= i < j < |s.outbox| && s.outbox[i].subtask == s.outbox[j].subtask ==>
         s.outbox[i].generation < s.outbox[j].generation
  }

  ghost predicate ResultsFenced(s: State) {
    && (forall i :: 0 <= i < |s.results| ==>
         s.results[i].subtask in s.subtasks && s.results[i].generation <= s.subtasks[s.results[i].subtask].generation)
    && forall i, j :: 0 <= i < j < |s.results| && s.results[i].subtask == s.results[j].subtask ==>
         s.results[i].generation < s.results[j].generation
  }

  ghost predicate Answered(s: State, id: string, generation: nat) {
    exists i :: 0 <= i < |s.results| && s.results[i].subtask == id && s.results[i].generation == generation
  }

  /** A leased row's generation was announced to its owner and has no result yet. */
  ghost predicate LeaseOpen(s: State, id: string)
    requires id in s.subtasks
  {
    && Assignment(id, s.subtasks[id].generation, s.subtasks[id].owner) in s.outbox
    && !Answered(s, id, s.subtasks[id].generation)
  }

  ghost predicate LeasesOpen(s: State) {
    forall id :: id in s.subtasks && Leased(s.subtasks[id].status) ==> LeaseOpen(s, id)
  }

  ghost predicate Fenced(s: State) {
    MessagesFenced(s) && ResultsFenced(s) && LeasesOpen(s)
  }

  /** Logs grow only on the target row, and only with its newest generation. */
  ghost predicate LogStep(s: State, s': State, id: string)
    requires id in s.subtasks && id in s'.subtasks
  {
    var row, row' := s.subtasks[id], s'.subtasks[id];
    || (s'.outbox == s.outbox && s'.results == s.results
        && (Leased(row'.status) ==> Leased(row.status) && row'.generation == row.generation && row'.owner == row.owner))
    || (s'.outbox == s.outbox + [Assignment(id, row'.generation, row'.owner)] && s'.results == s.results
        && row'.generation > row.generation)
    || (s'.outbox == s.outbox && !Leased(row'.status) && Leased(row.status)
        && exists ok :: s'.results == s.results + [AcceptedResult(id, row.generation, ok)])
  }

  lemma LogShape(s: State, a: Action, id: string)
    requires Target(a) == Some(id) && id in s.subtasks
    ensures id in Step(s, a).subtasks && LogStep(s, Step(s, a), id)
  {
    if Internal(a) {
      InternalLog(s, a, id);
    } else {
      ExternalLog(s, a, id);
    }
  }

  lemma InternalLog(s: State, a: Action, id: string)
    requires Internal(a) && Target(a) == Some(id) && id in s.subtasks
    ensures id in Step(s, a).subtasks && LogStep(s, Step(s, a), id)
  {
  }

  lemma ExternalLog(s: State, a: Action, id: string)
    requires !Internal(a) && Target(a) == Some(id) && id in s.subtasks
    ensures id in Step(s, a).subtasks && LogStep(s, Step(s, a), id)
  {
  }

  lemma FencedRowStep(s: State, s': State, id: string)
    requires Fenced(s) && RowStep(s, s', id) && LogStep(s, s', id)
    ensures Fenced(s')
  {
    var row, row' := s.subtasks[id], s'.subtasks[id];
    forall k | k in s'.subtasks && Leased(s'.subtasks[k].status)
      ensures LeaseOpen(s', k)
    {
      if k != id {
        assert LeaseOpen(s, k);
      } else if s'.outbox != s.outbox {
        assert Assignment(id, row'.generation, row'.owner) in s'.outbox;
      } else {
        assert LeaseOpen(s, id);
      }
    }
  }

  lemma FencedInsert(s: State, s': State)
    requires Fenced(s) && InsertStep(s, s')
    ensures Fenced(s')
  {
    forall k | k in s'.subtasks && Leased(s'.subtasks[k].status)
      ensures LeaseOpen(s', k)
    {
      assert LeaseOpen(s, k);
    }
  }

  lemma FencedStep(s: State, a: Action)
    requires Wired(s) && Fenced(s)
    ensures Fenced(Step(s, a))
  {
    var s' := Step(s, a);
    StepShape(s, a);
    if SameRows(s, s') {
      forall k | k in s'.subtasks && Leased(s'.subtasks[k].status)
        ensures LeaseOpen(s', k)
      {
        assert LeaseOpen(s, k);
      }
    } else if Target(a).Some? {
      LogShape(s, a, Target(a).value);
      FencedRowStep(s, s', Target(a).value);
    } else {
      FencedInsert(s, s');
    }
  }

  /* Profiles: no two leased subtasks of a tenant hold one profile. */

  predicate Collide(a: Subtask, b: Subtask) {
    a.profile != "" && Leased(b.status) && Holds(a, b.tenant, b.profile)
  }

  ghost predicate Exclusive(s: State) {
    forall a, b :: a in s.subtasks && b in s.subtasks && a != b ==> !Collide(s.subtasks[a], s.subtasks[b])
  }

  lemma ProfileEntry(s: State, a: Action, id: string)
    requires Target(a) == Some(id) && id in s.subtasks
    ensures id in Step(s, a).subtasks
    ensures Leased(Step(s, a).subtasks[id].status) ==>
      || (Leased(s.subtasks[id].status) && Step(s, a).subtasks[id].profile == s.subtasks[id].profile)
      || !Busy(s, id, s.subtasks[id].tenant, Step(s, a).subtasks[id].profile)
  {
    if a.Dispatch? {
      DispatchEntry(s, id, a.now);
    } else {
      KeepsProfile(s, a, id);
    }
  }

  lemma DispatchEntry(s: State, id: string, now: int)
    requires id in s.subtasks
    ensures id in StepDispatch(s, id, now).subtasks
    ensures Leased(StepDispatch(s, id, now).subtasks[id].status) ==>
      || (Leased(s.subtasks[id].status) && StepDispatch(s, id, now).subtasks[id] == s.subtasks[id])
      || !Busy(s, id, s.subtasks[id].tenant, StepDispatch(s, id, now).subtasks[id].profile)
  {
  }

  lemma KeepsProfile(s: State, a: Action, id: string)
    requires Target(a) == Some(id) && id in s.subtasks && !a.Dispatch?
    ensures id in Step(s, a).subtasks
    ensures Step(s, a).subtasks[id].profile == s.subtasks[id].profile
    ensures Leased(Step(s, a).subtasks[id].status) ==> Leased(s.subtasks[id].status)
  {
  }

  lemma ExclusiveStep(s: State, a: Action)
    requires Wired(s) && Exclusive(s)
    ensures Exclusive(Step(s, a))
  {
    StepShape(s, a);
    if Target(a).Some? && Target(a).value in s.subtasks {
      ProfileEntry(s, a, Target(a).value);
      if RowStep(s, Step(s, a), Target(a).value) {
        ExclusiveRow(s, Step(s, a), Target(a).value);
      }
    }
  }

  lemma ExclusiveRow(s: State, s': State, id: string)
    requires Exclusive(s) && RowStep(s, s', id)
    requires Leased(s'.subtasks[id].status) ==>
      || (Leased(s.subtasks[id].status) && s'.subtasks[id].profile == s.subtasks[id].profile)
      || !Busy(s, id, s.subtasks[id].tenant, s'.subtasks[id].profile)
    ensures Exclusive(s')
  {
    forall k | k in s.subtasks && k != id && s.subtasks[k].tenant == s.subtasks[id].tenant
               && Leased(s.subtasks[k].status)
      ensures !Collide(s'.subtasks[id], s.subtasks[k]) && !Collide(s.subtasks[k], s'.subtasks[id])
    {
      assert Holds(s.subtasks[k], s.subtasks[id].tenant, s.subtasks[k].profile);
    }
  }

  /* Every run. */

  ghost predicate Safe(s: State) {
    Wired(s) && ParentsHeld(s) && !HasCycle(s.edges) && Fenced(s) && Exclusive(s)
  }

  lemma SafeInitially(s: State)
    requires Initial(s)
    ensures Safe(s)
  {
    forall walk
      ensures !Cycle(s.edges, walk)
    {
      if |walk| >= 2 {
        assert Edge(walk[0], walk[0 + 1]) !in s.edges;
      }
    }
  }

  lemma SafeStep(s: State, a: Action)
    requires Safe(s)
    ensures Safe(Step(s, a))
  {
    ParentsHeldStep(s, a);
    AcyclicStep(s, a);
    FencedStep(s, a);
    ExclusiveStep(s, a);
  }

  /** Safety over every run of the service, from the empty database on. */
  lemma {:induction false} SafeRun(s: State, trace: seq<Action>)
    requires Safe(s)
    ensures Safe(Run(s, trace))
  {
    if trace != [] {
      SafeRun(s, trace[..|trace| - 1]);
      SafeStep(Run(s, trace[..|trace| - 1]), trace[|trace| - 1]);
    }
  }

  lemma {:induction false} RunComposes(s: State, first: seq<Action>, second: seq<Action>)
    ensures Run(s, first + second) == Run(Run(s, first), second)
  {
    if second == [] {
      assert first + second == first;
    } else {
      var n := |second| - 1;
      assert (first + second)[..|first| + n] == first + second[..n];
      RunComposes(s, first, second[..n]);
    }
  }

  /** Along every run a subtask's generation never falls, success is final, and accepted
      results are never lost. */
  lemma {:induction false} RunMonotone(s: State, trace: seq<Action>, id: string)
    requires Safe(s) && id in s.subtasks
    ensures id in Run(s, trace).subtasks
    ensures s.subtasks[id].generation <= Run(s, trace).subtasks[id].generation
    ensures s.subtasks[id].status == Success ==> Run(s, trace).subtasks[id].status == Success
    ensures s.results <= Run(s, trace).results
  {
    if trace != [] {
      var front := trace[..|trace| - 1];
      RunMonotone(s, front, id);
      SafeRun(s, front);
      StepShape(Run(s, front), trace[|trace| - 1]);
    }
  }

  /** Once a generation's result is accepted, no result for it or an earlier generation is
      ever accepted again: replays change nothing, at any later time. */
  lemma ResultAcceptedOnce(
    s: State, tenant: string, m: ResultMessage, trace: seq<Action>, tenant': string, m': ResultMessage)
    requires Safe(s) && Acceptable(s, tenant, m)
    requires m'.subtask == m.subtask && m'.generation <= m.generation
    ensures
      var later := Run(Step(s, Submit(tenant, m)), trace);
      Step(later, Submit(tenant', m')) == later
  {
    var s' := Step(s, Submit(tenant, m));
    var later := Run(s', trace);
    SafeStep(s, Submit(tenant, m));
    SafeRun(s', trace);
    RunMonotone(s', trace, m.subtask);
    assert s'.results[|s.results|] == AcceptedResult(m.subtask, m.generation, m.success);
    assert later.results[|s.results|] == s'.results[|s.results|];
    assert Leased(later.subtasks[m.subtask].status) ==> LeaseOpen(later, m.subtask);
  }

  /** A superseded generation can neither report nor renew, at any later time. */
  lemma StaleGenerationIgnored(
    s: State, trace: seq<Action>, tenant: string, m: ResultMessage, device: string, now: int)
    requires Safe(s) && m.subtask in s.subtasks && m.generation < s.subtasks[m.subtask].generation
    ensures
      var later := Run(s, trace);
      && Step(later, Submit(tenant, m)) == later
      && Step(later, Renew(tenant, m.subtask, device, m.generation, now)) == later
  {
    RunMonotone(s, trace, m.subtask);
  }

  /** A dispatch announces a generation nobody has seen. */
  lemma DispatchIsFresh(s: State, id: string, now: int)
    requires Safe(s) && id in s.subtasks && DispatchTarget(s, id, now).Some?
    ensures
      var s' := Step(s, Dispatch(id, now));
      var message := Assignment(id, s'.subtasks[id].generation, s'.subtasks[id].owner);
      && s'.outbox == s.outbox + [message]
      && (forall i :: 0 <= i < |s.outbox| && s.outbox[i].subtask == id ==> s.outbox[i].generation < message.generation)
      && !Answered(s', id, message.generation)
  {
    SafeStep(s, Dispatch(id, now));
  }

  ghost predicate KeepsStatus(s: State, trace: seq<Action>, id: string)
    requires id in s.subtasks
  {
    id in Run(s, trace).subtasks && Run(s, trace).subtasks[id].status == s.subtasks[id].status
  }

  /** A status is final exactly when it is success: a handle revives every other one. */
  lemma OnlySuccessIsFinal(s: State, id: string)
    requires Safe(s) && id in s.subtasks
    ensures s.subtasks[id].status == Success <==> forall trace :: KeepsStatus(s, trace, id)
  {
    if s.subtasks[id].status == Success {
      forall trace
        ensures KeepsStatus(s, trace, id)
      {
        RunMonotone(s, trace, id);
      }
    } else {
      var revive := [Deliver(s.subtasks[id].tenant, id, false)];
      assert Run(s, revive[..0]) == s;
      assert !KeepsStatus(s, revive, id);
    }
  }

  /* The retry budget. */

  datatype Kind = Dispatching | Reclaiming | Retrying | Requeueing | Other

  /** What a step does to one subtask. */
  ghost function KindOf(s: State, a: Action, id: string): Kind {
    if Target(a) != Some(id) || id !in s.subtasks then Other
    else match a
      case Dispatch(_, now) => if DispatchTarget(s, id, now).Some? then Dispatching else Other
      case Reclaim(_, now) => if Stale(s, s.subtasks[id], now) then Reclaiming else Other
      case Submit(tenant, m) => if Acceptable(s, tenant, m) && Retries(s.subtasks[id], m) then Retrying else Other
      case Requeue(tenant, _) => if InDeadLetter(s, tenant, id) then Requeueing else Other
      case _ => Other
  }

  ghost function Count(s: State, trace: seq<Action>, id: string, kind: Kind): nat {
    if trace == [] then 0
    else
      var front := trace[..|trace| - 1];
      Count(s, front, id, kind) + if KindOf(Run(s, front), trace[|trace| - 1], id) == kind then 1 else 0
  }

  /** Dispatches since the last human requeue. */
  ghost function Attempted(s: State, trace: seq<Action>, id: string): nat {
    if trace == [] then 0
    else
      var front := trace[..|trace| - 1];
      NextDispatches(Run(s, front), trace[|trace| - 1], id, Attempted(s, front, id))
  }

  lemma GenerationMove(s: State, a: Action, id: string)
    requires Wired(s) && id in s.subtasks
    ensures id in Step(s, a).subtasks
    ensures Step(s, a).subtasks[id].generation == s.subtasks[id].generation + if KindOf(s, a, id) == Other then 0 else 1
  {
    StepShape(s, a);
  }

  /** A subtask's generation is the number of its dispatches, reclaims, retries and requeues. */
  lemma {:induction false} GenerationCounts(s: State, trace: seq<Action>, id: string)
    requires Initial(s)
    ensures
      var total := Count(s, trace, id, Dispatching) + Count(s, trace, id, Reclaiming)
                   + Count(s, trace, id, Retrying) + Count(s, trace, id, Requeueing);
      if id in Run(s, trace).subtasks then Run(s, trace).subtasks[id].generation == total else total == 0
  {
    if trace != [] {
      var front, last := trace[..|trace| - 1], trace[|trace| - 1];
      GenerationCounts(s, front, id);
      SafeInitially(s);
      SafeRun(s, front);
      StepShape(Run(s, front), last);
      if id in Run(s, front).subtasks {
        GenerationMove(Run(s, front), last, id);
      }
    }
  }

  function Limit(config: Config): int {
    if config.maxRetry > RESULT_RETRIES then config.maxRetry else RESULT_RETRIES
  }

  /** How the dispatch count and the attempt counter move together. */
  predicate WithinBudget(row: Subtask, dispatches: nat, config: Config) {
    match row.status
    case Waiting => dispatches == 0 && row.attempts == 0
    case Queued => dispatches == row.attempts <= Limit(config)
    case Assigned => dispatches == row.attempts + 1 && row.attempts <= Limit(config)
    case Running => dispatches == row.attempts + 1 && row.attempts <= Limit(config)
    case _ => dispatches <= Limit(config) + 1
  }

  ghost function NextDispatches(s: State, a: Action, id: string, dispatches: nat): nat {
    match KindOf(s, a, id)
    case Dispatching => dispatches + 1
    case Requeueing => 0
    case _ => dispatches
  }

  lemma BudgetMove(s: State, a: Action, id: string, dispatches: nat)
    requires Target(a) == Some(id) && id in s.subtasks && WithinBudget(s.subtasks[id], dispatches, s.config)
    ensures id in Step(s, a).subtasks
    ensures WithinBudget(Step(s, a).subtasks[id], NextDispatches(s, a, id, dispatches), s.config)
  {
    if Internal(a) {
      InternalBudget(s, a, id, dispatches);
    } else {
      ExternalBudget(s, a, id, dispatches);
    }
  }

  lemma InternalBudget(s: State, a: Action, id: string, dispatches: nat)
    requires Target(a) == Some(id) && id in s.subtasks && WithinBudget(s.subtasks[id], dispatches, s.config)
    requires Internal(a)
    ensures id in Step(s, a).subtasks
    ensures WithinBudget(Step(s, a).subtasks[id], NextDispatches(s, a, id, dispatches), s.config)
  {
    match a
    case Reclaim(_, _) =>
    case Activate(_) =>
    case Dispatch(_, _) =>
  }

  lemma ExternalBudget(s: State, a: Action, id: string, dispatches: nat)
    requires Target(a) == Some(id) && id in s.subtasks && WithinBudget(s.subtasks[id], dispatches, s.config)
    requires !Internal(a)
    ensures id in Step(s, a).subtasks
    ensures WithinBudget(Step(s, a).subtasks[id], NextDispatches(s, a, id, dispatches), s.config)
  {
    if a.Submit? {
      ResultBudget(s, a.tenant, a.message, dispatches);
    }
  }

  lemma ResultBudget(s: State, tenant: string, m: ResultMessage, dispatches: nat)
    requires m.subtask in s.subtasks && WithinBudget(s.subtasks[m.subtask], dispatches, s.config)
    ensures m.subtask in StepSubmit(s, tenant, m).subtasks
    ensures WithinBudget(StepSubmit(s, tenant, m).subtasks[m.subtask], dispatches, s.config)
  {
  }

  /** One more step keeps a subtask within budget, or adds one that has spent nothing. */
  lemma BudgetStep(s: State, a: Action, id: string, dispatches: nat)
    requires Wired(s)
    requires if id in s.subtasks then WithinBudget(s.subtasks[id], dispatches, s.config) else dispatches == 0
    ensures
      if id in Step(s, a).subtasks
      then WithinBudget(Step(s, a).subtasks[id], NextDispatches(s, a, id, dispatches), s.config)
      else NextDispatches(s, a, id, dispatches) == 0
  {
    if Target(a) == Some(id) && id in s.subtasks {
      BudgetMove(s, a, id, dispatches);
    } else {
      StepShape(s, a);
      OtherRow(s, Step(s, a), Target(a), id);
      assert KindOf(s, a, id) == Other;
    }
  }

  /** A row the step is not aimed at stays as it is, or is new. */
  lemma OtherRow(s: State, s': State, target: Option<string>, id: string)
    requires Shaped(s, s', target) && (target != Some(id) || id !in s.subtasks)
    ensures if id in s.subtasks then id in s'.subtasks && s'.subtasks[id] == s.subtasks[id]
      else id in s'.subtasks ==> NewRow(s'.subtasks[id])
  {
  }

  lemma ConfigFixed(s: State, a: Action)
    ensures Step(s, a).config == s.config
  {
  }

  /** Between two human requeues a subtask is dispatched at most once more than the larger
      of the two retry limits, over every run. */
  lemma {:induction false} RetryBudget(s: State, trace: seq<Action>, id: string)
    requires Initial(s)
    ensures Run(s, trace).config == s.config
    ensures Attempted(s, trace, id) <= Limit(s.config) + 1
    ensures
      if id in Run(s, trace).subtasks then WithinBudget(Run(s, trace).subtasks[id], Attempted(s, trace, id), s.config)
      else Attempted(s, trace, id) == 0
  {
    if trace != [] {
      var front, last := trace[..|trace| - 1], trace[|trace| - 1];
      RetryBudget(s, front, id);
      SafeInitially(s);
      SafeRun(s, front);
      ConfigFixed(Run(s, front), last);
      BudgetStep(Run(s, front), last, id, Attempted(s, front, id));
    }
  }
}
