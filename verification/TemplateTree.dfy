/** comment_campaign/allocation.py: checking a template's reply tree and numbering its steps. */
module TemplateTree {
  import opened Sorting
  import opened CampaignModel
  import opened ParentForest
  import opened ExecutionOrders

  datatype Color = Open | Done

  function ParentMap(steps: seq<Step>): Parents<string> {
    map s | s in Ids(steps) :: ParentOf(StepWithId(steps, s))
  }

  function Roots(parents: Parents<string>): set<string> {
    set s | s in parents && parents[s].None?
  }

  /** What a template must satisfy before anything is chosen for it. */
  ghost predicate ValidTree(mode: Mode, steps: seq<Step>, supported: Option<set<Mode>>) {
    && 0 < |steps| <= MAX_STEPS
    && (supported.Some? ==> mode in supported.value)
    && "" !in Ids(steps) && Distinct(Ids(steps))
    && var parents := ParentMap(steps);
      match mode
      case Independent => forall s :: s in parents ==> parents[s].None?
      case Threaded =>
        && KnownParents(parents)
        && |Roots(parents)| == 1
        && Acyclic(parents)
  }

  /** The depth-first walk up the parent pointers. */
  class CycleCheck {
    const parents: Parents<string>
    var colors: map<string, Color>

    constructor (parents: Parents<string>)
      ensures this.parents == parents && colors == map[]
    {
      this.parents, colors := parents, map[];
    }

    ghost function Colored(color: Color): set<string>
      reads this
    {
      set s | s in colors && colors[s] == color
    }

    /** Finished nodes are grounded; open ones lead to one another or to `next`. */
    ghost predicate Consistent(next: string)
      reads this
    {
      && colors.Keys <= parents.Keys
      && (forall s :: s in Colored(Done) ==> ClimbsOut(parents, s))
      && forall s :: s in Colored(Open) ==>
        parents[s].Some? && (parents[s].value in Colored(Open) || parents[s].value == next)
    }

    method Visit(id: string) returns (ok: bool)
      requires id in parents && Consistent(id)
      requires KnownParents(parents)
      modifies this
      ensures ok ==> Consistent(id) && Colored(Open) == old(Colored(Open))
      ensures ok ==> old(Colored(Done)) <= Colored(Done) && id in Colored(Done)
      ensures !ok ==> !Acyclic(parents)
      decreases parents.Keys - colors.Keys
    {
      if id in colors && colors[id] == Open {
        assert id in Colored(Open) && Trapped(parents, Colored(Open));
        AcyclicIffNothingTrapped(parents);
        return false;
      }
      if id in colors && colors[id] == Done {
        return true;
      }
      ghost var before := Colored(Open);
      ghost var done := Colored(Done);
      colors := colors[id := Open];
      assert Colored(Open) == before + {id} && Colored(Done) == done;
      var parent := parents[id];
      assert KnownAt(parents, id);
      if parent.Some? {
        var ok' := Visit(parent.value);
        if !ok' {
          return false;
        }
        ClimbOneMore(parents, id);
      } else {
        assert Grounded(parents, id, 0);
      }
      ghost var finished := Colored(Done);
      colors := colors[id := Done];
      assert Colored(Open) == before && Colored(Done) == finished + {id};
      return true;
    }
  }

  method ValidateTemplateTree(mode: Mode, steps: seq<Step>, supported: Option<set<Mode>>) returns (ok: bool)
    ensures ok <==> ValidTree(mode, steps, supported)
  {
    if |steps| == 0 || |steps| > MAX_STEPS {
      return false;
    }
    if supported.Some? && mode !in supported.value {
      return false;
    }
    var identifiers := Ids(steps);
    NoRepeatsIffDistinct(identifiers);
    if "" in identifiers || !NoRepeats(identifiers) {
      return false;
    }
    var parents := ParentMap(steps);
    var allowed := CheckParents(mode, identifiers, parents);
    if !allowed {
      DisallowedParent(mode, parents);
      return false;
    }
    if mode == Independent {
      return true;
    }
    if |Roots(parents)| != 1 {
      return false;
    }
    ok := CheckAcyclic(identifiers, parents);
  }

  predicate ParentAllowed(mode: Mode, parents: Parents<string>, id: string)
    requires id in parents
  {
    parents[id].None? || (mode == Threaded && parents[id].value in parents && parents[id].value != id)
  }

  method CheckParents(mode: Mode, identifiers: seq<string>, parents: Parents<string>) returns (ok: bool)
    requires parents.Keys == ToSet(identifiers)
    ensures ok <==> forall s :: s in parents ==> ParentAllowed(mode, parents, s)
  {
    for i := 0 to |identifiers|
      invariant forall j :: 0 <= j < i ==> ParentAllowed(mode, parents, identifiers[j])
    {
      var identifier := identifiers[i];
      assert identifier in parents;
      var parent := parents[identifier];
      if parent == Some(identifier) || (parent.Some? && parent.value !in parents) {
        return false;
      }
      if mode == Independent && parent.Some? {
        return false;
      }
    }
    return true;
  }

  method CheckAcyclic(identifiers: seq<string>, parents: Parents<string>) returns (ok: bool)
    requires parents.Keys == ToSet(identifiers)
    requires KnownParents(parents)
    ensures ok <==> Acyclic(parents)
  {
    var check := new CycleCheck(parents);
    for i := 0 to |identifiers|
      invariant check.parents == parents && check.colors.Keys <= parents.Keys && check.Colored(Open) == {}
      invariant forall s :: s in check.Colored(Done) ==> ClimbsOut(parents, s)
      invariant ToSet(identifiers[..i]) <= check.Colored(Done)
    {
      PrefixSet(identifiers, i);
      assert identifiers[i] in ToSet(identifiers);
      var fine := check.Visit(identifiers[i]);
      if !fine {
        return false;
      }
    }
    assert identifiers[..|identifiers|] == identifiers;
    return true;
  }

  lemma DisallowedParent(mode: Mode, parents: Parents<string>)
    ensures (exists id :: id in parents && !ParentAllowed(mode, parents, id)) ==>
      (mode == Independent && exists s :: s in parents && parents[s].Some?)
      || (mode == Threaded && !(KnownParents(parents) && Acyclic(parents)))
  {
    if id :| id in parents && !ParentAllowed(mode, parents, id) {
      assert KnownAt(parents, id) || !KnownParents(parents);
      if parents[id] == Some(id) {
        assert Trapped(parents, {id});
        AcyclicIffNothingTrapped(parents);
      }
    }
  }

  /* Execution positions: layer by layer, each layer in template order. */

  predicate WaitsFor(step: Step, pending: set<string>) {
    step.parent.Some? && step.parent.value in pending
  }

  function Ready(steps: seq<Step>, pending: set<string>): (ids: seq<string>)
    ensures forall id :: id in ids <==>
      exists step :: step in steps && step.id == id && id in pending && !WaitsFor(step, pending)
  {
    if steps == [] then
      []
    else
      assert steps == [steps[0]] + steps[1..];
      (if steps[0].id in pending && !WaitsFor(steps[0], pending) then [steps[0].id] else [])
      + Ready(steps[1..], pending)
  }

  lemma {:induction false} ReadyInOrder(steps: seq<Step>, pending: set<string>)
    requires Distinct(Ids(steps))
    ensures Distinct(Ready(steps, pending))
    ensures forall i, j :: 0 <= i < j < |Ready(steps, pending)| ==>
      IndexOf(Ids(steps), Ready(steps, pending)[i]) < IndexOf(Ids(steps), Ready(steps, pending)[j])
  {
    if steps != [] {
      assert Ids(steps)[1..] == Ids(steps[1..]);
      DistinctTail(Ids(steps));
      ReadyInOrder(steps[1..], pending);
      ReadyAreSteps(steps[1..], pending);
    }
  }

  lemma ReadyAreSteps(steps: seq<Step>, pending: set<string>)
    ensures forall id :: id in Ready(steps, pending) ==> id in Ids(steps)
  {
    forall id | id in Ready(steps, pending)
      ensures id in Ids(steps)
    {
      IdOfMember(steps, id);
    }
  }

  lemma ReadyIffUnblocked(steps: seq<Step>, pending: set<string>, id: string)
    requires "" !in pending && pending <= ToSet(Ids(steps)) && Distinct(Ids(steps))
    ensures id in Ready(steps, pending) <==>
      id in pending && id in ParentMap(steps) && !(ParentMap(steps)[id].Some? && ParentMap(steps)[id].value in pending)
  {
    if id in Ids(steps) {
      var step := StepWithId(steps, id);
      var i := Locate(steps, step);
      IdsAreKeys(steps, i);
      assert WaitsFor(step, pending) <==> ParentOf(step).Some? && ParentOf(step).value in pending;
    } else {
      IdOfMember(steps, id);
    }
  }

  lemma ReadyIsLayer(steps: seq<Step>, depth: map<string, nat>, pending: set<string>, d: nat)
    requires "" !in Ids(steps) && Distinct(Ids(steps))
    requires IsDepth(ParentMap(steps), depth) && KnownParents(ParentMap(steps))
    requires Unscheduled(depth, pending, d)
    ensures forall id :: id in Ready(steps, pending) <==> id in depth && depth[id] == d
    ensures pending != {} ==> Ready(steps, pending) != []
  {
    var parents := ParentMap(steps);
    forall id
      ensures id in Ready(steps, pending) <==> id in depth && depth[id] == d
    {
      ReadyIffUnblocked(steps, pending, id);
      assert KnownAt(parents, id) && (id in parents ==> DepthAt(parents, depth, id));
    }
    if id :| id in pending {
      DepthIsDense(parents, depth, id, d);
      var a :| a in parents && depth[a] == d;
      assert a in Ready(steps, pending);
    }
  }

  lemma NextLayer(steps: seq<Step>, depth: map<string, nat>, pending: set<string>, order: seq<string>, d: nat)
    requires "" !in Ids(steps) && Distinct(Ids(steps))
    requires IsDepth(ParentMap(steps), depth) && KnownParents(ParentMap(steps))
    requires pending != {} && Unscheduled(depth, pending, d)
    requires Scheduled(Ids(steps), depth, order, d)
    ensures Scheduled(Ids(steps), depth, order + Ready(steps, pending), d + 1)
    ensures Distinct(Ready(steps, pending)) && forall id :: id in Ready(steps, pending) ==> id !in order
    ensures Unscheduled(depth, pending - ToSet(Ready(steps, pending)), d + 1)
    ensures |pending - ToSet(Ready(steps, pending))| < |pending|
  {
    ReadyIsLayer(steps, depth, pending, d);
    ReadyInOrder(steps, pending);
    ScheduleLayer(Ids(steps), depth, order, Ready(steps, pending), d);
    LayerShrinks(depth, pending, Ready(steps, pending), d);
  }

  /** The positions number the steps 1..n along `order`, which is an execution order. */
  ghost predicate NumbersAlong(steps: seq<Step>, positions: map<string, int>, order: seq<string>) {
    Numbered(order, positions) && ExecutionOrder(Ids(steps), ParentMap(steps), order)
  }

  /** For every accepted tree the layers run out, and the positions number the steps in
      execution order. */
  method AssignPositions(steps: seq<Step>) returns (positions: map<string, int>)
    requires exists mode :: ValidTree(mode, steps, None)
    ensures exists order :: NumbersAlong(steps, positions, order)
  {
    AcceptedIsAcyclic(steps);
    ghost var depth := DepthExists(ParentMap(steps));
    ghost var order;
    positions, order := NumberLayers(steps, depth);
    assert OrderedBy(Ids(steps), ParentMap(steps), depth, order);
    assert NumbersAlong(steps, positions, order);
  }

  method NumberLayers(steps: seq<Step>, ghost depth: map<string, nat>)
    returns (positions: map<string, int>, ghost order: seq<string>)
    requires "" !in Ids(steps) && Distinct(Ids(steps))
    requires IsDepth(ParentMap(steps), depth) && KnownParents(ParentMap(steps))
    ensures Numbered(order, positions) && OrderedBy(Ids(steps), ParentMap(steps), depth, order)
  {
    positions, order := map[], [];
    var pending := ToSet(Ids(steps));
    ghost var d := 0;
    while pending != {}
      invariant Unscheduled(depth, pending, d)
      invariant Scheduled(Ids(steps), depth, order, d) && Numbered(order, positions)
      decreases |pending|
    {
      var ready := Ready(steps, pending);
      NextLayer(steps, depth, pending, order, d);
      positions := NumberLayer(ready, positions, order);
      order, pending, d := order + ready, pending - ToSet(ready), d + 1;
    }
  }

  lemma AcceptedIsAcyclic(steps: seq<Step>)
    requires exists mode :: ValidTree(mode, steps, None)
    ensures Acyclic(ParentMap(steps)) && "" !in Ids(steps) && Distinct(Ids(steps))
    ensures KnownParents(ParentMap(steps))
  {
    var mode :| ValidTree(mode, steps, None);
    if mode == Independent {
      forall s | s in ParentMap(steps)
        ensures ClimbsOut(ParentMap(steps), s)
      {
        assert Grounded(ParentMap(steps), s, 0);
      }
    }
  }
}
