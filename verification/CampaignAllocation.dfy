/** comment_campaign/allocation.py, `allocate`, and the planning pipeline of
    comment_campaign/service.py that ends in it. */
module CampaignAllocation {
  import opened Sorting
  import opened Bipartite
  import opened CampaignModel
  import opened ParentForest
  import opened ExecutionOrders
  import opened TemplateTree
  import opened ProfileMatching
  import opened ContentFreeze

  datatype Role = Commenter | Owner | Participant

  datatype PlannedAssignment = PlannedAssignment(
    assignmentId: string, stepId: string, profileRef: string, displayProfile: string, role: Role,
    text: string, parentAssignment: Option<string>, position: int)

  datatype PlanError =
    | TemplateRejected
    | ContentRejected(freeze: FreezeError)
    | AllocationRejected(allocation: AllocationError)

  /** The role looks at the raw parent field, so an empty string counts as a parent here. */
  function RoleFor(mode: Mode, parent: Option<string>): Role {
    if mode == Independent then Commenter
    else if parent.None? then Owner
    else Participant
  }

  /** Every step has a text, and no two texts normalise to the same non-empty key. */
  predicate TextsUsable(ids: seq<string>, texts: map<string, Item>, textKey: string -> string) {
    && (forall s :: s in ids ==> s in texts && texts[s].text != "" && textKey(texts[s].text) != "")
    && forall s, t :: s in ids && t in ids && s != t ==> textKey(texts[s].text) != textKey(texts[t].text)
  }

  predicate NoDuplicateTexts(ids: seq<string>, texts: map<string, Item>, textKey: string -> string)
    requires forall s :: s in ids ==> s in texts
  {
    var keys := seq(|ids|, i requires 0 <= i < |ids| => assert ids[i] in ids; textKey(texts[ids[i]].text));
    "" !in keys && NoRepeats(keys)
  }

  lemma DuplicateCheckMeaning(ids: seq<string>, texts: map<string, Item>, textKey: string -> string)
    requires Distinct(ids) && forall s :: s in ids ==> s in texts && texts[s].text != ""
    ensures NoDuplicateTexts(ids, texts, textKey) <==> TextsUsable(ids, texts, textKey)
  {
    var keys := seq(|ids|, i requires 0 <= i < |ids| => assert ids[i] in ids; textKey(texts[ids[i]].text));
    NoRepeatsIffDistinct(keys);
    if NoDuplicateTexts(ids, texts, textKey) {
      forall s | s in ids
        ensures textKey(texts[s].text) != ""
      {
        var i := Locate(ids, s);
        assert keys[i] in keys;
      }
      forall s, t | s in ids && t in ids && s != t
        ensures textKey(texts[s].text) != textKey(texts[t].text)
      {
        var i := Locate(ids, s);
        var j := Locate(ids, t);
        assert keys[i] != keys[j];
      }
    }
    if TextsUsable(ids, texts, textKey) {
      forall i, j | 0 <= i < j < |ids|
        ensures keys[i] != keys[j]
      {
        assert ids[i] in ids && ids[j] in ids;
      }
      forall k | k in keys
        ensures k != ""
      {
        var i := Locate(keys, k);
        assert ids[i] in ids;
      }
    }
  }

  ghost predicate Allocatable(
    mode: Mode, steps: seq<Step>, profiles: seq<Profile>, now: int, texts: map<string, Item>, textKey: string -> string)
  {
    && ValidMatchGraph(steps, profiles)
    && ValidTree(mode, steps, None)
    && Matchable(EligibilityGraph(steps, profiles, now))
    && TextsUsable(Ids(steps), texts, textKey)
  }

  /** One planned row: what it says about its step, given the matching used. */
  predicate RowFor(
    mode: Mode, steps: seq<Step>, texts: map<string, Item>, chosen: map<string, string>,
    assignmentId: string -> string, row: PlannedAssignment)
  {
    && row.stepId in Ids(steps) && row.stepId in texts && row.stepId in chosen
    && var step := StepWithId(steps, row.stepId);
      && row.assignmentId == assignmentId(step.id)
      && row.profileRef == chosen[step.id]
      && row.text == texts[step.id].text
      && row.role == RoleFor(mode, step.parent)
      && row.parentAssignment ==
        if step.parent.Some? && step.parent.value in Ids(steps) then Some(assignmentId(step.parent.value)) else None
  }

  predicate RowsFor(
    mode: Mode, steps: seq<Step>, texts: map<string, Item>, chosen: map<string, string>,
    assignmentId: string -> string, rows: seq<PlannedAssignment>)
  {
    forall i :: 0 <= i < |rows| ==>
      rows[i].position == i + 1 && RowFor(mode, steps, texts, chosen, assignmentId, rows[i])
  }

  function StepIds(rows: seq<PlannedAssignment>): (ids: seq<string>)
    ensures |ids| == |rows| && forall i :: 0 <= i < |rows| ==> ids[i] == rows[i].stepId
  {
    seq(|rows|, i requires 0 <= i < |rows| => rows[i].stepId)
  }

  /** A complete plan: one row per step in execution order, by one eligible matching. */
  ghost predicate PlanUsing(
    mode: Mode, steps: seq<Step>, profiles: seq<Profile>, now: int, texts: map<string, Item>,
    assignmentId: string -> string, rows: seq<PlannedAssignment>, chosen: map<string, string>)
  {
    && Complete(EligibilityGraph(steps, profiles, now), chosen)
    && ExecutionOrder(Ids(steps), ParentMap(steps), StepIds(rows))
    && RowsFor(mode, steps, texts, chosen, assignmentId, rows)
    && Displayed(profiles, rows)
  }

  predicate ShowsItsProfile(profiles: seq<Profile>, row: PlannedAssignment) {
    forall p :: p in profiles && p.ref == row.profileRef ==> row.displayProfile == p.displayName
  }

  predicate Displayed(profiles: seq<Profile>, rows: seq<PlannedAssignment>) {
    forall i :: 0 <= i < |rows| ==> ShowsItsProfile(profiles, rows[i])
  }

  ghost predicate CompletePlan(
    mode: Mode, steps: seq<Step>, profiles: seq<Profile>, now: int, texts: map<string, Item>,
    assignmentId: string -> string, rows: seq<PlannedAssignment>)
  {
    exists chosen :: PlanUsing(mode, steps, profiles, now, texts, assignmentId, rows, chosen)
  }

  ghost function AllocateError(mode: Mode, steps: seq<Step>, profiles: seq<Profile>, now: int): PlanError {
    if !ValidMatchGraph(steps, profiles) then AllocationRejected(MALFORMED)
    else if !ValidTree(mode, steps, None) then TemplateRejected
    else if !Matchable(EligibilityGraph(steps, profiles, now)) then AllocationRejected(FailureFor(steps, profiles, now))
    else AllocationRejected(MALFORMED)
  }

  /** Succeeds exactly on allocatable input, with a complete plan. */
  method Allocate(
    mode: Mode, steps: seq<Step>, profiles: seq<Profile>, now: int, texts: map<string, Item>,
    textKey: string -> string, order: string -> (string, string) -> bool, assignmentId: string -> string)
    returns (r: Result<seq<PlannedAssignment>, PlanError>)
    ensures r.Ok? <==> Allocatable(mode, steps, profiles, now, texts, textKey)
    ensures r.Ok? ==> CompletePlan(mode, steps, profiles, now, texts, assignmentId, r.value)
    ensures r.Err? ==> r.error == AllocateError(mode, steps, profiles, now)
  {
    if !ValidMatchGraph(steps, profiles) {
      return Err(AllocationRejected(MALFORMED));
    }
    var accepted := ValidateTemplateTree(mode, steps, None);
    if !accepted {
      return Err(TemplateRejected);
    }
    var chosen := MatchProfiles(steps, profiles, now, order);
    if chosen.Err? {
      return Err(AllocationRejected(chosen.error));
    }
    r := PlanTexts(mode, steps, profiles, now, texts, textKey, chosen.value, assignmentId);
  }

  /** With the tree and the matching settled, only the texts can still be refused. */
  method PlanTexts(
    mode: Mode, steps: seq<Step>, profiles: seq<Profile>, now: int, texts: map<string, Item>,
    textKey: string -> string, chosen: map<string, string>, assignmentId: string -> string)
    returns (r: Result<seq<PlannedAssignment>, PlanError>)
    requires ValidMatchGraph(steps, profiles) && ValidTree(mode, steps, None)
    requires Complete(EligibilityGraph(steps, profiles, now), chosen)
    ensures r.Ok? <==> TextsUsable(Ids(steps), texts, textKey)
    ensures r.Ok? ==> PlanUsing(mode, steps, profiles, now, texts, assignmentId, r.value, chosen)
    ensures r.Err? ==> r.error == AllocationRejected(MALFORMED)
  {
    if exists s :: s in Ids(steps) && (s !in texts || texts[s].text == "") {
      return Err(AllocationRejected(MALFORMED));
    }
    DuplicateCheckMeaning(Ids(steps), texts, textKey);
    if !NoDuplicateTexts(Ids(steps), texts, textKey) {
      return Err(AllocationRejected(MALFORMED));
    }
    NoRepeatsIffDistinct(Refs(profiles));
    var rows := BuildPlan(mode, steps, profiles, texts, chosen, assignmentId);
    return Ok(rows);
  }

  method BuildPlan(
    mode: Mode, steps: seq<Step>, profiles: seq<Profile>, texts: map<string, Item>, chosen: map<string, string>,
    assignmentId: string -> string)
    returns (rows: seq<PlannedAssignment>)
    requires ValidTree(mode, steps, None)
    requires forall s :: s in Ids(steps) ==> s in texts && s in chosen
    requires Distinct(Refs(profiles))
    ensures ExecutionOrder(Ids(steps), ParentMap(steps), StepIds(rows))
    ensures RowsFor(mode, steps, texts, chosen, assignmentId, rows)
    ensures Displayed(profiles, rows)
  {
    var positions, sorted := OrderSteps(steps);
    rows := PlanRows(mode, steps, profiles, texts, chosen, assignmentId, positions, sorted);
    NumberedRows(mode, steps, texts, chosen, assignmentId, positions, sorted, rows);
    RowsDisplayed(profiles, rows);
  }

  lemma NumberedRows(
    mode: Mode, steps: seq<Step>, texts: map<string, Item>, chosen: map<string, string>, assignmentId: string -> string,
    positions: map<string, int>, sorted: seq<string>, rows: seq<PlannedAssignment>)
    requires Numbered(sorted, positions) && |rows| == |sorted|
    requires forall i :: 0 <= i < |rows| ==>
      rows[i].stepId == sorted[i] && sorted[i] in positions && rows[i].position == positions[sorted[i]]
      && RowFor(mode, steps, texts, chosen, assignmentId, rows[i])
    ensures StepIds(rows) == sorted && RowsFor(mode, steps, texts, chosen, assignmentId, rows)
  {
    assert StepIds(rows) == sorted;
  }

  lemma RowsDisplayed(profiles: seq<Profile>, rows: seq<PlannedAssignment>)
    requires Distinct(Refs(profiles))
    requires forall i :: 0 <= i < |rows| ==>
      rows[i].displayProfile == DisplayName(profiles, rows[i].profileRef, name => name)
    ensures Displayed(profiles, rows)
  {
    forall i | 0 <= i < |rows|
      ensures ShowsItsProfile(profiles, rows[i])
    {
      NameOfProfile(profiles, rows[i].profileRef);
    }
  }

  method OrderSteps(steps: seq<Step>) returns (positions: map<string, int>, sorted: seq<string>)
    requires exists mode :: ValidTree(mode, steps, None)
    ensures ExecutionOrder(Ids(steps), ParentMap(steps), sorted) && Numbered(sorted, positions)
    ensures forall s :: s in sorted ==> s in Ids(steps)
  {
    positions := AssignPositions(steps);
    ghost var sequence :| NumbersAlong(steps, positions, sequence);
    sorted := Sort(Ids(steps), (a, b) => PositionOf(positions, a) < PositionOf(positions, b));
    SortedIsSequence(Ids(steps), positions, sequence, ParentMap(steps));
    SameElements(Ids(steps), sorted);
  }

  function PositionOf(positions: map<string, int>, id: string): int {
    if id in positions then positions[id] else 0
  }

  /** Sorting by position reads the execution order back. */
  lemma SortedIsSequence(ids: seq<string>, positions: map<string, int>, sequence: seq<string>, parents: Parents<string>)
    requires Distinct(ids) && parents.Keys == ToSet(ids)
    requires Numbered(sequence, positions) && ExecutionOrder(ids, parents, sequence)
    ensures Sort(ids, (a, b) => PositionOf(positions, a) < PositionOf(positions, b)) == sequence
    ensures forall s :: s in ids ==> s in positions
  {
    var before := (a, b) => PositionOf(positions, a) < PositionOf(positions, b);
    var sorted := Sort(ids, before);
    var depth :| OrderedBy(ids, parents, depth, sequence);
    SameElements(ids, sorted);
    SortKeepsDistinct(ids, before);
    SortOrdered(ids, before);
    SameSize(ids, sequence);
    PositionsIncrease(sorted, sequence, positions, before);
    IncreasingUnique(sorted, sequence, before);
  }

  lemma PositionsIncrease(
    sorted: seq<string>, sequence: seq<string>, positions: map<string, int>, before: (string, string) -> bool)
    requires Numbered(sequence, positions) && Distinct(sequence)
    requires Distinct(sorted) && Ordered(sorted, before) && forall s :: s in sorted <==> s in sequence
    requires forall a, b :: before(a, b) <==> PositionOf(positions, a) < PositionOf(positions, b)
    ensures Increasing(sorted, before) && Increasing(sequence, before)
  {
    NumberingIsBijection(sequence, positions);
    forall i, j | 0 <= i < j < |sorted|
      ensures before(sorted[i], sorted[j])
    {
      assert sorted[i] in sorted && sorted[j] in sorted;
    }
    forall i, j | 0 <= i < j < |sequence|
      ensures before(sequence[i], sequence[j])
    {
      assert sequence[i] in sequence && sequence[j] in sequence;
    }
  }

  function PlanRows(
    mode: Mode, steps: seq<Step>, profiles: seq<Profile>, texts: map<string, Item>, chosen: map<string, string>,
    assignmentId: string -> string, positions: map<string, int>, sorted: seq<string>): (rows: seq<PlannedAssignment>)
    requires forall s :: s in sorted ==> s in Ids(steps) && s in texts && s in chosen && s in positions
    ensures |rows| == |sorted|
    ensures forall i :: 0 <= i < |rows| ==>
      rows[i].stepId == sorted[i] && rows[i].position == positions[sorted[i]]
      && RowFor(mode, steps, texts, chosen, assignmentId, rows[i])
      && rows[i].displayProfile == DisplayName(profiles, rows[i].profileRef, name => name)
  {
    seq(|sorted|, i requires 0 <= i < |sorted| =>
      assert sorted[i] in sorted;
      var step := StepWithId(steps, sorted[i]);
      PlannedAssignment(
        assignmentId(step.id), step.id, chosen[step.id], DisplayName(profiles, chosen[step.id], name => name),
        RoleFor(mode, step.parent), texts[step.id].text,
        if step.parent.Some? && step.parent.value in Ids(steps) then Some(assignmentId(step.parent.value)) else None,
        positions[step.id]))
  }

  lemma {:induction false} NameOfProfile(profiles: seq<Profile>, ref: string)
    requires Distinct(Refs(profiles))
    ensures forall p :: p in profiles && p.ref == ref ==> DisplayName(profiles, ref, name => name) == p.displayName
  {
    if profiles != [] {
      var n := |profiles| - 1;
      assert Refs(profiles)[..n] == Refs(profiles[..n]);
      NameOfProfile(profiles[..n], ref);
      forall p | p in profiles && p.ref == ref && p != profiles[n]
        ensures DisplayName(profiles, ref, name => name) == p.displayName
      {
        var i := Locate(profiles, p);
        assert Refs(profiles)[i] != Refs(profiles)[n] && profiles[..n][i] == p;
      }
    }
  }

  lemma OneRowPerStep(ids: seq<string>, parents: Parents<string>, order: seq<string>)
    requires Distinct(ids) && parents.Keys == ToSet(ids) && ExecutionOrder(ids, parents, order)
    ensures Distinct(order) && |order| == |ids| && forall s :: s in order <==> s in ids
  {
    var depth :| OrderedBy(ids, parents, depth, order);
    assert forall s :: s in order <==> s in ids;
    SameSize(order, ids);
  }

  /** In a complete plan every step has one row, every row its own eligible profile. */
  lemma PlanProperties(
    mode: Mode, steps: seq<Step>, profiles: seq<Profile>, now: int, texts: map<string, Item>,
    assignmentId: string -> string, rows: seq<PlannedAssignment>)
    requires CompletePlan(mode, steps, profiles, now, texts, assignmentId, rows) && Distinct(Ids(steps))
    ensures |rows| == |steps| && Distinct(StepIds(rows)) && forall s :: s in StepIds(rows) <==> s in Ids(steps)
    ensures forall i, j :: 0 <= i < j < |rows| ==> rows[i].profileRef != rows[j].profileRef
    ensures forall i :: 0 <= i < |rows| ==> rows[i].stepId in Ids(steps) && RowIsEligible(steps, profiles, now, rows[i])
    ensures forall i :: 0 <= i < |rows| ==> RowTells(mode, steps, profiles, now, texts, assignmentId, rows[i], i)
  {
    var chosen :| PlanUsing(mode, steps, profiles, now, texts, assignmentId, rows, chosen);
    OneRowPerStep(Ids(steps), ParentMap(steps), StepIds(rows));
    forall i | 0 <= i < |rows|
      ensures rows[i].stepId in Ids(steps) && RowIsEligible(steps, profiles, now, rows[i])
    {
      RowEligible(mode, steps, profiles, now, texts, chosen, assignmentId, rows[i]);
    }
    forall i | 0 <= i < |rows|
      ensures RowTells(mode, steps, profiles, now, texts, assignmentId, rows[i], i)
    {
      RowToldInFields(mode, steps, profiles, now, texts, chosen, assignmentId, rows[i], i);
    }
    EachItsOwnProfile(mode, steps, texts, chosen, assignmentId, rows);
  }

  /** The row is that of a step and a suitable profile: it carries their names, the step's text,
      its own place, and the role the mode and the step's parent field give it. */
  ghost predicate RowTells(
    mode: Mode, steps: seq<Step>, profiles: seq<Profile>, now: int, texts: map<string, Item>,
    assignmentId: string -> string, row: PlannedAssignment, i: nat)
  {
    exists step, p :: RowOf(mode, steps, profiles, now, texts, assignmentId, row, i, step, p)
  }

  ghost predicate RowOf(
    mode: Mode, steps: seq<Step>, profiles: seq<Profile>, now: int, texts: map<string, Item>,
    assignmentId: string -> string, row: PlannedAssignment, i: nat, step: Step, p: Profile)
  {
    && step in steps && p in profiles && Suits(step, p, now) && step.id in texts
    && row.stepId == step.id && row.assignmentId == assignmentId(step.id) && row.position == i + 1
    && row.profileRef == p.ref && row.displayProfile == p.displayName && row.text == texts[step.id].text
    && (row.role == Commenter <==> mode == Independent)
    && (row.role == Owner <==> mode == Threaded && step.parent.None?)
  }

  lemma RowToldInFields(
    mode: Mode, steps: seq<Step>, profiles: seq<Profile>, now: int, texts: map<string, Item>,
    chosen: map<string, string>, assignmentId: string -> string, row: PlannedAssignment, i: nat)
    requires Distinct(Ids(steps)) && Complete(EligibilityGraph(steps, profiles, now), chosen)
    requires RowFor(mode, steps, texts, chosen, assignmentId, row) && ShowsItsProfile(profiles, row)
    requires row.position == i + 1
    ensures RowTells(mode, steps, profiles, now, texts, assignmentId, row, i)
  {
    RowEligible(mode, steps, profiles, now, texts, chosen, assignmentId, row);
    var step := StepWithId(steps, row.stepId);
    var p :| p in profiles && p.ref == row.profileRef && ProfileMatches(step, p, now);
    SuitsMeansMatches(step, p, now);
    assert RowOf(mode, steps, profiles, now, texts, assignmentId, row, i, step, p);
  }

  lemma EachItsOwnProfile(
    mode: Mode, steps: seq<Step>, texts: map<string, Item>, chosen: map<string, string>, assignmentId: string -> string,
    rows: seq<PlannedAssignment>)
    requires Injective(chosen) && Distinct(StepIds(rows)) && RowsFor(mode, steps, texts, chosen, assignmentId, rows)
    ensures forall i, j :: 0 <= i < j < |rows| ==> rows[i].profileRef != rows[j].profileRef
  {
    forall i, j | 0 <= i < j < |rows|
      ensures rows[i].profileRef != rows[j].profileRef
    {
      DifferentSteps(StepIds(rows), i, j);
      DifferentProfiles(chosen, rows[i].stepId, rows[j].stepId);
    }
  }

  lemma DifferentSteps(ids: seq<string>, i: nat, j: nat)
    requires Distinct(ids) && i < j < |ids|
    ensures ids[i] != ids[j]
  {
  }

  lemma DifferentProfiles(chosen: map<string, string>, s: string, t: string)
    requires Injective(chosen) && s in chosen && t in chosen && s != t
    ensures chosen[s] != chosen[t]
  {
  }

  ghost predicate RowIsEligible(steps: seq<Step>, profiles: seq<Profile>, now: int, row: PlannedAssignment)
    requires row.stepId in Ids(steps)
  {
    exists p :: p in profiles && p.ref == row.profileRef && ProfileMatches(StepWithId(steps, row.stepId), p, now)
  }

  lemma RowEligible(
    mode: Mode, steps: seq<Step>, profiles: seq<Profile>, now: int, texts: map<string, Item>,
    chosen: map<string, string>, assignmentId: string -> string, row: PlannedAssignment)
    requires Distinct(Ids(steps)) && Complete(EligibilityGraph(steps, profiles, now), chosen)
    requires RowFor(mode, steps, texts, chosen, assignmentId, row)
    ensures RowIsEligible(steps, profiles, now, row)
  {
    var id := row.stepId;
    assert chosen[id] in EligibleFor(id, steps, profiles, now);
    var k := Locate(Ids(steps), id);
    IdsAreKeys(steps, k);
    var step, p :|
      step in steps && p in profiles && step.id == id && ProfileMatches(step, p, now) && p.ref == chosen[id];
    assert step == StepWithId(steps, id);
  }

  lemma RowParent(
    mode: Mode, steps: seq<Step>, texts: map<string, Item>, chosen: map<string, string>, assignmentId: string -> string,
    row: PlannedAssignment)
    requires "" !in Ids(steps) && KnownParents(ParentMap(steps))
    requires RowFor(mode, steps, texts, chosen, assignmentId, row)
    ensures row.stepId in ParentMap(steps)
    ensures
      var parent := ParentMap(steps)[row.stepId];
      if parent.None? then row.parentAssignment.None?
      else parent.value in ParentMap(steps) && row.parentAssignment == Some(assignmentId(parent.value))
  {
    assert KnownAt(ParentMap(steps), row.stepId);
    assert ParentMap(steps)[row.stepId] == ParentOf(StepWithId(steps, row.stepId));
  }

  /** A reply is planned after the comment it answers, and names that comment's row. */
  lemma RepliesFollowTheirParents(
    mode: Mode, steps: seq<Step>, profiles: seq<Profile>, now: int, texts: map<string, Item>,
    assignmentId: string -> string, rows: seq<PlannedAssignment>, i: nat)
    requires CompletePlan(mode, steps, profiles, now, texts, assignmentId, rows) && ValidTree(mode, steps, None)
    requires i < |rows|
    ensures rows[i].stepId in ParentMap(steps)
    ensures
      var parent := ParentMap(steps)[rows[i].stepId];
      if parent.None? then rows[i].parentAssignment.None?
      else exists j ::
        0 <= j < i && rows[j].stepId == parent.value && rows[i].parentAssignment == Some(rows[j].assignmentId)
  {
    var chosen :| PlanUsing(mode, steps, profiles, now, texts, assignmentId, rows, chosen);
    AcceptedIsAcyclic(steps);
    RowParent(mode, steps, texts, chosen, assignmentId, rows[i]);
    if ParentMap(steps)[rows[i].stepId].Some? {
      var j := ParentListedEarlier(Ids(steps), ParentMap(steps), StepIds(rows), i);
      assert rows[j].assignmentId == assignmentId(rows[j].stepId);
    }
  }

  ghost predicate IsRootStep(steps: seq<Step>, step: Step) {
    step in steps && ParentOf(step).None?
  }

  lemma TheRootStep(steps: seq<Step>) returns (root: Step)
    requires ValidTree(Threaded, steps, None)
    ensures IsRootStep(steps, root) && forall step :: IsRootStep(steps, step) ==> step == root
  {
    AcceptedIsAcyclic(steps);
    var parents := ParentMap(steps);
    var id :| id in Roots(parents);
    assert Roots(parents) == {id} by {
      assert |Roots(parents) - {id}| == 0;
    }
    root := StepWithId(steps, id);
    forall step | IsRootStep(steps, step)
      ensures step == root
    {
      var i := Locate(steps, step);
      IdsAreKeys(steps, i);
      assert Ids(steps)[i] == step.id;
      assert StepWithId(steps, step.id) == step;
      assert step.id in Roots(parents);
    }
  }

  predicate NoOwner(rows: seq<PlannedAssignment>) {
    forall row :: row in rows ==> row.role != Owner
  }

  /** A threaded plan has an owner, and only one, unless its root's parent field is an empty
      string: the tree check reads that as no parent, the role as a reply. */
  lemma OwnerUnlessRootParentIsBlank(
    steps: seq<Step>, profiles: seq<Profile>, now: int, texts: map<string, Item>, assignmentId: string -> string,
    rows: seq<PlannedAssignment>)
    requires CompletePlan(Threaded, steps, profiles, now, texts, assignmentId, rows) && ValidTree(Threaded, steps, None)
    ensures !NoOwner(rows) <==> forall step :: step in steps ==> step.parent != Some("")
    ensures forall i, j :: 0 <= i < |rows| && 0 <= j < |rows| && rows[i].role == rows[j].role == Owner ==> i == j
  {
    var chosen :| PlanUsing(Threaded, steps, profiles, now, texts, assignmentId, rows, chosen);
    AcceptedIsAcyclic(steps);
    OneRowPerStep(Ids(steps), ParentMap(steps), StepIds(rows));
    var root := TheRootStep(steps);
    forall i | 0 <= i < |rows|
      ensures rows[i].role == Owner <==> rows[i].stepId == root.id && root.parent.None?
    {
      OwnerIsRoot(steps, texts, chosen, assignmentId, rows[i], root);
    }
    forall i, j | 0 <= i < j < |rows|
      ensures rows[i].stepId != rows[j].stepId
    {
      DifferentSteps(StepIds(rows), i, j);
    }
    IdOfMember(steps, root.id);
    var k := Locate(StepIds(rows), root.id);
    assert rows[k] in rows;
    if root.parent == Some("") {
      assert root in steps;
    } else {
      forall step | step in steps
        ensures step.parent != Some("")
      {
        assert IsRootStep(steps, step) ==> step == root;
      }
    }
  }

  lemma OwnerIsRoot(
    steps: seq<Step>, texts: map<string, Item>, chosen: map<string, string>, assignmentId: string -> string,
    row: PlannedAssignment, root: Step)
    requires RowFor(Threaded, steps, texts, chosen, assignmentId, row) && Distinct(Ids(steps))
    requires IsRootStep(steps, root) && forall step :: IsRootStep(steps, step) ==> step == root
    ensures row.role == Owner <==> row.stepId == root.id && root.parent.None?
  {
    var step := StepWithId(steps, row.stepId);
    if row.role == Owner {
      assert IsRootStep(steps, step);
    }
    if row.stepId == root.id {
      var i := Locate(steps, root);
      IdsAreKeys(steps, i);
    }
  }

  /** A template as stored: the request schema has already turned an empty parent field into
      an absent one. */
  function Stored(steps: seq<Step>): (stored: seq<Step>)
    ensures |stored| == |steps|
  {
    seq(|steps|, i requires 0 <= i < |steps| => steps[i].(parent := ParentOf(steps[i])))
  }

  lemma StoredIds(steps: seq<Step>)
    ensures Ids(Stored(steps)) == Ids(steps)
  {
  }

  lemma {:induction false} StoredStep(steps: seq<Step>, id: string)
    requires id in Ids(steps)
    ensures Ids(Stored(steps)) == Ids(steps)
    ensures StepWithId(Stored(steps), id) == StepWithId(steps, id).(parent := ParentOf(StepWithId(steps, id)))
  {
    StoredIds(steps);
    if steps[0].id != id {
      assert Ids(steps) == [steps[0].id] + Ids(steps[1..]);
      assert Stored(steps)[1..] == Stored(steps[1..]);
      StoredStep(steps[1..], id);
    }
  }

  /** Storing does not change whether the tree is valid. */
  lemma StoringKeepsTheTree(mode: Mode, steps: seq<Step>, supported: Option<set<Mode>>)
    ensures ValidTree(mode, Stored(steps), supported) <==> ValidTree(mode, steps, supported)
  {
    StoredIds(steps);
    var stored, parents := ParentMap(Stored(steps)), ParentMap(steps);
    forall s | s in parents
      ensures stored[s] == parents[s]
    {
      StoredStep(steps, s);
    }
    assert stored == parents;
  }

  ghost predicate OnlyOwner(rows: seq<PlannedAssignment>, i: nat) {
    && i < |rows| && rows[i].role == Owner
    && forall j :: 0 <= j < |rows| && rows[j].role == Owner ==> j == i
  }

  /** Every threaded plan of a stored template has exactly one owner. */
  lemma StoredPlanHasOneOwner(
    steps: seq<Step>, profiles: seq<Profile>, now: int, texts: map<string, Item>, assignmentId: string -> string,
    rows: seq<PlannedAssignment>)
    requires ValidTree(Threaded, Stored(steps), None)
    requires CompletePlan(Threaded, Stored(steps), profiles, now, texts, assignmentId, rows)
    ensures exists i :: OnlyOwner(rows, i)
  {
    StoredHasNoBlank(steps);
    OneOwner(Stored(steps), profiles, now, texts, assignmentId, rows);
  }

  lemma StoredHasNoBlank(steps: seq<Step>)
    ensures forall step :: step in Stored(steps) ==> step.parent != Some("")
  {
  }

  lemma OneOwner(
    steps: seq<Step>, profiles: seq<Profile>, now: int, texts: map<string, Item>, assignmentId: string -> string,
    rows: seq<PlannedAssignment>)
    requires CompletePlan(Threaded, steps, profiles, now, texts, assignmentId, rows) && ValidTree(Threaded, steps, None)
    requires forall step :: step in steps ==> step.parent != Some("")
    ensures exists i :: OnlyOwner(rows, i)
  {
    OwnerUnlessRootParentIsBlank(steps, profiles, now, texts, assignmentId, rows);
    var row :| row in rows && row.role == Owner;
    var i := Locate(rows, row);
    assert OnlyOwner(rows, i);
  }

  const BLANK_ROOT := Step("a", Some(""), Fixed("hi"), {}, {}, "")
  const READY_PROFILE := Profile("p", "P", true, "healthy", NoCooldown, {}, "")

  /** Only a direct call with unnormalised steps can plan a thread without an owner: one
      step whose parent field is an empty string is enough. */
  lemma BlankRootHasNoOwner(now: int, assignmentId: string -> string)
    ensures Allocatable(Threaded, [BLANK_ROOT], [READY_PROFILE], now, map["a" := Item("", "hi")], key => key)
    ensures forall rows :: BlankRootPlan(now, assignmentId, rows) ==> NoOwner(rows)
  {
    OneStepTree(BLANK_ROOT);
    OneStepMatches(BLANK_ROOT, READY_PROFILE, now);
    OneText(BLANK_ROOT.id, Item("", "hi"), key => key);
    assert Ids([BLANK_ROOT]) == ["a"];
    forall rows | BlankRootPlan(now, assignmentId, rows)
      ensures NoOwner(rows)
    {
      OwnerUnlessRootParentIsBlank([BLANK_ROOT], [READY_PROFILE], now, map["a" := Item("", "hi")], assignmentId, rows);
      assert BLANK_ROOT in [BLANK_ROOT];
    }
  }

  ghost predicate BlankRootPlan(now: int, assignmentId: string -> string, rows: seq<PlannedAssignment>) {
    CompletePlan(Threaded, [BLANK_ROOT], [READY_PROFILE], now, map["a" := Item("", "hi")], assignmentId, rows)
  }

  lemma OneText(id: string, item: Item, textKey: string -> string)
    requires item.text != "" && textKey(item.text) != ""
    ensures TextsUsable([id], map[id := item], textKey)
  {
  }

  lemma OneStepTree(step: Step)
    requires step.id != "" && ParentOf(step).None?
    ensures ValidTree(Threaded, [step], None)
  {
    var parents := ParentMap([step]);
    assert Ids([step]) == [step.id];
    assert parents == map[step.id := None];
    assert Roots(parents) == {step.id};
    forall s | s in parents
      ensures ClimbsOut(parents, s)
    {
      assert Grounded(parents, s, 0);
    }
  }

  lemma OneStepMatches(step: Step, profile: Profile, now: int)
    requires step.id != "" && profile.ref != "" && ProfileMatches(step, profile, now)
    ensures ValidMatchGraph([step], [profile]) && Matchable(EligibilityGraph([step], [profile], now))
  {
    assert Ids([step]) == [step.id] && Refs([profile]) == [profile.ref];
    NoRepeatsIffDistinct(Ids([step]));
    NoRepeatsIffDistinct(Refs([profile]));
    assert step in [step] && profile in [profile];
    assert profile.ref in EligibleFor(step.id, [step], [profile], now);
    assert Complete(EligibilityGraph([step], [profile], now), map[step.id := profile.ref]);
  }

  lemma FrozenTextsUsable(steps: seq<Step>, resolve: Resolver, textKey: string -> string, selected: map<string, Item>)
    requires LibrariesReadable(steps, resolve) && DistinctChoice(CandidateMap(steps, resolve), textKey, selected)
    ensures TextsUsable(Ids(steps), selected, textKey)
  {
    forall s | s in Ids(steps)
      ensures s in selected && selected[s].text != ""
    {
      var step := StepWithId(steps, s);
      assert selected[s] in Options(step, resolve);
      if step.source.Library? {
        var items := resolve(step.source.libraryId).value;
        assert step.source.libraryId in LibraryIds(steps);
        SameElements(items, ById(items));
      }
    }
  }

  ghost predicate Plannable(
    mode: Mode, supported: set<Mode>, steps: seq<Step>, profiles: seq<Profile>, now: int, resolve: Resolver,
    textKey: string -> string)
  {
    && ValidTree(mode, steps, Some(supported))
    && Freezable(steps, resolve, textKey)
    && ValidMatchGraph(steps, profiles) && Matchable(EligibilityGraph(steps, profiles, now))
  }

  /** The first check that fails: the tree, the texts, the profiles. */
  ghost function PlanErrorFor(
    mode: Mode, supported: set<Mode>, steps: seq<Step>, profiles: seq<Profile>, now: int, resolve: Resolver,
    textKey: string -> string): PlanError
  {
    if !ValidTree(mode, steps, Some(supported)) then TemplateRejected
    else if !Freezable(steps, resolve, textKey) then ContentRejected(FreezeErrorFor(steps, resolve))
    else AllocationRejected(
      if ValidMatchGraph(steps, profiles) then FailureFor(steps, profiles, now) else MALFORMED)
  }

  /** Check the tree, freeze the texts, allocate the profiles. Once the tree is accepted and
      the texts are frozen, only the profiles can make planning fail: the duplicate-text
      check of `allocate` never rejects what freezing chose. */
  method PlanCampaign(
    mode: Mode, supported: set<Mode>, steps: seq<Step>, profiles: seq<Profile>, now: int, resolve: Resolver,
    textKey: string -> string, itemOrder: string -> (Item, Item) -> bool, order: string -> (string, string) -> bool,
    assignmentId: string -> string)
    returns (r: Result<seq<PlannedAssignment>, PlanError>)
    ensures r.Ok? <==> Plannable(mode, supported, steps, profiles, now, resolve, textKey)
    ensures r.Ok? ==> exists texts ::
      PlansWith(mode, steps, profiles, now, resolve, textKey, assignmentId, r.value, texts)
    ensures r.Err? ==> r.error == PlanErrorFor(mode, supported, steps, profiles, now, resolve, textKey)
  {
    var accepted := ValidateTemplateTree(mode, steps, Some(supported));
    if !accepted {
      return Err(TemplateRejected);
    }
    var frozen := FreezeTexts(steps, resolve, textKey, itemOrder);
    if frozen.Err? {
      return Err(ContentRejected(frozen.error));
    }
    r := AllocateFrozen(mode, steps, profiles, now, frozen.value, textKey, order, assignmentId);
    if r.Ok? {
      assert PlansWith(mode, steps, profiles, now, resolve, textKey, assignmentId, r.value, frozen.value);
    }
  }

  /** A complete plan that publishes these texts, which are a distinct choice. */
  ghost predicate PlansWith(
    mode: Mode, steps: seq<Step>, profiles: seq<Profile>, now: int, resolve: Resolver, textKey: string -> string,
    assignmentId: string -> string, rows: seq<PlannedAssignment>, texts: map<string, Item>)
  {
    && DistinctChoice(CandidateMap(steps, resolve), textKey, texts)
    && CompletePlan(mode, steps, profiles, now, texts, assignmentId, rows)
  }

  ghost predicate Freezable(steps: seq<Step>, resolve: Resolver, textKey: string -> string) {
    && LibrariesReadable(steps, resolve) && EveryStepHasOptions(steps, resolve)
    && Choosable(CandidateMap(steps, resolve), textKey)
  }

  method FreezeTexts(
    steps: seq<Step>, resolve: Resolver, textKey: string -> string, itemOrder: string -> (Item, Item) -> bool)
    returns (r: Result<map<string, Item>, FreezeError>)
    requires Distinct(Ids(steps))
    ensures r.Ok? <==> Freezable(steps, resolve, textKey)
    ensures r.Ok? ==> DistinctChoice(CandidateMap(steps, resolve), textKey, r.value)
    ensures r.Ok? ==> TextsUsable(Ids(steps), r.value, textKey)
    ensures r.Err? ==> r.error == FreezeErrorFor(steps, resolve)
  {
    r := FreezeContent(steps, resolve, textKey, itemOrder);
    if r.Ok? {
      FrozenTextsUsable(steps, resolve, textKey, r.value);
    }
  }

  /** With the tree accepted and the texts frozen, only the profiles can make it fail. */
  method AllocateFrozen(
    mode: Mode, steps: seq<Step>, profiles: seq<Profile>, now: int, texts: map<string, Item>,
    textKey: string -> string, order: string -> (string, string) -> bool, assignmentId: string -> string)
    returns (r: Result<seq<PlannedAssignment>, PlanError>)
    requires ValidTree(mode, steps, None) && TextsUsable(Ids(steps), texts, textKey)
    ensures r.Ok? <==> ValidMatchGraph(steps, profiles) && Matchable(EligibilityGraph(steps, profiles, now))
    ensures r.Ok? ==> CompletePlan(mode, steps, profiles, now, texts, assignmentId, r.value)
    ensures r.Err? ==> r.error == AllocationRejected(
      if ValidMatchGraph(steps, profiles) then FailureFor(steps, profiles, now) else MALFORMED)
  {
    r := Allocate(mode, steps, profiles, now, texts, textKey, order, assignmentId);
  }

  /** Profiles recommended for a template are enough to plan it at the same instant. */
  lemma RecommendedProfilesPlan(
    mode: Mode, supported: set<Mode>, steps: seq<Step>, profiles: seq<Profile>, now: int, resolve: Resolver,
    textKey: string -> string, refs: seq<string>, chosen: seq<Profile>)
    requires Plannable(mode, supported, steps, profiles, now, resolve, textKey)
    requires Recommended(steps, profiles, now, refs)
    requires Selection(profiles, refs, chosen)
    ensures Plannable(mode, supported, steps, chosen, now, resolve, textKey)
  {
    RecommendedSuffice(steps, profiles, now, refs, chosen);
  }
}
