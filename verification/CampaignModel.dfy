/** Values shared by the campaign planners: template steps, profiles and modes. */
module CampaignModel {
  import opened Sorting

  datatype Mode = Independent | Threaded

  datatype Source = Fixed(text: string) | Library(libraryId: string, itemId: string)

  /** `parent` keeps the raw field: absent, or a string that may be empty. */
  datatype Step = Step(
    id: string, parent: Option<string>, source: Source,
    requiredTags: set<string>, excludedTags: set<string>, language: string)

  datatype Cooldown = NoCooldown | Unparsable | WithoutZone | Until(at: int)

  datatype Profile = Profile(
    ref: string, displayName: string, enabled: bool, health: string, cooldown: Cooldown,
    tags: set<string>, language: string)

  const MAX_STEPS := 100
  const MAX_PROFILES := 300

  function Ids(steps: seq<Step>): (ids: seq<string>)
    ensures |ids| == |steps| && forall i :: 0 <= i < |steps| ==> ids[i] == steps[i].id
  {
    seq(|steps|, i requires 0 <= i < |steps| => steps[i].id)
  }

  function Refs(profiles: seq<Profile>): (refs: seq<string>)
    ensures |refs| == |profiles| && forall i :: 0 <= i < |profiles| ==> refs[i] == profiles[i].ref
  {
    seq(|profiles|, i requires 0 <= i < |profiles| => profiles[i].ref)
  }

  /** The parent a step is threaded under: an empty raw field means none. */
  function ParentOf(step: Step): Option<string> {
    if step.parent == Some("") then None else step.parent
  }

  function StepWithId(steps: seq<Step>, id: string): (step: Step)
    requires id in Ids(steps)
    ensures step in steps && step.id == id
  {
    if steps[0].id == id then
      steps[0]
    else
      assert Ids(steps) == [steps[0].id] + Ids(steps[1..]);
      StepWithId(steps[1..], id)
  }

  lemma IdsAreKeys(steps: seq<Step>, i: nat)
    requires Distinct(Ids(steps)) && i < |steps|
    ensures forall step :: step in steps && step.id == steps[i].id ==> step == steps[i]
  {
    forall step | step in steps && step.id == steps[i].id
      ensures step == steps[i]
    {
      var j :| 0 <= j < |steps| && steps[j] == step;
      assert Ids(steps)[j] == Ids(steps)[i];
    }
  }

  lemma SortedIdsDistinct(steps: seq<Step>, ordered: seq<Step>)
    requires multiset(ordered) == multiset(steps) && Distinct(Ids(steps))
    ensures Distinct(Ids(ordered)) && ToSet(Ids(ordered)) == ToSet(Ids(steps))
    ensures forall step :: step in ordered <==> step in steps
  {
    SameElements(steps, ordered);
    DistinctSteps(steps);
    DistinctIffMultiset(steps);
    DistinctIffMultiset(ordered);
    forall i, j | 0 <= i < j < |ordered|
      ensures ordered[i].id != ordered[j].id
    {
      var a := Locate(steps, ordered[i]);
      IdsAreKeys(steps, a);
      assert ordered[j] in steps;
    }
    forall s
      ensures s in Ids(ordered) <==> s in Ids(steps)
    {
      IdOfMember(steps, s);
      IdOfMember(ordered, s);
    }
  }

  lemma IdOfMember(steps: seq<Step>, s: string)
    ensures s in Ids(steps) <==> exists step :: step in steps && step.id == s
  {
    if s in Ids(steps) {
      var i := Locate(Ids(steps), s);
      assert steps[i] in steps;
    }
    if step :| step in steps && step.id == s {
      var i := Locate(steps, step);
      assert Ids(steps)[i] == s;
    }
  }

  function CandidateCount<C>(candidates: map<string, seq<C>>, id: string): nat {
    if id in candidates then |candidates[id]| else 0
  }

  predicate FewerCandidates<C>(candidates: map<string, seq<C>>, a: Step, b: Step) {
    var m, n := CandidateCount(candidates, a.id), CandidateCount(candidates, b.id);
    m < n || (m == n && StringLess(a.id, b.id))
  }

  lemma FewerIsStrict<C>(candidates: map<string, seq<C>>)
    ensures StrictWeak((a: Step, b: Step) => FewerCandidates(candidates, a, b))
  {
    forall a: Step, b: Step | FewerCandidates(candidates, a, b)
      ensures !FewerCandidates(candidates, b, a)
    {
      StringLessAsymmetric(a.id, b.id);
    }
    forall a: Step, b: Step, c: Step | FewerCandidates(candidates, a, c)
      ensures FewerCandidates(candidates, a, b) || FewerCandidates(candidates, b, c)
    {
      if StringLess(a.id, c.id) {
        StringLessTransitive(a.id, b.id, c.id);
      }
    }
  }

  /** The order both searches take the steps in: fewest candidates first, then by id. */
  function ScarcestFirst<C>(steps: seq<Step>, candidates: map<string, seq<C>>): (ids: seq<string>)
    requires Distinct(Ids(steps)) && candidates.Keys == ToSet(Ids(steps))
    ensures Distinct(ids) && ToSet(ids) == candidates.Keys
  {
    var ordered := Sort(steps, (a, b) => FewerCandidates(candidates, a, b));
    SortedIdsDistinct(steps, ordered);
    Ids(ordered)
  }

  /** Of two steps the one with fewer candidates comes first, then the one with the lesser id. */
  lemma ScarceComesFirst<C>(steps: seq<Step>, candidates: map<string, seq<C>>, i: nat, j: nat)
    requires Distinct(Ids(steps)) && candidates.Keys == ToSet(Ids(steps))
    requires i < j < |ScarcestFirst(steps, candidates)|
    ensures
      var ids := ScarcestFirst(steps, candidates);
      && ids[i] in candidates && ids[j] in candidates && |candidates[ids[i]]| <= |candidates[ids[j]]|
      && (|candidates[ids[i]]| == |candidates[ids[j]]| ==> !StringLess(ids[j], ids[i]))
  {
    var fewer := (a: Step, b: Step) => FewerCandidates(candidates, a, b);
    FewerIsStrict(candidates);
    SortOrdered(steps, fewer);
    var sorted := Sort(steps, fewer);
    var ids := ScarcestFirst(steps, candidates);
    assert ids == Ids(sorted) && !fewer(sorted[j], sorted[i]);
    assert ids[i] in ToSet(ids) && ids[j] in ToSet(ids);
  }

  lemma ScarcestFirstForgetsOrder<C>(steps: seq<Step>, steps': seq<Step>, candidates: map<string, seq<C>>)
    requires multiset(steps) == multiset(steps') && Distinct(Ids(steps)) && Distinct(Ids(steps'))
    requires candidates.Keys == ToSet(Ids(steps)) == ToSet(Ids(steps'))
    ensures ScarcestFirst(steps, candidates) == ScarcestFirst(steps', candidates)
  {
    var fewer := (a, b) => FewerCandidates(candidates, a, b);
    SameElements(steps, steps');
    FewerIsStrict(candidates);
    DistinctSteps(steps);
    DistinctSteps(steps');
    forall a, b | a in steps && b in steps && a != b
      ensures fewer(a, b) || fewer(b, a)
    {
      var i := Locate(steps, b);
      IdsAreKeys(steps, i);
      StringLessAsymmetric(a.id, b.id);
    }
    SortForgetsOrder(steps, steps', fewer);
  }

  lemma DistinctSteps(steps: seq<Step>)
    requires Distinct(Ids(steps))
    ensures Distinct(steps)
  {
    forall i, j | 0 <= i < j < |steps|
      ensures steps[i] != steps[j]
    {
      assert Ids(steps)[i] != Ids(steps)[j];
    }
  }
}
