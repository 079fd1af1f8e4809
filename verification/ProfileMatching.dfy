/** comment_campaign/allocation.py: one eligible profile per step, by augmenting paths. */
module ProfileMatching {
  import opened Sorting
  import opened Bipartite
  import opened CampaignModel

  datatype Reason =
    | Unspecified
    | InsufficientProfiles
    | ProfileDisabled
    | ProfileUnhealthy
    | ProfileInCooldown
    | TagMismatch
    | LanguageMismatch
    | CompleteMatchingNotFound

  datatype AllocationError = AllocationError(reason: Reason, required: nat, eligible: nat)

  const MALFORMED := AllocationError(Unspecified, 0, 0)

  predicate CooldownActive(profile: Profile, now: int) {
    match profile.cooldown
    case NoCooldown => false
    case Unparsable => true
    case WithoutZone => true
    case Until(at) => at > now
  }

  predicate Usable(profile: Profile, now: int) {
    profile.enabled && profile.health == "healthy" && !CooldownActive(profile, now)
  }

  predicate TagsMatch(step: Step, profile: Profile) {
    step.requiredTags <= profile.tags && step.excludedTags * profile.tags == {}
  }

  predicate ProfileMatches(step: Step, profile: Profile, now: int) {
    Usable(profile, now) && TagsMatch(step, profile) && (step.language == "" || profile.language == step.language)
  }

  predicate ValidMatchGraph(steps: seq<Step>, profiles: seq<Profile>) {
    var ids, refs := Ids(steps), Refs(profiles);
    && ids != [] && "" !in ids && NoRepeats(ids)
    && refs != [] && "" !in refs && NoRepeats(refs)
    && |ids| <= MAX_STEPS && |refs| <= MAX_PROFILES
  }

  /** Which profiles may carry out which step, at one instant. */
  function EligibilityGraph(steps: seq<Step>, profiles: seq<Profile>, now: int): Graph {
    map s | s in ToSet(Ids(steps)) :: EligibleFor(s, steps, profiles, now)
  }

  function EligibleFor(s: string, steps: seq<Step>, profiles: seq<Profile>, now: int): set<string> {
    set step, p | step in steps && p in profiles && step.id == s && ProfileMatches(step, p, now) :: p.ref
  }

  function EligibleRefs(step: Step, profiles: seq<Profile>, now: int): (refs: seq<string>)
    ensures forall r :: r in refs <==> exists p :: p in profiles && ProfileMatches(step, p, now) && p.ref == r
  {
    if profiles == [] then
      []
    else
      assert profiles == [profiles[0]] + profiles[1..];
      (if ProfileMatches(step, profiles[0], now) then [profiles[0].ref] else [])
      + EligibleRefs(step, profiles[1..], now)
  }

  function Candidates(step: Step, profiles: seq<Profile>, now: int, order: string -> (string, string) -> bool)
    : (refs: seq<string>)
    ensures ToSet(refs) == set p | p in profiles && ProfileMatches(step, p, now) :: p.ref
  {
    SameElements(EligibleRefs(step, profiles, now), Sort(EligibleRefs(step, profiles, now), order(step.id)));
    Sort(EligibleRefs(step, profiles, now), order(step.id))
  }

  function CandidateLists(
    steps: seq<Step>, profiles: seq<Profile>, now: int, order: string -> (string, string) -> bool)
    : (lists: map<string, seq<string>>)
    ensures lists.Keys == ToSet(Ids(steps))
  {
    map s | s in Ids(steps) :: Candidates(StepWithId(steps, s), profiles, now, order)
  }

  function Adjacency(candidates: map<string, seq<string>>): Graph {
    map s | s in candidates :: ToSet(candidates[s])
  }

  lemma CandidatesAreEligible(
    steps: seq<Step>, profiles: seq<Profile>, now: int, order: string -> (string, string) -> bool)
    requires Distinct(Ids(steps))
    ensures Adjacency(CandidateLists(steps, profiles, now, order)) == EligibilityGraph(steps, profiles, now)
  {
    var lists, g := CandidateLists(steps, profiles, now, order), EligibilityGraph(steps, profiles, now);
    assert lists.Keys == g.Keys;
    forall s | s in g
      ensures ToSet(lists[s]) == g[s]
    {
      CandidatesFor(s, steps, profiles, now, order);
    }
  }

  lemma CandidatesFor(
    s: string, steps: seq<Step>, profiles: seq<Profile>, now: int, order: string -> (string, string) -> bool)
    requires Distinct(Ids(steps)) && s in Ids(steps)
    ensures ToSet(Candidates(StepWithId(steps, s), profiles, now, order)) == EligibleFor(s, steps, profiles, now)
  {
    var step := StepWithId(steps, s);
    var i := Locate(Ids(steps), s);
    IdsAreKeys(steps, i);
    assert forall other :: other in steps && other.id == s ==> other == step;
  }

  function EligibleCount(steps: seq<Step>, profiles: seq<Profile>, now: int): nat {
    if profiles == [] then
      0
    else
      (if exists step :: step in steps && ProfileMatches(step, profiles[0], now) then 1 else 0)
      + EligibleCount(steps, profiles[1..], now)
  }

  predicate NoneTagged(step: Step, profiles: seq<Profile>, now: int) {
    forall p :: p in profiles && Usable(p, now) ==> !TagsMatch(step, p)
  }

  predicate NoneSpeaks(step: Step, profiles: seq<Profile>, now: int) {
    forall p :: p in profiles && Usable(p, now) ==> !(TagsMatch(step, p) && p.language == step.language)
  }

  /** The reason reported when no matching was found. */
  function Explain(steps: seq<Step>, profiles: seq<Profile>, now: int): Reason {
    if |profiles| < |steps| then InsufficientProfiles
    else if exists p :: p in profiles && !p.enabled then ProfileDisabled
    else if exists p :: p in profiles && p.health != "healthy" then ProfileUnhealthy
    else if exists p :: p in profiles && CooldownActive(p, now) then ProfileInCooldown
    else if exists step :: step in steps && NoneTagged(step, profiles, now) then TagMismatch
    else if exists step :: step in steps && step.language != "" && NoneSpeaks(step, profiles, now) then LanguageMismatch
    else CompleteMatchingNotFound
  }

  function FailureFor(steps: seq<Step>, profiles: seq<Profile>, now: int): AllocationError {
    AllocationError(Explain(steps, profiles, now), |steps|, EligibleCount(steps, profiles, now))
  }

  /* What these terms mean, in the fields of steps and profiles. */

  /** The profile may carry out the step now. */
  ghost predicate Suits(step: Step, p: Profile, now: int) {
    && p.enabled && p.health == "healthy"
    && (p.cooldown == NoCooldown || (p.cooldown.Until? && p.cooldown.at <= now))
    && (forall t :: t in step.requiredTags ==> t in p.tags)
    && (forall t :: t in step.excludedTags ==> t !in p.tags)
    && (step.language == "" || p.language == step.language)
  }

  lemma SuitsMeansMatches(step: Step, p: Profile, now: int)
    ensures Suits(step, p, now) <==> ProfileMatches(step, p, now)
  {
    if Suits(step, p, now) {
      assert step.excludedTags * p.tags == {};
    }
    if ProfileMatches(step, p, now) {
      forall t | t in step.excludedTags
        ensures t !in p.tags
      {
        assert t !in step.excludedTags * p.tags;
      }
    }
  }

  /** One to 100 steps and one to 300 profiles, each under a name of its own that is not empty. */
  ghost predicate Nameable(steps: seq<Step>, profiles: seq<Profile>) {
    && 1 <= |steps| <= 100 && 1 <= |profiles| <= 300
    && (forall i :: 0 <= i < |steps| ==> steps[i].id != "")
    && (forall i :: 0 <= i < |profiles| ==> profiles[i].ref != "")
    && (forall i, j :: 0 <= i < j < |steps| ==> steps[i].id != steps[j].id)
    && forall i, j :: 0 <= i < j < |profiles| ==> profiles[i].ref != profiles[j].ref
  }

  lemma NameableMeansValid(steps: seq<Step>, profiles: seq<Profile>)
    ensures ValidMatchGraph(steps, profiles) <==> Nameable(steps, profiles)
  {
    var ids, refs := Ids(steps), Refs(profiles);
    NoRepeatsIffDistinct(ids);
    NoRepeatsIffDistinct(refs);
    assert Distinct(ids) <==> forall i, j :: 0 <= i < j < |steps| ==> steps[i].id != steps[j].id by {
      assert forall i, j :: 0 <= i < j < |steps| ==> ids[i] == steps[i].id && ids[j] == steps[j].id;
    }
    assert Distinct(refs) <==> forall i, j :: 0 <= i < j < |profiles| ==> profiles[i].ref != profiles[j].ref by {
      assert forall i, j :: 0 <= i < j < |profiles| ==> refs[i] == profiles[i].ref && refs[j] == profiles[j].ref;
    }
    assert "" in ids <==> exists i :: 0 <= i < |steps| && steps[i].id == "" by {
      assert forall i :: 0 <= i < |steps| ==> ids[i] == steps[i].id;
    }
    assert "" in refs <==> exists i :: 0 <= i < |profiles| && profiles[i].ref == "" by {
      assert forall i :: 0 <= i < |profiles| ==> refs[i] == profiles[i].ref;
    }
  }

  /** Every step has a suitable profile of its own. */
  ghost predicate Assigned(steps: seq<Step>, profiles: seq<Profile>, now: int, m: map<string, string>) {
    && (forall s :: s in m <==> exists step :: step in steps && step.id == s)
    && (forall step :: step in steps && step.id in m ==>
         exists p :: p in profiles && p.ref == m[step.id] && Suits(step, p, now))
    && forall s, t :: s in m && t in m && s != t ==> m[s] != m[t]
  }

  lemma SuitableFor(steps: seq<Step>, profiles: seq<Profile>, now: int, step: Step, ref: string)
    requires Distinct(Ids(steps)) && step in steps
    ensures ref in EligibleFor(step.id, steps, profiles, now)
      <==> exists p :: p in profiles && p.ref == ref && Suits(step, p, now)
  {
    var i := Locate(steps, step);
    IdsAreKeys(steps, i);
    if ref in EligibleFor(step.id, steps, profiles, now) {
      var other, p :| other in steps && p in profiles && other.id == step.id && ProfileMatches(other, p, now)
        && p.ref == ref;
      SuitsMeansMatches(step, p, now);
    }
    if p :| p in profiles && p.ref == ref && Suits(step, p, now) {
      SuitsMeansMatches(step, p, now);
    }
  }

  /** A complete matching is an assignment of suitable profiles, no two steps the same. */
  lemma CompleteMeansAssigned(steps: seq<Step>, profiles: seq<Profile>, now: int, m: map<string, string>)
    requires Distinct(Ids(steps))
    ensures Complete(EligibilityGraph(steps, profiles, now), m) <==> Assigned(steps, profiles, now, m)
  {
    var g := EligibilityGraph(steps, profiles, now);
    forall s
      ensures s in g <==> exists step :: step in steps && step.id == s
    {
      IdOfMember(steps, s);
    }
    forall step, ref | step in steps
      ensures ref in g[step.id] <==> exists p :: p in profiles && p.ref == ref && Suits(step, p, now)
    {
      IdOfMember(steps, step.id);
      SuitableFor(steps, profiles, now, step, ref);
    }
    AssignedByGraph(steps, profiles, now, g, m);
  }

  lemma AssignedByGraph(steps: seq<Step>, profiles: seq<Profile>, now: int, g: Graph, m: map<string, string>)
    requires forall s :: s in g <==> exists step :: step in steps && step.id == s
    requires forall step, ref :: step in steps && step.id in g ==>
      (ref in g[step.id] <==> exists p :: p in profiles && p.ref == ref && Suits(step, p, now))
    ensures Complete(g, m) <==> Assigned(steps, profiles, now, m)
  {
    if Assigned(steps, profiles, now, m) {
      assert m.Keys == g.Keys;
      forall s | s in g
        ensures m[s] in g[s]
      {
        var step :| step in steps && step.id == s;
      }
    }
  }

  /** The profile suits some step. */
  ghost predicate Useful(steps: seq<Step>, p: Profile, now: int) {
    exists step :: step in steps && Suits(step, p, now)
  }

  ghost function UsefulOnes(steps: seq<Step>, profiles: seq<Profile>, now: int): set<Profile> {
    set p | p in profiles && Useful(steps, p, now)
  }

  /** The count of eligible profiles is that of the profiles that suit some step. */
  lemma {:induction false} EligibleCountMeans(steps: seq<Step>, profiles: seq<Profile>, now: int)
    requires Distinct(profiles)
    ensures EligibleCount(steps, profiles, now) == |UsefulOnes(steps, profiles, now)|
  {
    if profiles != [] {
      var first, rest := profiles[0], profiles[1..];
      DistinctTail(profiles);
      EligibleCountMeans(steps, rest, now);
      UsefulMeansMatching(steps, first, now);
      assert profiles == [first] + rest;
      assert UsefulOnes(steps, profiles, now)
        == UsefulOnes(steps, rest, now) + if Useful(steps, first, now) then {first} else {};
    }
  }

  lemma UsefulMeansMatching(steps: seq<Step>, p: Profile, now: int)
    ensures Useful(steps, p, now) <==> exists step :: step in steps && ProfileMatches(step, p, now)
  {
    forall step
      ensures Suits(step, p, now) <==> ProfileMatches(step, p, now)
    {
      SuitsMeansMatches(step, p, now);
    }
  }

  /** The profile is out of use: disabled, unhealthy, or cooling down or without a readable
      cooldown. */
  ghost predicate OutOfUse(p: Profile, now: int, reason: Reason) {
    match reason
    case ProfileDisabled => !p.enabled
    case ProfileUnhealthy => p.health != "healthy"
    case ProfileInCooldown => p.cooldown != NoCooldown && (p.cooldown.Until? ==> p.cooldown.at > now)
    case _ => false
  }

  /** No profile of those in use has the step's tags and, if `speaks`, its language. */
  ghost predicate Unserved(step: Step, profiles: seq<Profile>, now: int, speaks: bool) {
    forall p :: p in profiles && Suits(step.(language := ""), p, now) ==> speaks && p.language != step.language
  }

  /** The reason reported is the first that applies: too few profiles, one disabled, unhealthy
      or cooling down, a step whose tags or then whose language nobody serves. */
  ghost predicate FirstReason(steps: seq<Step>, profiles: seq<Profile>, now: int, reason: Reason) {
    var out := r => exists p :: p in profiles && OutOfUse(p, now, r);
    var tags := exists step :: step in steps && Unserved(step, profiles, now, false);
    var speech := exists step :: step in steps && step.language != "" && Unserved(step, profiles, now, true);
    var few := |profiles| < |steps|;
    match reason
    case InsufficientProfiles => few
    case ProfileDisabled => !few && out(ProfileDisabled)
    case ProfileUnhealthy => !few && !out(ProfileDisabled) && out(ProfileUnhealthy)
    case ProfileInCooldown => !few && !out(ProfileDisabled) && !out(ProfileUnhealthy) && out(ProfileInCooldown)
    case Unspecified => false
    case _ =>
      && !few && !out(ProfileDisabled) && !out(ProfileUnhealthy) && !out(ProfileInCooldown)
      && (reason == TagMismatch <==> tags) && (reason == LanguageMismatch <==> !tags && speech)
  }

  lemma UnservedMeans(step: Step, profiles: seq<Profile>, now: int)
    ensures Unserved(step, profiles, now, false) <==> NoneTagged(step, profiles, now)
    ensures Unserved(step, profiles, now, true) <==> NoneSpeaks(step, profiles, now)
  {
    forall p
      ensures Suits(step.(language := ""), p, now) <==> Usable(p, now) && TagsMatch(step, p)
    {
      SuitsMeansMatches(step.(language := ""), p, now);
    }
  }

  lemma ReasonIsFirst(steps: seq<Step>, profiles: seq<Profile>, now: int)
    ensures FirstReason(steps, profiles, now, Explain(steps, profiles, now))
  {
    forall step | step in steps
      ensures Unserved(step, profiles, now, false) <==> NoneTagged(step, profiles, now)
      ensures Unserved(step, profiles, now, true) <==> NoneSpeaks(step, profiles, now)
    {
      UnservedMeans(step, profiles, now);
    }
  }

  /** The two mismatch reasons and the generic one split the failures that are not a
      profile's own fault by whether some step has no candidate at all. */
  lemma ReasonTellsWhetherAStepHasNoCandidate(steps: seq<Step>, profiles: seq<Profile>, now: int)
    requires |profiles| >= |steps| && forall p :: p in profiles ==> Usable(p, now)
    ensures Explain(steps, profiles, now) in {TagMismatch, LanguageMismatch}
      <==> exists step :: step in steps && EligibleRefs(step, profiles, now) == []
    ensures Explain(steps, profiles, now) !in {TagMismatch, LanguageMismatch}
      <==> Explain(steps, profiles, now) == CompleteMatchingNotFound
  {
    forall step | step in steps
      ensures EligibleRefs(step, profiles, now) == []
        <==> NoneTagged(step, profiles, now) || (step.language != "" && NoneSpeaks(step, profiles, now))
    {
      var refs := EligibleRefs(step, profiles, now);
      if refs == [] {
        forall p | p in profiles
          ensures !ProfileMatches(step, p, now)
        {
          assert p.ref !in refs;
        }
      } else {
        assert refs[0] in refs;
        var p :| p in profiles && ProfileMatches(step, p, now) && p.ref == refs[0];
      }
    }
  }

  /* Which matching is found: the search as a function of its lists and their order. */

  datatype Search = Search(found: bool, matched: map<string, string>, seen: set<string>)

  function AllRefs(candidates: map<string, seq<string>>): set<string> {
    set s, r | s in candidates && r in ToSet(candidates[s]) :: r
  }

  predicate Lists(candidates: map<string, seq<string>>, matched: map<string, string>) {
    forall r :: r in matched ==> matched[r] in candidates
  }

  /** The search for `step` from its `k`-th candidate on: the first candidate that is free,
      or whose holder can move elsewhere, is taken. */
  function Augment(
    candidates: map<string, seq<string>>, matched: map<string, string>, seen: set<string>, step: string, k: nat)
    : (r: Search)
    requires Lists(candidates, matched) && step in candidates && k <= |candidates[step]|
    ensures seen <= r.seen && Lists(candidates, r.matched)
    decreases AllRefs(candidates) - seen, |candidates[step]| - k
  {
    if k == |candidates[step]| then
      Search(false, matched, seen)
    else
      var ref := candidates[step][k];
      assert ref in ToSet(candidates[step]) && ref in AllRefs(candidates);
      if ref in seen then
        Augment(candidates, matched, seen, step, k + 1)
      else if ref !in matched then
        Search(true, matched[ref := step], seen + {ref})
      else
        var inner := Augment(candidates, matched, seen + {ref}, matched[ref], 0);
        if inner.found then
          inner.(matched := inner.matched[ref := step])
        else
          Augment(candidates, inner.matched, inner.seen, step, k + 1)
  }

  /** The searches from the `i`-th step on, in order; None once one of them fails. */
  function AugmentFrom(
    candidates: map<string, seq<string>>, matched: map<string, string>, ordered: seq<string>, i: nat)
    : (r: Option<map<string, string>>)
    requires i <= |ordered| && Lists(candidates, matched) && forall step :: step in ordered ==> step in candidates
    decreases |ordered| - i
  {
    if i == |ordered| then
      Some(matched)
    else
      var last := Augment(candidates, matched, {}, ordered[i], 0);
      if last.found then AugmentFrom(candidates, last.matched, ordered, i + 1) else None
  }

  /** Exactly these steps hold profiles. */
  ghost predicate HeldBy(g: Graph, matched: map<string, string>, steps: seq<string>) {
    Sound(g, matched, {}) && Holders(matched, {}) == ToSet(steps)
  }

  lemma NotYetHeld(g: Graph, matched: map<string, string>, ordered: seq<string>, i: nat)
    requires i < |ordered| && Distinct(ordered) && HeldBy(g, matched, ordered[..i])
    ensures ordered[i] in ToSet(ordered) && ordered[i] !in Holders(matched, {})
  {
    NewInPrefix(ordered, i);
  }

  lemma OneMoreHeld(g: Graph, before: map<string, string>, after: map<string, string>, ordered: seq<string>, i: nat)
    requires i < |ordered| && HeldBy(g, before, ordered[..i])
    requires Sound(g, after, {}) && Holders(after, {}) == Holders(before, {}) + {ordered[i]}
    ensures HeldBy(g, after, ordered[..i + 1])
  {
    PrefixSet(ordered, i);
  }

  lemma AllHeld(candidates: map<string, seq<string>>, matched: map<string, string>, ordered: seq<string>, i: nat)
    requires i == |ordered| && HeldBy(Adjacency(candidates), matched, ordered[..i]) && ToSet(ordered) == candidates.Keys
    ensures Sound(Adjacency(candidates), matched, {}) && Holders(matched, {}) == Adjacency(candidates).Keys
  {
    assert ordered[..i] == ordered;
  }

  /** One augmenting-path search over fixed candidate lists. */
  class ProfileSearch {
    const candidates: map<string, seq<string>>
    var matched: map<string, string>
    var seen: set<string>

    constructor (candidates: map<string, seq<string>>)
      ensures this.candidates == candidates && matched == map[] && seen == {}
    {
      this.candidates := candidates;
      matched, seen := map[], {};
    }

    ghost function G(): Graph {
      Adjacency(candidates)
    }

    method Assign(step: string) returns (ok: bool)
      requires step in candidates && Lists(candidates, matched)
      requires Sound(G(), matched, seen) && step !in Holders(matched, seen)
      modifies this
      ensures Search(ok, matched, seen) == Augment(candidates, old(matched), old(seen), step, 0)
      ensures old(seen) <= seen
      ensures ok ==> Augmented(G(), old(matched), matched, old(seen), step)
      ensures !ok ==> matched == old(matched) && Exhausted(G(), matched, old(seen), seen, step)
      decreases AllRefs(candidates) - seen
    {
      var options := candidates[step];
      for i := 0 to |options|
        invariant old(seen) <= seen && matched == old(matched)
        invariant Augment(candidates, old(matched), old(seen), step, 0) == Augment(candidates, matched, seen, step, i)
        invariant forall j :: 0 <= j < i ==> options[j] in seen
        invariant forall r :: r in seen && r !in old(seen) ==>
          r in matched && matched[r] in G() && G()[matched[r]] <= seen
      {
        var ref := options[i];
        if ref in seen {
          continue;
        }
        assert ref in ToSet(candidates[step]) && ref in AllRefs(candidates);
        ghost var claimed := seen + {ref};
        seen := seen + {ref};
        var free := ref !in matched;
        if !free {
          free := Assign(matched[ref]);
        }
        if free {
          AugmentThrough(G(), old(matched), matched, old(seen), claimed, ref, step);
          matched := matched[ref := step];
          return true;
        }
      }
      return false;
    }

    /** One search with nothing claimed. */
    method SearchFor(step: string) returns (ok: bool)
      requires step in candidates && Lists(candidates, matched)
      requires Sound(G(), matched, {}) && step !in Holders(matched, {})
      modifies this
      ensures Lists(candidates, matched)
      ensures
        var r := Augment(candidates, old(matched), {}, step, 0);
        ok == r.found && matched == r.matched
      ensures ok ==> Sound(G(), matched, {}) && Holders(matched, {}) == Holders(old(matched), {}) + {step}
      ensures !ok ==> !Matchable(G())
    {
      seen := {};
      ok := Assign(step);
      if !ok {
        ExhaustedRefutes(G(), matched, seen, step);
      }
    }

    /** Searches once per step, each time with nothing claimed. */
    method AssignAll(ordered: seq<string>) returns (ok: bool)
      requires matched == map[] && Distinct(ordered) && ToSet(ordered) == candidates.Keys
      modifies this
      ensures AugmentFrom(candidates, map[], ordered, 0) == if ok then Some(matched) else None
      ensures ok ==> Sound(G(), matched, {}) && Holders(matched, {}) == G().Keys
      ensures !ok ==> !Matchable(G())
    {
      for i := 0 to |ordered|
        invariant Lists(candidates, matched)
        invariant AugmentFrom(candidates, map[], ordered, 0) == AugmentFrom(candidates, matched, ordered, i)
        invariant HeldBy(G(), matched, ordered[..i])
      {
        ghost var before := matched;
        NotYetHeld(G(), matched, ordered, i);
        var found := SearchFor(ordered[i]);
        if !found {
          return false;
        }
        OneMoreHeld(G(), before, matched, ordered, i);
      }
      AllHeld(candidates, matched, ordered, |ordered|);
      return true;
    }
  }

  lemma ExhaustedRefutes(g: Graph, matched: map<string, string>, seen: set<string>, step: string)
    requires Sound(g, matched, {}) && step !in Holders(matched, {}) && Exhausted(g, matched, {}, seen, step)
    ensures !Matchable(g)
  {
    ExhaustedViolates(g, matched, seen, step);
    HallViolatorRefutes(g, {step} + Image(matched, seen), seen);
  }

  /** The assignment of profiles the searches end with, steps taken scarcest first. */
  function FirstFound(
    steps: seq<Step>, profiles: seq<Profile>, now: int, order: string -> (string, string) -> bool)
    : Option<map<string, string>>
    requires Distinct(Ids(steps))
  {
    var candidates := CandidateLists(steps, profiles, now, order);
    var ordered := ScarcestFirst(steps, candidates);
    assert forall s :: s in ordered ==> s in ToSet(ordered);
    AugmentFrom(candidates, map[], ordered, 0)
  }

  /** `m` is `found` read backwards. */
  predicate Inverse(found: Option<map<string, string>>, m: map<string, string>) {
    found.Some? && m.Values == found.value.Keys && forall s :: s in m ==> m[s] in found.value && found.value[m[s]] == s
  }

  /** Succeeds exactly when a complete matching exists, and returns the first one found. */
  method MatchProfiles(
    steps: seq<Step>, profiles: seq<Profile>, now: int, order: string -> (string, string) -> bool)
    returns (r: Result<map<string, string>, AllocationError>)
    ensures r.Ok? <==> Nameable(steps, profiles) && exists m :: Assigned(steps, profiles, now, m)
    ensures !ValidMatchGraph(steps, profiles) ==> r == Err(MALFORMED)
    ensures ValidMatchGraph(steps, profiles) ==>
      (r.Ok? <==> Matchable(EligibilityGraph(steps, profiles, now)))
    ensures r.Ok? ==> Assigned(steps, profiles, now, r.value)
    ensures r.Err? && ValidMatchGraph(steps, profiles) ==> Reported(steps, profiles, now, r.error)
    ensures r.Ok? ==> Complete(EligibilityGraph(steps, profiles, now), r.value)
    ensures r.Ok? ==> Distinct(Ids(steps)) && Inverse(FirstFound(steps, profiles, now, order), r.value)
    ensures r.Err? && ValidMatchGraph(steps, profiles) ==> r.error == FailureFor(steps, profiles, now)
  {
    NameableMeansValid(steps, profiles);
    if !ValidMatchGraph(steps, profiles) {
      return Err(MALFORMED);
    }
    NoRepeatsIffDistinct(Ids(steps));
    MatchableMeans(steps, profiles, now);
    FailureIsReported(steps, profiles, now);
    var candidates := CandidateLists(steps, profiles, now, order);
    CandidatesAreEligible(steps, profiles, now, order);
    if exists s :: s in candidates && candidates[s] == [] {
      EmptyListRefutes(candidates);
      return Err(FailureFor(steps, profiles, now));
    }
    var search := new ProfileSearch(candidates);
    var ok := search.AssignAll(ScarcestFirst(steps, candidates));
    if !ok {
      return Err(FailureFor(steps, profiles, now));
    }
    var chosen := Invert(search.G(), search.matched);
    InvertIsInverse(search.G(), search.matched);
    CompleteMeansAssigned(steps, profiles, now, chosen);
    return Ok(chosen);
  }

  lemma MatchableMeans(steps: seq<Step>, profiles: seq<Profile>, now: int)
    requires Distinct(Ids(steps))
    ensures Matchable(EligibilityGraph(steps, profiles, now)) <==> exists m :: Assigned(steps, profiles, now, m)
  {
    var g := EligibilityGraph(steps, profiles, now);
    if m :| Complete(g, m) {
      CompleteMeansAssigned(steps, profiles, now, m);
    }
    if m :| Assigned(steps, profiles, now, m) {
      CompleteMeansAssigned(steps, profiles, now, m);
    }
  }

  /** The error tells the first reason that applies, how many profiles are needed and how many
      would suit some step. */
  ghost predicate Reported(steps: seq<Step>, profiles: seq<Profile>, now: int, error: AllocationError) {
    && FirstReason(steps, profiles, now, error.reason)
    && error.required == |steps| && error.eligible == |UsefulOnes(steps, profiles, now)|
  }

  lemma FailureIsReported(steps: seq<Step>, profiles: seq<Profile>, now: int)
    requires ValidMatchGraph(steps, profiles)
    ensures Reported(steps, profiles, now, FailureFor(steps, profiles, now))
  {
    NoRepeatsIffDistinct(Refs(profiles));
    forall i, j | 0 <= i < j < |profiles|
      ensures profiles[i] != profiles[j]
    {
      assert Refs(profiles)[i] != Refs(profiles)[j];
    }
    EligibleCountMeans(steps, profiles, now);
    ReasonIsFirst(steps, profiles, now);
  }

  lemma InvertIsInverse(g: Graph, matched: map<string, string>)
    requires Sound(g, matched, {}) && Holders(matched, {}) == g.Keys
    ensures Inverse(Some(matched), Invert(g, matched))
  {
    var m := Invert(g, matched);
    forall r | r in matched
      ensures r in m.Values
    {
      assert m[matched[r]] == r;
    }
  }

  lemma EmptyListRefutes(candidates: map<string, seq<string>>)
    requires exists s :: s in candidates && candidates[s] == []
    ensures !Matchable(Adjacency(candidates))
  {
    var s :| s in candidates && candidates[s] == [];
    HallViolatorRefutes(Adjacency(candidates), {s}, {});
  }

  /* What the search decides depends only on the sets of steps and profiles. */

  lemma InputOrderIrrelevant(
    steps: seq<Step>, profiles: seq<Profile>, steps': seq<Step>, profiles': seq<Profile>, now: int)
    requires multiset(steps) == multiset(steps') && multiset(profiles) == multiset(profiles')
    ensures ValidMatchGraph(steps, profiles) <==> ValidMatchGraph(steps', profiles')
    ensures EligibilityGraph(steps, profiles, now) == EligibilityGraph(steps', profiles', now)
  {
    SameElements(steps, steps');
    SameElements(profiles, profiles');
    SameKeys(steps, profiles, steps', profiles');
    forall s
      ensures EligibleFor(s, steps, profiles, now) == EligibleFor(s, steps', profiles', now)
    {
    }
  }

  lemma SameKeys(steps: seq<Step>, profiles: seq<Profile>, steps': seq<Step>, profiles': seq<Profile>)
    requires |steps| == |steps'| && |profiles| == |profiles'|
    requires forall x :: x in steps <==> x in steps'
    requires forall x :: x in profiles <==> x in profiles'
    ensures ToSet(Ids(steps)) == ToSet(Ids(steps')) && ToSet(Refs(profiles)) == ToSet(Refs(profiles'))
    ensures ValidMatchGraph(steps, profiles) <==> ValidMatchGraph(steps', profiles')
  {
    forall s
      ensures s in Ids(steps) <==> s in Ids(steps')
      ensures s in Refs(profiles) <==> s in Refs(profiles')
    {
      IdOfMember(steps, s);
      IdOfMember(steps', s);
      RefOfMember(profiles, s);
      RefOfMember(profiles', s);
    }
  }

  lemma RefOfMember(profiles: seq<Profile>, r: string)
    ensures r in Refs(profiles) <==> exists p :: p in profiles && p.ref == r
  {
    if r in Refs(profiles) {
      var i := Locate(Refs(profiles), r);
      assert profiles[i] in profiles;
    }
    if p :| p in profiles && p.ref == r {
      var i := Locate(profiles, p);
      assert Refs(profiles)[i] == r;
    }
  }

  /** Sort keys without ties, such as distinct hashes. */
  ghost predicate OrdersWithoutTies(order: string -> (string, string) -> bool, refs: seq<string>) {
    forall s :: StrictWeak(order(s)) && TotalOn(refs, order(s))
  }

  /** The matching itself, not only its existence, is the same for every listing of the
      same steps and profiles. */
  lemma MatchingForgetsInputOrder(
    steps: seq<Step>, profiles: seq<Profile>, steps': seq<Step>, profiles': seq<Profile>, now: int,
    order: string -> (string, string) -> bool, m: map<string, string>, m': map<string, string>)
    requires multiset(steps) == multiset(steps') && multiset(profiles) == multiset(profiles')
    requires ValidMatchGraph(steps, profiles) && OrdersWithoutTies(order, Refs(profiles))
    requires Distinct(Ids(steps)) && Distinct(Ids(steps'))
    requires Inverse(FirstFound(steps, profiles, now, order), m)
    requires Inverse(FirstFound(steps', profiles', now, order), m')
    ensures m == m'
  {
    InputOrderIrrelevant(steps, profiles, steps', profiles', now);
    SameElements(steps, steps');
    SameElements(profiles, profiles');
    SameKeys(steps, profiles, steps', profiles');
    NoRepeatsIffDistinct(Refs(profiles));
    NoRepeatsIffDistinct(Refs(profiles'));
    SameCandidateLists(steps, profiles, steps', profiles', now, order);
    ScarcestFirstForgetsOrder(steps, steps', CandidateLists(steps, profiles, now, order));
    InverseUnique(FirstFound(steps, profiles, now, order), m, m');
  }

  lemma InverseUnique(found: Option<map<string, string>>, m: map<string, string>, m': map<string, string>)
    requires Inverse(found, m) && Inverse(found, m')
    ensures m == m'
  {
    InverseWithin(found, m, m');
    InverseWithin(found, m', m);
  }

  lemma InverseWithin(found: Option<map<string, string>>, m: map<string, string>, m': map<string, string>)
    requires Inverse(found, m) && Inverse(found, m')
    ensures forall s :: s in m ==> s in m' && m'[s] == m[s]
  {
    forall s | s in m
      ensures s in m' && m'[s] == m[s]
    {
      assert m[s] in m'.Values;
      var t :| t in m' && m'[t] == m[s];
    }
  }

  /** Two listings of one set of profiles, with keys that tell all of them apart. */
  ghost predicate SameRoster(
    profiles: seq<Profile>, profiles': seq<Profile>, order: string -> (string, string) -> bool)
  {
    && (forall x :: x in profiles <==> x in profiles')
    && Distinct(Refs(profiles)) && Distinct(Refs(profiles')) && OrdersWithoutTies(order, Refs(profiles))
  }

  lemma SameCandidateLists(
    steps: seq<Step>, profiles: seq<Profile>, steps': seq<Step>, profiles': seq<Profile>, now: int,
    order: string -> (string, string) -> bool)
    requires forall x :: x in steps <==> x in steps'
    requires ToSet(Ids(steps)) == ToSet(Ids(steps')) && Distinct(Ids(steps'))
    requires SameRoster(profiles, profiles', order)
    ensures CandidateLists(steps, profiles, now, order) == CandidateLists(steps', profiles', now, order)
  {
    var lists, lists' := CandidateLists(steps, profiles, now, order), CandidateLists(steps', profiles', now, order);
    forall s | s in lists
      ensures lists[s] == lists'[s]
    {
      assert s in ToSet(Ids(steps)) && s in ToSet(Ids(steps'));
      SameListAt(s, steps, profiles, steps', profiles', now, order);
    }
    SameMaps(lists, lists');
  }

  lemma SameMaps<K, V>(a: map<K, V>, b: map<K, V>)
    requires a.Keys == b.Keys && forall k :: k in a ==> a[k] == b[k]
    ensures a == b
  {
  }

  lemma SameListAt(
    s: string, steps: seq<Step>, profiles: seq<Profile>, steps': seq<Step>, profiles': seq<Profile>, now: int,
    order: string -> (string, string) -> bool)
    requires s in Ids(steps) && s in Ids(steps') && Distinct(Ids(steps'))
    requires forall x :: x in steps <==> x in steps'
    requires SameRoster(profiles, profiles', order)
    ensures CandidateLists(steps, profiles, now, order)[s] == CandidateLists(steps', profiles', now, order)[s]
  {
    SameStep(steps, steps', s);
    SameCandidates(StepWithId(steps, s), profiles, profiles', now, order);
  }

  lemma SameStep(steps: seq<Step>, steps': seq<Step>, s: string)
    requires s in Ids(steps) && s in Ids(steps') && Distinct(Ids(steps'))
    requires forall x :: x in steps <==> x in steps'
    ensures StepWithId(steps, s) == StepWithId(steps', s)
  {
    var i := Locate(Ids(steps'), s);
    IdsAreKeys(steps', i);
  }

  lemma SameCandidates(
    step: Step, profiles: seq<Profile>, profiles': seq<Profile>, now: int, order: string -> (string, string) -> bool)
    requires SameRoster(profiles, profiles', order)
    ensures Candidates(step, profiles, now, order) == Candidates(step, profiles', now, order)
  {
    EligibleDistinct(step, profiles, now);
    EligibleDistinct(step, profiles', now);
    SortForgetsOrder(EligibleRefs(step, profiles, now), EligibleRefs(step, profiles', now), order(step.id));
  }

  lemma {:induction false} EligibleDistinct(step: Step, profiles: seq<Profile>, now: int)
    requires Distinct(Refs(profiles))
    ensures Distinct(EligibleRefs(step, profiles, now))
    ensures forall r :: r in EligibleRefs(step, profiles, now) ==> r in Refs(profiles)
  {
    if profiles != [] {
      var rest := profiles[1..];
      assert Refs(profiles) == [profiles[0].ref] + Refs(rest);
      forall i, j | 0 <= i < j < |rest|
        ensures Refs(rest)[i] != Refs(rest)[j]
      {
        assert Refs(rest)[i] == Refs(profiles)[i + 1] && Refs(rest)[j] == Refs(profiles)[j + 1];
      }
      EligibleDistinct(step, rest, now);
      forall i | 0 <= i < |rest|
        ensures Refs(rest)[i] != profiles[0].ref
      {
        assert Refs(rest)[i] == Refs(profiles)[i + 1];
      }
      assert profiles[0].ref !in EligibleRefs(step, rest, now);
    }
  }

  /* Recommending profiles: the matched refs in display order. */

  function DisplayName(profiles: seq<Profile>, ref: string, casefold: string -> string): string {
    if profiles == [] then ""
    else if profiles[|profiles| - 1].ref == ref then casefold(profiles[|profiles| - 1].displayName)
    else DisplayName(profiles[..|profiles| - 1], ref, casefold)
  }

  predicate DisplayedBefore(profiles: seq<Profile>, casefold: string -> string, a: string, b: string) {
    var x, y := DisplayName(profiles, a, casefold), DisplayName(profiles, b, casefold);
    StringLess(x, y) || (x == y && StringLess(a, b))
  }

  function DisplayOrder(profiles: seq<Profile>, casefold: string -> string): (string, string) -> bool {
    (a, b) => DisplayedBefore(profiles, casefold, a, b)
  }

  lemma DisplayOrderIsStrict(profiles: seq<Profile>, casefold: string -> string)
    ensures StrictWeak(DisplayOrder(profiles, casefold))
  {
    forall a, b | DisplayedBefore(profiles, casefold, a, b)
      ensures !DisplayedBefore(profiles, casefold, b, a)
    {
      StringLessAsymmetric(a, b);
      StringLessAsymmetric(DisplayName(profiles, a, casefold), DisplayName(profiles, b, casefold));
    }
    forall a, b, c | DisplayedBefore(profiles, casefold, a, c)
      ensures DisplayedBefore(profiles, casefold, a, b) || DisplayedBefore(profiles, casefold, b, c)
    {
      var x, y := DisplayName(profiles, a, casefold), DisplayName(profiles, b, casefold);
      var z := DisplayName(profiles, c, casefold);
      if x == z {
        StringLessTransitive(a, b, c);
        StringLessAsymmetric(x, y);
      } else {
        StringLessTransitive(x, y, z);
        StringLessAsymmetric(x, y);
        StringLessAsymmetric(y, z);
      }
    }
  }

  /** `refs` lists, once each, the profiles of some complete matching. */
  ghost predicate Recommended(steps: seq<Step>, profiles: seq<Profile>, now: int, refs: seq<string>) {
    Distinct(refs) && exists m :: UsesExactly(steps, profiles, now, refs, m)
  }

  ghost predicate UsesExactly(
    steps: seq<Step>, profiles: seq<Profile>, now: int, refs: seq<string>, m: map<string, string>)
  {
    Complete(EligibilityGraph(steps, profiles, now), m) && m.Values == ToSet(refs)
  }

  method RecommendProfiles(steps: seq<Step>, profiles: seq<Profile>, now: int, casefold: string -> string)
    returns (r: Result<seq<string>, AllocationError>)
    ensures r.Ok? <==> ValidMatchGraph(steps, profiles) && Matchable(EligibilityGraph(steps, profiles, now))
    ensures r.Ok? ==> Recommended(steps, profiles, now, r.value) && |r.value| == |steps|
    ensures r.Ok? ==> Ordered(r.value, DisplayOrder(profiles, casefold))
    ensures r.Ok? ==> ShownInOrder(profiles, casefold, r.value)
  {
    var before := DisplayOrder(profiles, casefold);
    var chosen := MatchProfiles(steps, profiles, now, _ => before);
    if chosen.Err? {
      return Err(chosen.error);
    }
    var refs := InDisplayOrder(steps, profiles, now, casefold, chosen.value);
    NoRepeatsIffDistinct(Refs(profiles));
    OrderedIsShown(profiles, casefold, refs);
    return Ok(refs);
  }

  /** No profile is listed before one whose casefolded name is lesser, or the same with a lesser
      ref. */
  ghost predicate ShownInOrder(profiles: seq<Profile>, casefold: string -> string, refs: seq<string>) {
    forall i, j, p, q ::
      0 <= i < j < |refs| && p in profiles && q in profiles && p.ref == refs[i] && q.ref == refs[j] ==>
      && !StringLess(casefold(q.displayName), casefold(p.displayName))
      && (casefold(q.displayName) == casefold(p.displayName) ==> !StringLess(q.ref, p.ref))
  }

  lemma {:induction false} NameShown(profiles: seq<Profile>, p: Profile, casefold: string -> string)
    requires Distinct(Refs(profiles)) && p in profiles
    ensures DisplayName(profiles, p.ref, casefold) == casefold(p.displayName)
  {
    var n := |profiles| - 1;
    if profiles[n] != p {
      var i := Locate(profiles, p);
      assert Refs(profiles)[i] != Refs(profiles)[n] && profiles[..n][i] == p;
      assert Refs(profiles)[..n] == Refs(profiles[..n]);
      DistinctRefsPrefix(profiles, n);
      NameShown(profiles[..n], p, casefold);
    }
  }

  lemma DistinctRefsPrefix(profiles: seq<Profile>, n: nat)
    requires Distinct(Refs(profiles)) && n <= |profiles|
    ensures Distinct(Refs(profiles[..n]))
  {
    forall i, j | 0 <= i < j < n
      ensures Refs(profiles[..n])[i] != Refs(profiles[..n])[j]
    {
      assert Refs(profiles)[i] != Refs(profiles)[j];
    }
  }

  lemma OrderedIsShown(profiles: seq<Profile>, casefold: string -> string, refs: seq<string>)
    requires Distinct(Refs(profiles)) && Ordered(refs, DisplayOrder(profiles, casefold))
    ensures ShownInOrder(profiles, casefold, refs)
  {
    forall i, j, p, q |
      0 <= i < j < |refs| && p in profiles && q in profiles && p.ref == refs[i] && q.ref == refs[j]
      ensures !StringLess(casefold(q.displayName), casefold(p.displayName))
      ensures casefold(q.displayName) == casefold(p.displayName) ==> !StringLess(q.ref, p.ref)
    {
      NameShown(profiles, p, casefold);
      NameShown(profiles, q, casefold);
      assert !DisplayedBefore(profiles, casefold, refs[j], refs[i]);
    }
  }

  method InDisplayOrder(
    steps: seq<Step>, profiles: seq<Profile>, now: int, casefold: string -> string, m: map<string, string>)
    returns (refs: seq<string>)
    requires Distinct(Ids(steps)) && Complete(EligibilityGraph(steps, profiles, now), m)
    ensures Recommended(steps, profiles, now, refs) && |refs| == |steps|
    ensures Ordered(refs, DisplayOrder(profiles, casefold))
  {
    var before := DisplayOrder(profiles, casefold);
    var values := ValuesOf(steps, m);
    refs := Sort(values, before);
    ValuesOfMatching(steps, profiles, now, m);
    SortKeepsDistinct(values, before);
    SameElements(values, refs);
    DisplayOrderIsStrict(profiles, casefold);
    SortOrdered(values, before);
    assert UsesExactly(steps, profiles, now, refs, m);
  }

  function ValuesOf(steps: seq<Step>, m: map<string, string>): (values: seq<string>)
    requires m.Keys == ToSet(Ids(steps))
    ensures |values| == |steps|
  {
    seq(|steps|, i requires 0 <= i < |steps| => assert Ids(steps)[i] in m; m[steps[i].id])
  }

  lemma ValuesOfMatching(steps: seq<Step>, profiles: seq<Profile>, now: int, m: map<string, string>)
    requires Distinct(Ids(steps)) && Complete(EligibilityGraph(steps, profiles, now), m)
    ensures Distinct(ValuesOf(steps, m)) && ToSet(ValuesOf(steps, m)) == m.Values
  {
    var values := ValuesOf(steps, m);
    forall i, j | 0 <= i < j < |steps|
      ensures values[i] != values[j]
    {
      assert Ids(steps)[i] in m && Ids(steps)[j] in m && Ids(steps)[i] != Ids(steps)[j];
    }
    forall v | v in m.Values
      ensures v in values
    {
      var s :| s in m && m[s] == v;
      var i := Locate(Ids(steps), s);
      assert values[i] == v;
    }
    forall v | v in values
      ensures v in m.Values
    {
      var i := Locate(values, v);
      assert Ids(steps)[i] in m;
    }
  }

  /** `chosen` lists, once each, the profiles among `refs`. */
  ghost predicate Selection(profiles: seq<Profile>, refs: seq<string>, chosen: seq<Profile>) {
    Distinct(chosen) && forall p :: p in chosen <==> p in profiles && p.ref in refs
  }

  /** Matching again on just the recommended profiles always succeeds, and uses them all. */
  lemma RecommendedSuffice(
    steps: seq<Step>, profiles: seq<Profile>, now: int, refs: seq<string>, chosen: seq<Profile>)
    requires ValidMatchGraph(steps, profiles) && Recommended(steps, profiles, now, refs)
    requires Selection(profiles, refs, chosen)
    ensures ValidMatchGraph(steps, chosen) && |chosen| == |steps|
    ensures Matchable(EligibilityGraph(steps, chosen, now))
    ensures forall m :: Complete(EligibilityGraph(steps, chosen, now), m) ==> m.Values == ToSet(refs)
  {
    var m :| UsesExactly(steps, profiles, now, refs, m);
    ChosenIsValid(steps, profiles, now, refs, chosen, m);
    StillMatched(steps, profiles, now, refs, chosen, m);
    AllUseAllRefs(steps, chosen, now, refs, m);
  }

  lemma AllUseAllRefs(steps: seq<Step>, chosen: seq<Profile>, now: int, refs: seq<string>, m: map<string, string>)
    requires NoRepeats(Ids(steps)) && ToSet(Refs(chosen)) == ToSet(refs) == m.Values && |m.Values| == |steps|
    ensures forall m' :: Complete(EligibilityGraph(steps, chosen, now), m') ==> m'.Values == ToSet(refs)
  {
    forall m' | Complete(EligibilityGraph(steps, chosen, now), m')
      ensures m'.Values == ToSet(refs)
    {
      UsesAllRefs(steps, chosen, now, refs, m, m');
    }
  }

  lemma ChosenIsValid(
    steps: seq<Step>, profiles: seq<Profile>, now: int, refs: seq<string>, chosen: seq<Profile>, m: map<string, string>)
    requires ValidMatchGraph(steps, profiles) && Complete(EligibilityGraph(steps, profiles, now), m)
    requires m.Values == ToSet(refs) && Selection(profiles, refs, chosen)
    ensures ValidMatchGraph(steps, chosen) && |chosen| == |steps| == |m.Values|
    ensures ToSet(Refs(chosen)) == ToSet(refs)
  {
    NoRepeatsIffDistinct(Refs(profiles));
    MatchingSize(steps, profiles, now, m);
    ChosenRefs(steps, profiles, now, refs, chosen, m);
  }

  lemma UsesAllRefs(
    steps: seq<Step>, chosen: seq<Profile>, now: int, refs: seq<string>, m: map<string, string>,
    m': map<string, string>)
    requires NoRepeats(Ids(steps)) && ToSet(Refs(chosen)) == ToSet(refs) == m.Values && |m.Values| == |steps|
    requires Complete(EligibilityGraph(steps, chosen, now), m')
    ensures m'.Values == ToSet(refs)
  {
    MatchingSize(steps, chosen, now, m');
    UsesOnlyRefs(steps, chosen, now, m');
    SameSizeSubset(m'.Values, ToSet(refs));
  }

  lemma MatchingSize(steps: seq<Step>, profiles: seq<Profile>, now: int, m: map<string, string>)
    requires NoRepeats(Ids(steps)) && Complete(EligibilityGraph(steps, profiles, now), m)
    ensures |m.Values| == |steps|
  {
    NoRepeatsIffDistinct(Ids(steps));
    ValuesOfMatching(steps, profiles, now, m);
    NoRepeatsIffDistinct(ValuesOf(steps, m));
  }

  lemma StillMatched(
    steps: seq<Step>, profiles: seq<Profile>, now: int, refs: seq<string>, chosen: seq<Profile>, m: map<string, string>)
    requires Complete(EligibilityGraph(steps, profiles, now), m) && m.Values == ToSet(refs)
    requires Selection(profiles, refs, chosen)
    ensures Complete(EligibilityGraph(steps, chosen, now), m)
  {
    forall s | s in m
      ensures m[s] in EligibleFor(s, steps, chosen, now)
    {
      assert m[s] in EligibleFor(s, steps, profiles, now);
      assert m[s] in m.Values;
      var step, p :| step in steps && p in profiles && step.id == s && ProfileMatches(step, p, now) && p.ref == m[s];
      assert p in chosen;
    }
  }

  lemma UsesOnlyRefs(steps: seq<Step>, profiles: seq<Profile>, now: int, m: map<string, string>)
    requires Complete(EligibilityGraph(steps, profiles, now), m)
    ensures m.Values <= ToSet(Refs(profiles))
  {
    forall v | v in m.Values
      ensures v in Refs(profiles)
    {
      var s :| s in m && m[s] == v;
      assert v in EligibleFor(s, steps, profiles, now);
      RefOfMember(profiles, v);
    }
  }

  lemma ChosenRefs(
    steps: seq<Step>, profiles: seq<Profile>, now: int, refs: seq<string>, chosen: seq<Profile>, m: map<string, string>)
    requires Distinct(Refs(profiles)) && Complete(EligibilityGraph(steps, profiles, now), m) && m.Values == ToSet(refs)
    requires Selection(profiles, refs, chosen)
    ensures Distinct(Refs(chosen)) && ToSet(Refs(chosen)) == ToSet(refs)
    ensures NoRepeats(Refs(chosen)) && |chosen| == |m.Values|
    ensures "" !in Refs(profiles) ==> "" !in Refs(chosen)
  {
    forall i, j | 0 <= i < j < |chosen|
      ensures chosen[i].ref != chosen[j].ref
    {
      assert chosen[i] in chosen && chosen[j] in chosen;
      var a := Locate(profiles, chosen[i]);
      var b := Locate(profiles, chosen[j]);
      assert Refs(profiles)[a] != Refs(profiles)[b];
    }
    forall r
      ensures r in Refs(chosen) <==> r in refs
      ensures r in Refs(chosen) ==> r in Refs(profiles)
    {
      RefOfMember(chosen, r);
      RefOfMember(profiles, r);
      if r in refs {
        assert r in m.Values;
        var s :| s in m && m[s] == r;
      }
    }
    NoRepeatsIffDistinct(Refs(chosen));
  }
}
