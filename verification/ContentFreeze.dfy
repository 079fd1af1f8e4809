/** comment_campaign/service.py, `_freeze_content`: one library item per step, no two with
    the same normalised text, by augmenting paths over text keys. */
module ContentFreeze {
  import opened Sorting
  import opened Bipartite
  import opened CampaignModel

  datatype Item = Item(id: string, text: string)

  datatype FreezeError = LibraryUnavailable | TemplateInvalid | Unsatisfied

  /** What a library id resolves to; None when the resolver is missing, raises or returns
      something that is not a list of well-typed items. */
  type Resolver = string -> Option<seq<Item>>

  const MAX_LIBRARY_ITEMS := 300
  const MAX_ITEM_ID := 120
  const MAX_TEXT := 2200
  const MAX_CANDIDATES := 3000

  function ItemIds(items: seq<Item>): (ids: seq<string>)
    ensures |ids| == |items| && forall i :: 0 <= i < |items| ==> ids[i] == items[i].id
  {
    seq(|items|, i requires 0 <= i < |items| => items[i].id)
  }

  predicate WellFormed(item: Item) {
    item.id != "" && |item.id| <= MAX_ITEM_ID && item.text != "" && |item.text| <= MAX_TEXT
  }

  predicate UsableLibrary(items: seq<Item>) {
    && 0 < |items| <= MAX_LIBRARY_ITEMS
    && (forall item :: item in items ==> WellFormed(item))
    && NoRepeats(ItemIds(items))
  }

  function LibraryIds(steps: seq<Step>): set<string> {
    set step | step in steps && step.source.Library? :: step.source.libraryId
  }

  /** Items read over all the libraries the steps name, each library once. */
  function ItemsRead(steps: seq<Step>, resolve: Resolver): nat {
    if steps == [] then
      0
    else
      var front, last := steps[..|steps| - 1], steps[|steps| - 1];
      ItemsRead(front, resolve)
      + if last.source.Library? && last.source.libraryId !in LibraryIds(front) && resolve(last.source.libraryId).Some?
        then |resolve(last.source.libraryId).value| else 0
  }

  predicate LibrariesReadable(steps: seq<Step>, resolve: Resolver) {
    && (forall id :: id in LibraryIds(steps) ==> resolve(id).Some? && UsableLibrary(resolve(id).value))
    && ItemsRead(steps, resolve) <= MAX_CANDIDATES
  }

  function ById(items: seq<Item>): seq<Item> {
    Sort(items, (a: Item, b: Item) => StringLess(a.id, b.id))
  }

  /** The libraries the steps name, each sorted by item id. */
  function Cache(steps: seq<Step>, resolve: Resolver): map<string, seq<Item>> {
    map id | id in LibraryIds(steps) && resolve(id).Some? :: ById(resolve(id).value)
  }

  predicate NeedsRead(steps: seq<Step>, i: nat)
    requires i < |steps|
  {
    steps[i].source.Library? && steps[i].source.libraryId !in LibraryIds(steps[..i])
  }

  lemma OneMoreStep(steps: seq<Step>, i: nat, resolve: Resolver)
    requires i < |steps|
    ensures LibraryIds(steps[..i + 1]) ==
      LibraryIds(steps[..i]) + if steps[i].source.Library? then {steps[i].source.libraryId} else {}
    ensures ItemsRead(steps[..i + 1], resolve) == ItemsRead(steps[..i], resolve)
      + if NeedsRead(steps, i) && resolve(steps[i].source.libraryId).Some?
        then |resolve(steps[i].source.libraryId).value| else 0
  {
    assert steps[..i + 1][..i] == steps[..i] && steps[..i + 1] == steps[..i] + [steps[i]];
  }

  /** What reading one more step's library adds to what is readable and to the cache. */
  ghost predicate ReadsOneMore(before: seq<Step>, after: seq<Step>, id: string, resolve: Resolver) {
    && (LibrariesReadable(after, resolve) <==>
         && resolve(id).Some? && UsableLibrary(resolve(id).value)
         && ItemsRead(before, resolve) + |resolve(id).value| <= MAX_CANDIDATES)
    && (resolve(id).Some? ==> Cache(after, resolve) == Cache(before, resolve)[id := ById(resolve(id).value)])
  }

  lemma OneMoreLibrary(steps: seq<Step>, i: nat, resolve: Resolver)
    requires i < |steps| && LibrariesReadable(steps[..i], resolve)
    ensures !NeedsRead(steps, i) ==>
      LibrariesReadable(steps[..i + 1], resolve) && Cache(steps[..i + 1], resolve) == Cache(steps[..i], resolve)
    ensures NeedsRead(steps, i) ==> ReadsOneMore(steps[..i], steps[..i + 1], steps[i].source.libraryId, resolve)
  {
    OneMoreStep(steps, i, resolve);
    if NeedsRead(steps, i) {
      AddsLibrary(steps[..i], steps[..i + 1], steps[i].source.libraryId, resolve);
    } else {
      assert LibraryIds(steps[..i + 1]) == LibraryIds(steps[..i]);
    }
  }

  lemma AddsLibrary(before: seq<Step>, after: seq<Step>, id: string, resolve: Resolver)
    requires LibrariesReadable(before, resolve) && id !in LibraryIds(before)
    requires LibraryIds(after) == LibraryIds(before) + {id}
    requires ItemsRead(after, resolve)
      == ItemsRead(before, resolve) + if resolve(id).Some? then |resolve(id).value| else 0
    ensures ReadsOneMore(before, after, id, resolve)
  {
    assert id in LibraryIds(after);
  }

  lemma UnreadablePrefix(steps: seq<Step>, n: nat, resolve: Resolver)
    requires n <= |steps| && !LibrariesReadable(steps[..n], resolve)
    ensures !LibrariesReadable(steps, resolve)
  {
    ItemsReadMonotone(steps, n, resolve);
    assert LibraryIds(steps[..n]) <= LibraryIds(steps);
  }

  /** An item as a library must hold it. */
  predicate ItemFits(item: Item) {
    0 < |item.id| <= 120 && 0 < |item.text| <= 2200
  }

  /** A library of one to 300 items that fit, no two with one id. */
  predicate LibraryFits(items: seq<Item>) {
    && 1 <= |items| <= 300
    && (forall i :: 0 <= i < |items| ==> ItemFits(items[i]))
    && forall i, j :: 0 <= i < j < |items| ==> items[i].id != items[j].id
  }

  /** The items of these libraries. */
  ghost function TotalItems(ids: set<string>, resolve: Resolver): nat {
    if ids == {} then 0
    else
      var id :| id in ids;
      TotalItems(ids - {id}, resolve) + if resolve(id).Some? then |resolve(id).value| else 0
  }

  lemma {:induction false} TotalWithout(ids: set<string>, id: string, resolve: Resolver)
    requires id in ids
    ensures TotalItems(ids, resolve)
      == TotalItems(ids - {id}, resolve) + if resolve(id).Some? then |resolve(id).value| else 0
  {
    var first :| first in ids && TotalItems(ids, resolve)
      == TotalItems(ids - {first}, resolve) + if resolve(first).Some? then |resolve(first).value| else 0;
    if first != id {
      TotalWithout(ids - {first}, id, resolve);
      TotalWithout(ids - {id}, first, resolve);
      assert ids - {first} - {id} == ids - {id} - {first};
    }
  }

  /** Each library is counted once, however many steps name it. */
  lemma {:induction false} ItemsReadIsTotal(steps: seq<Step>, resolve: Resolver)
    ensures ItemsRead(steps, resolve) == TotalItems(LibraryIds(steps), resolve)
  {
    if steps == [] {
      assert LibraryIds(steps) == {};
    } else {
      var n := |steps| - 1;
      ItemsReadIsTotal(steps[..n], resolve);
      OneMoreStep(steps, n, resolve);
      assert steps[..n + 1] == steps;
      if NeedsRead(steps, n) {
        var id := steps[n].source.libraryId;
        TotalWithout(LibraryIds(steps), id, resolve);
        assert LibraryIds(steps) - {id} == LibraryIds(steps[..n]);
      } else {
        assert LibraryIds(steps) == LibraryIds(steps[..n]);
      }
    }
  }

  /** The libraries can be read when each one named resolves to a fitting one, and together they
      hold at most 3000 items. */
  lemma ReadableMeans(steps: seq<Step>, resolve: Resolver)
    ensures LibrariesReadable(steps, resolve) <==>
      && (forall step :: step in steps && step.source.Library? ==>
           resolve(step.source.libraryId).Some? && LibraryFits(resolve(step.source.libraryId).value))
      && TotalItems(LibraryIds(steps), resolve) <= 3000
  {
    ItemsReadIsTotal(steps, resolve);
    forall id | resolve(id).Some?
      ensures UsableLibrary(resolve(id).value) <==> LibraryFits(resolve(id).value)
    {
      FitsMeansUsable(resolve(id).value);
    }
    forall id
      ensures id in LibraryIds(steps) <==>
        exists step :: step in steps && step.source.Library? && step.source.libraryId == id
    {
    }
  }

  lemma FitsMeansUsable(items: seq<Item>)
    ensures UsableLibrary(items) <==> LibraryFits(items)
  {
    NoRepeatsIffDistinct(ItemIds(items));
    if LibraryFits(items) {
      forall item | item in items
        ensures WellFormed(item)
      {
        var i := Locate(items, item);
        assert ItemFits(items[i]);
      }
    }
    if UsableLibrary(items) {
      forall i | 0 <= i < |items|
        ensures ItemFits(items[i])
      {
        assert WellFormed(items[i]);
      }
      forall i, j | 0 <= i < j < |items|
        ensures items[i].id != items[j].id
      {
        assert ItemIds(items)[i] != ItemIds(items)[j];
      }
    }
  }

  method ReadLibraries(steps: seq<Step>, resolve: Resolver) returns (r: Option<map<string, seq<Item>>>)
    ensures r.Some? <==> LibrariesReadable(steps, resolve)
    ensures r.Some? ==> r.value == Cache(steps, resolve)
  {
    var cache: map<string, seq<Item>> := map[];
    var count := 0;
    for i := 0 to |steps|
      invariant LibrariesReadable(steps[..i], resolve)
      invariant count == ItemsRead(steps[..i], resolve)
      invariant cache == Cache(steps[..i], resolve)
    {
      OneMoreStep(steps, i, resolve);
      OneMoreLibrary(steps, i, resolve);
      var source := steps[i].source;
      if source.Fixed? || source.libraryId in cache {
        continue;
      }
      var items := resolve(source.libraryId);
      if items.None? || !UsableLibrary(items.value) {
        UnreadablePrefix(steps, i + 1, resolve);
        return None;
      }
      count := count + |items.value|;
      if count > MAX_CANDIDATES {
        UnreadablePrefix(steps, i + 1, resolve);
        return None;
      }
      cache := cache[source.libraryId := ById(items.value)];
    }
    assert steps[..|steps|] == steps;
    return Some(cache);
  }

  lemma {:induction false} ItemsReadMonotone(steps: seq<Step>, n: nat, resolve: Resolver)
    requires n <= |steps|
    ensures ItemsRead(steps[..n], resolve) <= ItemsRead(steps, resolve)
    decreases |steps|
  {
    if n < |steps| {
      assert steps[..|steps| - 1][..n] == steps[..n];
      ItemsReadMonotone(steps[..|steps| - 1], n, resolve);
    } else {
      assert steps[..n] == steps;
    }
  }

  /** The items a step may use; None when its text is empty or its library has none. */
  function Options(step: Step, resolve: Resolver): seq<Item> {
    match step.source
    case Fixed(text) => if text == "" then [] else [Item("", text)]
    case Library(libraryId, itemId) =>
      if resolve(libraryId).None? then [] else Preferred(ById(resolve(libraryId).value), itemId)
  }

  function Preferred(items: seq<Item>, itemId: string): (r: seq<Item>)
    ensures forall item :: item in r <==> item in items && (itemId == "" || item.id == itemId)
  {
    if items == [] then
      []
    else
      assert items == [items[0]] + items[1..];
      (if itemId == "" || items[0].id == itemId then [items[0]] else []) + Preferred(items[1..], itemId)
  }

  /** What a step may publish: its own non-empty text, or an item of the library it names, the
      one it prefers if it prefers any. */
  predicate MayUse(step: Step, item: Item, resolve: Resolver) {
    match step.source
    case Fixed(text) => text != "" && item.text == text && item.id == ""
    case Library(libraryId, itemId) =>
      resolve(libraryId).Some? && item in resolve(libraryId).value && (itemId != "" ==> item.id == itemId)
  }

  /** The step has something to publish. */
  predicate Offers(step: Step, resolve: Resolver) {
    match step.source
    case Fixed(text) => text != ""
    case Library(libraryId, itemId) =>
      resolve(libraryId).Some? && exists item :: item in resolve(libraryId).value && (itemId == "" || item.id == itemId)
  }

  lemma OptionsMeaning(step: Step, resolve: Resolver)
    ensures forall item :: item in Options(step, resolve) <==> MayUse(step, item, resolve)
    ensures Options(step, resolve) != [] <==> Offers(step, resolve)
  {
    if step.source.Library? && resolve(step.source.libraryId).Some? {
      SameElements(resolve(step.source.libraryId).value, ById(resolve(step.source.libraryId).value));
      if Options(step, resolve) != [] {
        assert Options(step, resolve)[0] in Options(step, resolve);
      }
    }
  }

  /** The distinct texts a step could publish, as normalised keys. */
  function Keys(items: seq<Item>, textKey: string -> string): set<string> {
    set item | item in items && textKey(item.text) != "" :: textKey(item.text)
  }

  function TextGraph(candidates: map<string, seq<Item>>, textKey: string -> string): Graph {
    map s | s in candidates :: Keys(candidates[s], textKey)
  }

  /** One item per step, taken from the step's own options, with pairwise different and
      non-empty text keys. */
  ghost predicate DistinctChoice(
    candidates: map<string, seq<Item>>, textKey: string -> string, selected: map<string, Item>)
  {
    && selected.Keys == candidates.Keys
    && (forall s :: s in selected ==> selected[s] in candidates[s] && textKey(selected[s].text) != "")
    && forall s, t :: s in selected && t in selected && s != t ==>
         textKey(selected[s].text) != textKey(selected[t].text)
  }

  ghost predicate Choosable(candidates: map<string, seq<Item>>, textKey: string -> string) {
    exists selected :: DistinctChoice(candidates, textKey, selected)
  }

  lemma ChoiceIsMatching(candidates: map<string, seq<Item>>, textKey: string -> string)
    requires Choosable(candidates, textKey)
    ensures Matchable(TextGraph(candidates, textKey))
  {
    var selected: map<string, Item> :| DistinctChoice(candidates, textKey, selected);
    var chosen := map s | s in selected :: textKey(selected[s].text);
    forall s | s in candidates
      ensures chosen[s] in Keys(candidates[s], textKey)
    {
    }
    assert Complete(TextGraph(candidates, textKey), chosen);
  }

  /** Outside the claimed keys, the holder of a key has selected an item with that key. */
  ghost predicate Selected(
    candidates: map<string, seq<Item>>, textKey: string -> string, matched: map<string, string>,
    selected: map<string, Item>, seen: set<string>)
  {
    forall k :: k in matched && k !in seen ==>
      && k != "" && matched[k] in candidates && matched[k] in selected
      && selected[matched[k]] in candidates[matched[k]] && textKey(selected[matched[k]].text) == k
  }

  ghost predicate SelectionKept(before: map<string, Item>, after: map<string, Item>, movers: set<string>) {
    forall s :: s !in movers ==> (s in after <==> s in before) && (s in before ==> after[s] == before[s])
  }

  lemma SelectThrough(
    candidates: map<string, seq<Item>>, textKey: string -> string,
    before: map<string, string>, mid: map<string, string>, was: map<string, Item>, now: map<string, Item>,
    seen: set<string>, claimed: set<string>, step: string, item: Item)
    requires seen <= claimed && textKey(item.text) in claimed && textKey(item.text) !in seen && textKey(item.text) != ""
    requires step in candidates && item in candidates[step] && step !in Holders(before, seen)
    requires Sound(TextGraph(candidates, textKey), before, seen) && Selected(candidates, textKey, before, was, seen)
    requires
      var k := textKey(item.text);
      if k in before then
        && Augmented(TextGraph(candidates, textKey), before, mid, claimed, before[k])
        && Selected(candidates, textKey, mid, now, claimed)
        && SelectionKept(was, now, Holders(before, claimed) + {before[k]})
      else mid == before && now == was
    ensures Selected(candidates, textKey, mid[textKey(item.text) := step], now[step := item], seen)
    ensures SelectionKept(was, now[step := item], Holders(before, seen) + {step})
  {
    var key := textKey(item.text);
    var after := mid[key := step];
    forall k | k in after && k !in seen && k != key
      ensures after[k] != step && after[k] in candidates && after[k] in now
      ensures k != "" && now[after[k]] in candidates[after[k]] && textKey(now[after[k]].text) == k
    {
      AugmentValue(TextGraph(candidates, textKey), before, mid, seen, claimed, key, k);
      if k in claimed {
        KeptSelection(candidates, textKey, before, seen, claimed, key, k);
      }
    }
    assert Holders(before, claimed) <= Holders(before, seen);
  }

  /** The holder of a claimed key is none of those that may move. */
  lemma KeptSelection(
    candidates: map<string, seq<Item>>, textKey: string -> string, before: map<string, string>, seen: set<string>,
    claimed: set<string>, key: string, k: string)
    requires Sound(TextGraph(candidates, textKey), before, seen) && seen <= claimed
    requires k in before && k !in seen && k in claimed && k != key && key !in seen
    ensures before[k] in Holders(before, seen) && before[k] !in Holders(before, claimed)
    ensures key in before ==> before[k] != before[key]
  {
  }

  ghost predicate Consistent(
    candidates: map<string, seq<Item>>, textKey: string -> string, matched: map<string, string>,
    selected: map<string, Item>, seen: set<string>)
  {
    Sound(TextGraph(candidates, textKey), matched, seen) && Selected(candidates, textKey, matched, selected, seen)
  }

  /** What a successful search for `step` did to the keys' holders and to the choices. */
  ghost predicate Moved(
    candidates: map<string, seq<Item>>, textKey: string -> string, before: map<string, string>, was: map<string, Item>,
    after: map<string, string>, now: map<string, Item>, seen: set<string>, step: string)
  {
    && Augmented(TextGraph(candidates, textKey), before, after, seen, step)
    && Selected(candidates, textKey, after, now, seen)
    && SelectionKept(was, now, Holders(before, seen) + {step})
  }

  /** Taking an item keeps both views of the search in step. */
  lemma Reroute(
    candidates: map<string, seq<Item>>, textKey: string -> string,
    before: map<string, string>, mid: map<string, string>, was: map<string, Item>, now: map<string, Item>,
    seen: set<string>, claimed: set<string>, step: string, item: Item)
    requires seen <= claimed && textKey(item.text) in claimed && textKey(item.text) !in seen && textKey(item.text) != ""
    requires step in candidates && item in candidates[step] && step !in Holders(before, seen)
    requires Consistent(candidates, textKey, before, was, seen)
    requires
      var k := textKey(item.text);
      if k in before then Moved(candidates, textKey, before, was, mid, now, claimed, before[k])
      else mid == before && now == was
    ensures Moved(candidates, textKey, before, was, mid[textKey(item.text) := step], now[step := item], seen, step)
  {
    AugmentThrough(TextGraph(candidates, textKey), before, mid, seen, claimed, textKey(item.text), step);
    SelectThrough(candidates, textKey, before, mid, was, now, seen, claimed, step, item);
  }

  /** The holder of a key can be searched for once that key is claimed. */
  lemma HolderReady(
    candidates: map<string, seq<Item>>, textKey: string -> string, matched: map<string, string>,
    selected: map<string, Item>, seen: set<string>, claimed: set<string>, key: string)
    requires Consistent(candidates, textKey, matched, selected, seen) && key in matched && key !in seen
    requires seen <= claimed && key in claimed
    ensures Consistent(candidates, textKey, matched, selected, claimed)
    ensures matched[key] in candidates && matched[key] !in Holders(matched, claimed)
  {
  }

  lemma HoldersSelected(
    candidates: map<string, seq<Item>>, textKey: string -> string, matched: map<string, string>,
    selected: map<string, Item>)
    requires Sound(TextGraph(candidates, textKey), matched, {}) && Selected(candidates, textKey, matched, selected, {})
    requires Holders(matched, {}) == candidates.Keys
    ensures candidates.Keys <= selected.Keys
    ensures forall s :: s in candidates ==>
      textKey(selected[s].text) in matched && matched[textKey(selected[s].text)] == s
    ensures DistinctChoice(candidates, textKey, map s | s in candidates :: selected[s])
  {
    forall s | s in candidates
      ensures s in selected && selected[s] in candidates[s]
      ensures textKey(selected[s].text) in matched && matched[textKey(selected[s].text)] == s
      ensures textKey(selected[s].text) != ""
    {
      assert s in Holders(matched, {});
      var k :| k in matched && matched[k] == s;
    }
  }

  lemma ExhaustedRefutesChoice(
    candidates: map<string, seq<Item>>, textKey: string -> string, matched: map<string, string>, seen: set<string>,
    step: string)
    requires Sound(TextGraph(candidates, textKey), matched, {}) && step !in Holders(matched, {})
    requires Exhausted(TextGraph(candidates, textKey), matched, {}, seen, step)
    ensures !Choosable(candidates, textKey)
  {
    ExhaustedViolates(TextGraph(candidates, textKey), matched, seen, step);
    HallViolatorRefutes(TextGraph(candidates, textKey), {step} + Image(matched, seen), seen);
    if Choosable(candidates, textKey) {
      ChoiceIsMatching(candidates, textKey);
    }
  }

  /* Which choice is found: the search as a function of the options and their order. */

  datatype Pick = Pick(found: bool, matched: map<string, string>, selected: map<string, Item>, seen: set<string>)

  datatype Picked = Picked(matched: map<string, string>, selected: map<string, Item>)

  const NOTHING := Picked(map[], map[])

  type ItemOrder = string -> (Item, Item) -> bool

  function AllKeys(candidates: map<string, seq<Item>>, textKey: string -> string): set<string> {
    set s, k | s in candidates && k in Keys(candidates[s], textKey) :: k
  }

  predicate Lists(candidates: map<string, seq<Item>>, matched: map<string, string>) {
    forall k :: k in matched ==> matched[k] in candidates
  }

  /** The search for `step` from its `i`-th option on: the first option that can be taken is. */
  function Choose(
    candidates: map<string, seq<Item>>, textKey: string -> string, order: ItemOrder, was: Picked, seen: set<string>,
    step: string, i: nat): (r: Pick)
    requires Lists(candidates, was.matched) && step in candidates && i <= |Sort(candidates[step], order(step))|
    ensures seen <= r.seen && Lists(candidates, r.matched)
    decreases AllKeys(candidates, textKey) - seen, |Sort(candidates[step], order(step))| - i + 1
  {
    var options := Sort(candidates[step], order(step));
    if i == |options| then
      Pick(false, was.matched, was.selected, seen)
    else
      var key := textKey(options[i].text);
      SameElements(candidates[step], options);
      assert options[i] in options;
      if key == "" || key in seen then
        Choose(candidates, textKey, order, was, seen, step, i + 1)
      else
        assert key in Keys(candidates[step], textKey) && key in AllKeys(candidates, textKey);
        var tried := ChooseItem(candidates, textKey, order, was, seen, step, options[i]);
        if tried.found then tried
        else Choose(candidates, textKey, order, Picked(tried.matched, tried.selected), tried.seen, step, i + 1)
  }

  /** An option is taken when its key is free or the key's holder can move to another text. */
  function ChooseItem(
    candidates: map<string, seq<Item>>, textKey: string -> string, order: ItemOrder, was: Picked, seen: set<string>,
    step: string, item: Item): (r: Pick)
    requires Lists(candidates, was.matched) && step in candidates && item in candidates[step]
    requires textKey(item.text) != "" && textKey(item.text) !in seen
    ensures seen + {textKey(item.text)} <= r.seen && Lists(candidates, r.matched)
    decreases AllKeys(candidates, textKey) - seen, 0
  {
    var key := textKey(item.text);
    assert key in Keys(candidates[step], textKey) && key in AllKeys(candidates, textKey);
    if key !in was.matched then
      Pick(true, was.matched[key := step], was.selected[step := item], seen + {key})
    else
      var inner := Choose(candidates, textKey, order, was, seen + {key}, was.matched[key], 0);
      if inner.found then
        inner.(matched := inner.matched[key := step], selected := inner.selected[step := item])
      else
        inner
  }

  /** The searches from the `i`-th step on, in order; None once one of them fails. */
  function ChooseFrom(
    candidates: map<string, seq<Item>>, textKey: string -> string, order: ItemOrder, was: Picked, ordered: seq<string>,
    i: nat): (r: Option<Picked>)
    requires i <= |ordered| && Lists(candidates, was.matched) && forall step :: step in ordered ==> step in candidates
    decreases |ordered| - i
  {
    if i == |ordered| then
      Some(was)
    else
      var last := Choose(candidates, textKey, order, was, {}, ordered[i], 0);
      if last.found
      then ChooseFrom(candidates, textKey, order, Picked(last.matched, last.selected), ordered, i + 1)
      else None
  }

  /** Every key claimed since `before` is held, and all its holder's keys are claimed too. */
  ghost predicate ClosedSince(g: Graph, matched: map<string, string>, before: set<string>, seen: set<string>) {
    forall k :: k in seen && k !in before ==> k in matched && matched[k] in g && g[matched[k]] <= seen
  }

  lemma AllTried(
    candidates: map<string, seq<Item>>, textKey: string -> string, matched: map<string, string>, before: set<string>,
    seen: set<string>, step: string, options: seq<Item>)
    requires step in candidates && multiset(candidates[step]) == multiset(options) && before <= seen
    requires forall i :: 0 <= i < |options| && textKey(options[i].text) != "" ==> textKey(options[i].text) in seen
    requires ClosedSince(TextGraph(candidates, textKey), matched, before, seen)
    ensures Exhausted(TextGraph(candidates, textKey), matched, before, seen, step)
  {
    SameElements(candidates[step], options);
    assert forall item :: item in candidates[step] ==> item in options;
  }

  class ContentSearch {
    const candidates: map<string, seq<Item>>
    const textKey: string -> string
    const order: ItemOrder
    var matched: map<string, string>
    var selected: map<string, Item>
    var seen: set<string>

    constructor (candidates: map<string, seq<Item>>, textKey: string -> string, order: ItemOrder)
      ensures this.candidates == candidates && this.textKey == textKey && this.order == order
      ensures matched == map[] && selected == map[] && seen == {}
    {
      this.candidates, this.textKey, this.order := candidates, textKey, order;
      matched, selected, seen := map[], map[], {};
    }

    ghost function G(): Graph {
      TextGraph(candidates, textKey)
    }

    ghost function Unseen(): set<string>
      reads this
    {
      AllKeys(candidates, textKey) - seen
    }

    method Assign(step: string) returns (ok: bool)
      requires step in candidates && Lists(candidates, matched)
      requires Consistent(candidates, textKey, matched, selected, seen) && step !in Holders(matched, seen)
      modifies this
      ensures Pick(ok, matched, selected, seen)
        == Choose(candidates, textKey, order, Picked(old(matched), old(selected)), old(seen), step, 0)
      ensures old(seen) <= seen
      ensures ok ==> Moved(candidates, textKey, old(matched), old(selected), matched, selected, old(seen), step)
      ensures !ok ==> matched == old(matched) && selected == old(selected)
      ensures !ok ==> Exhausted(G(), matched, old(seen), seen, step)
      decreases Unseen(), 1
    {
      var options := Sort(candidates[step], order(step));
      SameElements(candidates[step], options);
      for i := 0 to |options|
        invariant old(seen) <= seen && matched == old(matched) && selected == old(selected)
        invariant Choose(candidates, textKey, order, Picked(old(matched), old(selected)), old(seen), step, 0)
          == Choose(candidates, textKey, order, Picked(matched, selected), seen, step, i)
        invariant forall j :: 0 <= j < i && textKey(options[j].text) != "" ==> textKey(options[j].text) in seen
        invariant ClosedSince(G(), matched, old(seen), seen)
      {
        var key := textKey(options[i].text);
        if key == "" || key in seen {
          continue;
        }
        assert options[i] in options;
        var taken := Take(step, options[i], old(seen));
        if taken {
          return true;
        }
      }
      AllTried(candidates, textKey, matched, old(seen), seen, step, options);
      return false;
    }

    /** Claims the item's key and takes it if it is free or its holder can move. `base` are the
        keys claimed when the search for `step` began. */
    method Take(step: string, item: Item, ghost base: set<string>) returns (ok: bool)
      requires step in candidates && item in candidates[step] && Lists(candidates, matched)
      requires textKey(item.text) != "" && textKey(item.text) !in seen && base <= seen
      requires Consistent(candidates, textKey, matched, selected, base) && step !in Holders(matched, base)
      modifies this
      ensures Pick(ok, matched, selected, seen)
        == ChooseItem(candidates, textKey, order, Picked(old(matched), old(selected)), old(seen), step, item)
      ensures old(seen) + {textKey(item.text)} <= seen
      ensures ok ==> Moved(candidates, textKey, old(matched), old(selected), matched, selected, base, step)
      ensures !ok ==> matched == old(matched) && selected == old(selected)
      ensures !ok ==> ClosedSince(G(), matched, old(seen), seen)
      decreases Unseen(), 0
    {
      var key := textKey(item.text);
      assert key in Keys(candidates[step], textKey) && key in Unseen();
      ghost var claimed := seen + {key};
      seen := seen + {key};
      ok := key !in matched;
      if !ok {
        HolderReady(candidates, textKey, matched, selected, base, claimed, key);
        ok := Assign(matched[key]);
      }
      if ok {
        Reroute(candidates, textKey, old(matched), matched, old(selected), selected, base, claimed, step, item);
        matched := matched[key := step];
        selected := selected[step := item];
      }
    }

    /** One search with nothing claimed. */
    method SearchFor(step: string) returns (ok: bool)
      requires step in candidates && Lists(candidates, matched)
      requires Consistent(candidates, textKey, matched, selected, {}) && step !in Holders(matched, {})
      modifies this
      ensures Lists(candidates, matched)
      ensures
        var r := Choose(candidates, textKey, order, Picked(old(matched), old(selected)), {}, step, 0);
        ok == r.found && matched == r.matched && selected == r.selected
      ensures ok ==> Consistent(candidates, textKey, matched, selected, {})
      ensures ok ==> Holders(matched, {}) == Holders(old(matched), {}) + {step}
      ensures !ok ==> !Choosable(candidates, textKey)
    {
      seen := {};
      ok := Assign(step);
      if !ok {
        ExhaustedRefutesChoice(candidates, textKey, matched, seen, step);
      }
    }

    method AssignAll(ordered: seq<string>) returns (ok: bool)
      requires matched == map[] && selected == map[] && Distinct(ordered) && ToSet(ordered) == candidates.Keys
      modifies this
      ensures ChooseFrom(candidates, textKey, order, NOTHING, ordered, 0)
        == if ok then Some(Picked(matched, selected)) else None
      ensures ok ==> Sound(G(), matched, {}) && Holders(matched, {}) == G().Keys
      ensures ok ==> Selected(candidates, textKey, matched, selected, {})
      ensures !ok ==> !Choosable(candidates, textKey)
    {
      for i := 0 to |ordered|
        invariant Lists(candidates, matched)
        invariant ChooseFrom(candidates, textKey, order, NOTHING, ordered, 0)
          == ChooseFrom(candidates, textKey, order, Picked(matched, selected), ordered, i)
        invariant Consistent(candidates, textKey, matched, selected, {})
        invariant Holders(matched, {}) == ToSet(ordered[..i])
      {
        var step := ordered[i];
        NewInPrefix(ordered, i);
        PrefixSet(ordered, i);
        var found := SearchFor(step);
        if !found {
          return false;
        }
      }
      assert ordered[..|ordered|] == ordered;
      return true;
    }
  }

  function CandidateMap(steps: seq<Step>, resolve: Resolver): map<string, seq<Item>> {
    map s | s in Ids(steps) :: Options(StepWithId(steps, s), resolve)
  }

  predicate EveryStepHasOptions(steps: seq<Step>, resolve: Resolver) {
    forall step :: step in steps ==> Options(step, resolve) != []
  }

  /** The first step without anything to publish, and the error it stands for. */
  ghost predicate Lacking(steps: seq<Step>, i: int, resolve: Resolver, error: FreezeError) {
    && 0 <= i < |steps| && !Offers(steps[i], resolve)
    && (forall j :: 0 <= j < i ==> Offers(steps[j], resolve))
    && (error == TemplateInvalid <==> steps[i].source.Fixed?)
    && (error == LibraryUnavailable <==> steps[i].source.Library?)
  }

  lemma OffersEverywhere(steps: seq<Step>, resolve: Resolver)
    ensures EveryStepHasOptions(steps, resolve) <==> forall step :: step in steps ==> Offers(step, resolve)
  {
    forall step | step in steps
      ensures Options(step, resolve) != [] <==> Offers(step, resolve)
    {
      OptionsMeaning(step, resolve);
    }
  }

  /** Every step is given something it may publish, and no two the same text. */
  ghost predicate Published(
    steps: seq<Step>, resolve: Resolver, textKey: string -> string, selected: map<string, Item>)
  {
    && (forall s :: s in selected <==> exists step :: step in steps && step.id == s)
    && (forall step :: step in steps && step.id in selected ==>
         MayUse(step, selected[step.id], resolve) && textKey(selected[step.id].text) != "")
    && forall s, t :: s in selected && t in selected && s != t ==>
         textKey(selected[s].text) != textKey(selected[t].text)
  }

  lemma OptionAt(steps: seq<Step>, resolve: Resolver, step: Step)
    requires Distinct(Ids(steps)) && step in steps
    ensures step.id in CandidateMap(steps, resolve)
    ensures forall item :: item in CandidateMap(steps, resolve)[step.id] <==> MayUse(step, item, resolve)
  {
    var i := Locate(steps, step);
    IdsAreKeys(steps, i);
    assert Ids(steps)[i] == step.id;
    OptionsMeaning(step, resolve);
  }

  /** The candidates of each step are what it may publish. */
  ghost predicate ListsUses(candidates: map<string, seq<Item>>, steps: seq<Step>, resolve: Resolver) {
    && (forall s :: s in candidates <==> exists step :: step in steps && step.id == s)
    && forall step, item :: step in steps && step.id in candidates ==>
         (item in candidates[step.id] <==> MayUse(step, item, resolve))
  }

  lemma CandidatesListUses(steps: seq<Step>, resolve: Resolver)
    requires Distinct(Ids(steps))
    ensures ListsUses(CandidateMap(steps, resolve), steps, resolve)
  {
    forall step | step in steps
      ensures forall item :: item in Options(StepWithId(steps, step.id), resolve) <==> MayUse(step, item, resolve)
    {
      OptionAt(steps, resolve, step);
    }
    forall s
      ensures s in Ids(steps) <==> exists step :: step in steps && step.id == s
    {
      IdOfMember(steps, s);
    }
  }

  lemma ChosenIsPublished(
    candidates: map<string, seq<Item>>, steps: seq<Step>, resolve: Resolver, textKey: string -> string,
    selected: map<string, Item>)
    requires ListsUses(candidates, steps, resolve) && DistinctChoice(candidates, textKey, selected)
    ensures Published(steps, resolve, textKey, selected)
  {
  }

  lemma PublishedIsChosen(
    candidates: map<string, seq<Item>>, steps: seq<Step>, resolve: Resolver, textKey: string -> string,
    selected: map<string, Item>)
    requires ListsUses(candidates, steps, resolve) && Published(steps, resolve, textKey, selected)
    ensures DistinctChoice(candidates, textKey, selected)
  {
    forall s | s in selected
      ensures s in candidates && selected[s] in candidates[s] && textKey(selected[s].text) != ""
    {
      var step :| step in steps && step.id == s;
    }
    assert selected.Keys == candidates.Keys;
  }

  /** A choice among the options is one that the steps may publish, and the other way round. */
  lemma ChoiceIsPublished(
    steps: seq<Step>, resolve: Resolver, textKey: string -> string, selected: map<string, Item>)
    requires Distinct(Ids(steps))
    ensures DistinctChoice(CandidateMap(steps, resolve), textKey, selected)
      <==> Published(steps, resolve, textKey, selected)
  {
    CandidatesListUses(steps, resolve);
    if DistinctChoice(CandidateMap(steps, resolve), textKey, selected) {
      ChosenIsPublished(CandidateMap(steps, resolve), steps, resolve, textKey, selected);
    }
    if Published(steps, resolve, textKey, selected) {
      PublishedIsChosen(CandidateMap(steps, resolve), steps, resolve, textKey, selected);
    }
  }

  /** The error of the first step without options. */
  function MissingOptions(steps: seq<Step>, resolve: Resolver): FreezeError
    requires !EveryStepHasOptions(steps, resolve)
  {
    if Options(steps[0], resolve) != [] then MissingOptions(steps[1..], resolve)
    else if steps[0].source.Fixed? then TemplateInvalid
    else LibraryUnavailable
  }

  lemma {:induction false} FirstMissing(steps: seq<Step>, i: nat, resolve: Resolver)
    requires i < |steps| && Options(steps[i], resolve) == []
    requires forall j :: 0 <= j < i ==> Options(steps[j], resolve) != []
    ensures !EveryStepHasOptions(steps, resolve)
    ensures MissingOptions(steps, resolve) == if steps[i].source.Fixed? then TemplateInvalid else LibraryUnavailable
    ensures Lacking(steps, i, resolve, MissingOptions(steps, resolve))
  {
    assert steps[i] in steps;
    AllOffered(steps, i, resolve);
    if i > 0 {
      var rest := steps[1..];
      assert rest[i - 1] == steps[i];
      forall j | 0 <= j < i - 1
        ensures Options(rest[j], resolve) != []
      {
        assert rest[j] == steps[j + 1];
      }
      FirstMissing(rest, i - 1, resolve);
      assert Options(steps[0], resolve) != [];
    }
  }

  lemma AllOffered(steps: seq<Step>, i: nat, resolve: Resolver)
    requires i < |steps| && Options(steps[i], resolve) == []
    requires forall j :: 0 <= j < i ==> Options(steps[j], resolve) != []
    ensures !Offers(steps[i], resolve) && forall j :: 0 <= j < i ==> Offers(steps[j], resolve)
  {
    OptionsMeaning(steps[i], resolve);
    forall j | 0 <= j < i
      ensures Offers(steps[j], resolve)
    {
      OptionsMeaning(steps[j], resolve);
    }
  }

  function OptionsFrom(step: Step, cache: map<string, seq<Item>>): seq<Item>
    requires step.source.Library? ==> step.source.libraryId in cache
  {
    match step.source
    case Fixed(text) => if text == "" then [] else [Item("", text)]
    case Library(libraryId, itemId) => Preferred(cache[libraryId], itemId)
  }

  lemma CachedOptions(steps: seq<Step>, step: Step, resolve: Resolver)
    requires step in steps && (step.source.Library? ==> resolve(step.source.libraryId).Some?)
    ensures step.source.Library? ==> step.source.libraryId in Cache(steps, resolve)
    ensures OptionsFrom(step, Cache(steps, resolve)) == Options(step, resolve)
  {
    if step.source.Library? {
      assert step.source.libraryId in LibraryIds(steps);
      CacheAt(steps, step.source.libraryId, resolve);
    }
  }

  lemma CacheAt(steps: seq<Step>, id: string, resolve: Resolver)
    requires id in LibraryIds(steps) && resolve(id).Some?
    ensures id in Cache(steps, resolve) && Cache(steps, resolve)[id] == ById(resolve(id).value)
  {
  }

  method ListOptions(steps: seq<Step>, resolve: Resolver, cache: map<string, seq<Item>>)
    returns (r: Result<map<string, seq<Item>>, FreezeError>)
    requires Distinct(Ids(steps)) && LibrariesReadable(steps, resolve) && cache == Cache(steps, resolve)
    ensures r.Ok? <==> EveryStepHasOptions(steps, resolve)
    ensures r.Ok? <==> forall step :: step in steps ==> Offers(step, resolve)
    ensures r.Ok? ==> r.value == CandidateMap(steps, resolve) && r.value.Keys == ToSet(Ids(steps))
    ensures r.Err? ==> r.error == MissingOptions(steps, resolve)
    ensures r.Err? ==> exists i :: Lacking(steps, i, resolve, r.error)
  {
    OffersEverywhere(steps, resolve);
    var candidates: map<string, seq<Item>> := map[];
    for i := 0 to |steps|
      invariant ListedUpTo(Ids(steps), AllOptions(steps, resolve), candidates, i)
    {
      CachedStep(steps, i, resolve);
      var values := OptionsFrom(steps[i], cache);
      if values == [] {
        FirstMissing(steps, i, resolve);
        return Err(if steps[i].source.Fixed? then TemplateInvalid else LibraryUnavailable);
      }
      ListedStep(Ids(steps), AllOptions(steps, resolve), candidates, i);
      candidates := candidates[steps[i].id := values];
    }
    BuiltCandidates(steps, resolve, candidates);
    return Ok(candidates);
  }

  function AllOptions(steps: seq<Step>, resolve: Resolver): (options: seq<seq<Item>>)
    ensures |options| == |steps| && forall i :: 0 <= i < |steps| ==> options[i] == Options(steps[i], resolve)
  {
    seq(|steps|, i requires 0 <= i < |steps| => Options(steps[i], resolve))
  }

  /** The first `i` steps' options have been listed, none of them empty. */
  ghost predicate ListedUpTo(ids: seq<string>, options: seq<seq<Item>>, candidates: map<string, seq<Item>>, i: nat)
    requires i <= |ids| == |options|
  {
    && candidates.Keys == ToSet(ids[..i])
    && (forall j :: 0 <= j < i ==> ids[j] in candidates && candidates[ids[j]] == options[j])
    && forall j :: 0 <= j < i ==> options[j] != []
  }

  lemma ListedStep(ids: seq<string>, options: seq<seq<Item>>, candidates: map<string, seq<Item>>, i: nat)
    requires i < |ids| == |options| && Distinct(ids) && ListedUpTo(ids, options, candidates, i)
    requires options[i] != []
    ensures ListedUpTo(ids, options, candidates[ids[i] := options[i]], i + 1)
  {
    PrefixSet(ids, i);
    NewInPrefix(ids, i);
  }

  lemma CachedStep(steps: seq<Step>, i: nat, resolve: Resolver)
    requires i < |steps| && LibrariesReadable(steps, resolve)
    ensures steps[i].source.Library? ==> steps[i].source.libraryId in Cache(steps, resolve)
    ensures OptionsFrom(steps[i], Cache(steps, resolve)) == Options(steps[i], resolve)
  {
    assert steps[i] in steps;
    assert steps[i].source.Library? ==> steps[i].source.libraryId in LibraryIds(steps);
    CachedOptions(steps, steps[i], resolve);
  }

  function FreezeErrorFor(steps: seq<Step>, resolve: Resolver): FreezeError {
    if !LibrariesReadable(steps, resolve) then LibraryUnavailable
    else if !EveryStepHasOptions(steps, resolve) then MissingOptions(steps, resolve)
    else Unsatisfied
  }

  /** What the searches end with, steps taken scarcest first. */
  function FirstChoice(
    candidates: map<string, seq<Item>>, steps: seq<Step>, textKey: string -> string, order: ItemOrder)
    : Option<Picked>
    requires Distinct(Ids(steps)) && candidates.Keys == ToSet(Ids(steps))
  {
    var ordered := ScarcestFirst(steps, candidates);
    assert forall s :: s in ordered ==> s in ToSet(ordered);
    ChooseFrom(candidates, textKey, order, NOTHING, ordered, 0)
  }

  predicate Agrees(found: Option<Picked>, selected: map<string, Item>) {
    found.Some? && forall s :: s in selected ==> s in found.value.selected && found.value.selected[s] == selected[s]
  }

  /** Succeeds exactly when the libraries can be read, every step has an option and the
      options allow pairwise different texts; the choice returned is such a one. */
  method FreezeContent(
    steps: seq<Step>, resolve: Resolver, textKey: string -> string, order: ItemOrder)
    returns (r: Result<map<string, Item>, FreezeError>)
    requires Distinct(Ids(steps))
    ensures r.Ok? <==>
      && LibrariesReadable(steps, resolve) && EveryStepHasOptions(steps, resolve)
      && Choosable(CandidateMap(steps, resolve), textKey)
    ensures r.Ok? <==>
      LibrariesReadable(steps, resolve) && exists selected :: Published(steps, resolve, textKey, selected)
    ensures r.Ok? ==> Published(steps, resolve, textKey, r.value)
    ensures r.Ok? ==> DistinctChoice(CandidateMap(steps, resolve), textKey, r.value)
    ensures r.Ok? ==> Agrees(FirstChoice(CandidateMap(steps, resolve), steps, textKey, order), r.value)
    ensures r.Err? ==> r.error == FreezeErrorFor(steps, resolve)
  {
    PublishableIff(steps, resolve, textKey);
    var cache := ReadLibraries(steps, resolve);
    if cache.None? {
      return Err(LibraryUnavailable);
    }
    var options := ListOptions(steps, resolve, cache.value);
    if options.Err? {
      return Err(options.error);
    }
    var candidates := options.value;
    var search := new ContentSearch(candidates, textKey, order);
    var ok := search.AssignAll(ScarcestFirst(steps, candidates));
    if !ok {
      return Err(Unsatisfied);
    }
    HoldersSelected(candidates, textKey, search.matched, search.selected);
    var selected := map s | s in candidates :: search.selected[s];
    ChoiceIsPublished(steps, resolve, textKey, selected);
    return Ok(selected);
  }

  lemma PublishableIff(steps: seq<Step>, resolve: Resolver, textKey: string -> string)
    requires Distinct(Ids(steps))
    ensures EveryStepHasOptions(steps, resolve) && Choosable(CandidateMap(steps, resolve), textKey)
      <==> exists selected :: Published(steps, resolve, textKey, selected)
  {
    if Choosable(CandidateMap(steps, resolve), textKey) {
      var selected :| DistinctChoice(CandidateMap(steps, resolve), textKey, selected);
      ChoiceIsPublished(steps, resolve, textKey, selected);
    }
    if selected :| Published(steps, resolve, textKey, selected) {
      ChoiceIsPublished(steps, resolve, textKey, selected);
      forall step | step in steps
        ensures Options(step, resolve) != []
      {
        OptionsMeaning(step, resolve);
        assert selected[step.id] in Options(step, resolve);
      }
    }
  }

  lemma BuiltCandidates(steps: seq<Step>, resolve: Resolver, candidates: map<string, seq<Item>>)
    requires Distinct(Ids(steps)) && ListedUpTo(Ids(steps), AllOptions(steps, resolve), candidates, |steps|)
    ensures candidates == CandidateMap(steps, resolve)
    ensures candidates.Keys == ToSet(Ids(steps))
    ensures EveryStepHasOptions(steps, resolve)
  {
    assert Ids(steps)[..|steps|] == Ids(steps);
    forall s | s in Ids(steps)
      ensures candidates[s] == Options(StepWithId(steps, s), resolve)
    {
      BuiltFor(s, steps, resolve, candidates);
    }
    forall step | step in steps
      ensures Options(step, resolve) != []
    {
      var j := Locate(steps, step);
    }
  }

  lemma BuiltFor(s: string, steps: seq<Step>, resolve: Resolver, candidates: map<string, seq<Item>>)
    requires ListedUpTo(Ids(steps), AllOptions(steps, resolve), candidates, |steps|) && s in Ids(steps)
    ensures s in candidates && candidates[s] == Options(StepWithId(steps, s), resolve)
  {
    var j := Locate(steps, StepWithId(steps, s));
    assert Ids(steps)[j] == s;
  }

  /** `b` lists the items of `a`, perhaps in another order. */
  predicate SameListing(a: Option<seq<Item>>, b: Option<seq<Item>>) {
    (a.Some? <==> b.Some?) && (a.Some? ==> multiset(a.value) == multiset(b.value))
  }

  /** The frozen texts do not depend on the order in which a library lists its items. */
  lemma ChoiceForgetsListingOrder(
    steps: seq<Step>, resolve: Resolver, resolve': Resolver, textKey: string -> string, order: ItemOrder,
    selected: map<string, Item>, selected': map<string, Item>)
    requires Distinct(Ids(steps)) && LibrariesReadable(steps, resolve)
    requires forall id :: SameListing(resolve(id), resolve'(id))
    requires selected.Keys == selected'.Keys == ToSet(Ids(steps))
    requires Agrees(FirstChoice(CandidateMap(steps, resolve), steps, textKey, order), selected)
    requires Agrees(FirstChoice(CandidateMap(steps, resolve'), steps, textKey, order), selected')
    ensures selected == selected'
  {
    SameCandidates(steps, resolve, resolve');
  }

  lemma SameCandidates(steps: seq<Step>, resolve: Resolver, resolve': Resolver)
    requires LibrariesReadable(steps, resolve) && forall id :: SameListing(resolve(id), resolve'(id))
    ensures CandidateMap(steps, resolve) == CandidateMap(steps, resolve')
  {
    forall step | step in steps
      ensures Options(step, resolve) == Options(step, resolve')
    {
      if step.source.Library? {
        var id := step.source.libraryId;
        assert id in LibraryIds(steps) && SameListing(resolve(id), resolve'(id));
        SameById(resolve(id).value, resolve'(id).value);
      }
    }
    forall s | s in Ids(steps)
      ensures CandidateMap(steps, resolve)[s] == CandidateMap(steps, resolve')[s]
    {
      assert StepWithId(steps, s) in steps;
    }
  }

  lemma SameById(items: seq<Item>, items': seq<Item>)
    requires NoRepeats(ItemIds(items)) && multiset(items) == multiset(items')
    ensures ById(items) == ById(items')
  {
    NoRepeatsIffDistinct(ItemIds(items));
    SameElements(items, items');
    ItemsDistinct(items);
    DistinctIffMultiset(items);
    DistinctIffMultiset(items');
    IdOrderIsStrict(items);
    SortForgetsOrder(items, items', (a: Item, b: Item) => StringLess(a.id, b.id));
  }

  lemma ItemsDistinct(items: seq<Item>)
    requires Distinct(ItemIds(items))
    ensures Distinct(items)
    ensures forall a, b :: a in items && b in items && a != b ==> a.id != b.id
  {
    forall a, b | a in items && b in items && a != b
      ensures a.id != b.id
    {
      var i := Locate(items, a);
      var j := Locate(items, b);
      assert ItemIds(items)[i] != ItemIds(items)[j];
    }
    forall i, j | 0 <= i < j < |items|
      ensures items[i] != items[j]
    {
      assert ItemIds(items)[i] != ItemIds(items)[j];
    }
  }

  lemma IdOrderIsStrict(items: seq<Item>)
    requires forall a, b :: a in items && b in items && a != b ==> a.id != b.id
    ensures StrictWeak((a: Item, b: Item) => StringLess(a.id, b.id))
    ensures TotalOn(items, (a: Item, b: Item) => StringLess(a.id, b.id))
  {
    forall a: Item, b: Item, c: Item
      ensures StringLess(a.id, b.id) ==> !StringLess(b.id, a.id)
      ensures !StringLess(a.id, b.id) && !StringLess(b.id, a.id) ==> a.id == b.id
      ensures StringLess(a.id, c.id) ==> StringLess(a.id, b.id) || StringLess(b.id, c.id)
    {
      StringLessAsymmetric(a.id, b.id);
      if StringLess(a.id, c.id) {
        StringLessTransitive(a.id, b.id, c.id);
      }
    }
  }
}
