/** Listing a forest's nodes shallowest first, and numbering a list from 1. */
module ExecutionOrders {
  import opened Sorting
  import opened ParentForest

  function IndexOf<T(==)>(ids: seq<T>, id: T): nat {
    if ids == [] || ids[0] == id then 0 else 1 + IndexOf(ids[1..], id)
  }

  /** Shallower first, and template order within a depth. */
  predicate Earlier<T(==)>(ids: seq<T>, depth: map<T, nat>, a: T, b: T) {
    && a in depth && b in depth
    && (depth[a] < depth[b] || (depth[a] == depth[b] && IndexOf(ids, a) < IndexOf(ids, b)))
  }

  ghost predicate InOrder<T(!new)>(ids: seq<T>, depth: map<T, nat>, order: seq<T>) {
    Distinct(order) && forall i, j :: 0 <= i < j < |order| ==> Earlier(ids, depth, order[i], order[j])
  }

  /** `order` lists the steps of depth below `d`, each once, in execution order. */
  ghost predicate Scheduled<T(!new)>(ids: seq<T>, depth: map<T, nat>, order: seq<T>, d: nat) {
    InOrder(ids, depth, order) && forall id :: id in order <==> id in depth && depth[id] < d
  }

  ghost predicate Unscheduled<T(!new)>(depth: map<T, nat>, pending: set<T>, d: nat) {
    forall id :: id in pending <==> id in depth && depth[id] >= d
  }

  ghost predicate Numbered<T(!new)>(order: seq<T>, positions: map<T, int>) {
    (forall id :: id in positions <==> id in order) && forall i :: 0 <= i < |order| ==> positions[order[i]] == i + 1
  }

  ghost predicate OrderedBy<T(!new)>(ids: seq<T>, parents: Parents<T>, depth: map<T, nat>, order: seq<T>) {
    IsDepth(parents, depth) && InOrder(ids, depth, order) && forall id :: id in order <==> id in parents
  }

  /** The order the steps run in, stated without the loop that computes it. */
  ghost predicate ExecutionOrder<T(!new)>(ids: seq<T>, parents: Parents<T>, order: seq<T>) {
    exists depth :: OrderedBy(ids, parents, depth, order)
  }

  lemma ScheduleLayer<T(!new)>(
    ids: seq<T>, depth: map<T, nat>, order: seq<T>, layer: seq<T>, d: nat)
    requires Scheduled(ids, depth, order, d) && Distinct(layer)
    requires forall id :: id in layer <==> id in depth && depth[id] == d
    requires forall i, j :: 0 <= i < j < |layer| ==> IndexOf(ids, layer[i]) < IndexOf(ids, layer[j])
    ensures Scheduled(ids, depth, order + layer, d + 1)
  {
    var all := order + layer;
    forall i | 0 <= i < |all|
      ensures all[i] in depth && (if i < |order| then depth[all[i]] < d else depth[all[i]] == d)
    {
      if i < |order| {
        assert all[i] in order;
      } else {
        assert all[i] in layer;
      }
    }
  }

  lemma LayerShrinks<T(!new)>(depth: map<T, nat>, pending: set<T>, ready: seq<T>, d: nat)
    requires Unscheduled(depth, pending, d)
    requires ready != [] && forall id :: id in ready <==> id in depth && depth[id] == d
    ensures Unscheduled(depth, pending - ToSet(ready), d + 1)
    ensures |pending - ToSet(ready)| < |pending|
  {
    assert ready[0] in ready;
    SubsetSize(pending - ToSet(ready), pending - {ready[0]});
  }

  lemma NumberedSize<T(!new)>(order: seq<T>, positions: map<T, int>)
    requires Numbered(order, positions) && Distinct(order)
    ensures |positions| == |order|
  {
    NoRepeatsIffDistinct(order);
    assert positions.Keys == ToSet(order);
    assert |positions| == |positions.Keys|;
  }

  lemma NumberNext<T(!new)>(order: seq<T>, positions: map<T, int>, id: T)
    requires Numbered(order, positions) && Distinct(order) && id !in order
    ensures Numbered(order + [id], positions[id := |positions| + 1]) && Distinct(order + [id])
  {
    NumberedSize(order, positions);
    forall i | 0 <= i < |order|
      ensures order[i] in order && order[i] != id
    {
    }
  }

  method NumberLayer<T(==, !new)>(layer: seq<T>, positions: map<T, int>, ghost order: seq<T>)
    returns (numbered: map<T, int>)
    requires Numbered(order, positions) && Distinct(order) && Distinct(layer)
    requires forall id :: id in layer ==> id !in order
    ensures Numbered(order + layer, numbered)
  {
    numbered := positions;
    ghost var done := order;
    for i := 0 to |layer|
      invariant done == order + layer[..i] && Distinct(done) && Numbered(done, numbered)
      invariant forall k :: i <= k < |layer| ==> layer[k] !in done
    {
      NumberNext(done, numbered, layer[i]);
      assert layer[..i + 1] == layer[..i] + [layer[i]];
      numbered := numbered[layer[i] := |numbered| + 1];
      done := done + [layer[i]];
    }
    assert layer[..|layer|] == layer;
  }

  lemma NumberingIsBijection<T(!new)>(order: seq<T>, positions: map<T, int>)
    requires Numbered(order, positions) && Distinct(order)
    ensures forall s :: s in positions ==> 1 <= positions[s] <= |positions|
    ensures forall s, t :: s in positions && t in positions && s != t ==> positions[s] != positions[t]
    ensures forall p :: 1 <= p <= |positions| ==> p in positions.Values
  {
    NumberedSize(order, positions);
    forall s | s in positions
      ensures 1 <= positions[s] <= |order| && order[positions[s] - 1] == s
    {
      var i := Locate(order, s);
    }
    forall p: int | 1 <= p <= |order|
      ensures p in positions.Values
    {
      assert order[p - 1] in positions && positions[order[p - 1]] == p;
    }
  }

  lemma ChildAfterParent<T(!new)>(
    ids: seq<T>, parents: Parents<T>, depth: map<T, nat>, order: seq<T>, positions: map<T, int>, s: T)
    requires Numbered(order, positions) && OrderedBy(ids, parents, depth, order)
    requires s in parents && parents[s].Some? && parents[s].value in parents
    ensures s in positions && parents[s].value in positions && positions[parents[s].value] < positions[s]
  {
    var i := Locate(order, s);
    var j := Locate(order, parents[s].value);
    assert DepthAt(parents, depth, s);
  }

  lemma ParentListedEarlier<T(!new)>(ids: seq<T>, parents: Parents<T>, order: seq<T>, i: nat) returns (j: nat)
    requires ExecutionOrder(ids, parents, order) && i < |order| && order[i] in parents
    requires parents[order[i]].Some? && parents[order[i]].value in parents
    ensures j < i && order[j] == parents[order[i]].value
  {
    var depth :| OrderedBy(ids, parents, depth, order);
    assert DepthAt(parents, depth, order[i]);
    j := Locate(order, parents[order[i]].value);
  }

  /** The positions are a bijection onto 1..n and put every parent before its children. */
  lemma PositionsRespectTree<T(!new)>(ids: seq<T>, parents: Parents<T>, order: seq<T>, positions: map<T, int>)
    requires Numbered(order, positions) && ExecutionOrder(ids, parents, order)
    ensures forall s :: s in positions <==> s in parents
    ensures forall s :: s in positions ==> 1 <= positions[s] <= |positions|
    ensures forall s, t :: s in positions && t in positions && s != t ==> positions[s] != positions[t]
    ensures forall p :: 1 <= p <= |positions| ==> p in positions.Values
    ensures forall s :: s in parents && parents[s].Some? && parents[s].value in parents ==>
      positions[parents[s].value] < positions[s]
  {
    var depth :| OrderedBy(ids, parents, depth, order);
    NumberingIsBijection(order, positions);
    forall s | s in parents && parents[s].Some? && parents[s].value in parents
      ensures positions[parents[s].value] < positions[s]
    {
      ChildAfterParent(ids, parents, depth, order, positions, s);
    }
  }

  /** Only one order qualifies, so the numbering is determined by the tree. */
  lemma ExecutionOrderUnique<T(!new)>(ids: seq<T>, parents: Parents<T>, a: seq<T>, b: seq<T>)
    requires ExecutionOrder(ids, parents, a) && ExecutionOrder(ids, parents, b)
    ensures a == b
  {
    var d :| OrderedBy(ids, parents, d, a);
    var e :| OrderedBy(ids, parents, e, b);
    SameDepths(ids, parents, a, b, d, e);
    NoRepeatsIffDistinct(a);
    NoRepeatsIffDistinct(b);
    assert ToSet(a) == ToSet(b);
    IncreasingUnique(a, b, (x, y) => Earlier(ids, d, x, y));
  }

  lemma SameDepths<T(!new)>(
    ids: seq<T>, parents: Parents<T>, a: seq<T>, b: seq<T>, d: map<T, nat>, e: map<T, nat>)
    requires OrderedBy(ids, parents, d, a) && OrderedBy(ids, parents, e, b)
    ensures d == e
  {
    forall id | id in d
      ensures d[id] == e[id]
    {
      DepthUnique(parents, d, e, id);
    }
  }
}
