/** central/tasks.py, `detect_cycle`: Kahn's algorithm over an edge list with repetitions. */
module TaskGraph {
  import opened Sorting

  datatype Edge<T> = Edge(parent: T, child: T)

  /** A walk along edges that returns to where it began. */
  ghost predicate Cycle<T(!new)>(edges: seq<Edge<T>>, walk: seq<T>) {
    |walk| >= 2 && walk[0] == walk[|walk| - 1] && Walk(edges, walk)
  }

  ghost predicate Walk<T(!new)>(edges: seq<Edge<T>>, walk: seq<T>) {
    forall i :: 0 <= i < |walk| - 1 ==> Edge(walk[i], walk[i + 1]) in edges
  }

  ghost predicate HasCycle<T(!new)>(edges: seq<Edge<T>>) {
    exists walk :: Cycle(edges, walk)
  }

  ghost predicate HasParentIn<T>(edges: seq<Edge<T>>, nodes: set<T>, v: T) {
    exists u :: u in nodes && Edge(u, v) in edges
  }

  /** Every member has a parent inside. Unfolded one member at a time, so that it does not
      climb for ever. */
  ghost predicate BackwardClosed<T(!new)>(edges: seq<Edge<T>>, nodes: set<T>) {
    forall v {:trigger HasParentIn(edges, nodes, v)} :: v in nodes ==> HasParentIn(edges, nodes, v)
  }

  lemma CycleIsClosed<T(!new)>(edges: seq<Edge<T>>, walk: seq<T>)
    requires Cycle(edges, walk)
    ensures BackwardClosed(edges, ToSet(walk)) && ToSet(walk) != {}
  {
    assert walk[0] in ToSet(walk);
    forall v | v in walk
      ensures HasParentIn(edges, ToSet(walk), v)
    {
      var i := Locate(walk, v);
      var k := if i == 0 then |walk| - 1 else i;
      assert Edge(walk[k - 1], walk[k - 1 + 1]) in edges && walk[k - 1] in ToSet(walk);
    }
  }

  lemma {:induction false} WalkInside<T(!new)>(edges: seq<Edge<T>>, nodes: set<T>, n: nat) returns (walk: seq<T>)
    requires nodes != {} && BackwardClosed(edges, nodes)
    ensures |walk| == n + 1 && Walk(edges, walk) && ToSet(walk) <= nodes
  {
    if n == 0 {
      var v :| v in nodes;
      walk := [v];
    } else {
      var rest := WalkInside(edges, nodes, n - 1);
      assert rest[0] in ToSet(rest);
      assert HasParentIn(edges, nodes, rest[0]);
      var u :| u in nodes && Edge(u, rest[0]) in edges;
      walk := [u] + rest;
      forall i | 0 <= i < |walk| - 1
        ensures Edge(walk[i], walk[i + 1]) in edges
      {
        assert i > 0 ==> Edge(rest[i - 1], rest[i - 1 + 1]) in edges;
      }
      forall v | v in walk
        ensures v in nodes
      {
        assert v == u || v in ToSet(rest);
      }
    }
  }

  lemma ClosedHasCycle<T(!new)>(edges: seq<Edge<T>>, nodes: set<T>)
    requires nodes != {} && BackwardClosed(edges, nodes)
    ensures HasCycle(edges)
  {
    var walk := WalkInside(edges, nodes, |nodes|);
    SubsetSize(ToSet(walk), nodes);
    NoRepeatsIffDistinct(walk);
    var i, j :| 0 <= i < j < |walk| && walk[i] == walk[j];
    var loop := walk[i..j + 1];
    forall k | 0 <= k < |loop| - 1
      ensures Edge(loop[k], loop[k + 1]) in edges
    {
      assert Edge(walk[i + k], walk[i + k + 1]) in edges;
    }
    assert Cycle(edges, loop);
  }

  /* Counting what Kahn's algorithm counts. */

  /** How many edges into `v` start outside `done`. */
  function Pending<T(==)>(edges: seq<Edge<T>>, done: set<T>, v: T): nat {
    if edges == [] then 0
    else
      var last := edges[|edges| - 1];
      Pending(edges[..|edges| - 1], done, v) + if last.child == v && last.parent !in done then 1 else 0
  }

  function Children<T(==)>(edges: seq<Edge<T>>, u: T): seq<T> {
    if edges == [] then []
    else
      var last := edges[|edges| - 1];
      Children(edges[..|edges| - 1], u) + if last.parent == u then [last.child] else []
  }

  lemma {:induction false} PendingZero<T(!new)>(edges: seq<Edge<T>>, done: set<T>, v: T)
    ensures Pending(edges, done, v) == 0 <==> forall u :: Edge(u, v) in edges ==> u in done
  {
    if edges != [] {
      var front, last := edges[..|edges| - 1], edges[|edges| - 1];
      assert edges == front + [last];
      PendingZero(front, done, v);
      forall u
        ensures Edge(u, v) in edges <==> Edge(u, v) in front || Edge(u, v) == last
      {
      }
    }
  }

  lemma {:induction false} PendingDrops<T>(edges: seq<Edge<T>>, done: set<T>, u: T, v: T)
    requires u !in done
    ensures Pending(edges, done + {u}, v) + multiset(Children(edges, u))[v] == Pending(edges, done, v)
  {
    if edges != [] {
      PendingDrops(edges[..|edges| - 1], done, u, v);
    }
  }

  lemma {:induction false} ChildrenKnown<T>(edges: seq<Edge<T>>, u: T, v: T)
    requires v in Children(edges, u)
    ensures Edge(u, v) in edges
  {
    var front, last := edges[..|edges| - 1], edges[|edges| - 1];
    assert edges == front + [last];
    if v in Children(front, u) {
      ChildrenKnown(front, u, v);
    }
  }

  /** No backward-closed set meets `nodes`: they are downstream of no cycle. */
  ghost predicate Clear<T(!new)>(edges: seq<Edge<T>>, nodes: set<T>) {
    forall c :: BackwardClosed(edges, c) ==> c !! nodes
  }

  function Dedup<T(==, !new)>(xs: seq<T>): (r: seq<T>)
    ensures forall x :: x in r <==> x in xs
    ensures Distinct(r)
  {
    if xs == [] then []
    else
      var front := Dedup(xs[..|xs| - 1]);
      assert xs == xs[..|xs| - 1] + [xs[|xs| - 1]];
      if xs[|xs| - 1] in front then front else front + [xs[|xs| - 1]]
  }

  function Keep<T(!new)>(xs: seq<T>, keep: T -> bool): (r: seq<T>)
    ensures forall x :: x in r <==> x in xs && keep(x)
    ensures Distinct(xs) ==> Distinct(r)
  {
    if xs == [] then []
    else
      var front := Keep(xs[..|xs| - 1], keep);
      assert xs == xs[..|xs| - 1] + [xs[|xs| - 1]];
      if keep(xs[|xs| - 1]) then front + [xs[|xs| - 1]] else front
  }

  /** Decrements each child once per edge and queues those that reach zero. */
  method ReleaseChildren<T(==, !new)>(children: seq<T>, indegree: map<T, nat>, queue: seq<T>)
    returns (indegree': map<T, nat>, released: seq<T>)
    requires forall v :: v in children ==> v in indegree
    requires forall v :: v in indegree ==> multiset(children)[v] <= indegree[v]
    ensures indegree'.Keys == indegree.Keys
    ensures forall v :: v in indegree ==> indegree'[v] + multiset(children)[v] == indegree[v]
    ensures Distinct(released) && forall v :: v in released <==> v in children && indegree'[v] == 0
  {
    indegree', released := indegree, [];
    assert children[..|children|] == children;
    for i := 0 to |children|
      invariant indegree'.Keys == indegree.Keys
      invariant forall v :: v in indegree ==> indegree'[v] + multiset(children[..i])[v] == indegree[v]
      invariant Distinct(released)
      invariant forall v :: v in released <==> v in children[..i] && indegree'[v] == 0
    {
      var child := children[i];
      Occurrences(children, i);
      indegree' := indegree'[child := indegree'[child] - 1];
      if indegree'[child] == 0 {
        released := released + [child];
      }
    }
  }

  lemma Occurrences<T>(xs: seq<T>, i: nat)
    requires i < |xs|
    ensures multiset(xs[..i])[xs[i]] < multiset(xs)[xs[i]]
    ensures multiset(xs[..i + 1]) == multiset(xs[..i]) + multiset{xs[i]}
    ensures forall v :: v in xs[..i + 1] <==> v in xs[..i] || v == xs[i]
  {
    assert xs[..i + 1] == xs[..i] + [xs[i]];
    assert xs == xs[..i + 1] + xs[i + 1..];
  }

  predicate KnownEdges<T(==, !new)>(nodes: seq<T>, edges: seq<Edge<T>>) {
    forall e :: e in edges ==> e.parent in nodes && e.child in nodes
  }

  function FirstUnknown<T(==, !new)>(nodes: seq<T>, edges: seq<Edge<T>>): Edge<T>
    requires !KnownEdges(nodes, edges)
  {
    if edges[0].parent in nodes && edges[0].child in nodes then
      assert edges == [edges[0]] + edges[1..];
      FirstUnknown(nodes, edges[1..])
    else edges[0]
  }

  lemma {:induction false} FirstUnknownAt<T(!new)>(nodes: seq<T>, edges: seq<Edge<T>>, i: nat)
    requires i < |edges| && (edges[i].parent !in nodes || edges[i].child !in nodes)
    requires forall j :: 0 <= j < i ==> edges[j].parent in nodes && edges[j].child in nodes
    ensures !KnownEdges(nodes, edges) && FirstUnknown(nodes, edges) == edges[i]
  {
    assert edges[i] in edges;
    if i > 0 {
      FirstUnknownAt(nodes, edges[1..], i - 1);
    }
  }

  ghost predicate Counted<T(!new)>(
    nodes: seq<T>, edges: seq<Edge<T>>, adjacency: map<T, seq<T>>, indegree: map<T, nat>)
  {
    && (forall v :: v in adjacency <==> v in nodes)
    && (forall v :: v in indegree <==> v in nodes)
    && (forall v :: v in nodes ==> adjacency[v] == Children(edges, v))
    && (forall v :: v in nodes ==> indegree[v] == Pending(edges, {}, v))
  }

  lemma UnknownAfterKnown<T(!new)>(nodes: seq<T>, edges: seq<Edge<T>>, i: nat)
    requires i < |edges| && (edges[i].parent !in nodes || edges[i].child !in nodes)
    requires KnownEdges(nodes, edges[..i])
    ensures !KnownEdges(nodes, edges) && FirstUnknown(nodes, edges) == edges[i]
  {
    forall j | 0 <= j < i
      ensures edges[j].parent in nodes && edges[j].child in nodes
    {
      assert edges[j] in edges[..i];
    }
    FirstUnknownAt(nodes, edges, i);
  }

  lemma CountedStep<T(!new)>(
    nodes: seq<T>, edges: seq<Edge<T>>, i: nat, adjacency: map<T, seq<T>>, indegree: map<T, nat>)
    requires i < |edges| && edges[i].parent in nodes && edges[i].child in nodes
    requires KnownEdges(nodes, edges[..i]) && Counted(nodes, edges[..i], adjacency, indegree)
    ensures KnownEdges(nodes, edges[..i + 1])
    ensures edges[i].parent in adjacency && edges[i].child in indegree
    ensures
      var u, v := edges[i].parent, edges[i].child;
      Counted(nodes, edges[..i + 1], adjacency[u := adjacency[u] + [v]], indegree[v := indegree[v] + 1])
  {
    var front, all := edges[..i], edges[..i + 1];
    assert all[..i] == front && all[i] == edges[i];
    forall v | v in nodes
      ensures Children(all, v) == Children(front, v) + if edges[i].parent == v then [edges[i].child] else []
      ensures Pending(all, {}, v) == Pending(front, {}, v) + if edges[i].child == v then 1 else 0
    {
    }
  }

  /** Adds every edge; stops at the first one that names an unknown node. */
  method CountEdges<T(==, !new)>(nodes: seq<T>, edges: seq<Edge<T>>)
    returns (r: Result<(map<T, seq<T>>, map<T, nat>), Edge<T>>)
    ensures r.Ok? <==> KnownEdges(nodes, edges)
    ensures r.Err? ==> r.error == FirstUnknown(nodes, edges)
    ensures r.Ok? ==> Counted(nodes, edges, r.value.0, r.value.1)
  {
    var adjacency: map<T, seq<T>> := map u | u in nodes :: [];
    var indegree: map<T, nat> := map v | v in nodes :: 0;
    for i := 0 to |edges|
      invariant KnownEdges(nodes, edges[..i])
      invariant Counted(nodes, edges[..i], adjacency, indegree)
    {
      var edge := edges[i];
      if edge.parent !in nodes || edge.child !in nodes {
        UnknownAfterKnown(nodes, edges, i);
        return Err(edge);
      }
      CountedStep(nodes, edges, i, adjacency, indegree);
      adjacency := adjacency[edge.parent := adjacency[edge.parent] + [edge.child]];
      indegree := indegree[edge.child := indegree[edge.child] + 1];
    }
    assert edges[..|edges|] == edges;
    return Ok((adjacency, indegree));
  }

  /** The queue discipline's invariant: `order` is processed, `queue` is ready. */
  ghost predicate Progress<T(!new)>(
    nodes: seq<T>, edges: seq<Edge<T>>, indegree: map<T, nat>, order: seq<T>, queue: seq<T>)
  {
    && Distinct(order + queue)
    && (forall v :: v in indegree <==> v in nodes)
    && (forall v :: v in nodes ==> indegree[v] == Pending(edges, ToSet(order), v))
    && (forall v :: v in order + queue <==> v in nodes && indegree[v] == 0)
    && Clear(edges, ToSet(order + queue))
  }

  /** Processes the ready nodes until none is left. */
  method Drain<T(==, !new)>(
    nodes: seq<T>, edges: seq<Edge<T>>, adjacency: map<T, seq<T>>, indegree: map<T, nat>, ready: seq<T>)
    returns (order: seq<T>)
    requires KnownEdges(nodes, edges)
    requires forall v :: v in nodes ==> v in adjacency && adjacency[v] == Children(edges, v)
    requires Progress(nodes, edges, indegree, [], ready)
    ensures Clear(edges, ToSet(order)) && forall v :: v in order ==> v in nodes
    ensures BackwardClosed(edges, ToSet(nodes) - ToSet(order))
  {
    var indegree, queue := indegree, ready;
    order := [];
    while queue != []
      invariant Progress(nodes, edges, indegree, order, queue)
      decreases |ToSet(nodes)| - |order|
    {
      var node := queue[0];
      assert node in order + queue;
      NextNode(nodes, edges, indegree, order, queue);
      var indegree', released := ReleaseChildren(adjacency[node], indegree, queue);
      NodeDone(nodes, edges, indegree, order, queue, indegree', released);
      indegree, order, queue := indegree', order + [node], queue[1..] + released;
    }
    assert order + queue == order;
    forall v | v in ToSet(nodes) - ToSet(order)
      ensures HasParentIn(edges, ToSet(nodes) - ToSet(order), v)
    {
      PendingZero(edges, ToSet(order), v);
      var u :| Edge(u, v) in edges && u !in ToSet(order);
      assert Edge(u, v).parent in nodes;
    }
  }

  lemma NextNode<T(!new)>(nodes: seq<T>, edges: seq<Edge<T>>, indegree: map<T, nat>, order: seq<T>, queue: seq<T>)
    requires KnownEdges(nodes, edges)
    requires Progress(nodes, edges, indegree, order, queue) && queue != []
    ensures forall v :: v in Children(edges, queue[0]) ==> v in indegree
    ensures forall v :: v in indegree ==> multiset(Children(edges, queue[0]))[v] <= indegree[v]
    ensures |order| < |ToSet(nodes)|
  {
    var node := queue[0];
    assert (order + queue)[|order|] == node;
    forall i | 0 <= i < |order|
      ensures order[i] != node
    {
      assert (order + queue)[i] != (order + queue)[|order|];
    }
    forall v | v in Children(edges, node)
      ensures v in indegree
    {
      ChildrenKnown(edges, node, v);
    }
    forall v | v in indegree
      ensures multiset(Children(edges, node))[v] <= indegree[v]
    {
      PendingDrops(edges, ToSet(order), node, v);
    }
    NoRepeatsIffDistinct(order + queue);
    SubsetSize(ToSet(order + queue), ToSet(nodes));
  }

  lemma NodeDone<T(!new)>(
    nodes: seq<T>, edges: seq<Edge<T>>, indegree: map<T, nat>, order: seq<T>, queue: seq<T>,
    indegree': map<T, nat>, released: seq<T>)
    requires Progress(nodes, edges, indegree, order, queue) && queue != []
    requires indegree'.Keys == indegree.Keys
    requires forall v :: v in indegree ==> indegree'[v] + multiset(Children(edges, queue[0]))[v] == indegree[v]
    requires Distinct(released)
    requires forall v :: v in released <==> v in Children(edges, queue[0]) && v in indegree' && indegree'[v] == 0
    ensures Progress(nodes, edges, indegree', order + [queue[0]], queue[1..] + released)
  {
    var node := queue[0];
    var order', queue' := order + [node], queue[1..] + released;
    assert order' + queue' == order + queue + released;
    assert ToSet(order') == ToSet(order) + {node};
    assert (order + queue)[|order|] == node;
    assert forall i :: 0 <= i < |order| ==> (order + queue)[i] == order[i];
    forall v | v in nodes
      ensures indegree'[v] == Pending(edges, ToSet(order'), v)
      ensures v in released ==> indegree[v] > 0
      ensures indegree'[v] == 0 <==> indegree[v] == 0 || v in released
    {
      PendingDrops(edges, ToSet(order), node, v);
      assert v in Children(edges, node) <==> multiset(Children(edges, node))[v] > 0;
    }
    StillDistinct(order + queue, released);
    ClearAll(edges, ToSet(order + queue), ToSet(order'), released);
    assert ToSet(order' + queue') == ToSet(order + queue) + ToSet(released);
  }

  lemma StillDistinct<T>(a: seq<T>, b: seq<T>)
    requires Distinct(a) && Distinct(b) && forall x :: x in b ==> x !in a
    ensures Distinct(a + b)
  {
    forall i, j | 0 <= i < j < |a + b|
      ensures (a + b)[i] != (a + b)[j]
    {
      assert j >= |a| ==> (a + b)[j] in b;
      assert i < |a| ==> (a + b)[i] in a;
    }
  }

  lemma ClearAll<T(!new)>(
    edges: seq<Edge<T>>, clear: set<T>, done: set<T>, released: seq<T>)
    requires Clear(edges, clear) && done <= clear
    requires forall v :: v in released ==> Pending(edges, done, v) == 0
    ensures Clear(edges, clear + ToSet(released))
  {
    forall c | BackwardClosed(edges, c)
      ensures c !! clear + ToSet(released)
    {
      forall v | v in released
        ensures v !in c
      {
        PendingZero(edges, done, v);
        assert v in c ==> HasParentIn(edges, c, v);
      }
    }
  }

  /** The largest backward-closed set: every member has a parent inside, and it contains
      every other such set. */
  ghost predicate LargestClosed<T(!new)>(edges: seq<Edge<T>>, nodes: set<T>) {
    BackwardClosed(edges, nodes) && forall c :: BackwardClosed(edges, c) ==> c <= nodes
  }

  lemma ClosedInsideNodes<T(!new)>(nodes: seq<T>, edges: seq<Edge<T>>, c: set<T>)
    requires KnownEdges(nodes, edges) && BackwardClosed(edges, c)
    ensures c <= ToSet(nodes)
  {
    forall v | v in c
      ensures v in nodes
    {
      assert HasParentIn(edges, c, v);
      var u :| Edge(u, v) in edges;
      assert Edge(u, v).child in nodes;
    }
  }

  lemma CyclicIffClosed<T(!new)>(edges: seq<Edge<T>>, nodes: set<T>)
    requires LargestClosed(edges, nodes)
    ensures HasCycle(edges) <==> nodes != {}
  {
    if walk :| Cycle(edges, walk) {
      CycleIsClosed(edges, walk);
    }
    if nodes != {} {
      ClosedHasCycle(edges, nodes);
    }
  }

  lemma LeftoversAreLargest<T(!new)>(nodes: seq<T>, edges: seq<Edge<T>>, order: seq<T>, rest: set<T>)
    requires KnownEdges(nodes, edges) && Clear(edges, ToSet(order))
    requires rest == ToSet(nodes) - ToSet(order) && BackwardClosed(edges, rest)
    ensures LargestClosed(edges, rest)
  {
    forall c | BackwardClosed(edges, c)
      ensures c <= rest
    {
      ClosedInsideNodes(nodes, edges, c);
    }
  }

  /** The distinct elements that pass, sorted. */
  function SortedOnly<T(==, !new)>(xs: seq<T>, keep: T -> bool, before: (T, T) -> bool): (r: seq<T>)
    ensures forall x :: x in r <==> x in xs && keep(x)
    ensures Distinct(r)
    ensures StrictWeak(before) ==> Ordered(r, before)
  {
    var kept := Keep(Dedup(xs), keep);
    SortKeepsDistinct(kept, before);
    SameElements(kept, Sort(kept, before));
    SortOrderedIfStrict(kept, before);
    Sort(kept, before)
  }

  lemma SortOrderedIfStrict<T(!new)>(xs: seq<T>, before: (T, T) -> bool)
    ensures StrictWeak(before) ==> Ordered(Sort(xs, before), before)
  {
    if StrictWeak(before) {
      SortOrdered(xs, before);
    }
  }

  /** Returns the sorted nodes that cycles keep from being ordered: none exactly when the
      edges are acyclic. An edge naming an unknown node is an error. */
  method DetectCycle<T(==, !new)>(nodes: seq<T>, edges: seq<Edge<T>>, before: (T, T) -> bool)
    returns (r: Result<seq<T>, Edge<T>>)
    ensures r.Ok? <==> KnownEdges(nodes, edges)
    ensures r.Err? ==> r.error == FirstUnknown(nodes, edges)
    ensures r.Ok? ==> LargestClosed(edges, ToSet(r.value)) && Distinct(r.value) && ToSet(r.value) <= ToSet(nodes)
    ensures r.Ok? ==> (r.value == [] <==> !HasCycle(edges))
    ensures r.Ok? && StrictWeak(before) ==> Ordered(r.value, before)
  {
    var counted := CountEdges(nodes, edges);
    if counted.Err? {
      return Err(counted.error);
    }
    var (adjacency, indegree) := counted.value;
    var ready := SortedOnly(nodes, v => v in indegree && indegree[v] == 0, before);
    StartsClear(nodes, edges, indegree, ready);
    var order := Drain(nodes, edges, adjacency, indegree, ready);
    var remaining := SortedOnly(nodes, v => v !in order, before);
    assert ToSet(remaining) == ToSet(nodes) - ToSet(order);
    LeftoversAreLargest(nodes, edges, order, ToSet(remaining));
    CyclicIffClosed(edges, ToSet(remaining));
    assert remaining != [] ==> remaining[0] in ToSet(remaining);
    return Ok(remaining);
  }

  lemma StartsClear<T(!new)>(nodes: seq<T>, edges: seq<Edge<T>>, indegree: map<T, nat>, ready: seq<T>)
    requires KnownEdges(nodes, edges) && Distinct(ready)
    requires forall v :: v in indegree <==> v in nodes
    requires forall v :: v in nodes ==> indegree[v] == Pending(edges, {}, v)
    requires forall v :: v in ready <==> v in nodes && indegree[v] == 0
    ensures Progress(nodes, edges, indegree, [], ready)
  {
    assert [] + ready == ready;
    assert ToSet<T>([]) == {};
    ClearAll(edges, {}, {}, ready);
    assert {} + ToSet(ready) == ToSet([] + ready);
  }
}
