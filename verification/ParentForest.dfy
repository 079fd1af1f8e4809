/** Parent pointers as a map: when every node climbs out to a root, and the certificate
    that some node does not. */
module ParentForest {
  import opened Sorting

  type Parents<T> = map<T, Option<T>>

  predicate KnownAt<T(==)>(parents: Parents<T>, id: T) {
    id in parents && parents[id].Some? ==> parents[id].value in parents
  }

  /** Triggered only where asked for: unfolded freely it would climb for ever. */
  ghost predicate KnownParents<T(!new)>(parents: Parents<T>) {
    forall id {:trigger KnownAt(parents, id)} :: KnownAt(parents, id)
  }

  ghost predicate Grounded<T(!new)>(parents: Parents<T>, id: T, n: nat)
    decreases n
  {
    id !in parents || parents[id].None? || (n > 0 && Grounded(parents, parents[id].value, n - 1))
  }

  ghost predicate ClimbsOut<T(!new)>(parents: Parents<T>, id: T) {
    exists n: nat :: Grounded(parents, id, n)
  }

  ghost predicate Acyclic<T(!new)>(parents: Parents<T>) {
    forall id :: id in parents ==> ClimbsOut(parents, id)
  }

  lemma ClimbOneMore<T(!new)>(parents: Parents<T>, id: T)
    requires id in parents && parents[id].Some? && ClimbsOut(parents, parents[id].value)
    ensures ClimbsOut(parents, id)
  {
    var n: nat :| Grounded(parents, parents[id].value, n);
    assert Grounded(parents, id, n + 1);
  }

  /** A set no parent pointer leads out of. */
  ghost predicate Trapped<T(!new)>(parents: Parents<T>, nodes: set<T>) {
    && nodes != {} && nodes <= parents.Keys
    && forall id :: id in nodes ==> parents[id].Some? && parents[id].value in nodes
  }

  lemma {:induction false} TrappedNeverGrounded<T(!new)>(parents: Parents<T>, nodes: set<T>, id: T, n: nat)
    requires Trapped(parents, nodes) && id in nodes
    ensures !Grounded(parents, id, n)
    decreases n
  {
    if n > 0 {
      TrappedNeverGrounded(parents, nodes, parents[id].value, n - 1);
    }
  }

  lemma AcyclicIffNothingTrapped<T(!new)>(parents: Parents<T>)
    ensures Acyclic(parents) <==> !exists nodes :: Trapped(parents, nodes)
  {
    if nodes :| Trapped(parents, nodes) {
      var id :| id in nodes;
      forall n: nat
        ensures !Grounded(parents, id, n)
      {
        TrappedNeverGrounded(parents, nodes, id, n);
      }
    }
    if !Acyclic(parents) {
      var stuck := set id | id in parents && !ClimbsOut(parents, id);
      forall id | id in stuck
        ensures parents[id].Some? && parents[id].value in stuck
      {
        assert !Grounded(parents, id, 0);
        if parents[id].value !in parents {
          assert Grounded(parents, parents[id].value, 0);
        }
        if ClimbsOut(parents, parents[id].value) {
          ClimbOneMore(parents, id);
        }
      }
      assert Trapped(parents, stuck);
    }
  }

  /* Depth: how many pointers lead from a node to its root. */

  predicate DepthAt<T(==)>(parents: Parents<T>, depth: map<T, nat>, id: T)
    requires depth.Keys == parents.Keys && id in parents
  {
    if parents[id].None? || parents[id].value !in parents then depth[id] == 0
    else depth[id] == depth[parents[id].value] + 1
  }

  ghost predicate IsDepth<T(!new)>(parents: Parents<T>, depth: map<T, nat>) {
    && depth.Keys == parents.Keys
    && forall id {:trigger DepthAt(parents, depth, id)} :: id in parents ==> DepthAt(parents, depth, id)
  }

  ghost function ChainLength<T(!new)>(parents: Parents<T>, id: T, n: nat): nat
    requires Grounded(parents, id, n)
    decreases n
  {
    if id !in parents || parents[id].None? || parents[id].value !in parents then 0
    else 1 + ChainLength(parents, parents[id].value, n - 1)
  }

  lemma {:induction false} ChainLengthUnique<T(!new)>(parents: Parents<T>, id: T, n: nat, m: nat)
    requires Grounded(parents, id, n) && Grounded(parents, id, m)
    ensures ChainLength(parents, id, n) == ChainLength(parents, id, m)
    decreases n
  {
    if id in parents && parents[id].Some? && parents[id].value in parents {
      ChainLengthUnique(parents, parents[id].value, n - 1, m - 1);
    }
  }

  ghost function Fuel<T(!new)>(parents: Parents<T>, id: T): nat
    requires Acyclic(parents) && id in parents
    ensures Grounded(parents, id, Fuel(parents, id))
  {
    assert ClimbsOut(parents, id);
    var n: nat :| Grounded(parents, id, n);
    n
  }

  lemma DepthExists<T(!new)>(parents: Parents<T>) returns (depth: map<T, nat>)
    requires Acyclic(parents)
    ensures IsDepth(parents, depth)
  {
    depth := map id | id in parents :: ChainLength(parents, id, Fuel(parents, id));
    forall id | id in parents
      ensures DepthAt(parents, depth, id)
    {
      if parents[id].Some? && parents[id].value in parents {
        ChainLengthUnique(parents, parents[id].value, Fuel(parents, id) - 1, Fuel(parents, parents[id].value));
      }
    }
  }

  lemma {:induction false} DepthUnique<T(!new)>(parents: Parents<T>, d: map<T, nat>, e: map<T, nat>, id: T)
    requires IsDepth(parents, d) && IsDepth(parents, e) && id in parents
    ensures d[id] == e[id]
    decreases d[id]
  {
    assert DepthAt(parents, d, id) && DepthAt(parents, e, id);
    if parents[id].Some? && parents[id].value in parents {
      DepthUnique(parents, d, e, parents[id].value);
    }
  }

  /** Below every deep node there is one at each smaller depth. */
  lemma {:induction false} DepthIsDense<T(!new)>(parents: Parents<T>, depth: map<T, nat>, id: T, d: nat)
    requires IsDepth(parents, depth) && id in parents && d <= depth[id]
    ensures exists a :: a in parents && depth[a] == d
    decreases depth[id]
  {
    assert DepthAt(parents, depth, id);
    if d < depth[id] {
      DepthIsDense(parents, depth, parents[id].value, d);
    }
  }
}
