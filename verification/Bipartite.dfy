/** Matchings of a bipartite graph and the obstruction to them: a set of left nodes
    that outnumbers its own neighbourhood. */
module Bipartite {
  import opened Sorting

  type Graph = map<string, set<string>>

  ghost predicate Injective<K, V>(m: map<K, V>) {
    forall x, y :: x in m && y in m && x != y ==> m[x] != m[y]
  }

  /** Every left node gets one of its own neighbours, no neighbour twice. */
  ghost predicate Complete(g: Graph, m: map<string, string>) {
    && m.Keys == g.Keys
    && (forall s :: s in g ==> m[s] in g[s])
    && Injective(m)
  }

  ghost predicate Matchable(g: Graph) {
    exists m :: Complete(g, m)
  }

  ghost predicate HallViolator(g: Graph, lefts: set<string>, rights: set<string>) {
    lefts <= g.Keys && |rights| < |lefts| && forall s :: s in lefts ==> g[s] <= rights
  }

  function Image<K, V>(m: map<K, V>, keys: set<K>): set<V> {
    set k | k in keys && k in m :: m[k]
  }

  lemma {:induction false} InjectiveImage<K, V>(m: map<K, V>, keys: set<K>)
    requires Injective(m) && keys <= m.Keys
    ensures |Image(m, keys)| == |keys|
  {
    if keys == {} {
      assert Image(m, keys) == {};
    } else {
      var k :| k in keys;
      InjectiveImage(m, keys - {k});
      assert Image(m, keys) == Image(m, keys - {k}) + {m[k]};
      assert m[k] !in Image(m, keys - {k});
    }
  }

  lemma SameSizeSubset<T>(a: set<T>, b: set<T>)
    requires a <= b && |a| >= |b|
    ensures a == b
  {
    if x :| x in b && x !in a {
      SubsetSize(a, b - {x});
    }
  }

  lemma HallViolatorRefutes(g: Graph, lefts: set<string>, rights: set<string>)
    requires HallViolator(g, lefts, rights)
    ensures !Matchable(g)
  {
    if m :| Complete(g, m) {
      InjectiveImage(m, lefts);
      SubsetSize(Image(m, lefts), rights);
    }
  }

  /* The state of one augmenting search: `matched` sends right nodes to left nodes and
     `seen` holds the right nodes the search has claimed. Entries at claimed nodes may
     be stale, because the callers above are about to overwrite them. */

  function Holders(matched: map<string, string>, seen: set<string>): set<string> {
    set r | r in matched && r !in seen :: matched[r]
  }

  /** Outside `seen` the assignment respects the graph and uses each left node once. */
  ghost predicate Sound(g: Graph, matched: map<string, string>, seen: set<string>) {
    && (forall r :: r in matched && r !in seen ==> matched[r] in g && r in g[matched[r]])
    && (forall r, q :: r in matched && q in matched && r !in seen && q !in seen && r != q ==> matched[r] != matched[q])
  }

  /** What a successful search for `step` did: nothing at claimed nodes, and outside them
      the same left nodes hold a right node as before, plus `step`. */
  ghost predicate Augmented(
    g: Graph, before: map<string, string>, after: map<string, string>, seen: set<string>, step: string)
  {
    && (forall r :: r in seen ==> (r in after <==> r in before) && (r in before ==> after[r] == before[r]))
    && Sound(g, after, seen)
    && Holders(after, seen) == Holders(before, seen) + {step}
  }

  /** What a failed search for `step` proves: everything it reached is closed. */
  ghost predicate Exhausted(
    g: Graph, matched: map<string, string>, before: set<string>, after: set<string>, step: string)
  {
    && before <= after
    && step in g && g[step] <= after
    && forall r :: r in after && r !in before ==> r in matched && matched[r] in g && g[matched[r]] <= after
  }

  /** Rerouting: after the previous holder of `r` has found another node, `r` goes to `step`. */
  lemma AugmentThrough(
    g: Graph, before: map<string, string>, mid: map<string, string>, seen: set<string>, claimed: set<string>,
    r: string, step: string)
    requires seen <= claimed && r in claimed && r !in seen
    requires Sound(g, before, seen) && step in g && r in g[step] && step !in Holders(before, seen)
    requires if r in before then Augmented(g, before, mid, claimed, before[r]) else mid == before
    ensures Augmented(g, before, mid[r := step], seen, step)
  {
    var after := mid[r := step];
    forall x, y | x in after && y in after && x !in seen && y !in seen && x != y
      ensures after[x] != after[y]
    {
      if x != r {
        AugmentValue(g, before, mid, seen, claimed, r, x);
      }
      if y != r {
        AugmentValue(g, before, mid, seen, claimed, r, y);
      }
    }
    forall s | s in Holders(after, seen)
      ensures s in Holders(before, seen) + {step}
    {
      var x :| x in after && x !in seen && after[x] == s;
      if x != r {
        AugmentValue(g, before, mid, seen, claimed, r, x);
      }
    }
    forall s | s in Holders(before, seen) + {step}
      ensures s in Holders(after, seen)
    {
      if s == step {
        assert after[r] == step;
      } else {
        var x :| x in before && x !in seen && before[x] == s;
        if x in claimed && x != r {
          assert after[x] == s;
        } else if r in before {
          assert s in Holders(before, claimed) + {before[r]};
          var y :| y in mid && y !in claimed && mid[y] == s;
          assert after[y] == s;
        } else {
          assert after[x] == s;
        }
      }
    }
  }

  /** Where the value at an unclaimed node comes from when `r` is rerouted. */
  lemma AugmentValue(
    g: Graph, before: map<string, string>, mid: map<string, string>, seen: set<string>, claimed: set<string>,
    r: string, x: string)
    requires seen <= claimed && r in claimed && r !in seen
    requires Sound(g, before, seen)
    requires if r in before then Augmented(g, before, mid, claimed, before[r]) else mid == before
    requires x in mid && x !in seen && x != r
    ensures mid[x] in Holders(before, seen)
    ensures x in claimed ==> x in before && mid[x] == before[x]
    ensures x !in claimed && r in before ==> mid[x] in Holders(before, claimed) + {before[r]}
  {
    if x !in claimed {
      if r in before {
        assert mid[x] in Holders(mid, claimed);
      }
    }
  }

  /** A search that fails with a fresh `seen` has found a Hall violator. */
  lemma ExhaustedViolates(g: Graph, matched: map<string, string>, seen: set<string>, step: string)
    requires Sound(g, matched, {}) && step !in Holders(matched, {})
    requires Exhausted(g, matched, {}, seen, step)
    ensures HallViolator(g, {step} + Image(matched, seen), seen)
  {
    assert seen <= matched.Keys;
    InjectiveImage(matched, seen);
    assert step !in Image(matched, seen);
  }

  /** A sound assignment holding every left node, read backwards. */
  function Invert(ghost g: Graph, matched: map<string, string>): (m: map<string, string>)
    requires Sound(g, matched, {}) && Holders(matched, {}) == g.Keys
    ensures Complete(g, m)
  {
    var m := map r | r in matched :: matched[r] := r;
    assert m.Keys == Holders(matched, {});
    m
  }
}
