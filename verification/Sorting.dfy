/** Stable sorting with the key comparison as a parameter, and the few facts about
    distinct sequences that the planners and the scheduler share. */
module Sorting {

  datatype Option<+T> = None | Some(value: T)

  datatype Result<+T, +E> = Ok(value: T) | Err(error: E)

  ghost predicate Distinct<T>(xs: seq<T>) {
    forall i, j :: 0 <= i < j < |xs| ==> xs[i] != xs[j]
  }

  function ToSet<T>(xs: seq<T>): (s: set<T>) {
    set x | x in xs
  }

  lemma PrefixSet<T>(xs: seq<T>, i: nat)
    requires i < |xs|
    ensures ToSet(xs[..i + 1]) == ToSet(xs[..i]) + {xs[i]}
  {
    assert xs[..i + 1] == xs[..i] + [xs[i]];
  }

  lemma NewInPrefix<T>(xs: seq<T>, i: nat)
    requires Distinct(xs) && i < |xs|
    ensures xs[i] in ToSet(xs) && xs[i] !in ToSet(xs[..i])
  {
    assert xs[i] in xs;
  }

  lemma DistinctTail<T>(xs: seq<T>)
    requires Distinct(xs) && xs != []
    ensures Distinct(xs[1..]) && xs[0] !in xs[1..]
  {
    forall i | 0 <= i < |xs| - 1
      ensures xs[1..][i] != xs[0]
    {
      assert xs[0] != xs[i + 1];
    }
  }

  /** A strict weak order, which is what a comparison of sort keys always is. */
  ghost predicate StrictWeak<T(!new)>(precedes: (T, T) -> bool) {
    && (forall x, y :: precedes(x, y) ==> !precedes(y, x))
    && (forall x, y, z :: precedes(x, z) ==> precedes(x, y) || precedes(y, z))
  }

  ghost predicate Ordered<T>(xs: seq<T>, precedes: (T, T) -> bool) {
    forall i, j :: 0 <= i < j < |xs| ==> !precedes(xs[j], xs[i])
  }

  function Insert<T>(x: T, xs: seq<T>, precedes: (T, T) -> bool): (r: seq<T>)
    ensures multiset(r) == multiset{x} + multiset(xs)
  {
    if xs == [] || !precedes(xs[0], x) then
      [x] + xs
    else
      assert xs == [xs[0]] + xs[1..];
      [xs[0]] + Insert(x, xs[1..], precedes)
  }

  function Sort<T>(xs: seq<T>, precedes: (T, T) -> bool): (r: seq<T>)
    ensures multiset(r) == multiset(xs)
  {
    if xs == [] then
      []
    else
      assert xs == [xs[0]] + xs[1..];
      Insert(xs[0], Sort(xs[1..], precedes), precedes)
  }

  /** A linear order of elements, without equality. */
  ghost predicate StrictTotal<T(!new)>(less: (T, T) -> bool) {
    StrictWeak(less) && forall x, y :: x != y ==> less(x, y) || less(y, x)
  }

  predicate Lexicographic<T(==)>(less: (T, T) -> bool, a: seq<T>, b: seq<T>) {
    b != [] && (a == [] || less(a[0], b[0]) || (a[0] == b[0] && Lexicographic(less, a[1..], b[1..])))
  }

  lemma {:induction false} LexicographicAsymmetric<T(!new)>(less: (T, T) -> bool, a: seq<T>, b: seq<T>)
    requires StrictTotal(less)
    ensures Lexicographic(less, a, b) ==> !Lexicographic(less, b, a)
    ensures !Lexicographic(less, a, b) && !Lexicographic(less, b, a) ==> a == b
  {
    if a != [] && b != [] && a[0] == b[0] {
      LexicographicAsymmetric(less, a[1..], b[1..]);
      assert a == [a[0]] + a[1..] && b == [b[0]] + b[1..];
    }
  }

  lemma {:induction false} LexicographicBetween<T(!new)>(less: (T, T) -> bool, a: seq<T>, b: seq<T>, c: seq<T>)
    requires StrictTotal(less) && Lexicographic(less, a, c)
    ensures Lexicographic(less, a, b) || Lexicographic(less, b, c)
  {
    if a != [] && b != [] && a[0] == b[0] && b[0] == c[0] {
      LexicographicBetween(less, a[1..], b[1..], c[1..]);
    }
  }

  function CharLess(): (char, char) -> bool {
    (x, y) => x < y
  }

  /** Order of strings by code point. */
  predicate StringLess(a: string, b: string) {
    Lexicographic(CharLess(), a, b)
  }

  lemma StringLessAsymmetric(a: string, b: string)
    ensures StringLess(a, b) ==> !StringLess(b, a)
    ensures !StringLess(a, b) && !StringLess(b, a) ==> a == b
  {
    LexicographicAsymmetric(CharLess(), a, b);
  }

  lemma StringLessTransitive(a: string, b: string, c: string)
    requires StringLess(a, c)
    ensures StringLess(a, b) || StringLess(b, c)
  {
    LexicographicBetween(CharLess(), a, b, c);
  }

  lemma SameElements<T>(xs: seq<T>, ys: seq<T>)
    requires multiset(xs) == multiset(ys)
    ensures |xs| == |ys|
    ensures forall x :: x in xs <==> x in ys
  {
    assert |multiset(xs)| == |multiset(ys)|;
    forall x
      ensures x in xs <==> x in ys
    {
      assert x in xs <==> x in multiset(xs);
      assert x in ys <==> x in multiset(ys);
    }
  }

  lemma Locate<T>(xs: seq<T>, x: T) returns (i: nat)
    requires x in xs
    ensures i < |xs| && xs[i] == x
  {
    i :| 0 <= i < |xs| && xs[i] == x;
  }

  lemma {:induction false} DistinctIffMultiset<T>(xs: seq<T>)
    ensures Distinct(xs) <==> forall x :: x in xs ==> multiset(xs)[x] == 1
  {
    if xs != [] {
      var front, last := xs[..|xs| - 1], xs[|xs| - 1];
      assert xs == front + [last];
      DistinctIffMultiset(front);
      if Distinct(xs) {
        assert Distinct(front);
        assert last !in front;
        forall x | x in xs
          ensures multiset(xs)[x] == 1
        {
          assert multiset(front)[x] == if x == last then 0 else 1;
        }
      }
      if forall x :: x in xs ==> multiset(xs)[x] == 1 {
        assert multiset(xs)[last] == multiset(front)[last] + 1;
        forall x | x in front
          ensures multiset(front)[x] == 1
        {
          assert x in xs;
        }
      }
    }
  }

  lemma SortKeepsDistinct<T>(xs: seq<T>, precedes: (T, T) -> bool)
    requires Distinct(xs)
    ensures Distinct(Sort(xs, precedes))
  {
    DistinctIffMultiset(xs);
    DistinctIffMultiset(Sort(xs, precedes));
    SameElements(xs, Sort(xs, precedes));
  }

  lemma {:induction false} InsertOrdered<T(!new)>(x: T, xs: seq<T>, precedes: (T, T) -> bool)
    requires StrictWeak(precedes) && Ordered(xs, precedes)
    ensures Ordered(Insert(x, xs, precedes), precedes)
  {
    if xs != [] && precedes(xs[0], x) {
      var rest := Insert(x, xs[1..], precedes);
      InsertOrdered(x, xs[1..], precedes);
      forall i | 0 <= i < |rest|
        ensures !precedes(rest[i], xs[0])
      {
        assert xs == [xs[0]] + xs[1..];
        assert rest[i] in multiset(rest);
      }
    } else {
      forall i | 0 <= i < |xs|
        ensures !precedes(xs[i], x)
      {
        assert i == 0 || !precedes(xs[i], xs[0]);
      }
    }
  }

  lemma {:induction false} SortOrdered<T(!new)>(xs: seq<T>, precedes: (T, T) -> bool)
    requires StrictWeak(precedes)
    ensures Ordered(Sort(xs, precedes), precedes)
  {
    if xs != [] {
      SortOrdered(xs[1..], precedes);
      InsertOrdered(xs[0], Sort(xs[1..], precedes), precedes);
    }
  }

  /** Python's `len(xs) == len(set(xs))`. */
  predicate NoRepeats<T(==)>(xs: seq<T>) {
    |ToSet(xs)| == |xs|
  }

  lemma {:induction false} NoRepeatsIffDistinct<T>(xs: seq<T>)
    ensures |ToSet(xs)| <= |xs|
    ensures NoRepeats(xs) <==> Distinct(xs)
  {
    if xs != [] {
      var front, last := xs[..|xs| - 1], xs[|xs| - 1];
      assert xs == front + [last];
      NoRepeatsIffDistinct(front);
      assert ToSet(xs) == ToSet(front) + {last};
      if last in front {
        assert ToSet(xs) == ToSet(front);
      }
    }
  }

  lemma {:induction false} SubsetSize<T>(a: set<T>, b: set<T>)
    requires a <= b
    ensures |a| <= |b|
  {
    if a != {} {
      var x :| x in a;
      SubsetSize(a - {x}, b - {x});
    }
  }

  ghost predicate Increasing<T>(xs: seq<T>, before: (T, T) -> bool) {
    forall i, j :: 0 <= i < j < |xs| ==> before(xs[i], xs[j])
  }

  /** One set of elements has at most one increasing listing. */
  lemma {:induction false} IncreasingUnique<T(!new)>(a: seq<T>, b: seq<T>, before: (T, T) -> bool)
    requires forall x, y :: before(x, y) ==> !before(y, x)
    requires Increasing(a, before) && Increasing(b, before)
    requires |a| == |b| && forall x :: x in a <==> x in b
    ensures a == b
  {
    if a != [] {
      var n := |a| - 1;
      assert a[n] in b && b[n] in a;
      var i := Locate(b, a[n]);
      var j := Locate(a, b[n]);
      assert a == a[..n] + [a[n]] && b == b[..n] + [b[n]];
      forall x
        ensures x in a[..n] <==> x in a && x != a[n]
        ensures x in b[..n] <==> x in b && x != b[n]
      {
      }
      IncreasingUnique(a[..n], b[..n], before);
    }
  }

  lemma SameSize<T(!new)>(a: seq<T>, b: seq<T>)
    requires Distinct(a) && Distinct(b) && forall x :: x in a <==> x in b
    ensures |a| == |b|
  {
    NoRepeatsIffDistinct(a);
    NoRepeatsIffDistinct(b);
    assert ToSet(a) == ToSet(b);
  }

  ghost predicate TotalOn<T>(xs: seq<T>, precedes: (T, T) -> bool) {
    forall x, y :: x in xs && y in xs && x != y ==> precedes(x, y) || precedes(y, x)
  }

  /** Under keys without ties, sorting forgets the order of its input. */
  lemma SortForgetsOrder<T(!new)>(a: seq<T>, b: seq<T>, precedes: (T, T) -> bool)
    requires StrictWeak(precedes) && TotalOn(a, precedes)
    requires Distinct(a) && Distinct(b) && forall x :: x in a <==> x in b
    ensures Sort(a, precedes) == Sort(b, precedes)
  {
    SameSize(a, b);
    SortIncreases(a, precedes);
    SortIncreases(b, precedes);
    SameElements(a, Sort(a, precedes));
    SameElements(b, Sort(b, precedes));
    IncreasingUnique(Sort(a, precedes), Sort(b, precedes), precedes);
  }

  lemma SortIncreases<T(!new)>(xs: seq<T>, precedes: (T, T) -> bool)
    requires StrictWeak(precedes) && TotalOn(xs, precedes) && Distinct(xs)
    ensures Increasing(Sort(xs, precedes), precedes)
  {
    var sorted := Sort(xs, precedes);
    SortOrdered(xs, precedes);
    SortKeepsDistinct(xs, precedes);
    SameElements(xs, sorted);
    forall i, j | 0 <= i < j < |sorted|
      ensures precedes(sorted[i], sorted[j])
    {
      assert sorted[i] in xs && sorted[j] in xs;
    }
  }
}
