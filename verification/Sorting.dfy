/** Stable sorting by an integer key, with the facts its users need. */
module Sorting {

  ghost predicate SortedBy<T>(key: T -> int, xs: seq<T>) {
    forall i, j :: 0 <= i < j < |xs| ==> key(xs[i]) <= key(xs[j])
  }

  /** Put x in front of the first element that sorts strictly after it. */
  function Insert<T>(key: T -> int, x: T, xs: seq<T>): (r: seq<T>)
    ensures multiset(r) == multiset([x]) + multiset(xs)
    ensures |r| == |xs| + 1
  {
    if xs == [] then [x]
    else if key(x) <= key(xs[0]) then [x] + xs
    else
      assert xs == [xs[0]] + xs[1..];
      [xs[0]] + Insert(key, x, xs[1..])
  }

  /** Insertion from the back, so equal keys keep their order. */
  function Sort<T>(key: T -> int, xs: seq<T>): (r: seq<T>)
    ensures multiset(r) == multiset(xs)
    ensures |r| == |xs|
  {
    if xs == [] then []
    else
      assert xs == [xs[0]] + xs[1..];
      Insert(key, xs[0], Sort(key, xs[1..]))
  }

  lemma {:induction false} InsertSorted<T>(key: T -> int, x: T, xs: seq<T>)
    requires SortedBy(key, xs)
    ensures SortedBy(key, Insert(key, x, xs))
    decreases |xs|
  {
    if xs != [] && key(x) > key(xs[0]) {
      InsertSorted(key, x, xs[1..]);
      var r := Insert(key, x, xs[1..]);
      forall i | 0 <= i < |r|
        ensures key(xs[0]) <= key(r[i])
      {
        assert r[i] in multiset(r);
        if r[i] != x { assert r[i] in multiset(xs[1..]); }
      }
    }
  }

  lemma {:induction false} SortSorts<T>(key: T -> int, xs: seq<T>)
    ensures SortedBy(key, Sort(key, xs))
    decreases |xs|
  {
    if xs != [] {
      SortSorts(key, xs[1..]);
      InsertSorted(key, xs[0], Sort(key, xs[1..]));
    }
  }

  lemma SortMembers<T>(key: T -> int, xs: seq<T>)
    ensures forall x :: x in xs <==> x in Sort(key, xs)
  {
    forall x
      ensures x in xs <==> x in Sort(key, xs)
    {
      assert x in xs <==> x in multiset(xs);
      assert x in Sort(key, xs) <==> x in multiset(Sort(key, xs));
    }
  }

  ghost predicate Distinct<T>(xs: seq<T>) {
    forall i, j :: 0 <= i < j < |xs| ==> xs[i] != xs[j]
  }

  lemma {:induction false} DistinctIsMultiset<T>(xs: seq<T>)
    ensures Distinct(xs) <==> forall x :: x in xs ==> multiset(xs)[x] == 1
    decreases |xs|
  {
    if xs != [] {
      var rest := xs[1..];
      assert xs == [xs[0]] + rest;
      DistinctIsMultiset(rest);
      assert multiset(xs) == multiset([xs[0]]) + multiset(rest);
      if Distinct(xs) {
        assert Distinct(rest);
        assert xs[0] !in rest;
      }
      if forall x :: x in xs ==> multiset(xs)[x] == 1 {
        forall x | x in rest ensures multiset(rest)[x] == 1 { assert x in xs; }
        assert xs[0] in xs;
        assert xs[0] !in rest;
      }
    }
  }

  lemma InsertDistinct<T>(key: T -> int, x: T, xs: seq<T>)
    requires Distinct(xs) && x !in xs
    ensures Distinct(Insert(key, x, xs)) && forall y :: y in Insert(key, x, xs) <==> y == x || y in xs
  {
    var r := Insert(key, x, xs);
    DistinctIsMultiset(xs);
    forall y ensures y in r <==> y == x || y in xs {
      assert y in r <==> y in multiset(r);
    }
    DistinctIsMultiset(r);
  }

  lemma SortKeepsDistinct<T>(key: T -> int, xs: seq<T>)
    requires Distinct(xs)
    ensures Distinct(Sort(key, xs))
  {
    DistinctIsMultiset(xs);
    DistinctIsMultiset(Sort(key, xs));
    SortMembers(key, xs);
  }
}
