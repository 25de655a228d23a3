/** File names in byte order, and the one sorted list of any set of them. */
module NameOrder {
  import opened Bytes

  type FileName = seq<Byte>

  predicate UpTo(a: FileName, b: FileName) {
    a == [] || (b != [] && (a[0] < b[0] || (a[0] == b[0] && UpTo(a[1..], b[1..]))))
  }

  lemma {:induction false} UpToTotal(a: FileName, b: FileName)
    ensures UpTo(a, b) || UpTo(b, a)
    decreases |a|
  {
    if a != [] && b != [] && a[0] == b[0] { UpToTotal(a[1..], b[1..]); }
  }

  lemma {:induction false} UpToBoth(a: FileName, b: FileName)
    requires UpTo(a, b) && UpTo(b, a)
    ensures a == b
    decreases |a|
  {
    if a != [] {
      UpToBoth(a[1..], b[1..]);
      assert a == [a[0]] + a[1..] && b == [b[0]] + b[1..];
    }
  }

  lemma {:induction false} UpToChain(a: FileName, b: FileName, c: FileName)
    requires UpTo(a, b) && UpTo(b, c)
    ensures UpTo(a, c)
    decreases |a|
  {
    if a != [] && a[0] == b[0] && b[0] == c[0] { UpToChain(a[1..], b[1..], c[1..]); }
  }

  predicate Ascending(xs: seq<FileName>) {
    forall i, j :: 0 <= i < j < |xs| ==> UpTo(xs[i], xs[j])
  }

  function Insert(x: FileName, xs: seq<FileName>): (r: seq<FileName>)
    ensures multiset(r) == multiset([x]) + multiset(xs) && |r| == |xs| + 1
  {
    if xs == [] then [x]
    else if UpTo(x, xs[0]) then [x] + xs
    else
      assert xs == [xs[0]] + xs[1..];
      [xs[0]] + Insert(x, xs[1..])
  }

  function Sort(xs: seq<FileName>): (r: seq<FileName>)
    ensures multiset(r) == multiset(xs) && |r| == |xs|
  {
    if xs == [] then []
    else
      assert xs == [xs[0]] + xs[1..];
      Insert(xs[0], Sort(xs[1..]))
  }

  lemma HeadLeast(x: FileName, xs: seq<FileName>)
    requires Ascending(xs) && forall y :: y in xs ==> UpTo(x, y)
    ensures Ascending([x] + xs)
  {
  }

  lemma {:induction false} InsertAscends(x: FileName, xs: seq<FileName>)
    requires Ascending(xs)
    ensures Ascending(Insert(x, xs))
    decreases |xs|
  {
    if xs != [] {
      UpToTotal(x, xs[0]);
      if UpTo(x, xs[0]) {
        forall y | y in xs ensures UpTo(x, y) {
          var i :| 0 <= i < |xs| && xs[i] == y;
          if i > 0 { UpToChain(x, xs[0], y); }
        }
        HeadLeast(x, xs);
      } else {
        InsertAscends(x, xs[1..]);
        var r := Insert(x, xs[1..]);
        forall y | y in r ensures UpTo(xs[0], y) {
          assert y in multiset(r);
          if y != x { assert y in multiset(xs[1..]); }
        }
        HeadLeast(xs[0], r);
      }
    }
  }

  lemma {:induction false} SortAscends(xs: seq<FileName>)
    ensures Ascending(Sort(xs))
    decreases |xs|
  {
    if xs != [] {
      SortAscends(xs[1..]);
      InsertAscends(xs[0], Sort(xs[1..]));
    }
  }

  lemma FirstIsLeast(xs: seq<FileName>, y: FileName)
    requires Ascending(xs) && y in multiset(xs)
    ensures UpTo(xs[0], y)
  {
    var i :| 0 <= i < |xs| && xs[i] == y;
    if i == 0 { UpToTotal(y, y); }
  }

  lemma SameStart(xs: seq<FileName>, ys: seq<FileName>)
    requires Ascending(xs) && Ascending(ys) && multiset(xs) == multiset(ys) && xs != [] && ys != []
    ensures xs[0] == ys[0]
  {
    assert xs[0] in multiset(ys) && ys[0] in multiset(xs);
    FirstIsLeast(xs, ys[0]);
    FirstIsLeast(ys, xs[0]);
    UpToBoth(xs[0], ys[0]);
  }

  lemma SameLength<T>(xs: seq<T>, ys: seq<T>)
    requires multiset(xs) == multiset(ys)
    ensures |xs| == |ys|
  {
    assert |multiset(xs)| == |xs| && |multiset(ys)| == |ys|;
  }

  lemma SameRest<T>(xs: seq<T>, ys: seq<T>)
    requires multiset(xs) == multiset(ys) && xs != [] && ys != [] && xs[0] == ys[0]
    ensures multiset(xs[1..]) == multiset(ys[1..])
  {
    assert xs == [xs[0]] + xs[1..] && ys == [ys[0]] + ys[1..];
    assert multiset(xs[1..]) == multiset(xs) - multiset{xs[0]};
    assert multiset(ys[1..]) == multiset(ys) - multiset{ys[0]};
  }

  /** There is only one ascending list of the same names. */
  lemma {:induction false} AscendingUnique(xs: seq<FileName>, ys: seq<FileName>)
    requires Ascending(xs) && Ascending(ys) && multiset(xs) == multiset(ys)
    ensures xs == ys
    decreases |xs|
  {
    SameLength(xs, ys);
    if xs != [] {
      SameStart(xs, ys);
      SameRest(xs, ys);
      AscendingUnique(xs[1..], ys[1..]);
      assert xs == [xs[0]] + xs[1..] && ys == [ys[0]] + ys[1..];
    }
  }
}
