/** Lists where the first item with a key wins, and lists with the unusable items dropped. */
module FirstWins {
  import opened Options

  /** The items that f accepts, as f rewrites them, in order. */
  function Pick<T, U>(xs: seq<T>, f: T -> Option<U>): (r: seq<U>) {
    if xs == [] then []
    else
      var k := |xs| - 1;
      Pick(xs[..k], f) + (match f(xs[k]) case Some(u) => [u] case None => [])
  }

  lemma {:induction false} PickAppend<T, U>(xs: seq<T>, ys: seq<T>, f: T -> Option<U>)
    ensures Pick(xs + ys, f) == Pick(xs, f) + Pick(ys, f)
    decreases |ys|
  {
    if ys == [] {
      assert xs + ys == xs;
    } else {
      var k := |ys| - 1;
      PickAppend(xs, ys[..k], f);
      assert (xs + ys)[..|xs| + k] == xs + ys[..k];
    }
  }

  lemma PickSnoc<T, U>(xs: seq<T>, k: nat, f: T -> Option<U>)
    requires k < |xs|
    ensures Pick(xs[..k + 1], f) == match f(xs[k]) case Some(u) => Pick(xs[..k], f) + [u] case None => Pick(xs[..k], f)
  {
    assert xs[..k + 1][..k] == xs[..k];
  }

  lemma {:induction false} PickMember<T, U>(xs: seq<T>, f: T -> Option<U>, u: U)
    ensures u in Pick(xs, f) <==> exists i :: 0 <= i < |xs| && f(xs[i]) == Some(u)
    decreases |xs|
  {
    if xs != [] {
      var k := |xs| - 1;
      PickMember(xs[..k], f, u);
      if u in Pick(xs[..k], f) {
        var i :| 0 <= i < k && f(xs[..k][i]) == Some(u);
        assert f(xs[i]) == Some(u);
      }
      if i :| 0 <= i < |xs| && f(xs[i]) == Some(u) {
        if i < k { assert f(xs[..k][i]) == Some(u); }
      }
    }
  }

  /** The lists f gives, one after another. */
  function Flat<T, U>(xs: seq<T>, f: T -> seq<U>): (r: seq<U>) {
    if xs == [] then [] else Flat(xs[..|xs| - 1], f) + f(xs[|xs| - 1])
  }

  lemma FlatSnoc<T, U>(xs: seq<T>, k: nat, f: T -> seq<U>)
    requires k < |xs|
    ensures Flat(xs[..k + 1], f) == Flat(xs[..k], f) + f(xs[k])
  {
    assert xs[..k + 1][..k] == xs[..k];
  }

  lemma {:induction false} FlatMember<T, U>(xs: seq<T>, f: T -> seq<U>, u: U)
    ensures u in Flat(xs, f) <==> exists x :: x in xs && u in f(x)
    decreases |xs|
  {
    if xs != [] {
      var k := |xs| - 1;
      FlatMember(xs[..k], f, u);
      assert xs == xs[..k] + [xs[k]];
    }
  }

  /** The first item with key k. */
  function Find<T, K(==)>(xs: seq<T>, key: T -> K, k: K): (r: Option<T>) {
    if xs == [] then None
    else
      var r := Find(xs[..|xs| - 1], key, k);
      if r.Some? then r else if key(xs[|xs| - 1]) == k then Some(xs[|xs| - 1]) else None
  }

  /** The last item with key k. */
  function FindLast<T, K(==)>(xs: seq<T>, key: T -> K, k: K): (r: Option<T>) {
    if xs == [] then None
    else if key(xs[|xs| - 1]) == k then Some(xs[|xs| - 1])
    else FindLast(xs[..|xs| - 1], key, k)
  }

  lemma {:induction false} FindSpec<T, K>(xs: seq<T>, key: T -> K, k: K)
    ensures Find(xs, key, k).None? <==> forall i :: 0 <= i < |xs| ==> key(xs[i]) != k
    ensures Find(xs, key, k).Some? ==>
              exists i :: (0 <= i < |xs| && Find(xs, key, k) == Some(xs[i]) && key(xs[i]) == k
                           && forall j :: 0 <= j < i ==> key(xs[j]) != k)
    decreases |xs|
  {
    if xs != [] {
      var n := |xs| - 1;
      FindSpec(xs[..n], key, k);
      if Find(xs[..n], key, k).Some? {
        var i :| 0 <= i < n && Find(xs[..n], key, k) == Some(xs[..n][i]) && key(xs[..n][i]) == k
                 && forall j :: 0 <= j < i ==> key(xs[..n][j]) != k;
        assert xs[i] == xs[..n][i];
        assert forall j :: 0 <= j < i ==> xs[j] == xs[..n][j];
      } else {
        assert forall j :: 0 <= j < n ==> xs[j] == xs[..n][j];
      }
    }
  }

  lemma {:induction false} FindAppend<T, K>(xs: seq<T>, ys: seq<T>, key: T -> K, k: K)
    ensures Find(xs + ys, key, k) == if Find(xs, key, k).Some? then Find(xs, key, k) else Find(ys, key, k)
    decreases |ys|
  {
    if ys == [] {
      assert xs + ys == xs;
    } else {
      var n := |ys| - 1;
      FindAppend(xs, ys[..n], key, k);
      assert (xs + ys)[..|xs| + n] == xs + ys[..n];
    }
  }

  lemma {:induction false} FindLastSpec<T, K>(xs: seq<T>, key: T -> K, k: K)
    ensures FindLast(xs, key, k).None? <==> forall i :: 0 <= i < |xs| ==> key(xs[i]) != k
    ensures FindLast(xs, key, k).Some? ==>
              exists i :: (0 <= i < |xs| && FindLast(xs, key, k) == Some(xs[i]) && key(xs[i]) == k
                           && forall j :: i < j < |xs| ==> key(xs[j]) != k)
    decreases |xs|
  {
    if xs != [] && key(xs[|xs| - 1]) != k {
      var n := |xs| - 1;
      FindLastSpec(xs[..n], key, k);
      if FindLast(xs[..n], key, k).Some? {
        var i :| 0 <= i < n && FindLast(xs[..n], key, k) == Some(xs[..n][i]) && key(xs[..n][i]) == k
                 && forall j :: i < j < n ==> key(xs[..n][j]) != k;
        assert xs[i] == xs[..n][i];
        assert forall j :: i < j < n ==> xs[j] == xs[..n][j];
      } else {
        assert forall j :: 0 <= j < n ==> xs[j] == xs[..n][j];
      }
    } else if xs != [] {
      assert FindLast(xs, key, k) == Some(xs[|xs| - 1]);
    }
  }

  /** Each item whose key has not been seen before. */
  function Keep<T, K(==)>(xs: seq<T>, key: T -> K): (r: seq<T>) {
    if xs == [] then []
    else
      var n := |xs| - 1;
      var r := Keep(xs[..n], key);
      if Find(r, key, key(xs[n])).Some? then r else r + [xs[n]]
  }

  lemma KeepSnoc<T, K>(xs: seq<T>, x: T, key: T -> K)
    ensures Keep(xs + [x], key) == if Find(Keep(xs, key), key, key(x)).Some? then Keep(xs, key) else Keep(xs, key) + [x]
  {
    assert (xs + [x])[..|xs|] == xs;
  }

  predicate Distinct<T, K(==)>(xs: seq<T>, key: T -> K) {
    forall i, j :: 0 <= i < j < |xs| ==> key(xs[i]) != key(xs[j])
  }

  lemma DistinctAt<T, K>(xs: seq<T>, key: T -> K, i: nat, j: nat)
    requires Distinct(xs, key) && i < |xs| && j < |xs| && key(xs[i]) == key(xs[j])
    ensures i == j
  {
  }

  lemma {:induction false} KeepDistinct<T, K>(xs: seq<T>, key: T -> K)
    ensures Distinct(Keep(xs, key), key)
    decreases |xs|
  {
    if xs != [] {
      var n := |xs| - 1;
      KeepDistinct(xs[..n], key);
      FindSpec(Keep(xs[..n], key), key, key(xs[n]));
    }
  }

  /** Keeping changes no answer: the first valid item for a key is the one kept. */
  lemma {:induction false} KeepFinds<T, K>(xs: seq<T>, key: T -> K, k: K)
    ensures Find(Keep(xs, key), key, k) == Find(xs, key, k)
    decreases |xs|
  {
    if xs != [] {
      var n := |xs| - 1;
      KeepFinds(xs[..n], key, k);
      KeepFinds(xs[..n], key, key(xs[n]));
      if Find(Keep(xs[..n], key), key, key(xs[n])).None? {
        FindAppend(Keep(xs[..n], key), [xs[n]], key, k);
        assert Find([xs[n]], key, k) == if key(xs[n]) == k then Some(xs[n]) else None by { assert [xs[n]][..0] == []; }
      }
    }
  }

  /** More items at the end never displace one that is kept. */
  lemma {:induction false} KeepPrefix<T, K>(xs: seq<T>, ys: seq<T>, key: T -> K)
    ensures Keep(xs, key) <= Keep(xs + ys, key)
    decreases |ys|
  {
    if ys == [] {
      assert xs + ys == xs;
    } else {
      var n := |ys| - 1;
      KeepPrefix(xs, ys[..n], key);
      assert (xs + ys)[..|xs| + n] == xs + ys[..n];
    }
  }

  lemma {:induction false} KeepMembers<T, K>(xs: seq<T>, key: T -> K, i: nat)
    requires i < |Keep(xs, key)|
    ensures Keep(xs, key)[i] in xs
    decreases |xs|
  {
    var n := |xs| - 1;
    if i < |Keep(xs[..n], key)| {
      KeepMembers(xs[..n], key, i);
      assert Keep(xs, key)[i] == Keep(xs[..n], key)[i];
    }
  }

  /** f accepts x, and what it makes of x has key k. */
  predicate Gives<T, U, K(==)>(f: T -> Option<U>, key: U -> K, k: K, x: T) {
    match f(x)
    case None => false
    case Some(u) => key(u) == k
  }

  predicate FirstGiving<T, U, K(==)>(xs: seq<T>, f: T -> Option<U>, key: U -> K, k: K, i: nat) {
    i < |xs| && Gives(f, key, k, xs[i]) && forall j :: 0 <= j < i ==> !Gives(f, key, k, xs[j])
  }

  predicate LastGiving<T, U, K(==)>(xs: seq<T>, f: T -> Option<U>, key: U -> K, k: K, i: nat) {
    i < |xs| && Gives(f, key, k, xs[i]) && forall j :: i < j < |xs| ==> !Gives(f, key, k, xs[j])
  }

  lemma FindOne<T, K>(x: T, key: T -> K, k: K)
    ensures Find([x], key, k) == if key(x) == k then Some(x) else None
  {
    assert [x][..0] == [];
  }

  /** What is found among the picked items is what the first item giving the key becomes. */
  lemma {:induction false} FindPick<T, U, K>(xs: seq<T>, f: T -> Option<U>, key: U -> K, k: K)
    ensures Find(Pick(xs, f), key, k).None? ==> forall i :: 0 <= i < |xs| ==> !Gives(f, key, k, xs[i])
    ensures Find(Pick(xs, f), key, k).Some? ==>
              exists i: nat :: FirstGiving(xs, f, key, k, i) && f(xs[i]) == Find(Pick(xs, f), key, k)
    decreases |xs|
  {
    if xs != [] {
      var n := |xs| - 1;
      var before := Pick(xs[..n], f);
      FindPick(xs[..n], f, key, k);
      if f(xs[n]).Some? {
        FindAppend(before, [f(xs[n]).value], key, k);
        FindOne(f(xs[n]).value, key, k);
      } else {
        assert before + [] == before;
      }
      if Find(before, key, k).Some? {
        var i: nat :| FirstGiving(xs[..n], f, key, k, i) && f(xs[..n][i]) == Find(before, key, k);
        assert forall j :: 0 <= j < n ==> xs[j] == xs[..n][j];
        assert FirstGiving(xs, f, key, k, i);
      } else {
        assert forall j :: 0 <= j < n ==> xs[j] == xs[..n][j];
        if Find(Pick(xs, f), key, k).Some? { assert FirstGiving(xs, f, key, k, n); }
      }
    }
  }

  lemma FirstGivingFinds<T, U, K>(xs: seq<T>, f: T -> Option<U>, key: U -> K, k: K, i: nat)
    requires FirstGiving(xs, f, key, k, i)
    ensures Find(Pick(xs, f), key, k) == f(xs[i])
  {
    FindPick(xs, f, key, k);
    if Find(Pick(xs, f), key, k).Some? {
      var j: nat :| FirstGiving(xs, f, key, k, j) && f(xs[j]) == Find(Pick(xs, f), key, k);
      assert i == j;
    }
  }

  lemma {:induction false} FindLastPick<T, U, K>(xs: seq<T>, f: T -> Option<U>, key: U -> K, k: K)
    ensures FindLast(Pick(xs, f), key, k).None? ==> forall i :: 0 <= i < |xs| ==> !Gives(f, key, k, xs[i])
    ensures FindLast(Pick(xs, f), key, k).Some? ==>
              exists i: nat :: LastGiving(xs, f, key, k, i) && f(xs[i]) == FindLast(Pick(xs, f), key, k)
    decreases |xs|
  {
    if xs != [] {
      var n := |xs| - 1;
      var before := Pick(xs[..n], f);
      FindLastPick(xs[..n], f, key, k);
      if Gives(f, key, k, xs[n]) {
        assert LastGiving(xs, f, key, k, n);
      } else {
        assert forall j :: 0 <= j < n ==> xs[j] == xs[..n][j];
        if f(xs[n]).Some? {
          assert Pick(xs, f)[..|before|] == before;
        } else {
          assert before + [] == before;
        }
        assert FindLast(Pick(xs, f), key, k) == FindLast(before, key, k);
        if FindLast(before, key, k).Some? {
          var i: nat :| LastGiving(xs[..n], f, key, k, i) && f(xs[..n][i]) == FindLast(before, key, k);
          assert LastGiving(xs, f, key, k, i);
        }
      }
    }
  }

  lemma LastGivingFinds<T, U, K>(xs: seq<T>, f: T -> Option<U>, key: U -> K, k: K, i: nat)
    requires LastGiving(xs, f, key, k, i)
    ensures FindLast(Pick(xs, f), key, k) == f(xs[i])
  {
    FindLastPick(xs, f, key, k);
    if FindLast(Pick(xs, f), key, k).Some? {
      var j: nat :| LastGiving(xs, f, key, k, j) && f(xs[j]) == FindLast(Pick(xs, f), key, k);
      assert i == j;
    }
  }

  /** Where keys are distinct, finding a key is having an item with it. */
  lemma FindDistinct<T, K>(xs: seq<T>, key: T -> K, x: T)
    requires Distinct(xs, key)
    ensures x in xs <==> Find(xs, key, key(x)) == Some(x)
  {
    FindSpec(xs, key, key(x));
    if x in xs {
      var i :| 0 <= i < |xs| && xs[i] == x;
      var j :| 0 <= j < |xs| && Find(xs, key, key(x)) == Some(xs[j]) && key(xs[j]) == key(x);
      DistinctAt(xs, key, i, j);
    }
  }

  /** A linear search. */
  method Search<T, K(==)>(xs: seq<T>, key: T -> K, k: K) returns (at: Option<nat>)
    ensures at.Some? ==> at.value < |xs| && key(xs[at.value]) == k && Find(xs, key, k) == Some(xs[at.value])
    ensures at.Some? ==> forall j :: 0 <= j < at.value ==> key(xs[j]) != k
    ensures at.None? <==> Find(xs, key, k).None?
  {
    for i := 0 to |xs|
      invariant forall j :: 0 <= j < i ==> key(xs[j]) != k
    {
      if key(xs[i]) == k {
        FindSpec(xs, key, k);
        return Some(i);
      }
    }
    FindSpec(xs, key, k);
    return None;
  }
}
