/** The bytes a directory of files takes up. */
module Sizes {
  import opened Bytes

  ghost function Total<K>(files: map<K, seq<Byte>>): (n: nat)
    decreases |files|
  {
    if |files| == 0 then 0
    else
      var k :| k in files;
      assert |files - {k}| == |files| - 1 by { assert (files - {k}).Keys == files.Keys - {k}; }
      |files[k]| + Total(files - {k})
  }

  lemma {:induction false} TotalWithout<K>(files: map<K, seq<Byte>>, k: K)
    requires k in files
    ensures Total(files) == |files[k]| + Total(files - {k})
    decreases |files|
  {
    assert |files| > 0;
    var j := Chosen(files);
    if j != k {
      FewerKeys(files, j);
      FewerKeys(files, k);
      TotalWithout(files - {j}, k);
      TotalWithout(files - {k}, j);
      assert files - {j} - {k} == files - {k} - {j};
    }
  }

  lemma FewerKeys<K>(files: map<K, seq<Byte>>, k: K)
    requires k in files
    ensures |files - {k}| == |files| - 1
  {
    assert (files - {k}).Keys == files.Keys - {k};
  }

  lemma Chosen<K>(files: map<K, seq<Byte>>) returns (j: K)
    requires |files| > 0
    ensures j in files && Total(files) == |files[j]| + Total(files - {j})
  {
    j :| j in files && Total(files) == |files[j]| + Total(files - {j});
  }

  lemma TotalWith<K>(files: map<K, seq<Byte>>, k: K, bytes: seq<Byte>)
    requires k !in files
    ensures Total(files[k := bytes]) == Total(files) + |bytes|
  {
    TotalWithout(files[k := bytes], k);
    assert files[k := bytes] - {k} == files;
  }

  lemma TotalEmpty<K>(files: map<K, seq<Byte>>)
    requires files.Keys == {}
    ensures Total(files) == 0
  {
    assert files == map[];
  }

  lemma {:induction false} TotalWithin<K>(some: map<K, seq<Byte>>, files: map<K, seq<Byte>>)
    requires forall k :: k in some ==> k in files && some[k] == files[k]
    ensures Total(some) <= Total(files)
    decreases |files|
  {
    if k :| k in files && k !in some {
      TotalWithout(files, k);
      FewerKeys(files, k);
      TotalWithin(some, files - {k});
    } else {
      assert some == files;
    }
  }

  lemma TotalLessOne<K>(files: map<K, seq<Byte>>, gone: set<K>, k: K)
    requires k in files && k in gone
    ensures files - {k} - gone == files - gone && |files - {k}| < |files|
    ensures Total(files) == |files[k]| + Total(files - {k}) && Total(files - gone) <= Total(files - {k})
  {
    TotalWithout(files, k);
    FewerKeys(files, k);
    TotalWithin(files - gone, files - {k});
  }

  predicate AllEmpty<K>(files: map<K, seq<Byte>>, gone: set<K>) {
    forall k :: k in files && k in gone ==> files[k] == []
  }

  lemma AllEmptyOne<K>(files: map<K, seq<Byte>>, gone: set<K>, k: K)
    requires k in files && k in gone
    ensures AllEmpty(files, gone) <==> files[k] == [] && AllEmpty(files - {k}, gone)
  {
  }

  /** Leaving files out of the sum changes it if and only if one of them is not empty. */
  lemma {:induction false} TotalLess<K>(files: map<K, seq<Byte>>, gone: set<K>)
    ensures Total(files - gone) == Total(files) <==> AllEmpty(files, gone)
    decreases |files|
  {
    if k :| k in files && k in gone {
      TotalLessOne(files, gone, k);
      TotalLess(files - {k}, gone);
      AllEmptyOne(files, gone, k);
    } else {
      assert files - gone == files;
    }
  }
}
