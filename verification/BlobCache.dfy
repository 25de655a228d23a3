/**
 The blob door's disk cache: files in `objects/`, files on their way in under
 `incoming/`, a byte counter and least-recently-used eviction under a budget.
 */
module BlobCache {
  import opened Bytes
  import opened Sizes
  import opened Sorting

  type Hash = seq<Byte>

  /** A cached file is an object or, with `.obao`, its outboard. */
  datatype Name = Name(hash: Hash, obao: bool)

  type Files = map<Name, seq<Byte>>

  datatype Disk = Disk(objects: Files, used: nat)

  ghost predicate Exact(d: Disk) {
    d.used == Total(d.objects)
  }

  /** One turn of the eviction loop: an unlink that fails leaves file and counter alone. */
  function EvictOne(d: Disk, victim: Name, unlinked: bool): (r: Disk) {
    if unlinked && victim in d.objects then
      var len := |d.objects[victim]|;
      Disk(d.objects - {victim}, if d.used < len then 0 else d.used - len)
    else d
  }

  /** Take files off the queue until the need fits the budget or the queue is empty. */
  function Evict(d: Disk, queue: seq<Name>, need: nat, budget: nat, stuck: set<Name>): (r: Disk)
    decreases |queue|
  {
    if queue == [] || d.used + need <= budget then d
    else Evict(EvictOne(d, queue[0], queue[0] !in stuck), queue[1..], need, budget, stuck)
  }

  lemma EvictOneExact(d: Disk, victim: Name, unlinked: bool)
    requires Exact(d)
    ensures Exact(EvictOne(d, victim, unlinked))
  {
    if victim in d.objects { TotalWithout(d.objects, victim); }
  }

  lemma {:induction false} EvictExact(d: Disk, queue: seq<Name>, need: nat, budget: nat, stuck: set<Name>)
    requires Exact(d)
    ensures Exact(Evict(d, queue, need, budget, stuck))
    decreases |queue|
  {
    if queue != [] && d.used + need > budget {
      EvictOneExact(d, queue[0], queue[0] !in stuck);
      EvictExact(EvictOne(d, queue[0], queue[0] !in stuck), queue[1..], need, budget, stuck);
    }
  }

  /** What is left after the first k files of the queue are gone. */
  function Without(objects: Files, queue: seq<Name>, k: nat): (r: Files)
    requires k <= |queue|
  {
    if k == 0 then objects else Without(objects, queue, k - 1) - {queue[k - 1]}
  }

  lemma {:induction false} WithoutIs(objects: Files, queue: seq<Name>, k: nat)
    requires k <= |queue|
    ensures forall n :: n in Without(objects, queue, k) <==> n in objects && n !in queue[..k]
    decreases k
  {
    if k > 0 {
      assert queue[..k] == queue[..k - 1] + [queue[k - 1]];
      WithoutIs(objects, queue, k - 1);
    }
  }

  /** The caches with room for `need` more bytes. */
  ghost function RoomFor(need: nat, budget: nat): (passes: Files -> bool) {
    (files: Files) => Total(files) + need <= budget
  }

  /** k is the fewest files from the front of the queue whose removal makes the rest pass. */
  ghost predicate Shortest(passes: Files -> bool, objects: Files, queue: seq<Name>, k: nat) {
    && k <= |queue|
    && (forall j :: 0 <= j < k ==> !passes(Without(objects, queue, j)))
    && (k < |queue| ==> passes(Without(objects, queue, k)))
  }

  lemma {:induction false} WithoutFirst(objects: Files, queue: seq<Name>, k: nat)
    requires k < |queue|
    ensures Without(objects, queue, k + 1) == Without(objects - {queue[0]}, queue[1..], k)
    decreases k
  {
    if k > 0 { WithoutFirst(objects, queue, k - 1); }
  }

  /** One turn of the eviction loop, with every unlink succeeding. */
  lemma {:induction false} EvictTurn(d: Disk, queue: seq<Name>, need: nat, budget: nat)
    ensures Evict(d, queue, need, budget, {})
            == if queue == [] || d.used + need <= budget then d
               else Evict(EvictOne(d, queue[0], true), queue[1..], need, budget, {})
  {
  }

  lemma EvictOneDrops(d: Disk, name: Name)
    ensures EvictOne(d, name, true).objects == d.objects - {name}
  {
  }

  /** How many files the eviction loop removes, with every unlink succeeding. */
  function Turns(d: Disk, queue: seq<Name>, need: nat, budget: nat): (k: nat)
    ensures k <= |queue|
    decreases |queue|
  {
    if queue == [] || d.used + need <= budget then 0
    else 1 + Turns(EvictOne(d, queue[0], true), queue[1..], need, budget)
  }

  /** The cache after the first k unlinks of the queue. */
  function After(d: Disk, queue: seq<Name>, k: nat): (r: Disk)
    requires k <= |queue|
    decreases k
  {
    if k == 0 then d else After(EvictOne(d, queue[0], true), queue[1..], k - 1)
  }

  lemma {:induction false} AfterIsWithout(d: Disk, queue: seq<Name>, k: nat)
    requires k <= |queue|
    ensures After(d, queue, k).objects == Without(d.objects, queue, k)
    decreases k
  {
    if k > 0 {
      EvictOneDrops(d, queue[0]);
      AfterIsWithout(EvictOne(d, queue[0], true), queue[1..], k - 1);
      WithoutFirst(d.objects, queue, k - 1);
    }
  }

  lemma {:induction false} AfterExact(d: Disk, queue: seq<Name>, k: nat)
    requires Exact(d) && k <= |queue|
    ensures Exact(After(d, queue, k))
    decreases k
  {
    if k > 0 {
      EvictOneExact(d, queue[0], true);
      AfterExact(EvictOne(d, queue[0], true), queue[1..], k - 1);
    }
  }

  lemma {:induction false} EvictIsAfter(d: Disk, queue: seq<Name>, need: nat, budget: nat)
    ensures Evict(d, queue, need, budget, {}) == After(d, queue, Turns(d, queue, need, budget))
    decreases |queue|
  {
    EvictTurn(d, queue, need, budget);
    if queue != [] && d.used + need > budget {
      EvictIsAfter(EvictOne(d, queue[0], true), queue[1..], need, budget);
    }
  }

  /** Before the last turn the counter leaves no room; after it, it does. */
  lemma {:induction false} RoomAtLastTurn(d: Disk, queue: seq<Name>, need: nat, budget: nat, j: nat)
    requires j <= Turns(d, queue, need, budget) && j < |queue|
    ensures After(d, queue, j).used + need <= budget <==> j == Turns(d, queue, need, budget)
    decreases j
  {
    if j > 0 {
      RoomAtLastTurn(EvictOne(d, queue[0], true), queue[1..], need, budget, j - 1);
    }
  }

  /** With every unlink succeeding, what goes is the shortest prefix of the queue that makes room. */
  lemma EvictIsShortestCut(d: Disk, queue: seq<Name>, need: nat, budget: nat) returns (k: nat)
    requires Exact(d)
    ensures Shortest(RoomFor(need, budget), d.objects, queue, k)
    ensures Evict(d, queue, need, budget, {}).objects == Without(d.objects, queue, k)
  {
    k := Turns(d, queue, need, budget);
    EvictIsAfter(d, queue, need, budget);
    AfterIsWithout(d, queue, k);
    forall j | 0 <= j <= k && j < |queue|
      ensures RoomFor(need, budget)(Without(d.objects, queue, j)) <==> j == k
    {
      AfterIsWithout(d, queue, j);
      AfterExact(d, queue, j);
      RoomAtLastTurn(d, queue, need, budget, j);
    }
  }

  /** The queue lists every cached file once, least recently used first. */
  ghost predicate LruOrder(queue: seq<Name>, objects: Files, accessed: Name -> int) {
    Distinct(queue) && SortedBy(accessed, queue) && forall n :: n in queue <==> n in objects
  }

  /** A queue that lists every file always makes room for what fits an empty cache. */
  lemma EvictMakesRoom(d: Disk, queue: seq<Name>, need: nat, budget: nat)
    requires Exact(d) && need <= budget && forall n :: n in queue <==> n in d.objects
    ensures Evict(d, queue, need, budget, {}).used + need <= budget
  {
    var k := EvictIsShortestCut(d, queue, need, budget);
    EvictExact(d, queue, need, budget, {});
    if k == |queue| {
      var left := Without(d.objects, queue, k);
      assert queue[..k] == queue;
      WithoutIs(d.objects, queue, k);
      TotalEmpty(left);
    }
  }

  lemma LruPrefix(queue: seq<Name>, accessed: Name -> int, k: nat, gone: Name, kept: Name)
    requires SortedBy(accessed, queue) && k <= |queue| && gone in queue[..k] && kept in queue && kept !in queue[..k]
    ensures accessed(gone) <= accessed(kept)
  {
    var i :| 0 <= i < k && queue[..k][i] == gone;
    var j :| 0 <= j < |queue| && queue[j] == kept;
  }

  /** Nothing that was evicted had been used after something that was kept. */
  lemma EvictIsLru(d: Disk, queue: seq<Name>, need: nat, budget: nat, accessed: Name -> int)
    requires Exact(d) && LruOrder(queue, d.objects, accessed)
    ensures var after := Evict(d, queue, need, budget, {}).objects;
            forall gone, kept :: gone in d.objects && gone !in after && kept in after
                                 ==> kept in d.objects && accessed(gone) <= accessed(kept)
  {
    var k := EvictIsShortestCut(d, queue, need, budget);
    var after := Without(d.objects, queue, k);
    WithoutIs(d.objects, queue, k);
    forall gone, kept | gone in d.objects && gone !in after && kept in after
      ensures accessed(gone) <= accessed(kept)
    {
      LruPrefix(queue, accessed, k, gone, kept);
    }
  }

  datatype Admission = Kept | Dropped | Failed

  datatype Admitted = Admitted(disk: Disk, outcome: Admission)

  /**
   What the file system does to an admission: whether the listing works, which unlinks fail,
   whether the rename works.
   */
  datatype Luck = Luck(listed: bool, stuck: set<Name>, renames: bool)

  /** What admission does to the cache: a name already there stays, too large a file is let go. */
  function Admit(d: Disk, name: Name, bytes: seq<Byte>, budget: nat, queue: seq<Name>, luck: Luck): (r: Admitted) {
    if name in d.objects then Admitted(d, Kept)
    else if |bytes| > budget then Admitted(d, Dropped)
    else if d.used + |bytes| > budget && !luck.listed then Admitted(d, Failed)
    else
      var e := Evict(d, queue, |bytes|, budget, luck.stuck);
      if luck.renames then Admitted(Disk(e.objects[name := bytes], e.used + |bytes|), Kept)
      else Admitted(e, Failed)
  }

  /** The files an eviction cannot take: unlinking them fails, or they are not in the queue. */
  function Fixed(objects: Files, queue: seq<Name>, stuck: set<Name>): (r: Files) {
    map n | n in objects && (n in stuck || n !in queue) :: objects[n]
  }

  lemma FixedWithin(objects: Files, queue: seq<Name>, stuck: set<Name>)
    ensures Total(Fixed(objects, queue, stuck)) <= Total(objects)
  {
    TotalWithin(Fixed(objects, queue, stuck), objects);
  }

  lemma FixedNext(d: Disk, queue: seq<Name>, stuck: set<Name>)
    requires queue != []
    ensures Fixed(EvictOne(d, queue[0], queue[0] !in stuck).objects, queue[1..], stuck)
            == Fixed(d.objects, queue, stuck)
  {
    assert queue == [queue[0]] + queue[1..];
  }

  /** Eviction makes room if and only if the files it cannot take leave room. */
  lemma {:induction false} EvictRoomIff(d: Disk, queue: seq<Name>, need: nat, budget: nat, stuck: set<Name>)
    requires Exact(d)
    ensures Evict(d, queue, need, budget, stuck).used + need <= budget
            <==> Total(Fixed(d.objects, queue, stuck)) + need <= budget
    decreases |queue|
  {
    if queue == [] {
      assert Fixed(d.objects, queue, stuck) == d.objects;
    } else if d.used + need <= budget {
      FixedWithin(d.objects, queue, stuck);
    } else {
      var unlinked := queue[0] !in stuck;
      EvictOneExact(d, queue[0], unlinked);
      FixedNext(d, queue, stuck);
      EvictRoomIff(EvictOne(d, queue[0], unlinked), queue[1..], need, budget, stuck);
    }
  }

  /** A new file ends within the budget if and only if the files that cannot go leave room for it. */
  lemma AdmitRoomIff(d: Disk, name: Name, bytes: seq<Byte>, budget: nat, queue: seq<Name>, luck: Luck)
    requires Exact(d) && name !in d.objects && Admit(d, name, bytes, budget, queue, luck).outcome == Kept
    ensures Admit(d, name, bytes, budget, queue, luck).disk.used <= budget
            <==> Total(Fixed(d.objects, queue, luck.stuck)) + |bytes| <= budget
  {
    EvictRoomIff(d, queue, |bytes|, budget, luck.stuck);
  }

  /** Eviction never brings a file in, and never changes one. */
  lemma {:induction false} EvictShrinks(d: Disk, queue: seq<Name>, need: nat, budget: nat, stuck: set<Name>)
    ensures var e := Evict(d, queue, need, budget, stuck).objects;
            forall n :: n in e ==> n in d.objects && e[n] == d.objects[n]
    decreases |queue|
  {
    if queue != [] && d.used + need > budget {
      EvictShrinks(EvictOne(d, queue[0], queue[0] !in stuck), queue[1..], need, budget, stuck);
    }
  }

  /**
   The counter stays exact, whatever fails; a new file ends within the budget when
   no unlink fails and no file is missing from the queue.
   */
  lemma AdmitAccounts(d: Disk, name: Name, bytes: seq<Byte>, budget: nat, queue: seq<Name>, luck: Luck)
    requires Exact(d)
    ensures var r := Admit(d, name, bytes, budget, queue, luck);
            && Exact(r.disk)
            && (luck.stuck == {} && (forall n :: n in queue <==> n in d.objects) && name !in d.objects
                && r.outcome == Kept
                ==> r.disk.used <= budget)
  {
    if name !in d.objects && |bytes| <= budget {
      var e := Evict(d, queue, |bytes|, budget, luck.stuck);
      EvictExact(d, queue, |bytes|, budget, luck.stuck);
      EvictShrinks(d, queue, |bytes|, budget, luck.stuck);
      TotalWith(e.objects, name, bytes);
      if luck.stuck == {} && forall n :: n in queue <==> n in d.objects { EvictMakesRoom(d, queue, |bytes|, budget); }
    }
  }

  /** What an admission leaves: the new file, whole, where it is kept; and of the old files only evictions. */
  lemma AdmitPublishes(d: Disk, name: Name, bytes: seq<Byte>, budget: nat, queue: seq<Name>, luck: Luck)
    ensures var r := Admit(d, name, bytes, budget, queue, luck);
            && (r.outcome == Kept ==>
                  name in r.disk.objects
                  && r.disk.objects[name] == if name in d.objects then d.objects[name] else bytes)
            && (r.outcome == Dropped <==> name !in d.objects && |bytes| > budget)
            && (r.outcome != Kept ==> name !in r.disk.objects)
            && (forall n :: n in r.disk.objects && n != name ==> n in d.objects && r.disk.objects[n] == d.objects[n])
            && (forall n :: n in d.objects && n !in r.disk.objects ==>
                  n in queue && n !in luck.stuck && d.used + |bytes| > budget)
  {
    EvictShrinks(d, queue, |bytes|, budget, luck.stuck);
    EvictTakes(d, queue, |bytes|, budget, luck.stuck);
  }

  lemma {:induction false} EvictTakes(d: Disk, queue: seq<Name>, need: nat, budget: nat, stuck: set<Name>)
    ensures forall n :: n in d.objects && n !in Evict(d, queue, need, budget, stuck).objects ==>
                          n in queue && n !in stuck && d.used + need > budget
    decreases |queue|
  {
    if queue != [] && d.used + need > budget {
      var next := EvictOne(d, queue[0], queue[0] !in stuck);
      EvictTakes(next, queue[1..], need, budget, stuck);
      assert queue == [queue[0]] + queue[1..];
    }
  }

  lemma ScanOne(left: Files, unreadable: set<Name>, n: Name)
    requires n in left
    ensures Total(left - unreadable) == (if n in unreadable then 0 else |left[n]|) + Total(left - {n} - unreadable)
  {
    if n in unreadable {
      assert left - {n} - unreadable == left - unreadable;
    } else {
      TotalWithout(left - unreadable, n);
      assert left - unreadable - {n} == left - {n} - unreadable;
    }
  }

  /** `scan_size`: the bytes in a directory, but for files whose metadata cannot be read. */
  method ScanSize(files: Files, unreadable: set<Name>) returns (total: nat)
    ensures total == Total(files - unreadable)
  {
    total := 0;
    var left := files;
    while left.Keys != {}
      invariant total + Total(left - unreadable) == Total(files - unreadable)
      decreases left.Keys
    {
      var n :| n in left;
      ScanOne(left, unreadable, n);
      if n !in unreadable {
        total := total + |left[n]|;
      }
      left := left - {n};
    }
    TotalEmpty(left - unreadable);
  }

  /** `sweep_dir`: unlink every leftover that can be unlinked. */
  method SweepDir(leftovers: map<nat, seq<Byte>>, stuck: set<nat>) returns (kept: map<nat, seq<Byte>>)
    ensures kept == leftovers - (leftovers.Keys - stuck)
  {
    kept := leftovers;
    var rest := leftovers.Keys;
    while rest != {}
      invariant rest <= leftovers.Keys
      invariant kept == leftovers - (leftovers.Keys - rest - stuck)
      decreases rest
    {
      var t :| t in rest;
      rest := rest - {t};
      if t !in stuck { kept := kept - {t}; }
    }
  }

  /** `read_dir` with metadata: every name once, in no particular order, but for those that cannot be read. */
  method ListDir(files: Files, unreadable: set<Name>) returns (listing: seq<Name>)
    ensures Distinct(listing) && forall n :: n in listing <==> n in files && n !in unreadable
  {
    listing := [];
    var rest := files.Keys;
    while rest != {}
      invariant rest <= files.Keys
      invariant Distinct(listing)
      invariant forall n :: n in listing <==> n in files.Keys - rest && n !in unreadable
      decreases rest
    {
      var n :| n in rest;
      rest := rest - {n};
      if n in unreadable {
        continue;
      }
      assert n !in listing;
      listing := listing + [n];
    }
  }

  lemma CountedIff(files: Files, unreadable: set<Name>, total: nat)
    requires total == Total(files - unreadable)
    ensures Exact(Disk(files, total)) <==> AllEmpty(files, unreadable)
  {
    TotalLess(files, unreadable);
  }

  class DiskCache {
    const budget: nat
    var objects: Files
    var incoming: map<nat, seq<Byte>>
    var used: nat

    ghost function View(): (d: Disk)
      reads this
    {
      Disk(objects, used)
    }

    /** The counter is the size of the cache. */
    ghost predicate Counted()
      reads this
    {
      Exact(View())
    }

    /**
     Start on a cache directory as found: sweep `incoming/`, count `objects/`.
     `stuck` are the leftovers that cannot be unlinked, `unreadable` the files the count
     skips: it is exact if and only if those are empty.
     */
    constructor Open(files: Files, leftovers: map<nat, seq<Byte>>, stuck: set<nat>, unreadable: set<Name>, budget: nat)
      ensures Counted() <==> AllEmpty(files, unreadable)
      ensures used == Total(files - unreadable) && this.budget == budget
      ensures objects == files
      ensures incoming == leftovers - (leftovers.Keys - stuck)
    {
      var kept := SweepDir(leftovers, stuck);
      var total := ScanSize(files, unreadable);
      CountedIff(files, unreadable, total);
      this.budget := budget;
      objects, incoming, used := files, kept, total;
    }

    /** `evict_to_fit`. Files in `unreadable` are passed over; without a listing nothing is done. */
    method EvictToFit(need: nat, accessed: Name -> int, unreadable: set<Name>, luck: Luck)
      returns (ok: bool, ghost queue: seq<Name>)
      modifies this`objects, this`used
      ensures old(Counted()) ==> Counted()
      ensures ok <==> old(used) + need <= budget || luck.listed
      ensures LruOrder(queue, old(objects) - unreadable, accessed)
      ensures View() == if ok then Evict(old(View()), queue, need, budget, luck.stuck) else old(View())
    {
      ghost var start := View();
      var listing := ListDir(objects, unreadable);
      var entries := Sort(accessed, listing);
      SortSorts(accessed, listing);
      SortMembers(accessed, listing);
      SortKeepsDistinct(accessed, listing);
      queue := entries;
      if used + need <= budget {
        return true, queue;
      }
      if !luck.listed {
        return false, queue;
      }
      if Exact(start) { EvictExact(start, queue, need, budget, luck.stuck); }
      while entries != [] && used + need > budget
        invariant Evict(start, queue, need, budget, luck.stuck) == Evict(View(), entries, need, budget, luck.stuck)
        invariant forall n :: n in entries ==> n in objects
        invariant Distinct(entries)
        decreases |entries|
      {
        var path := entries[0];
        var len := |objects[path]|;
        if path !in luck.stuck {
          objects := objects - {path};
          used := if used < len then 0 else used - len;
        }
        entries := entries[1..];
      }
      ok := true;
    }

    /**
     Under the admission lock: the shared body of `promote` and `commit_fill`.
     A failure leaves the incoming file to its owner's clean-up.
     */
    method AdmitFile(tok: nat, name: Name, accessed: Name -> int, unreadable: set<Name>, luck: Luck)
      returns (r: Admission, ghost queue: seq<Name>)
      requires tok in incoming
      modifies this`objects, this`used, this`incoming
      ensures old(Counted()) ==> Counted()
      ensures LruOrder(queue, old(objects) - unreadable, accessed)
      ensures Admitted(View(), r) == Admit(old(View()), name, old(incoming)[tok], budget, queue, luck)
      ensures incoming == (if r == Failed then old(incoming) else old(incoming) - {tok})
      ensures r == Kept && old(Counted() && name !in objects) ==>
                (used <= budget
                 <==> Total(Fixed(old(objects), queue, luck.stuck)) + |old(incoming)[tok]| <= budget)
    {
      if name in objects || |incoming[tok]| > budget {
        queue := AnyQueue(objects - unreadable, accessed);
        r := if name in objects then Kept else Dropped;
        incoming := incoming - {tok};
        return;
      }
      r, queue := Publish(tok, name, accessed, unreadable, luck);
    }

    /** The part of admission that makes room and renames. */
    method Publish(tok: nat, name: Name, accessed: Name -> int, unreadable: set<Name>, luck: Luck)
      returns (r: Admission, ghost queue: seq<Name>)
      requires tok in incoming && name !in objects && |incoming[tok]| <= budget
      modifies this`objects, this`used, this`incoming
      ensures old(Counted()) ==> Counted()
      ensures LruOrder(queue, old(objects) - unreadable, accessed)
      ensures Admitted(View(), r) == Admit(old(View()), name, old(incoming)[tok], budget, queue, luck)
      ensures incoming == (if r == Failed then old(incoming) else old(incoming) - {tok})
      ensures r == Kept && old(Counted()) ==>
                (used <= budget
                 <==> Total(Fixed(old(objects), queue, luck.stuck)) + |old(incoming)[tok]| <= budget)
    {
      ghost var start := View();
      var bytes := incoming[tok];
      var ok;
      ok, queue := EvictToFit(|bytes|, accessed, unreadable, luck);
      if Exact(start) { AdmitAccounts(start, name, bytes, budget, queue, luck); }
      if !ok || !luck.renames {
        return Failed, queue;
      }
      if Exact(start) { AdmitRoomIff(start, name, bytes, budget, queue, luck); }
      objects := objects[name := bytes];
      incoming := incoming - {tok};
      used := used + |bytes|;
      r := Kept;
    }
  }

  /** Any cache has its files in access order. */
  lemma AnyQueue(files: Files, accessed: Name -> int) returns (queue: seq<Name>)
    ensures LruOrder(queue, files, accessed)
    decreases |files|
  {
    if files.Keys == {} {
      queue := [];
    } else {
      var n :| n in files;
      assert (files - {n}).Keys == files.Keys - {n};
      var rest := AnyQueue(files - {n}, accessed);
      queue := Insert(accessed, n, rest);
      InsertSorted(accessed, n, rest);
      InsertDistinct(accessed, n, rest);
    }
  }
}
