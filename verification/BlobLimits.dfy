/** Where the blob door's promises stop: what each kind of failure does, and runs that reach it. */
module BlobLimits {
  import opened Bytes
  import opened Options
  import opened Sizes
  import opened Sorting
  import opened BlobCache
  import opened BlobDoor
  import opened BlobAgreement
  import opened BlobAccounting
  import opened BlobAdmission

  // A GET that fills the cache, and its admission, from any state.

  /** A miss, a stream of n bytes that ends cleanly, and a file ready for admission. */
  function FetchSteps(r: nat, name: Name, known: bool): (steps: seq<Step>) {
    [StartGet(r, name), Stat(r)] + [Fetch(r, true, known, true)]
  }

  function FillSteps(r: nat, name: Name, known: bool, n: nat): (steps: seq<Step>) {
    FetchSteps(r, name, known) + [Deliver(r, n, true, 0), EndStream(r, true, true)]
  }

  function Filled(s: Door, r: nat, name: Name, n: nat): (t: Door)
    requires name in s.store && n <= |s.store[name]|
  {
    var sent := s.store[name][..n];
    s.(reqs := s.reqs[r := Get(name, GetAdmit(s.nextTok, sent, Waiting))],
       incoming := s.incoming[s.nextTok := sent],
       nextTok := s.nextTok + 1,
       log := s.log + [Served(name, sent)])
  }

  predicate CanFill(env: Env, s: Door, r: nat, name: Name, known: bool, n: nat) {
    && r !in s.reqs && name in s.store && name !in s.objects && n <= |s.store[name]|
    && (known ==> n == |s.store[name]| <= env.budget)
  }

  predicate CanFillWhole(env: Env, s: Door, r: nat, name: Name) {
    r !in s.reqs && name in s.store && name !in s.objects && |s.store[name]| <= env.budget
  }

  /** r streams content, having sent this much of it. */
  function Streaming(s: Door, r: nat, name: Name, content: seq<Byte>, reported: nat, sent: nat): (t: Door)
    requires sent <= |content|
  {
    s.(reqs := s.reqs[r := Get(name, Filling(s.nextTok, content, reported, sent, true))],
       incoming := s.incoming[s.nextTok := content[..sent]],
       nextTok := s.nextTok + 1)
  }

  lemma FetchStarts(env: Env, s: Door, r: nat, name: Name, known: bool, n: nat)
    requires CanFill(env, s, r, name, known, n)
    ensures DoFetch(env, DoStat(DoStartGet(s, r, name), r), r, true, known, true)
            == Streaming(s, r, name, s.store[name], if known then |s.store[name]| else 0, 0)
  {
    var a := DoStartGet(s, r, name);
    var b := DoStat(a, r);
    assert s.reqs[r := Get(name, Looking)][r := Get(name, Missed)] == s.reqs[r := Get(name, Missed)];
    assert b == s.(reqs := s.reqs[r := Get(name, Missed)]);
    var g := Filling(s.nextTok, s.store[name], if known then |s.store[name]| else 0, 0, true);
    assert s.reqs[r := Get(name, Missed)][r := Get(name, g)] == s.reqs[r := Get(name, g)];
    assert s.store[name][..0] == [];
  }

  lemma DeliverAll(s: Door, r: nat, name: Name, content: seq<Byte>, reported: nat, n: nat)
    requires n <= |content|
    ensures DoDeliver(Streaming(s, r, name, content, reported, 0), r, n, true, 0)
            == Streaming(s, r, name, content, reported, n)
  {
    var c := Streaming(s, r, name, content, reported, 0);
    var g := Filling(s.nextTok, content, reported, n, true);
    assert content[..0] + content[0..n] == content[..n];
    assert c.reqs[r := Get(name, g)] == s.reqs[r := Get(name, g)];
    assert c.incoming[s.nextTok := content[..n]] == s.incoming[s.nextTok := content[..n]];
  }

  lemma EndFill(s: Door, r: nat, name: Name, reported: nat, n: nat)
    requires name in s.store && n <= |s.store[name]| && LengthAgrees(reported, n)
    ensures DoEndStream(Streaming(s, r, name, s.store[name], reported, n), r, true, true) == Filled(s, r, name, n)
  {
    var content := s.store[name];
    var d := Streaming(s, r, name, content, reported, n);
    var g := GetAdmit(s.nextTok, content[..n], Waiting);
    assert d.reqs[r := Get(name, g)] == s.reqs[r := Get(name, g)];
  }

  lemma FetchRuns(env: Env, s: Door, r: nat, name: Name, known: bool)
    ensures Run(env, s, FetchSteps(r, name, known))
            == DoFetch(env, DoStat(DoStartGet(s, r, name), r), r, true, known, true)
  {
    RunTwo(env, s, StartGet(r, name), Stat(r));
    RunSnoc(env, s, [StartGet(r, name), Stat(r)], Fetch(r, true, known, true));
  }

  lemma FillStepsAre(env: Env, s: Door, r: nat, name: Name, known: bool, n: nat)
    ensures var t := DoFetch(env, DoStat(DoStartGet(s, r, name), r), r, true, known, true);
            Run(env, s, FillSteps(r, name, known, n)) == DoEndStream(DoDeliver(t, r, n, true, 0), r, true, true)
  {
    FetchRuns(env, s, r, name, known);
    RunAppend(env, s, FetchSteps(r, name, known), [Deliver(r, n, true, 0), EndStream(r, true, true)]);
    RunTwo(env, Run(env, s, FetchSteps(r, name, known)), Deliver(r, n, true, 0), EndStream(r, true, true));
  }

  /** The fill gets there from any state, whole if its length is known, cut anywhere if it is not. */
  lemma FillRuns(env: Env, s: Door, r: nat, name: Name, known: bool, n: nat)
    requires CanFill(env, s, r, name, known, n)
    ensures Run(env, s, FillSteps(r, name, known, n)) == Filled(s, r, name, n)
  {
    FillStepsAre(env, s, r, name, known, n);
    FetchStarts(env, s, r, name, known, n);
    DeliverAll(s, r, name, s.store[name], if known then |s.store[name]| else 0, n);
    EndFill(s, r, name, if known then |s.store[name]| else 0, n);
  }

  /** Lock, checks and, with no eviction to do, the rename. */
  function RenameSteps(r: nat): (steps: seq<Step>) {
    Opening(r, [], n => 0, true) + [Rename(r, true, true)]
  }

  function RenamedIn(s: Door, r: nat): (t: Door)
    requires AtTurn(s, r) && Tok(s.reqs[r]).Some?
  {
    Update(s, r, WithTurn(s.reqs[r], Renamed)).(
      lock := Some(r),
      objects := s.objects[s.reqs[r].name := Payload(s.reqs[r])],
      incoming := s.incoming - {Tok(s.reqs[r]).value})
  }

  lemma RenameRuns(env: Env, s: Door, r: nat)
    requires ReadyToAdmit(s, r) && s.reqs[r].name !in s.objects && s.used + |Payload(s.reqs[r])| <= env.budget
    ensures Run(env, s, RenameSteps(r)) == RenamedIn(s, r)
  {
    OpeningEvicts(env, s, r, [], n => 0, true);
    RunSnoc(env, s, Opening(r, [], n => 0, true), Rename(r, true, true));
    RenameAt(env, s, Update(s, r, WithTurn(s.reqs[r], Evicting([]))).(lock := Some(r)), r);
  }

  lemma RenameAt(env: Env, s: Door, u: Door, r: nat)
    requires ReadyToAdmit(s, r) && u == Update(s, r, WithTurn(s.reqs[r], Evicting([]))).(lock := Some(r))
    ensures DoRename(env, u, r, true, true) == RenamedIn(s, r)
  {
    QueueLeft(env, s, r, []);
    TurnTwice(s.(lock := Some(r)), r, Evicting([]), Renamed);
  }

  lemma FilledIsReady(s: Door, r: nat, name: Name, n: nat)
    requires s.lock == None && name in s.store && n <= |s.store[name]|
    ensures var t := Filled(s, r, name, n);
            && ReadyToAdmit(t, r) && t.reqs[r].name == name && Payload(t.reqs[r]) == s.store[name][..n]
            && t.objects == s.objects && t.used == s.used && t.store == s.store
  {
  }

  // What should happen: afterwards the file is in the cache, and counted.

  function CountedIn(s: Door, name: Name, bytes: seq<Byte>, e: Event): (t: Door) {
    s.(objects := s.objects[name := bytes], used := s.used + |bytes|, log := s.log + [e])
  }

  /** Nothing that a client can see is different. */
  predicate SameDoor(t: Door, u: Door) {
    t.objects == u.objects && t.used == u.used && t.store == u.store && t.log == u.log && t.lock == u.lock
  }

  lemma CountAt(p: Door, u: Door, r: nat)
    requires ReadyToAdmit(p, r) && u == RenamedIn(p, r)
    ensures var q := p.reqs[r];
            var t := DoCount(u, r);
            && t.objects == p.objects[q.name := Payload(q)] && t.used == p.used + |Payload(q)| && t.store == p.store
            && t.log == (if q.Put? then p.log + [Acked(q.name, q.body)] else p.log) && t.lock == None && r !in t.reqs
  {
    assert u.reqs[r] == WithTurn(p.reqs[r], Renamed);
    assert Payload(u.reqs[r]) == Payload(p.reqs[r]);
  }

  lemma CountsIn(env: Env, p: Door, r: nat)
    requires ReadyToAdmit(p, r) && p.reqs[r].name !in p.objects && p.used + |Payload(p.reqs[r])| <= env.budget
    ensures var q := p.reqs[r];
            var t := Run(env, p, RenameSteps(r) + [Count(r)]);
            && t.objects == p.objects[q.name := Payload(q)] && t.used == p.used + |Payload(q)| && t.store == p.store
            && t.log == (if q.Put? then p.log + [Acked(q.name, q.body)] else p.log) && t.lock == None && r !in t.reqs
  {
    RenameRuns(env, p, r);
    RunSnoc(env, p, RenameSteps(r), Count(r));
    CountAt(p, RenamedIn(p, r), r);
  }

  /** A miss of an object that fits: it is served from the store, and is in the cache afterwards. */
  lemma MissFillsCache(env: Env, s: Door, r: nat, name: Name)
    requires CanFillWhole(env, s, r, name) && s.lock == None && s.used + |s.store[name]| <= env.budget
    ensures var bytes := s.store[name];
            var t := Run(env, Run(env, s, FillSteps(r, name, true, |bytes|)), RenameSteps(r) + [Count(r)]);
            SameDoor(t, CountedIn(s, name, bytes, Served(name, bytes)))
  {
    var n := |s.store[name]|;
    assert s.store[name][..n] == s.store[name];
    FillRuns(env, s, r, name, true, n);
    FilledIsReady(s, r, name, n);
    CountsIn(env, Filled(s, r, name, n), r);
  }

  // A length that is not reported.

  /** Without a reported length, a stream that stops anywhere is cached as if it were whole. */
  lemma UnreportedLengthCachesPrefix(env: Env, s: Door, r: nat, name: Name, n: nat)
    requires CanFill(env, s, r, name, false, n) && s.lock == None && s.used + n <= env.budget
    ensures var t := Run(env, Run(env, s, FillSteps(r, name, false, n)), RenameSteps(r));
            && t.store == s.store && name in t.objects && t.objects[name] == s.store[name][..n]
            && (t.objects[name] == t.store[name] <==> n == |s.store[name]|)
  {
    FillRuns(env, s, r, name, false, n);
    FilledIsReady(s, r, name, n);
    RenameRuns(env, Filled(s, r, name, n), r);
    assert s.store[name][..|s.store[name]|] == s.store[name];
  }

  // Outboards.

  function PutSteps(r: nat, name: Name, body: seq<Byte>): (steps: seq<Step>) {
    [StartPut(r, name, true), Chunk(r, body)] + [EndBody(r, true), Head(r, true, true)]
  }

  function PutThrough(s: Door, r: nat, name: Name, body: seq<Byte>): (t: Door) {
    s.(reqs := s.reqs[r := Put(name, s.nextTok, body, PutAdmit(Waiting))],
       incoming := s.incoming[s.nextTok := body], nextTok := s.nextTok + 1)
  }

  lemma PutReceives(s: Door, r: nat, name: Name, body: seq<Byte>)
    requires r !in s.reqs
    ensures DoChunk(DoStartPut(s, r, name, true), r, body)
            == PutThrough(s, r, name, body).(reqs := s.reqs[r := Put(name, s.nextTok, body, Receiving)])
  {
    var q := Put(name, s.nextTok, body, Receiving);
    assert [] + body == body;
    assert s.reqs[r := Put(name, s.nextTok, [], Receiving)][r := q] == s.reqs[r := q];
    assert s.incoming[s.nextTok := []][s.nextTok := body] == s.incoming[s.nextTok := body];
  }

  lemma OutboardPasses(env: Env, s: Door, r: nat, name: Name, body: seq<Byte>, b: Door)
    requires name.obao && Matches(s.store, name, |body|)
    requires b == PutThrough(s, r, name, body).(reqs := s.reqs[r := Put(name, s.nextTok, body, Receiving)])
    ensures DoHead(DoEndBody(env, b, r, true), r, true, true) == PutThrough(s, r, name, body)
  {
    var q := Put(name, s.nextTok, body, PutAdmit(Waiting));
    var c := DoEndBody(env, b, r, true);
    assert c.reqs == s.reqs[r := Put(name, s.nextTok, body, Received)];
    assert c.reqs[r := q] == s.reqs[r := q];
  }

  lemma PutRuns(env: Env, s: Door, r: nat, name: Name, body: seq<Byte>)
    requires r !in s.reqs && name.obao && Matches(s.store, name, |body|)
    ensures Run(env, s, PutSteps(r, name, body)) == PutThrough(s, r, name, body)
  {
    var b := PutThrough(s, r, name, body).(reqs := s.reqs[r := Put(name, s.nextTok, body, Receiving)]);
    HeadRuns(env, s, r, name, body);
    OutboardPasses(env, s, r, name, body, b);
  }

  /** An outboard is compared by length only, so any other one of that length can end up in the cache. */
  lemma OutboardsMayDiffer(env: Env, s: Door, r: nat, name: Name, body: seq<Byte>)
    requires r !in s.reqs && s.lock == None && name.obao && name !in s.objects && Matches(s.store, name, |body|)
    requires s.used + |body| <= env.budget
    ensures var t := Run(env, Run(env, s, PutSteps(r, name, body)), RenameSteps(r));
            t.store == s.store && name in t.objects && t.objects[name] == body
  {
    PutRuns(env, s, r, name, body);
    RenameRuns(env, PutThrough(s, r, name, body), r);
  }

  /** The write and its confirmation, which a PUT of something already stored skips. */
  function WriteSteps(r: nat): (steps: seq<Step>) {
    [PutPath(r, true, true, true), Confirm(r, true, true)]
  }

  lemma WriteRuns(env: Env, b: Door, r: nat)
    ensures Run(env, b, WriteSteps(r)) == DoConfirm(DoPutPath(b, r, true, true, true), r, true, true)
  {
    RunTwo(env, b, PutPath(r, true, true, true), Confirm(r, true, true));
  }

  lemma HeadRuns(env: Env, s: Door, r: nat, name: Name, body: seq<Byte>)
    requires r !in s.reqs
    ensures var b := PutThrough(s, r, name, body).(reqs := s.reqs[r := Put(name, s.nextTok, body, Receiving)]);
            Run(env, s, PutSteps(r, name, body)) == DoHead(DoEndBody(env, b, r, true), r, true, true)
  {
    var b := DoChunk(DoStartPut(s, r, name, true), r, body);
    RunAppend(env, s, [StartPut(r, name, true), Chunk(r, body)], [EndBody(r, true), Head(r, true, true)]);
    RunTwo(env, s, StartPut(r, name, true), Chunk(r, body));
    RunTwo(env, b, EndBody(r, true), Head(r, true, true));
    PutReceives(s, r, name, body);
  }

  /** An outboard, or an object under its own hash. */
  predicate RightName(env: Env, name: Name, body: seq<Byte>) {
    name.obao || env.b3(body) == name.hash
  }

  /** A new object or outboard is written, confirmed and ready to be admitted. */
  lemma NewPutPasses(env: Env, s: Door, r: nat, name: Name, body: seq<Byte>)
    requires r !in s.reqs && RightName(env, name, body) && name !in s.store
    ensures Run(env, Run(env, s, PutSteps(r, name, body)), WriteSteps(r))
            == PutThrough(s, r, name, body).(store := s.store[name := body])
  {
    var p := PutThrough(s, r, name, body);
    HeadRuns(env, s, r, name, body);
    var w := p.(reqs := s.reqs[r := Put(name, s.nextTok, body, Writing)]);
    WritingNext(env, s, r, name, body);
    WriteRuns(env, w, r);
    WriteLeads(s, r, name, body, w);
  }

  lemma WritingNext(env: Env, s: Door, r: nat, name: Name, body: seq<Byte>)
    requires r !in s.reqs && RightName(env, name, body) && name !in s.store
    ensures var b := PutThrough(s, r, name, body).(reqs := s.reqs[r := Put(name, s.nextTok, body, Receiving)]);
            DoHead(DoEndBody(env, b, r, true), r, true, true)
            == PutThrough(s, r, name, body).(reqs := s.reqs[r := Put(name, s.nextTok, body, Writing)])
  {
    var b := PutThrough(s, r, name, body).(reqs := s.reqs[r := Put(name, s.nextTok, body, Receiving)]);
    var c := DoEndBody(env, b, r, true);
    assert c.reqs == s.reqs[r := Put(name, s.nextTok, body, Received)];
    assert c.reqs[r := Put(name, s.nextTok, body, Writing)] == s.reqs[r := Put(name, s.nextTok, body, Writing)];
  }

  lemma WriteLeads(s: Door, r: nat, name: Name, body: seq<Byte>, w: Door)
    requires w == PutThrough(s, r, name, body).(reqs := s.reqs[r := Put(name, s.nextTok, body, Writing)])
    ensures DoConfirm(DoPutPath(w, r, true, true, true), r, true, true)
            == PutThrough(s, r, name, body).(store := s.store[name := body])
  {
    var c := DoPutPath(w, r, true, true, true);
    var q := Put(name, s.nextTok, body, PutAdmit(Waiting));
    assert c.reqs == s.reqs[r := Put(name, s.nextTok, body, Confirming)];
    assert c.reqs[r := q] == s.reqs[r := q];
  }

  /** A new object: after its PUT it is in the store and in the cache, and then it is acknowledged. */
  lemma PutFillsCache(env: Env, s: Door, r: nat, name: Name, body: seq<Byte>)
    requires r !in s.reqs && s.lock == None && RightName(env, name, body) && name !in s.store && name !in s.objects
    requires s.used + |body| <= env.budget
    ensures var p := Run(env, Run(env, s, PutSteps(r, name, body)), WriteSteps(r));
            var t := Run(env, p, RenameSteps(r) + [Count(r)]);
            SameDoor(t, CountedIn(s.(store := s.store[name := body]), name, body, Acked(name, body)))
  {
    NewPutPasses(env, s, r, name, body);
    CountsIn(env, PutThrough(s, r, name, body).(store := s.store[name := body]), r);
  }

  /** A body under another hash is turned away, and nothing is stored, cached or acknowledged. */
  lemma WrongHashRefused(env: Env, s: Door, r: nat, name: Name, body: seq<Byte>)
    requires r !in s.reqs && s.lock != Some(r) && !name.obao && env.b3(body) != name.hash
    ensures SameDoor(Run(env, s, PutSteps(r, name, body)), s) && r !in Run(env, s, PutSteps(r, name, body)).reqs
  {
    HeadRuns(env, s, r, name, body);
  }

  /** What is already stored at that length is neither written nor confirmed again. */
  lemma KnownOutboardPasses(env: Env, s: Door, r: nat, name: Name, body: seq<Byte>)
    requires r !in s.reqs && name.obao && Matches(s.store, name, |body|)
    ensures Run(env, Run(env, s, PutSteps(r, name, body)), WriteSteps(r)) == PutThrough(s, r, name, body)
  {
    PutRuns(env, s, r, name, body);
    WriteRuns(env, PutThrough(s, r, name, body), r);
  }

  /** A PUT of another length is turned away. */
  lemma OtherLengthRefused(env: Env, s: Door, r: nat, name: Name, body: seq<Byte>)
    requires r !in s.reqs && name.obao && name in s.store && |s.store[name]| != |body|
    ensures var t := Run(env, Run(env, s, PutSteps(r, name, body)), WriteSteps(r));
            r !in t.reqs && t.objects == s.objects && t.store == s.store
  {
    HeadRuns(env, s, r, name, body);
    WriteRuns(env, Run(env, s, PutSteps(r, name, body)), r);
  }

  lemma RenameAbsent(env: Env, s: Door, r: nat)
    requires r !in s.reqs
    ensures Run(env, s, RenameSteps(r)) == s
  {
    GoneMeansDone(env, s, r, RenameSteps(r));
  }

  /** What a PUT of an outboard should come to. */
  predicate OutboardOutcome(s: Door, t: Door, name: Name, body: seq<Byte>) {
    && (name in t.objects <==> name !in s.store || |s.store[name]| == |body|)
    && (name in t.objects ==>
          && name in t.store
          && (t.objects[name] == t.store[name] <==> name !in s.store || s.store[name] == body))
  }

  lemma Renames(env: Env, p: Door, r: nat, name: Name, body: seq<Byte>)
    requires ReadyToAdmit(p, r) && p.reqs[r].name == name && Payload(p.reqs[r]) == body && name !in p.objects
    requires p.used + |body| <= env.budget
    ensures var t := Run(env, p, RenameSteps(r));
            t.store == p.store && name in t.objects && t.objects[name] == body
  {
    RenameRuns(env, p, r);
  }

  /**
   One PUT of an outboard, alone, from any state with room: it is taken if and only if
   the store has none or one of that length; and then cache and store agree if and only
   if the store had none or the very same.
   */
  lemma OutboardPutIff(env: Env, s: Door, r: nat, name: Name, body: seq<Byte>)
    requires r !in s.reqs && s.lock == None && name.obao && name !in s.objects && s.used + |body| <= env.budget
    ensures var p := Run(env, Run(env, s, PutSteps(r, name, body)), WriteSteps(r));
            OutboardOutcome(s, Run(env, p, RenameSteps(r)), name, body)
  {
    var p := Run(env, Run(env, s, PutSteps(r, name, body)), WriteSteps(r));
    if name !in s.store {
      NewPutPasses(env, s, r, name, body);
      Renames(env, p, r, name, body);
    } else if |s.store[name]| == |body| {
      KnownOutboardPasses(env, s, r, name, body);
      Renames(env, p, r, name, body);
    } else {
      OtherLengthRefused(env, s, r, name, body);
      RenameAbsent(env, p, r);
    }
  }

  // Requests dropped inside admission.

  /** A request dropped between its rename and the counter update leaves the counter short by the file's size. */
  lemma DroppedRenameMiscounts(env: Env, s: Door, r: nat)
    requires AtTurn(s, r) && TurnOf(s.reqs[r]) == Some(Renamed) && s.lock == Some(r)
    requires Total(s.objects) == s.used + |Payload(s.reqs[r])|
    ensures var t := Apply(env, s, DropRenamed(r));
            t.lock == None && (t.used == Total(t.objects) <==> Payload(s.reqs[r]) == [])
  {
    assert Apply(env, s, DropRenamed(r)).objects == s.objects;
  }

  /** A request dropped with an unlink in flight leaves the counter too high by the victim's size. */
  lemma DroppedUnlinkMiscounts(env: Env, s: Door, r: nat, unlinked: bool)
    requires MustEvict(env, s, r) && s.lock == Some(r) && s.used == Total(s.objects)
    requires TurnOf(s.reqs[r]).value.queue[0] in s.objects
    ensures var victim, t := TurnOf(s.reqs[r]).value.queue[0], Apply(env, s, DropEvicting(r, true, unlinked));
            t.lock == None && (t.used == Total(t.objects) <==> s.objects[victim] == [])
  {
    var victim := TurnOf(s.reqs[r]).value.queue[0];
    TotalWithout(s.objects, victim);
    assert Apply(env, s, DropEvicting(r, true, unlinked)).objects == s.objects - {victim};
  }

  /** A file fetched whole and moved into place, up to the counter. */
  lemma FillThenRename(env: Env, s: Door, r: nat, name: Name)
    requires s.lock == None && CanFillWhole(env, s, r, name) && s.used + |s.store[name]| <= env.budget
    ensures Run(env, Run(env, s, FillSteps(r, name, true, |s.store[name]|)), RenameSteps(r))
            == RenamedIn(Filled(s, r, name, |s.store[name]|), r)
  {
    var content := s.store[name];
    FillRuns(env, s, r, name, true, |content|);
    FilledIsReady(s, r, name, |content|);
    assert content[..|content|] == content;
    RenameRuns(env, Filled(s, r, name, |content|), r);
  }

  /** The run that gets to a rename nobody counts, from any counted state with room. */
  lemma RenameNotCounted(env: Env, s: Door, r: nat, name: Name)
    requires s.lock == None && s.used == Total(s.objects) && CanFillWhole(env, s, r, name)
    requires s.used + |s.store[name]| <= env.budget
    ensures var t := Run(env, Run(env, s, FillSteps(r, name, true, |s.store[name]|)), RenameSteps(r));
            var u := Apply(env, t, DropRenamed(r));
            u.lock == None && (u.used == Total(u.objects) <==> s.store[name] == [])
  {
    FillThenRename(env, s, r, name);
    RenamedUncounted(s, r, name);
    DroppedRenameMiscounts(env, RenamedIn(Filled(s, r, name, |s.store[name]|), r), r);
  }

  /** The run that gets to an unlink nobody counts, from any counted state without room. */
  lemma UnlinkNotCounted(env: Env, s: Door, r: nat, name: Name, victim: Name)
    requires s.lock == None && s.used == Total(s.objects) && CanFillWhole(env, s, r, name)
    requires victim in s.objects && s.used + |s.store[name]| > env.budget
    ensures var f := Run(env, s, FillSteps(r, name, true, |s.store[name]|));
            var t := Run(env, f, Opening(r, [victim], n => 0, true));
            var u := Apply(env, t, DropEvicting(r, true, true));
            u.lock == None && (u.used == Total(u.objects) <==> s.objects[victim] == [])
  {
    var content := s.store[name];
    var f := Filled(s, r, name, |content|);
    FillRuns(env, s, r, name, true, |content|);
    FilledIsReady(s, r, name, |content|);
    assert content[..|content|] == content;
    OpeningEvicts(env, f, r, [victim], n => 0, true);
    SortOne(victim, n => 0);
    QueueLeft(env, f, r, [victim]);
    var t := Update(f, r, WithTurn(f.reqs[r], Evicting([victim]))).(lock := Some(r));
    DroppedUnlinkMiscounts(env, t, r, true);
  }

  lemma SortOne(n: Name, accessed: Name -> int)
    ensures Sort(accessed, [n]) == [n]
  {
    assert [n][1..] == [];
  }

  // An unlink that fails.

  /** With its only candidate stuck, an admission goes on and ends above the budget. */
  lemma StuckUnlinkExceeds(env: Env, s: Door, r: nat, name: Name, victim: Name)
    requires s.lock == None && CanFillWhole(env, s, r, name)
    requires victim in s.objects && s.used + |s.store[name]| > env.budget
    ensures var t := Run(env, Run(env, s, FillSteps(r, name, true, |s.store[name]|)),
                         AdmissionSteps(r, [victim], n => 0, Luck(true, {victim}, true)));
            t.used == s.used + |s.store[name]| > env.budget && t.objects == s.objects[name := s.store[name]]
  {
    var content := s.store[name];
    var f := Filled(s, r, name, |content|);
    FillRuns(env, s, r, name, true, |content|);
    FilledIsReady(s, r, name, |content|);
    assert content[..|content|] == content;
    AdmissionRefines(env, f, r, [victim], n => 0, Luck(true, {victim}, true));
    SortOne(victim, n => 0);
    AdmitPastChecks(Disk(s.objects, s.used), name, content, env.budget, [victim], Luck(true, {victim}, true));
    EvictStuck(Disk(s.objects, s.used), victim, |content|, env.budget);
  }

  lemma {:induction false} EvictStuck(d: Disk, victim: Name, need: nat, budget: nat)
    ensures Evict(d, [victim], need, budget, {victim}) == d
  {
    var queue := [victim];
    assert queue[0] == victim && queue[1..] == [];
    assert EvictOne(d, victim, false) == d;
    assert Evict(d, [], need, budget, {victim}) == d;
  }

  /** A count that skips files is exact if and only if the files it skips are empty. */
  lemma SkippedMiscounts(env: Env, s: Door, step: Step)
    requires step.Restart?
    ensures var t := Apply(env, s, step);
            t.used == Total(t.objects) <==> AllEmpty(t.objects, step.unread)
  {
    TotalLess(Apply(env, s, step).objects, step.unread);
  }

  // From an empty cache.

  function DoorOver(store: Files): (s: Door) {
    Door(map[], 0, map[], store, None, map[], 0, [])
  }

  lemma DoorOverOpened(store: Files)
    ensures Opened(DoorOver(store))
  {
    TotalEmpty(DoorOver(store).objects);
  }

  /** A file that is admitted and counted. */
  lemma PublishRuns(env: Env, s: Door, r: nat, name: Name)
    requires s.lock == None && CanFillWhole(env, s, r, name) && s.used + |s.store[name]| <= env.budget
    ensures var t := Run(env, Run(env, s, FillSteps(r, name, true, |s.store[name]|)), RenameSteps(r));
            var u := Apply(env, t, Count(r));
            && u.lock == None && u.reqs == s.reqs && u.store == s.store
            && u.objects == s.objects[name := s.store[name]] && u.used == s.used + |s.store[name]|
  {
    var content := s.store[name];
    FillThenRename(env, s, r, name);
    RenamedFilled(s, r, name);
    CountLeaves(s, r, name, content, s.nextTok, RenamedIn(Filled(s, r, name, |content|), r));
  }

  lemma RenamedUncounted(s: Door, r: nat, name: Name)
    requires name in s.store && name !in s.objects && s.used == Total(s.objects)
    ensures var t := RenamedIn(Filled(s, r, name, |s.store[name]|), r);
            && AtTurn(t, r) && TurnOf(t.reqs[r]) == Some(Renamed) && t.lock == Some(r)
            && Payload(t.reqs[r]) == s.store[name] && Total(t.objects) == t.used + |s.store[name]|
  {
    RenamedFilled(s, r, name);
    TotalWith(s.objects, name, s.store[name]);
  }

  lemma RenamedFilled(s: Door, r: nat, name: Name)
    requires name in s.store
    ensures var content := s.store[name];
            var t := RenamedIn(Filled(s, r, name, |content|), r);
            && t.lock == Some(r) && t.used == s.used && t.store == s.store && t.objects == s.objects[name := content]
            && t.reqs == s.reqs[r := Get(name, GetAdmit(s.nextTok, content, Renamed))]
  {
    var content := s.store[name];
    assert content[..|content|] == content;
    var f := Filled(s, r, name, |content|);
    assert f.reqs[r := Get(name, GetAdmit(s.nextTok, content, Renamed))]
        == s.reqs[r := Get(name, GetAdmit(s.nextTok, content, Renamed))];
  }

  lemma CountLeaves(s: Door, r: nat, name: Name, content: seq<Byte>, tok: nat, t: Door)
    requires r !in s.reqs && t.lock == Some(r) && t.used == s.used && t.store == s.store
    requires t.reqs == s.reqs[r := Get(name, GetAdmit(tok, content, Renamed))]
    ensures var u := DoCount(t, r);
            && u.lock == None && u.reqs == s.reqs && u.store == s.store
            && u.objects == t.objects && u.used == s.used + |content|
  {
    assert t.reqs - {r} == s.reqs;
  }

  /**
   From an empty cache over two files that do not fit together: fill, count, fill again, and
   drop the second inside admission.
   */
  lemma MiscountFromEmpty(env: Env, a: Name, b: Name, store: Files)
    requires a != b && a in store && b in store && store[a] != []
    requires |store[a]| <= env.budget && |store[b]| <= env.budget < |store[a]| + |store[b]|
    ensures var s := DoorOver(store);
            var t := Apply(env, Run(env, Run(env, s, FillSteps(0, a, true, |store[a]|)), RenameSteps(0)), Count(0));
            var u := Run(env, Run(env, t, FillSteps(1, b, true, |store[b]|)), Opening(1, [a], n => 0, true));
            var v := Apply(env, u, DropEvicting(1, true, true));
            Opened(s) && t.used == Total(t.objects) && v.lock == None && v.used != Total(v.objects)
  {
    var s := DoorOver(store);
    DoorOverOpened(store);
    PublishRuns(env, s, 0, a);
    var t := Apply(env, Run(env, Run(env, s, FillSteps(0, a, true, |store[a]|)), RenameSteps(0)), Count(0));
    TotalEmpty(s.objects);
    TotalWith(s.objects, a, store[a]);
    UnlinkNotCounted(env, t, 1, b, a);
  }
}
