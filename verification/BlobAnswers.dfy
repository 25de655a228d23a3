/** Which requests are answered, and with what: no request that gets its turns goes without its answer. */
module BlobAnswers {
  import opened Bytes
  import opened Options
  import opened BlobCache
  import opened BlobDoor
  import opened BlobAgreement
  import opened BlobAccounting
  import opened BlobAdmission
  import opened BlobPromises

  // One GET by itself.

  lemma HitNoticed(env: Env, s: Door, r: nat, name: Name)
    requires r !in s.reqs && name in s.objects
    ensures Run(env, s, [StartGet(r, name), Stat(r)]) == s.(reqs := s.reqs[r := Get(name, Seen)])
  {
    RunTwo(env, s, StartGet(r, name), Stat(r));
    assert DoStat(DoStartGet(s, r, name), r) == s.(reqs := s.reqs[r := Get(name, Seen)]);
  }

  lemma SeenRead(env: Env, s: Door, r: nat, name: Name)
    requires r !in s.reqs && s.lock != Some(r) && name in s.objects
    ensures Run(env, s.(reqs := s.reqs[r := Get(name, Seen)]), [Open(r), FinishRead(r)])
            == s.(log := s.log + [Served(name, s.objects[name])])
  {
    var seen := s.(reqs := s.reqs[r := Get(name, Seen)]);
    RunTwo(env, seen, Open(r), FinishRead(r));
    var reading := s.(reqs := s.reqs[r := Get(name, Reading(s.objects[name]))]);
    assert DoOpen(seen, r) == reading;
    assert reading.reqs - {r} == s.reqs;
  }

  /** A hit: the file as it is in the cache, whatever the store would have said, and nothing else changes. */
  lemma HitAnswered(env: Env, s: Door, r: nat, name: Name)
    requires r !in s.reqs && s.lock != Some(r) && name in s.objects
    ensures Run(env, s, [StartGet(r, name), Stat(r)] + [Open(r), FinishRead(r)])
            == s.(log := s.log + [Served(name, s.objects[name])])
  {
    RunAppend(env, s, [StartGet(r, name), Stat(r)], [Open(r), FinishRead(r)]);
    HitNoticed(env, s, r, name);
    SeenRead(env, s, r, name);
  }

  lemma MissNoticed(env: Env, s: Door, r: nat, name: Name)
    requires r !in s.reqs && name !in s.objects
    ensures Run(env, s, [StartGet(r, name), Stat(r)]) == s.(reqs := s.reqs[r := Get(name, Missed)])
  {
    RunTwo(env, s, StartGet(r, name), Stat(r));
    assert DoStat(DoStartGet(s, r, name), r) == s.(reqs := s.reqs[r := Get(name, Missed)]);
  }

  /** Neither cached nor stored: the client is told so, and nothing else changes. */
  lemma AbsentAnswered(env: Env, s: Door, r: nat, name: Name, known: bool, created: bool)
    requires r !in s.reqs && s.lock != Some(r) && name !in s.objects && name !in s.store
    ensures Run(env, s, [StartGet(r, name), Stat(r)] + [Fetch(r, true, known, created)])
            == s.(log := s.log + [Absent(name)])
  {
    RunSnoc(env, s, [StartGet(r, name), Stat(r)], Fetch(r, true, known, created));
    MissNoticed(env, s, r, name);
    assert s.reqs[r := Get(name, Missed)] - {r} == s.reqs;
  }

  /** A stream under way from its first byte, kept in a file or only passed on. */
  predicate StreamStarts(s: Door, f: Door, r: nat, name: Name)
    requires name in s.store
  {
    && f.store == s.store && f.objects == s.objects && f.log == s.log && r in f.reqs && f.reqs[r].Get?
    && f.reqs[r].name == name && OnItsWay(f.reqs[r], name, s.store[name])
    && (f.reqs[r].gstage.Filling? ==> f.reqs[r].gstage.sent == 0 && f.reqs[r].gstage.tok in f.incoming)
    && (f.reqs[r].gstage.Passing? ==> f.reqs[r].gstage.sent == 0)
    && (f.reqs[r].gstage.Filling? || f.reqs[r].gstage.Passing?)
  }

  lemma MissFetched(env: Env, s: Door, r: nat, name: Name, known: bool, created: bool)
    requires r !in s.reqs && name !in s.objects && name in s.store
    ensures var missed := [StartGet(r, name), Stat(r)] + [Fetch(r, true, known, created)];
            StreamStarts(s, Run(env, s, missed), r, name)
  {
    RunSnoc(env, s, [StartGet(r, name), Stat(r)], Fetch(r, true, known, created));
    MissNoticed(env, s, r, name);
  }

  lemma StreamEnds(env: Env, s: Door, f: Door, r: nat, name: Name, synced: bool)
    requires name in s.store && StreamStarts(s, f, r, name)
    ensures var t := Run(env, f, [Deliver(r, |s.store[name]|, true, 0), EndStream(r, synced, true)]);
            t.log == s.log + [Served(name, s.store[name])] && t.store == s.store && t.objects == s.objects
  {
    var content := s.store[name];
    RunTwo(env, f, Deliver(r, |content|, true, 0), EndStream(r, synced, true));
    assert content[..|content|] == content;
  }

  /** A miss whose whole stream arrives, kept or not, in one piece: the stored bytes. */
  lemma MissAnswered(env: Env, s: Door, r: nat, name: Name, known: bool, created: bool, synced: bool)
    requires r !in s.reqs && name !in s.objects && name in s.store
    ensures var missed := [StartGet(r, name), Stat(r)] + [Fetch(r, true, known, created)];
            var t := Run(env, Run(env, s, missed), [Deliver(r, |s.store[name]|, true, 0), EndStream(r, synced, true)]);
            t.log == s.log + [Served(name, s.store[name])] && t.store == s.store && t.objects == s.objects
  {
    var missed := [StartGet(r, name), Stat(r)] + [Fetch(r, true, known, created)];
    MissFetched(env, s, r, name, known, created);
    StreamEnds(env, s, Run(env, s, missed), r, name, synced);
  }

  // A GET among any other requests.

  /** The store has these bytes for the name, and so has the cache if it has any. */
  predicate Holds(t: Door, name: Name, bytes: seq<Byte>) {
    name in t.store && t.store[name] == bytes && (name in t.objects ==> t.objects[name] == bytes)
  }

  /** A GET that has not been answered yet, and will be with these bytes. */
  predicate OnItsWay(q: Request, name: Name, bytes: seq<Byte>) {
    q.Get? && q.name == name &&
    match q.gstage
    case Looking => true
    case Seen => true
    case Missed => true
    case Reading(file) => file == bytes
    case Filling(_, content, reported, sent, _) =>
      content == bytes && sent <= |bytes| && LengthAgrees(reported, |bytes|)
    case Passing(content, reported, sent) => content == bytes && sent <= |bytes| && LengthAgrees(reported, |bytes|)
    case GetAdmit(_, _, _) => false
  }

  /** All of the stream has gone to the client, if one is under way. */
  predicate SentAll(q: Request) {
    q.Get? ==>
      match q.gstage
      case Filling(_, content, _, sent, _) => sent == |content|
      case Passing(content, _, sent) => sent == |content|
      case _ => true
  }

  /** What ends a GET without an answer: a restart, the client going, the store not answering, a stream cut short. */
  predicate GetFails(t: Door, step: Step, r: nat) {
    || step.Restart?
    || (step.r == r && (step.Abandon? || (step.Fetch? && !step.answered)))
    || (step.EndStream? && step.r == r && r in t.reqs && !SentAll(t.reqs[r]))
  }

  /** Nothing is struck from the log or from the store. */
  predicate Grows(t: Door, u: Door) {
    t.log <= u.log && forall n :: n in t.store ==> n in u.store
  }

  lemma PutGrows(env: Env, t: Door, step: Step)
    requires OnPut(step)
    ensures Grows(t, Apply(env, t, step))
  {
  }

  lemma GetGrows(env: Env, t: Door, step: Step)
    requires OnRead(step) || OnStream(step)
    ensures Grows(t, Apply(env, t, step))
  {
  }

  lemma LockGrows(env: Env, t: Door, step: Step)
    requires step.Acquire? || step.Check? || step.EvictNext? || step.Rename?
    ensures Grows(t, Apply(env, t, step))
  {
  }

  lemma EndGrows(env: Env, t: Door, step: Step)
    requires step.Count? || step.DropEvicting? || step.DropRenamed? || step.Restart?
    ensures Grows(t, Apply(env, t, step))
  {
  }

  lemma StepGrows(env: Env, t: Door, step: Step)
    ensures Grows(t, Apply(env, t, step))
  {
    if OnPut(step) {
      PutGrows(env, t, step);
    } else if OnRead(step) || OnStream(step) {
      GetGrows(env, t, step);
    } else if step.Acquire? || step.Check? || step.EvictNext? || step.Rename? {
      LockGrows(env, t, step);
    } else {
      EndGrows(env, t, step);
    }
  }

  predicate Untouched(t: Door, u: Door, r: nat) {
    r in t.reqs ==> r in u.reqs && u.reqs[r] == t.reqs[r]
  }

  lemma TurnLeavesOthers(env: Env, t: Door, step: Step, r: nat)
    requires (step.Acquire? || step.Check? || step.EvictNext?) && step.r != r
    ensures Untouched(t, Apply(env, t, step), r)
  {
  }

  lemma MoveLeavesOthers(env: Env, t: Door, step: Step, r: nat)
    requires (step.Rename? || step.Count? || step.DropEvicting? || step.DropRenamed?) && step.r != r
    ensures Untouched(t, Apply(env, t, step), r)
  {
  }

  lemma LockLeavesOthers(env: Env, t: Door, step: Step, r: nat)
    requires IsAdmission(step) && step.r != r
    ensures Untouched(t, Apply(env, t, step), r)
  {
    if step.Acquire? || step.Check? || step.EvictNext? {
      TurnLeavesOthers(env, t, step, r);
    } else {
      MoveLeavesOthers(env, t, step, r);
    }
  }

  lemma OthersStay(env: Env, t: Door, step: Step, r: nat)
    requires !step.Restart? && step.r != r
    ensures Untouched(t, Apply(env, t, step), r)
  {
    if IsAdmission(step) { LockLeavesOthers(env, t, step, r); } else { OutsideShape(env, t, step); }
  }

  /** The request is still on its way, or this step answered it. */
  predicate Goes(t: Door, u: Door, r: nat, name: Name, bytes: seq<Byte>) {
    || (r in u.reqs && OnItsWay(u.reqs[r], name, bytes))
    || (|u.log| > |t.log| && u.log[|t.log|] == Served(name, bytes))
  }

  lemma OwnReadStep(env: Env, t: Door, step: Step, r: nat, name: Name, bytes: seq<Byte>)
    requires r in t.reqs && OnItsWay(t.reqs[r], name, bytes) && Holds(t, name, bytes)
    requires !GetFails(t, step, r) && step.r == r && !OnStream(step)
    ensures Goes(t, Apply(env, t, step), r, name, bytes)
  {
  }

  lemma OwnStreamStep(env: Env, t: Door, step: Step, r: nat, name: Name, bytes: seq<Byte>)
    requires r in t.reqs && OnItsWay(t.reqs[r], name, bytes) && Holds(t, name, bytes)
    requires !GetFails(t, step, r) && step.r == r && OnStream(step)
    ensures Goes(t, Apply(env, t, step), r, name, bytes)
  {
    assert bytes[..|bytes|] == bytes;
  }

  lemma OwnGetStep(env: Env, t: Door, step: Step, r: nat, name: Name, bytes: seq<Byte>)
    requires r in t.reqs && OnItsWay(t.reqs[r], name, bytes) && Holds(t, name, bytes)
    requires !GetFails(t, step, r) && step.r == r
    ensures Goes(t, Apply(env, t, step), r, name, bytes)
  {
    if OnStream(step) {
      OwnStreamStep(env, t, step, r, name, bytes);
    } else {
      OwnReadStep(env, t, step, r, name, bytes);
    }
  }

  lemma GetStep(env: Env, t: Door, step: Step, r: nat, name: Name, bytes: seq<Byte>)
    requires r in t.reqs && OnItsWay(t.reqs[r], name, bytes) && Holds(t, name, bytes) && !GetFails(t, step, r)
    ensures Goes(t, Apply(env, t, step), r, name, bytes)
  {
    if step.r == r {
      OwnGetStep(env, t, step, r, name, bytes);
    } else {
      OthersStay(env, t, step, r);
    }
  }

  /** How far a GET is from its answer. */
  function Distance(g: GetStage): (n: nat) {
    match g
    case Looking => 4
    case Seen => 3
    case Missed => 2
    case _ => 1
  }

  /** The step each stage waits for; a stream waits for its bytes and then for its end. */
  predicate Turns(q: Request, step: Step) {
    q.Get? &&
    match q.gstage
    case Looking => step.Stat?
    case Seen => step.Open?
    case Missed => step.Fetch? && step.answered
    case Reading(_) => step.FinishRead?
    case Filling(_, content, _, sent, _) => step.EndStream? && sent == |content|
    case Passing(content, _, sent) => step.EndStream? && sent == |content|
    case GetAdmit(_, _, _) => false
  }

  /** Each of its turns brings a GET closer to its answer, and the last one is the answer. */
  lemma GetAdvances(env: Env, t: Door, step: Step, r: nat, name: Name, bytes: seq<Byte>)
    requires !step.Restart? && step.r == r && r in t.reqs && OnItsWay(t.reqs[r], name, bytes)
    requires Holds(t, name, bytes) && Turns(t.reqs[r], step)
    ensures var u := Apply(env, t, step);
            || (r in u.reqs && OnItsWay(u.reqs[r], name, bytes)
                && Distance(u.reqs[r].gstage) < Distance(t.reqs[r].gstage))
            || u.log == t.log + [Served(name, bytes)]
  {
    assert bytes[..|bytes|] == bytes;
  }

  predicate ServedSince(u: Door, from: nat, name: Name, bytes: seq<Byte>) {
    exists j :: from <= j < |u.log| && u.log[j] == Served(name, bytes)
  }

  ghost predicate LivesAt(env: Env, s: Door, steps: seq<Step>, k: nat, r: nat)
    requires k < |steps|
  {
    !GetFails(Run(env, s, steps[..k]), steps[k], r)
  }

  /** From moment m of the run on, nothing ends r's GET before its answer. */
  ghost predicate GetLives(env: Env, s: Door, steps: seq<Step>, m: nat, r: nat) {
    forall k :: m <= k < |steps| ==> LivesAt(env, s, steps, k, r)
  }

  lemma {:induction false} LivesAlike(env: Env, s: Door, a: seq<Step>, b: seq<Step>, k: nat, r: nat)
    requires k < |a| && k < |b| && a[..k] == b[..k] && a[k] == b[k]
    ensures LivesAt(env, s, a, k, r) <==> LivesAt(env, s, b, k, r)
  {
  }

  lemma {:induction false} LivesFront(env: Env, s: Door, steps: seq<Step>, m: nat, r: nat)
    requires m < |steps| && GetLives(env, s, steps, m, r)
    ensures var k := |steps| - 1;
            GetLives(env, s, steps[..k], m, r) && !GetFails(Run(env, s, steps[..k]), steps[k], r)
  {
    var k := |steps| - 1;
    forall i | m <= i < k ensures LivesAt(env, s, steps[..k], i, r) {
      assert steps[..k][..i] == steps[..i] && steps[..k][i] == steps[i];
      LivesAlike(env, s, steps[..k], steps, i, r);
    }
    assert LivesAt(env, s, steps, k, r);
  }

  /** An acknowledged object is in the store, and in the cache if it is there, with the acknowledged bytes. */
  lemma AckedHolds(env: Env, t: Door, i: nat)
    requires Inv(Hashed(env), t) && i < |t.log| && t.log[i].Acked? && !t.log[i].name.obao
    ensures Holds(t, t.log[i].name, t.log[i].bytes)
  {
    assert Hashed(env).covered(t.log[i].name);
  }

  lemma {:induction false} LogOfPrefix(env: Env, s: Door, steps: seq<Step>, m: nat)
    requires m <= |steps|
    ensures Run(env, s, steps[..m]).log <= Run(env, s, steps).log
    decreases |steps|
  {
    if m == |steps| {
      assert steps[..m] == steps;
    } else {
      var k := |steps| - 1;
      LogOfPrefix(env, s, steps[..k], m);
      assert steps[..k][..m] == steps[..m];
      StepGrows(env, Run(env, s, steps[..k]), steps[k]);
    }
  }

  lemma ServedStays(u: Door, v: Door, from: nat, name: Name, bytes: seq<Byte>)
    requires u.log <= v.log && ServedSince(u, from, name, bytes)
    ensures ServedSince(v, from, name, bytes)
  {
    var j :| from <= j < |u.log| && u.log[j] == Served(name, bytes);
    assert v.log[j] == u.log[j];
  }

  ghost predicate GetKept(env: Env, s: Door, steps: seq<Step>, m: nat, r: nat, name: Name, bytes: seq<Byte>)
    requires m <= |steps|
  {
    var u := Run(env, s, steps);
    (r in u.reqs && OnItsWay(u.reqs[r], name, bytes)) || ServedSince(u, |Run(env, s, steps[..m]).log|, name, bytes)
  }

  lemma GetKeptStep(env: Env, s: Door, steps: seq<Step>, m: nat, r: nat, name: Name, bytes: seq<Byte>)
    requires m < |steps| && GetKept(env, s, steps[..|steps| - 1], m, r, name, bytes)
    requires var t := Run(env, s, steps[..|steps| - 1]);
             Holds(t, name, bytes) && !GetFails(t, steps[|steps| - 1], r)
    ensures GetKept(env, s, steps, m, r, name, bytes)
  {
    var k := |steps| - 1;
    var t, u := Run(env, s, steps[..k]), Run(env, s, steps);
    var from := |Run(env, s, steps[..m]).log|;
    assert steps[..k][..m] == steps[..m];
    LogOfPrefix(env, s, steps[..k], m);
    StepGrows(env, t, steps[k]);
    if r in t.reqs && OnItsWay(t.reqs[r], name, bytes) {
      GetStep(env, t, steps[k], r, name, bytes);
      if !(r in u.reqs && OnItsWay(u.reqs[r], name, bytes)) {
        assert from <= |t.log| < |u.log| && u.log[|t.log|] == Served(name, bytes);
      }
    } else {
      ServedStays(t, u, from, name, bytes);
    }
  }

  /** Event i acknowledged an object, and r's GET of it begins. */
  predicate Begins(t: Door, r: nat, i: nat) {
    && i < |t.log| && t.log[i].Acked? && !t.log[i].name.obao
    && r in t.reqs && t.reqs[r] == Get(t.log[i].name, Looking)
  }

  /** A run of the door over a store and a cache in order, whose streams are whole when they end cleanly. */
  ghost predicate InOrder(env: Env, s: Door, steps: seq<Step>) {
    Injective(env.b3) && OpenedOver(Hashed(env), s) && SoundRun(env, Hashed(env), s, steps)
  }

  lemma InOrderFront(env: Env, s: Door, steps: seq<Step>)
    requires steps != [] && InOrder(env, s, steps)
    ensures InOrder(env, s, steps[..|steps| - 1])
  {
    SoundFront(env, Hashed(env), s, steps);
  }

  lemma InOrderInv(env: Env, s: Door, steps: seq<Step>)
    requires InOrder(env, s, steps)
    ensures Inv(Hashed(env), Run(env, s, steps))
  {
    HashedUnique(env);
    RunKeeps(env, Hashed(env), s, steps);
  }

  lemma StillHolds(env: Env, s: Door, steps: seq<Step>, m: nat, i: nat, e: Event)
    requires InOrder(env, s, steps) && m <= |steps| && e.Acked? && !e.name.obao
    requires i < |Run(env, s, steps[..m]).log| && Run(env, s, steps[..m]).log[i] == e
    ensures Holds(Run(env, s, steps), e.name, e.bytes)
  {
    InOrderInv(env, s, steps);
    LogOfPrefix(env, s, steps, m);
    assert Run(env, s, steps).log[i] == e;
    AckedHolds(env, Run(env, s, steps), i);
  }

  /**
   After an object's PUT was acknowledged, a GET of it that nothing cuts short is never
   ended without its answer, whatever else goes on: until it has been served the
   acknowledged bytes it is on its way to them, through hits, misses and lost races.
   */
  lemma {:induction false} GetAnswered(env: Env, s: Door, steps: seq<Step>, m: nat, r: nat, i: nat)
    requires m <= |steps| && InOrder(env, s, steps) && GetLives(env, s, steps, m, r)
    requires Begins(Run(env, s, steps[..m]), r, i)
    ensures var e := Run(env, s, steps[..m]).log[i]; GetKept(env, s, steps, m, r, e.name, e.bytes)
    decreases |steps|
  {
    if m == |steps| {
      assert steps[..m] == steps;
    } else {
      var front, e := steps[..|steps| - 1], Run(env, s, steps[..m]).log[i];
      assert front[..m] == steps[..m];
      InOrderFront(env, s, steps);
      LivesFront(env, s, steps, m, r);
      GetAnswered(env, s, front, m, r, i);
      StillHolds(env, s, front, m, i, e);
      GetKeptStep(env, s, steps, m, r, e.name, e.bytes);
    }
  }

  // PUTs.

  /** A complete object whose bytes are right for its name, received and not yet answered. */
  predicate PutOnItsWay(t: Door, r: nat, name: Name, body: seq<Byte>) {
    && r in t.reqs && t.reqs[r].Put? && t.reqs[r].name == name && t.reqs[r].body == body
    && !t.reqs[r].pstage.Receiving?
    && (t.reqs[r].pstage.Confirming? ==> name in t.store)
  }

  /** What ends a PUT without an acknowledgement: a restart, the client going, a write or a confirmation that fails. */
  predicate PutFails(step: Step, r: nat) {
    || step.Restart?
    || (step.r == r && (step.Abandon? || step.DropEvicting? || step.DropRenamed?))
    || (step.PutPath? && step.r == r && !(step.applied && step.ok))
    || (step.Confirm? && step.r == r && !step.answered)
  }

  /** Whatever the store has under this name has this length. */
  predicate SameLength(t: Door, name: Name, body: seq<Byte>) {
    name in t.store ==> |t.store[name]| == |body|
  }

  predicate PutGoes(t: Door, u: Door, r: nat, name: Name, body: seq<Byte>) {
    PutOnItsWay(u, r, name, body) || (|u.log| > |t.log| && u.log[|t.log|] == Acked(name, body))
  }

  lemma OwnPutStep(env: Env, t: Door, step: Step, r: nat, name: Name, body: seq<Byte>)
    requires PutOnItsWay(t, r, name, body) && SameLength(t, name, body) && !PutFails(step, r) && step.r == r
    ensures PutGoes(t, Apply(env, t, step), r, name, body)
  {
  }

  lemma PutStep(env: Env, t: Door, step: Step, r: nat, name: Name, body: seq<Byte>)
    requires PutOnItsWay(t, r, name, body) && SameLength(t, name, body) && !PutFails(step, r)
    ensures PutGoes(t, Apply(env, t, step), r, name, body)
  {
    if step.r == r {
      OwnPutStep(env, t, step, r, name, body);
    } else {
      OthersStay(env, t, step, r);
      StepGrows(env, t, step);
    }
  }

  predicate AckedSince(u: Door, from: nat, name: Name, body: seq<Byte>) {
    exists j :: from <= j < |u.log| && u.log[j] == Acked(name, body)
  }

  ghost predicate PutLives(steps: seq<Step>, m: nat, r: nat) {
    forall k :: m <= k < |steps| ==> !PutFails(steps[k], r)
  }

  ghost predicate PutKept(env: Env, s: Door, steps: seq<Step>, m: nat, r: nat, name: Name, body: seq<Byte>)
    requires m <= |steps|
  {
    var u := Run(env, s, steps);
    PutOnItsWay(u, r, name, body) || AckedSince(u, |Run(env, s, steps[..m]).log|, name, body)
  }

  lemma PutKeptStep(env: Env, s: Door, steps: seq<Step>, m: nat, r: nat, name: Name, body: seq<Byte>)
    requires m < |steps| && PutKept(env, s, steps[..|steps| - 1], m, r, name, body)
    requires SameLength(Run(env, s, steps[..|steps| - 1]), name, body) && !PutFails(steps[|steps| - 1], r)
    ensures PutKept(env, s, steps, m, r, name, body)
  {
    var k := |steps| - 1;
    var t, u := Run(env, s, steps[..k]), Run(env, s, steps);
    var from := |Run(env, s, steps[..m]).log|;
    assert steps[..k][..m] == steps[..m];
    LogOfPrefix(env, s, steps[..k], m);
    StepGrows(env, t, steps[k]);
    if PutOnItsWay(t, r, name, body) {
      PutStep(env, t, steps[k], r, name, body);
      if !PutOnItsWay(u, r, name, body) {
        assert from <= |t.log| < |u.log| && u.log[|t.log|] == Acked(name, body);
      }
    } else {
      var j :| from <= j < |t.log| && t.log[j] == Acked(name, body);
      assert u.log[j] == t.log[j];
    }
  }

  lemma RightLength(env: Env, t: Door, name: Name, body: seq<Byte>)
    requires Injective(env.b3) && Inv(Hashed(env), t) && !name.obao && env.b3(body) == name.hash
    ensures SameLength(t, name, body)
  {
    assert Hashed(env).covered(name);
  }

  /** What the store has under an object's name has the length of any bytes that hash to it. */
  lemma LengthSettled(env: Env, s: Door, steps: seq<Step>, name: Name, body: seq<Byte>)
    requires InOrder(env, s, steps) && !name.obao && env.b3(body) == name.hash
    ensures SameLength(Run(env, s, steps), name, body)
  {
    InOrderInv(env, s, steps);
    RightLength(env, Run(env, s, steps), name, body);
  }

  /**
   An object received whole, with the bytes of its name, is never dropped without an
   acknowledgement unless the write fails or the request is cut short: whatever else goes
   on, and whatever happens to its admission, it is acknowledged or still on its way.
   */
  lemma {:induction false} PutAnswered(env: Env, s: Door, steps: seq<Step>, m: nat, r: nat, name: Name,
                                       body: seq<Byte>)
    requires m <= |steps| && InOrder(env, s, steps) && PutLives(steps, m, r)
    requires !name.obao && env.b3(body) == name.hash
    requires PutOnItsWay(Run(env, s, steps[..m]), r, name, body)
    ensures PutKept(env, s, steps, m, r, name, body)
    decreases |steps|
  {
    if m == |steps| {
      assert steps[..m] == steps;
    } else {
      var front := steps[..|steps| - 1];
      assert front[..m] == steps[..m];
      InOrderFront(env, s, steps);
      PutAnswered(env, s, front, m, r, name, body);
      LengthSettled(env, s, front, name, body);
      PutKeptStep(env, s, steps, m, r, name, body);
    }
  }

  /** The step each stage of a PUT waits for, with every file operation and answer as it may come. */
  predicate PutTurns(env: Env, t: Door, r: nat, step: Step)
    requires r in t.reqs && t.reqs[r].Put?
  {
    match t.reqs[r].pstage
    case Receiving => false
    case Received => step.Head?
    case Writing => step.PutPath? && step.applied && step.ok
    case Confirming => step.Confirm? && step.answered
    case PutAdmit(Waiting) => step.Acquire? && t.lock == None
    case PutAdmit(Checking) => step.Check? && IsListing(step.listing, t.objects)
    case PutAdmit(Evicting(_)) => if MustEvict(env, t, r) then step.EvictNext? else step.Rename?
    case PutAdmit(Renamed) => step.Count?
  }

  /** How far a PUT is from its answer: a queue goes down one file at a time. */
  function PutDistance(p: PutStage): (d: (nat, nat)) {
    match p
    case Receiving => (8, 0)
    case Received => (7, 0)
    case Writing => (6, 0)
    case Confirming => (5, 0)
    case PutAdmit(Waiting) => (4, 0)
    case PutAdmit(Checking) => (3, 0)
    case PutAdmit(Evicting(queue)) => (2, |queue|)
    case PutAdmit(Renamed) => (1, 0)
  }

  predicate Closer(a: (nat, nat), b: (nat, nat)) {
    a.0 < b.0 || (a.0 == b.0 && a.1 < b.1)
  }

  /** Each of its turns brings a PUT closer to its answer, and the last one is the answer. */
  lemma PutAdvances(env: Env, t: Door, step: Step, r: nat, name: Name, body: seq<Byte>)
    requires !step.Restart? && step.r == r && PutOnItsWay(t, r, name, body) && SameLength(t, name, body)
    requires PutTurns(env, t, r, step)
    ensures var u := Apply(env, t, step);
            || (PutOnItsWay(u, r, name, body) && Closer(PutDistance(u.reqs[r].pstage), PutDistance(t.reqs[r].pstage)))
            || u.log == t.log + [Acked(name, body)]
  {
  }

  predicate Receives(t: Door, r: nat, name: Name, body: seq<Byte>) {
    AtPut(t, r, Receiving) && t.reqs[r].name == name && t.reqs[r].body == body
  }

  lemma ReceivesMore(s: Door, r: nat, name: Name, body: seq<Byte>, piece: seq<Byte>)
    ensures r !in s.reqs ==> Receives(DoStartPut(s, r, name, true), r, name, [])
    ensures Receives(s, r, name, body) ==> Receives(DoChunk(s, r, piece), r, name, body + piece)
  {
  }

  lemma {:induction false} PiecesReceived(env: Env, s: Door, r: nat, name: Name, pieces: seq<seq<Byte>>)
    requires r !in s.reqs
    ensures Receives(Run(env, DoStartPut(s, r, name, true), Chunked(r, pieces)), r, name, Joined(pieces))
    decreases |pieces|
  {
    if pieces == [] {
      ReceivesMore(s, r, name, [], []);
    } else {
      var k := |pieces| - 1;
      PiecesReceived(env, s, r, name, pieces[..k]);
      RunSnoc(env, DoStartPut(s, r, name, true), Chunked(r, pieces[..k]), Chunk(r, pieces[k]));
      ReceivesMore(Run(env, DoStartPut(s, r, name, true), Chunked(r, pieces[..k])), r, name, Joined(pieces[..k]),
          pieces[k]);
    }
  }

  function Chunked(r: nat, pieces: seq<seq<Byte>>): (steps: seq<Step>) {
    if pieces == [] then [] else Chunked(r, pieces[..|pieces| - 1]) + [Chunk(r, pieces[|pieces| - 1])]
  }

  function Joined(pieces: seq<seq<Byte>>): (body: seq<Byte>) {
    if pieces == [] then [] else Joined(pieces[..|pieces| - 1]) + pieces[|pieces| - 1]
  }

  /** A body arrives in any pieces, and goes on if and only if it is an outboard or hashes to its name. */
  lemma BodyReceived(env: Env, s: Door, r: nat, name: Name, pieces: seq<seq<Byte>>)
    requires r !in s.reqs
    ensures var t := DoEndBody(env, Run(env, DoStartPut(s, r, name, true), Chunked(r, pieces)), r, true);
            var body := Joined(pieces);
            && (r in t.reqs <==> name.obao || env.b3(body) == name.hash)
            && (r in t.reqs ==> PutOnItsWay(t, r, name, body) && t.reqs[r].pstage == Received)
  {
    PiecesReceived(env, s, r, name, pieces);
  }
}
