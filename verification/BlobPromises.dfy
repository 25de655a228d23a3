/** What clients of the blob door may rely on, in every run. */
module BlobPromises {
  import opened Bytes
  import opened Options
  import opened BlobCache
  import opened BlobDoor
  import opened BlobAgreement

  ghost predicate Injective(b3: seq<Byte> -> Hash) {
    forall x: seq<Byte>, y: seq<Byte> :: b3(x) == b3(y) ==> x == y
  }

  /** Objects are right when they hash to their name. Nothing is claimed of outboards. */
  function Hashed(env: Env): (law: Law) {
    Law((n: Name) => !n.obao, (n: Name, x: seq<Byte>) => env.b3(x) == n.hash)
  }

  /** Objects as above, and for each hash one outboard. */
  function WithOutboards(env: Env, outboard: Hash -> seq<Byte>): (law: Law) {
    Law((n: Name) => true, (n: Name, x: seq<Byte>) => if n.obao then x == outboard(n.hash) else env.b3(x) == n.hash)
  }

  /** A door opened over a store and a cache that keep the law. */
  ghost predicate OpenedOver(law: Law, s: Door) {
    Opened(s) && StoreOk(law, s.store) && CacheAgrees(law, s)
  }

  // Streams whose length the store reports.

  /** The store reports a length with every stream. */
  predicate LengthsReported(steps: seq<Step>) {
    forall i :: 0 <= i < |steps| && steps[i].Fetch? ==> steps[i].lengthKnown
  }

  predicate KnownStage(g: GetStage) {
    match g
    case Filling(_, content, reported, sent, _) => reported == |content| && sent <= |content|
    case Passing(content, reported, sent) => reported == |content| && sent <= |content|
    case _ => true
  }

  predicate Known(s: Door) {
    forall r :: r in s.reqs && s.reqs[r].Get? ==> KnownStage(s.reqs[r].gstage)
  }

  predicate OnStream(step: Step) {
    step.Fetch? || step.Deliver? || step.EndStream?
  }

  predicate OnPut(step: Step) {
    step.StartPut? || step.Chunk? || step.EndBody? || step.Head? || step.PutPath? || step.Confirm?
  }

  predicate OnRead(step: Step) {
    step.StartGet? || step.Stat? || step.Open? || step.FinishRead? || step.Abandon?
  }

  lemma StreamStepKnown(env: Env, s: Door, step: Step)
    requires Known(s) && OnStream(step) && (step.Fetch? ==> step.lengthKnown)
    ensures Known(Apply(env, s, step))
  {
  }

  lemma PutStepKnown(env: Env, s: Door, step: Step)
    requires Known(s) && OnPut(step)
    ensures Known(Apply(env, s, step))
  {
  }

  lemma ReadStepKnown(env: Env, s: Door, step: Step)
    requires Known(s) && OnRead(step)
    ensures Known(Apply(env, s, step))
  {
  }

  lemma TurnStepKnown(env: Env, s: Door, step: Step)
    requires Known(s) && (step.Acquire? || step.EvictNext?)
    ensures Known(Apply(env, s, step))
  {
  }

  lemma CheckStepKnown(env: Env, s: Door, step: Step)
    requires Known(s) && step.Check?
    ensures Known(Apply(env, s, step))
  {
  }

  lemma CountStepKnown(env: Env, s: Door, step: Step)
    requires Known(s) && (step.Rename? || step.Count?)
    ensures Known(Apply(env, s, step))
  {
  }

  lemma DropStepKnown(env: Env, s: Door, step: Step)
    requires Known(s) && (step.DropEvicting? || step.DropRenamed? || step.Restart?)
    ensures Known(Apply(env, s, step))
  {
  }

  lemma StepKnown(env: Env, s: Door, step: Step)
    requires Known(s) && (step.Fetch? ==> step.lengthKnown)
    ensures Known(Apply(env, s, step))
  {
    if OnStream(step) {
      StreamStepKnown(env, s, step);
    } else if OnPut(step) {
      PutStepKnown(env, s, step);
    } else if OnRead(step) {
      ReadStepKnown(env, s, step);
    } else if step.Check? {
      CheckStepKnown(env, s, step);
    } else if step.Acquire? || step.EvictNext? {
      TurnStepKnown(env, s, step);
    } else if step.Rename? || step.Count? {
      CountStepKnown(env, s, step);
    } else {
      DropStepKnown(env, s, step);
    }
  }

  lemma {:induction false} RunKnown(env: Env, s: Door, steps: seq<Step>)
    requires Opened(s) && LengthsReported(steps)
    ensures Known(Run(env, s, steps))
    decreases |steps|
  {
    if steps != [] {
      var k := |steps| - 1;
      RunKnown(env, s, steps[..k]);
      StepKnown(env, Run(env, s, steps[..k]), steps[k]);
    }
  }

  ghost predicate BodiesRight(env: Env, law: Law, s: Door, steps: seq<Step>) {
    forall i :: 0 <= i < |steps| ==> BodyRight(env, law, Run(env, s, steps[..i]), steps[i])
  }

  /** With every length reported, a clean end is a whole stream, whatever the law. */
  lemma ReportedIsSound(env: Env, law: Law, s: Door, steps: seq<Step>)
    requires Opened(s) && LengthsReported(steps) && BodiesRight(env, law, s, steps)
    ensures SoundRun(env, law, s, steps)
  {
    forall i | 0 <= i < |steps| ensures Sound(env, law, Run(env, s, steps[..i]), steps[i]) {
      RunKnown(env, s, steps[..i]);
    }
  }

  lemma HashedUnique(env: Env)
    requires Injective(env.b3)
    ensures Unique(Hashed(env))
  {
  }

  /** The cached object is the stored one and hashes to its name. */
  predicate Agrees(env: Env, t: Door, name: Name) {
    name in t.objects ==> name in t.store && t.objects[name] == t.store[name] && env.b3(t.objects[name]) == name.hash
  }

  /** In every run whose streams are whole when they end cleanly, a cached object is exactly the store's. */
  lemma CacheAgreesIfWhole(env: Env, s: Door, steps: seq<Step>, name: Name)
    requires Injective(env.b3) && OpenedOver(Hashed(env), s) && SoundRun(env, Hashed(env), s, steps) && !name.obao
    ensures Agrees(env, Run(env, s, steps), name)
  {
    HashedUnique(env);
    RunKeeps(env, Hashed(env), s, steps);
    assert Hashed(env).covered(name);
  }

  /** In particular in every run in which the store reports its lengths. */
  lemma CacheAlwaysAgrees(env: Env, s: Door, steps: seq<Step>, name: Name)
    requires Injective(env.b3) && OpenedOver(Hashed(env), s) && LengthsReported(steps) && !name.obao
    ensures Agrees(env, Run(env, s, steps), name)
  {
    ReportedIsSound(env, Hashed(env), s, steps);
    CacheAgreesIfWhole(env, s, steps, name);
  }

  /** Event i acknowledged an object and event j is a later answer about it: the bytes, and never "absent". */
  predicate StillReadable(t: Door, i: nat, j: nat)
    requires i < j < |t.log|
  {
    t.log[i].Acked? && !t.log[i].name.obao && t.log[i].name == t.log[j].name ==>
      && !t.log[j].Absent? && t.log[j].bytes == t.log[i].bytes
      && t.log[i].name in t.store && t.store[t.log[i].name] == t.log[i].bytes
  }

  lemma AcceptedReadableIfWhole(env: Env, s: Door, steps: seq<Step>, i: nat, j: nat)
    requires Injective(env.b3) && OpenedOver(Hashed(env), s) && SoundRun(env, Hashed(env), s, steps)
    requires i < j < |Run(env, s, steps).log|
    ensures StillReadable(Run(env, s, steps), i, j)
  {
    HashedUnique(env);
    RunKeeps(env, Hashed(env), s, steps);
    var log := Run(env, s, steps).log;
    assert !log[i].name.obao ==> Hashed(env).covered(log[i].name);
  }

  /**
   Accepted means readable for ever: after an object's PUT is acknowledged, every
   completed GET of it delivers the acknowledged bytes and none is told that it
   does not exist, through misses, evictions and restarts.
   */
  lemma AcceptedStaysReadable(env: Env, s: Door, steps: seq<Step>, i: nat, j: nat)
    requires Injective(env.b3) && OpenedOver(Hashed(env), s) && LengthsReported(steps)
    requires i < j < |Run(env, s, steps).log|
    ensures StillReadable(Run(env, s, steps), i, j)
  {
    ReportedIsSound(env, Hashed(env), s, steps);
    AcceptedReadableIfWhole(env, s, steps, i, j);
  }

  // Outboards.

  /** Every PUT of an outboard that is not turned away for its length carries the one for its hash. */
  ghost predicate OneOutboardEach(env: Env, outboard: Hash -> seq<Byte>, s: Door, steps: seq<Step>) {
    forall i :: 0 <= i < |steps| && steps[i].Head? ==>
      var t := Run(env, s, steps[..i]);
      GoesOn(t, steps[i].r, steps[i].answered) && t.reqs[steps[i].r].name.obao ==>
        t.reqs[steps[i].r].body == outboard(t.reqs[steps[i].r].name.hash)
  }

  /** If all PUTs of an outboard that go on carry the same bytes, cache and store agree on outboards too. */
  lemma OutboardsAgree(env: Env, outboard: Hash -> seq<Byte>, s: Door, steps: seq<Step>, name: Name)
    requires Injective(env.b3) && OpenedOver(WithOutboards(env, outboard), s) && LengthsReported(steps)
    requires OneOutboardEach(env, outboard, s, steps) && name in Run(env, s, steps).objects
    ensures var t := Run(env, s, steps); name in t.store && t.objects[name] == t.store[name]
  {
    var law := WithOutboards(env, outboard);
    ReportedIsSound(env, law, s, steps);
    RunKeeps(env, law, s, steps);
    assert law.covered(name);
  }

  // Where a length is not reported.

  /** What the store says of a stream's length. */
  function Reported(content: seq<Byte>, known: bool): (n: nat) {
    if known then |content| else 0
  }

  /**
   The length check lets only whole streams through if and only if a length is reported or
   there is nothing to send.
   */
  lemma LengthCheckIff(content: seq<Byte>, known: bool)
    ensures known || content == [] <==>
            forall sent :: 0 <= sent <= |content| && LengthAgrees(Reported(content, known), sent) ==>
              content[..sent] == content
  {
    if !known && content != [] {
      assert LengthAgrees(Reported(content, known), 0) && content[..0] == [];
    } else {
      assert content[..|content|] == content;
    }
  }
}
