/** Exactly when the cache stays within its budget, whatever listings and unlinks fail, in any interleaving. */
module BlobRoom {
  import opened Bytes
  import opened Options
  import opened Sizes
  import opened Sorting
  import opened BlobCache
  import opened BlobDoor
  import opened BlobAgreement
  import opened BlobAccounting
  import opened BlobAdmission
  import opened BlobBudget

  lemma FixedSorted(objects: Files, listing: seq<Name>, accessed: Name -> int, stuck: set<Name>)
    ensures Fixed(objects, Sort(accessed, listing), stuck) == Fixed(objects, listing, stuck)
  {
    SortMembers(accessed, listing);
  }

  /** An undisturbed admission ends within the budget if and only if the files that cannot go leave room. */
  lemma AdmissionRoomIff(env: Env, s: Door, r: nat, listing: seq<Name>, accessed: Name -> int, luck: Luck)
    requires ReadyToAdmit(s, r) && IsListing(listing, s.objects) && s.used == Total(s.objects)
    requires !Turned(env, s, r, luck.listed) && luck.renames
    ensures var t := Run(env, s, AdmissionSteps(r, listing, accessed, luck));
            t.used == Total(t.objects) && (t.used <= env.budget
            <==> Total(Fixed(s.objects, listing, luck.stuck)) + |Payload(s.reqs[r])| <= env.budget)
  {
    var d, q, sorted := Disk(s.objects, s.used), s.reqs[r], Sort(accessed, listing);
    AdmissionRefines(env, s, r, listing, accessed, luck);
    AdmitAccounts(d, q.name, Payload(q), env.budget, sorted, luck);
    AdmitRoomIff(d, q.name, Payload(q), env.budget, sorted, luck);
    FixedSorted(s.objects, listing, accessed, luck.stuck);
  }

  // The same among other requests.

  /** While r holds the lock, nobody else's step touches the cache or r. */
  lemma OthersWait(env: Env, s: Door, step: Step, r: nat)
    requires LockOk(s) && s.lock == Some(r) && !step.Restart? && step.r != r
    ensures var t := Apply(env, s, step);
            t.objects == s.objects && t.used == s.used && r in t.reqs && t.reqs[r] == s.reqs[r]
  {
    if IsAdmission(step) {
      if AtTurn(s, step.r) { assert !Critical(s.reqs[step.r]); }
    } else {
      OutsideShape(env, s, step);
    }
  }

  /** The files whose unlink failed under r's admission. */
  ghost function StuckIn(env: Env, s: Door, steps: seq<Step>, r: nat): (stuck: set<Name>)
    decreases |steps|
  {
    if steps == [] then {}
    else
      var k := |steps| - 1;
      var t, before := Run(env, s, steps[..k]), StuckIn(env, s, steps[..k], r);
      if steps[k].EvictNext? && steps[k].r == r && !steps[k].removed && MustEvict(env, t, r)
      then before + {TurnOf(t.reqs[r]).value.queue[0]} else before
  }

  predicate AtEviction(s: Door, r: nat) {
    AtTurn(s, r) && TurnOf(s.reqs[r]).value.Evicting?
  }

  function QueueOf(s: Door, r: nat): (queue: seq<Name>)
    requires AtEviction(s, r)
  {
    TurnOf(s.reqs[r]).value.queue
  }

  /** r evicts at every moment of the run. */
  ghost predicate Evicts(env: Env, s: Door, steps: seq<Step>, r: nat)
    decreases |steps|
  {
    AtEviction(Run(env, s, steps), r) && (steps == [] || Evicts(env, s, steps[..|steps| - 1], r))
  }

  /** Since s, what r took off its queue is gone or stuck, and everything else is as it was. */
  ghost predicate Evicted(s: Door, t: Door, r: nat, stuck: set<Name>) {
    && AtEviction(s, r) && AtEviction(t, r) && Payload(t.reqs[r]) == Payload(s.reqs[r])
    && Distinct(QueueOf(t, r))
    && (forall n :: n in QueueOf(t, r) ==>
          n in QueueOf(s, r) && n !in stuck && (n in t.objects <==> n in s.objects))
    && (forall n :: n in t.objects ==> n in s.objects && t.objects[n] == s.objects[n])
    && (forall n :: n in t.objects && n !in QueueOf(t, r)
                    <==> n in s.objects && (n in stuck || n !in QueueOf(s, r)))
  }

  lemma EvictedNext(env: Env, s: Door, t: Door, r: nat, stuck: set<Name>, removed: bool)
    requires Evicted(s, t, r, stuck) && MustEvict(env, t, r)
    ensures Evicted(s, DoEvictNext(env, t, r, removed), r, if removed then stuck else stuck + {QueueOf(t, r)[0]})
  {
    var queue := QueueOf(t, r);
    var u := DoEvictNext(env, t, r, removed);
    assert queue == [queue[0]] + queue[1..];
    assert QueueOf(u, r) == queue[1..];
    assert u.objects == if removed then t.objects - {queue[0]} else t.objects;
  }

  /** What a request's own step leaves it at, if it leaves it evicting. */
  lemma OwnStep(env: Env, t: Door, step: Step, r: nat)
    requires LockOk(t) && AtEviction(t, r) && !step.Restart? && step.r == r && AtEviction(Apply(env, t, step), r)
    ensures (step.EvictNext? && MustEvict(env, t, r)) || Apply(env, t, step) == t
  {
    assert Critical(t.reqs[r]);
    if !IsAdmission(step) { OutsideShape(env, t, step); }
  }

  lemma EvictedSame(s: Door, t: Door, u: Door, r: nat, stuck: set<Name>)
    requires Evicted(s, t, r, stuck) && r in u.reqs && u.reqs[r] == t.reqs[r] && u.objects == t.objects
    ensures Evicted(s, u, r, stuck)
  {
  }

  /** A request dropped in mid-admission would have been r: for anyone else the step does nothing. */
  lemma NobodyElseDropped(env: Env, t: Door, step: Step, r: nat)
    requires LockOk(t) && AtEviction(t, r) && !Uninterrupted(step) && AtEviction(Apply(env, t, step), r)
    ensures Apply(env, t, step) == t
  {
    assert Critical(t.reqs[r]);
    if !step.Restart? && step.r != r && AtTurn(t, step.r) { assert !Critical(t.reqs[step.r]); }
  }

  lemma EvictionStep(env: Env, s: Door, steps: seq<Step>, r: nat)
    requires steps != [] && var t := Run(env, s, steps[..|steps| - 1]);
             LockOk(t) && Evicted(s, t, r, StuckIn(env, s, steps[..|steps| - 1], r))
    requires AtEviction(Run(env, s, steps), r)
    ensures Evicted(s, Run(env, s, steps), r, StuckIn(env, s, steps, r))
  {
    var k := |steps| - 1;
    var t, step, stuck := Run(env, s, steps[..k]), steps[k], StuckIn(env, s, steps[..k], r);
    assert Critical(t.reqs[r]);
    if step.Restart? {
      assert false;
    } else if step.r != r {
      OthersWait(env, t, step, r);
      EvictedSame(s, t, Apply(env, t, step), r, stuck);
    } else {
      OwnStep(env, t, step, r);
      if step.EvictNext? && MustEvict(env, t, r) { EvictedNext(env, s, t, r, stuck, step.removed); }
    }
  }

  lemma FilesStayOwned(env: Env, s: Door, step: Step)
    requires Inv(NOTHING, s)
    ensures Inv(NOTHING, Apply(env, s, step))
  {
    StepKeeps(env, NOTHING, s, step);
  }

  lemma {:induction false} EvictionRun(env: Env, s: Door, steps: seq<Step>, r: nat)
    requires Accounted(s) && Inv(NOTHING, s) && AtEviction(s, r) && Distinct(QueueOf(s, r)) && Evicts(env, s, steps, r)
    ensures var t := Run(env, s, steps);
            Accounted(t) && Inv(NOTHING, t) && Evicted(s, t, r, StuckIn(env, s, steps, r))
    decreases |steps|
  {
    if steps != [] {
      var k := |steps| - 1;
      var t := Run(env, s, steps[..k]);
      EvictionRun(env, s, steps[..k], r);
      EvictionStep(env, s, steps, r);
      if Uninterrupted(steps[k]) {
        StepAccounts(env, t, steps[k]);
        FilesStayOwned(env, t, steps[k]);
      } else {
        NobodyElseDropped(env, t, steps[k], r);
      }
    }
  }

  lemma CounterAtEviction(t: Door, r: nat)
    requires Accounted(t) && AtEviction(t, r)
    ensures t.used == Total(t.objects)
  {
    assert Critical(t.reqs[r]);
  }

  lemma EvictedFixed(s: Door, t: Door, r: nat, stuck: set<Name>)
    requires Evicted(s, t, r, stuck)
    ensures Fixed(t.objects, QueueOf(t, r), {}) == Fixed(s.objects, QueueOf(s, r), stuck)
  {
  }

  /** Eviction stops with room if and only if the files that cannot go leave room. */
  lemma RoomAtEnd(env: Env, s: Door, t: Door, r: nat, stuck: set<Name>)
    requires Evicted(s, t, r, stuck) && Accounted(t) && !MustEvict(env, t, r)
    ensures t.used + |Payload(t.reqs[r])| <= env.budget
            <==> Total(Fixed(s.objects, QueueOf(s, r), stuck)) + |Payload(s.reqs[r])| <= env.budget
  {
    CounterAtEviction(t, r);
    EvictedFixed(s, t, r, stuck);
    FixedWithin(t.objects, QueueOf(t, r), {});
    if QueueOf(t, r) == [] { assert Fixed(t.objects, QueueOf(t, r), {}) == t.objects; }
  }

  predicate Rechecked(env: Env, u: Door, r: nat, listing: seq<Name>) {
    && AtTurn(u, r) && TurnOf(u.reqs[r]) == Some(Checking) && IsListing(listing, u.objects)
    && !Turned(env, u, r, true)
  }

  lemma CheckOpens(env: Env, u: Door, r: nat, listing: seq<Name>, accessed: Name -> int, unlinked: bool)
    requires Rechecked(env, u, r, listing)
    ensures var v := DoCheck(env, u, r, true, listing, accessed, unlinked);
            && AtEviction(v, r) && QueueOf(v, r) == Queue(env, u, r, listing, accessed)
            && v.objects == u.objects && Payload(v.reqs[r]) == Payload(u.reqs[r])
  {
    CheckStarts(env, u, r, listing, accessed, true);
  }

  lemma QueueDistinct(env: Env, u: Door, r: nat, listing: seq<Name>, accessed: Name -> int)
    requires AtTurn(u, r) && IsListing(listing, u.objects)
    ensures Distinct(Queue(env, u, r, listing, accessed))
  {
    assert Distinct(listing);
    SortKeepsDistinct(accessed, listing);
  }

  lemma FixedEither(u: Door, need: nat, budget: nat, listing: seq<Name>, accessed: Name -> int, stuck: set<Name>)
    requires u.used == Total(u.objects)
    ensures var queue := if u.used + need <= budget then [] else Sort(accessed, listing);
            Total(Fixed(u.objects, queue, stuck)) + need <= budget
            <==> Total(Fixed(u.objects, listing, stuck)) + need <= budget
  {
    FixedSorted(u.objects, listing, accessed, stuck);
    FixedWithin(u.objects, listing, stuck);
    assert Fixed(u.objects, [], stuck) == u.objects;
  }

  /**
   In every interleaving: from r's check of the cache to the end of its evictions, there is
   room for its file if and only if the files that were not listed or whose unlink failed
   leave room for it.
   */
  lemma InterleavedRoomIff(env: Env, s: Door, before: seq<Step>, check: Step, after: seq<Step>, r: nat)
    requires Opened(s) && CleanTail(before) && check.Check? && check.r == r && check.listed
    requires Rechecked(env, Run(env, s, before), r, check.listing)
    requires var v := Apply(env, Run(env, s, before), check);
             Evicts(env, v, after, r) && !MustEvict(env, Run(env, v, after), r)
    ensures var u := Run(env, s, before);
            var v := Apply(env, u, check);
            var t := Run(env, v, after);
            t.used + |Payload(t.reqs[r])| <= env.budget
            <==> Total(Fixed(u.objects, check.listing, StuckIn(env, v, after, r))) + |Payload(u.reqs[r])| <= env.budget
  {
    var u := Run(env, s, before);
    var v := Apply(env, u, check);
    var stuck := StuckIn(env, v, after, r);
    RunAccounts(env, s, before);
    FilesOwned(env, s, before);
    assert Critical(u.reqs[r]);
    CheckOpens(env, u, r, check.listing, check.accessed, check.unlinked);
    QueueDistinct(env, u, r, check.listing, check.accessed);
    StepAccounts(env, u, check);
    FilesStayOwned(env, u, check);
    EvictionRun(env, v, after, r);
    RoomAtEnd(env, v, Run(env, v, after), r, stuck);
    FixedEither(u, |Payload(u.reqs[r])|, env.budget, check.listing, check.accessed, stuck);
  }

  // Whole runs.

  /** The step moves a file into place. */
  predicate Moves(env: Env, s: Door, step: Step) {
    && step.Rename? && step.renamed && AtEviction(s, step.r) && !MustEvict(env, s, step.r)
    && Tok(s.reqs[step.r]).Some? && Tok(s.reqs[step.r]).value in s.incoming
  }

  predicate HasRoom(env: Env, s: Door, step: Step) {
    Moves(env, s, step) ==> s.used + |Payload(s.reqs[step.r])| <= env.budget
  }

  /** Since the last opening, every file moved into place found room. */
  ghost predicate RoomyTail(env: Env, s: Door, steps: seq<Step>)
    decreases |steps|
  {
    steps == [] || steps[|steps| - 1].Restart?
    || (var k := |steps| - 1; HasRoom(env, Run(env, s, steps[..k]), steps[k]) && RoomyTail(env, s, steps[..k]))
  }

  /** Since the last opening, the cache was within the budget at every moment. */
  ghost predicate WithinTail(env: Env, s: Door, steps: seq<Step>)
    decreases |steps|
  {
    && Total(Run(env, s, steps).objects) <= env.budget
    && (steps == [] || steps[|steps| - 1].Restart? || WithinTail(env, s, steps[..|steps| - 1]))
  }

  /** Only a file moved into place makes the cache larger. */
  lemma ShrinksUnlessMoves(env: Env, s: Door, step: Step)
    requires !step.Restart? && !Moves(env, s, step)
    ensures var t := Apply(env, s, step);
            forall n :: n in t.objects ==> n in s.objects && t.objects[n] == s.objects[n]
  {
    if !IsAdmission(step) { OutsideShape(env, s, step); }
  }

  lemma MovesAdds(env: Env, s: Door, step: Step)
    requires Moves(env, s, step) && Accounted(s) && Inv(NOTHING, s)
    ensures Total(Apply(env, s, step).objects) == s.used + |Payload(s.reqs[step.r])|
  {
    var q := s.reqs[step.r];
    CounterAtEviction(s, step.r);
    assert RequestOk(NOTHING, s.store, s.incoming, q);
    assert HasFile(s.incoming, Tok(q).value, Payload(q));
    TotalWith(s.objects, q.name, Payload(q));
  }

  lemma StepWithinIff(env: Env, s: Door, step: Step)
    requires Accounted(s) && Inv(NOTHING, s) && !step.Restart? && Total(s.objects) <= env.budget
    ensures Total(Apply(env, s, step).objects) <= env.budget <==> HasRoom(env, s, step)
  {
    if Moves(env, s, step) {
      MovesAdds(env, s, step);
    } else {
      ShrinksUnlessMoves(env, s, step);
      TotalWithin(Apply(env, s, step).objects, s.objects);
    }
  }

  /**
   A cache within the budget when it was last opened stays within it at every moment if
   and only if every file moved into place since then found room.
   */
  lemma {:induction false} WithinIffRoomy(env: Env, s: Door, steps: seq<Step>)
    requires Opened(s) && CleanTail(steps) && Total(LastOpened(env, s, steps).objects) <= env.budget
    ensures WithinTail(env, s, steps) <==> RoomyTail(env, s, steps)
    decreases |steps|
  {
    if steps != [] && !steps[|steps| - 1].Restart? {
      var k := |steps| - 1;
      WithinIffRoomy(env, s, steps[..k]);
      RunAccounts(env, s, steps[..k]);
      FilesOwned(env, s, steps[..k]);
      if WithinTail(env, s, steps[..k]) { StepWithinIff(env, Run(env, s, steps[..k]), steps[k]); }
    }
  }
}
