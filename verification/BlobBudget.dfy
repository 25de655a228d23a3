/** Admissions end within the budget, in any interleaving, as long as every file is listed and can be unlinked. */
module BlobBudget {
  import opened Bytes
  import opened Options
  import opened Sizes
  import opened Sorting
  import opened BlobCache
  import opened BlobDoor
  import opened BlobAgreement
  import opened BlobAccounting

  /** How an admission under way still ends within the budget. */
  predicate TurnWithin(budget: nat, objects: Files, used: nat, need: nat, turn: Turn) {
    match turn
    case Waiting => true
    case Checking => true
    case Evicting(queue) => need <= budget && (used + need <= budget || forall n :: n in objects ==> n in queue)
    case Renamed => used + need <= budget
  }

  ghost predicate Within(env: Env, s: Door) {
    forall r :: r in s.reqs && TurnOf(s.reqs[r]).Some? ==>
      TurnWithin(env.budget, s.objects, s.used, |Payload(s.reqs[r])|, TurnOf(s.reqs[r]).value)
  }

  /** Every file is listed, and every unlink of an eviction succeeds. */
  predicate Willing(env: Env, s: Door, step: Step) {
    && (step.EvictNext? ==> step.removed)
    && (step.Check? && AtTurn(s, step.r) && s.used + |Payload(s.reqs[step.r])| > env.budget ==>
          |step.listing| == |s.objects|)
  }

  /** The lock holder moves alone: all other turns are waiting ones. */
  lemma HolderAlone(env: Env, s: Door, t: Door, r: nat)
    requires LockOk(s) && s.lock == Some(r) && OthersSame(s, t, r)
    requires r in t.reqs && TurnOf(t.reqs[r]).Some? ==>
               TurnWithin(env.budget, t.objects, t.used, |Payload(t.reqs[r])|, TurnOf(t.reqs[r]).value)
    ensures Within(env, t)
  {
    forall r' | r' in t.reqs && TurnOf(t.reqs[r']).Some?
      ensures TurnWithin(env.budget, t.objects, t.used, |Payload(t.reqs[r'])|, TurnOf(t.reqs[r']).value)
    {
      if r' != r { assert !Critical(s.reqs[r']); }
    }
  }

  lemma OutsideWithin(env: Env, s: Door, t: Door, r: nat)
    requires Within(env, s) && Outside(s, t, r)
    ensures Within(env, t)
  {
    forall r' | r' in t.reqs && TurnOf(t.reqs[r']).Some?
      ensures TurnWithin(env.budget, t.objects, t.used, |Payload(t.reqs[r'])|, TurnOf(t.reqs[r']).value)
    {
      if r' != r { assert r' in s.reqs && t.reqs[r'] == s.reqs[r']; }
    }
  }

  lemma AcquireWithin(env: Env, s: Door, r: nat)
    requires Within(env, s)
    ensures Within(env, DoAcquire(s, r))
  {
  }

  /** A listing names every file: it has as many names as there are files. */
  lemma {:induction false} ListingComplete(listing: seq<Name>, names: set<Name>)
    requires |listing| == |names| && forall i :: 0 <= i < |listing| ==> listing[i] in names
    requires forall i, j :: 0 <= i < j < |listing| ==> listing[i] != listing[j]
    ensures forall n :: n in names ==> n in listing
    decreases |listing|
  {
    if listing != [] {
      var k := |listing| - 1;
      var rest := names - {listing[k]};
      ListingComplete(listing[..k], rest);
      forall n | n in names ensures n in listing {
        if n != listing[k] { assert n in rest && n in listing[..k]; }
      }
    }
  }

  lemma QueueComplete(objects: Files, listing: seq<Name>, accessed: Name -> int)
    requires IsListing(listing, objects) && |listing| == |objects|
    ensures forall n :: n in objects ==> n in Sort(accessed, listing)
  {
    assert |objects| == |objects.Keys|;
    ListingComplete(listing, objects.Keys);
    SortMembers(accessed, listing);
  }

  lemma LeaveWithin(env: Env, s: Door, r: nat, unlinked: bool)
    requires Within(env, s) && LockOk(s) && s.lock == Some(r) && r in s.reqs
    ensures Within(env, Leave(s, r, unlinked))
  {
    HolderAlone(env, s, Leave(s, r, unlinked), r);
  }

  lemma StartWithin(env: Env, s: Door, r: nat, queue: seq<Name>)
    requires Within(env, s) && LockOk(s) && s.lock == Some(r) && AtTurn(s, r)
    requires TurnWithin(env.budget, s.objects, s.used, |Payload(s.reqs[r])|, Evicting(queue))
    ensures Within(env, Update(s, r, WithTurn(s.reqs[r], Evicting(queue))))
  {
    HolderAlone(env, s, Update(s, r, WithTurn(s.reqs[r], Evicting(queue))), r);
  }

  lemma CheckWithin(env: Env, s: Door, r: nat, listed: bool, listing: seq<Name>, accessed: Name -> int, unlinked: bool)
    requires Within(env, s) && LockOk(s)
    requires AtTurn(s, r) && s.used + |Payload(s.reqs[r])| > env.budget ==> |listing| == |s.objects|
    ensures Within(env, DoCheck(env, s, r, listed, listing, accessed, unlinked))
  {
    if AtTurn(s, r) && TurnOf(s.reqs[r]) == Some(Checking) {
      var q := s.reqs[r];
      assert Critical(q);
      if q.name in s.objects || |Payload(q)| > env.budget {
        LeaveWithin(env, s, r, unlinked);
      } else if s.used + |Payload(q)| <= env.budget {
        StartWithin(env, s, r, []);
      } else if !listed {
        LeaveWithin(env, s, r, unlinked);
      } else if IsListing(listing, s.objects) {
        QueueComplete(s.objects, listing, accessed);
        StartWithin(env, s, r, Sort(accessed, listing));
      }
    }
  }

  lemma EvictNextWithin(env: Env, s: Door, r: nat)
    requires Within(env, s) && LockOk(s)
    ensures Within(env, DoEvictNext(env, s, r, true))
  {
    if MustEvict(env, s, r) {
      var queue := TurnOf(s.reqs[r]).value.queue;
      assert queue == [queue[0]] + queue[1..];
      assert Critical(s.reqs[r]);
      HolderAlone(env, s, DoEvictNext(env, s, r, true), r);
    }
  }

  /** With the queue used up and still no room, the cache is empty, and then there is room. */
  lemma RoomAtRename(env: Env, s: Door, r: nat)
    requires Within(env, s) && Accounted(s) && AtTurn(s, r) && TurnOf(s.reqs[r]).value.Evicting?
    requires !MustEvict(env, s, r)
    ensures s.used + |Payload(s.reqs[r])| <= env.budget
  {
    assert Critical(s.reqs[r]);
    if s.objects.Keys == {} { TotalEmpty(s.objects); }
  }

  lemma RenameWithin(env: Env, s: Door, r: nat, renamed: bool, unlinked: bool)
    requires Within(env, s) && Accounted(s)
    ensures Within(env, DoRename(env, s, r, renamed, unlinked))
  {
    if AtTurn(s, r) && TurnOf(s.reqs[r]).value.Evicting? && !MustEvict(env, s, r) {
      assert Critical(s.reqs[r]);
      RoomAtRename(env, s, r);
      HolderAlone(env, s, DoRename(env, s, r, renamed, unlinked), r);
    }
  }

  lemma CountWithin(env: Env, s: Door, r: nat)
    requires Within(env, s) && LockOk(s)
    ensures Within(env, DoCount(s, r))
  {
    if AtTurn(s, r) && TurnOf(s.reqs[r]) == Some(Renamed) {
      assert Critical(s.reqs[r]);
      HolderAlone(env, s, DoCount(s, r), r);
    }
  }

  lemma DropWithin(env: Env, s: Door, r: nat, unlinked: bool)
    requires Within(env, s) && LockOk(s)
    ensures Within(env, DoDropEvicting(env, s, r, false, unlinked))
  {
    if AtTurn(s, r) && Critical(s.reqs[r]) && TurnOf(s.reqs[r]) != Some(Renamed) {
      HolderAlone(env, s, Close(s, r, unlinked), r);
    }
  }

  lemma RestartWithin(env: Env, s: Door, step: Step)
    requires step.Restart?
    ensures Within(env, Apply(env, s, step))
  {
    assert Apply(env, s, step).reqs == map[];
  }

  lemma StepWithin(env: Env, s: Door, step: Step)
    requires Within(env, s) && Accounted(s) && Uninterrupted(step) && Willing(env, s, step) && !step.Restart?
    ensures Within(env, Apply(env, s, step))
  {
    if IsAdmission(step) {
      match step
      case Acquire(r) => AcquireWithin(env, s, r);
      case Check(r, listed, listing, accessed, unlinked) => CheckWithin(env, s, r, listed, listing, accessed, unlinked);
      case EvictNext(r, removed) => EvictNextWithin(env, s, r);
      case Rename(r, renamed, unlinked) => RenameWithin(env, s, r, renamed, unlinked);
      case Count(r) => CountWithin(env, s, r);
      case DropEvicting(r, _, unlinked) => DropWithin(env, s, r, unlinked);
    } else {
      OutsideShape(env, s, step);
      OutsideWithin(env, s, Apply(env, s, step), step.r);
    }
  }

  /** Since the last restart no request was dropped inside admission and no listing or unlink failed. */
  ghost predicate WillingTail(env: Env, s: Door, steps: seq<Step>)
    decreases |steps|
  {
    steps == []
    || (var k := |steps| - 1;
        && Uninterrupted(steps[k])
        && (steps[k].Restart? || (Willing(env, Run(env, s, steps[..k]), steps[k]) && WillingTail(env, s, steps[..k]))))
  }

  lemma {:induction false} WillingIsClean(env: Env, s: Door, steps: seq<Step>)
    requires WillingTail(env, s, steps)
    ensures CleanTail(steps)
    decreases |steps|
  {
    if steps != [] && !steps[|steps| - 1].Restart? { WillingIsClean(env, s, steps[..|steps| - 1]); }
  }

  lemma {:induction false} RunWithin(env: Env, s: Door, steps: seq<Step>)
    requires Opened(s) && WillingTail(env, s, steps)
    ensures Within(env, Run(env, s, steps))
    decreases |steps|
  {
    if steps != [] {
      var k := |steps| - 1;
      var t := Run(env, s, steps[..k]);
      if steps[k].Restart? {
        RestartWithin(env, t, steps[k]);
      } else {
        RunWithin(env, s, steps[..k]);
        WillingIsClean(env, s, steps[..k]);
        RunAccounts(env, s, steps[..k]);
        StepWithin(env, t, steps[k]);
      }
    }
  }

  /** However full the cache was when it was opened, a new admission ends within the budget. */
  lemma AdmissionEndsWithin(env: Env, s: Door, steps: seq<Step>, r: nat)
    requires Opened(s) && WillingTail(env, s, steps)
    requires var t := Run(env, s, steps); AtTurn(t, r) && TurnOf(t.reqs[r]) == Some(Renamed)
    ensures var u := Apply(env, Run(env, s, steps), Count(r)); u.used == Total(u.objects) <= env.budget
  {
    RunWithin(env, s, steps);
    WillingIsClean(env, s, steps);
    RunAccounts(env, s, steps);
    CountEnds(env, Run(env, s, steps), r);
  }

  lemma CountEnds(env: Env, t: Door, r: nat)
    requires Within(env, t) && Accounted(t) && AtTurn(t, r) && TurnOf(t.reqs[r]) == Some(Renamed)
    ensures var u := DoCount(t, r); u.used == Total(u.objects) <= env.budget
  {
    assert Critical(t.reqs[r]);
  }

  /** The door when it was last opened: at the start or by the last restart. */
  ghost function LastOpened(env: Env, s: Door, steps: seq<Step>): (t: Door)
    decreases |steps|
  {
    if steps == [] then s
    else if steps[|steps| - 1].Restart? then Run(env, s, steps)
    else LastOpened(env, s, steps[..|steps| - 1])
  }

  /** Only the end of an admission raises the counter, and that within the budget. */
  lemma CounterRises(env: Env, s: Door, step: Step)
    requires Within(env, s) && !step.Restart?
    ensures Apply(env, s, step).used <= s.used || Apply(env, s, step).used <= env.budget
  {
    if IsAdmission(step) {
      match step
      case Acquire(r) =>
      case Check(r, listed, listing, accessed, unlinked) =>
      case EvictNext(r, removed) =>
      case Rename(r, renamed, unlinked) =>
      case Count(r) =>
      case DropEvicting(r, removed, unlinked) =>
      case DropRenamed(r) =>
    } else {
      OutsideShape(env, s, step);
    }
  }

  lemma {:induction false} CounterWithin(env: Env, s: Door, steps: seq<Step>)
    requires Opened(s) && WillingTail(env, s, steps) && Total(LastOpened(env, s, steps).objects) <= env.budget
    ensures Run(env, s, steps).used <= env.budget
    decreases |steps|
  {
    if steps != [] {
      var k := |steps| - 1;
      if steps[k].Restart? {
        RestartCounts(env, Run(env, s, steps[..k]), steps[k]);
      } else {
        CounterWithin(env, s, steps[..k]);
        RunWithin(env, s, steps[..k]);
        CounterRises(env, Run(env, s, steps[..k]), steps[k]);
      }
    }
  }

  lemma RestartCounts(env: Env, s: Door, step: Step)
    requires step.Restart? && step.unread == {}
    ensures Apply(env, s, step).used == Total(Apply(env, s, step).objects)
  {
    var objects := Apply(env, s, step).objects;
    assert objects - {} == objects;
  }

  /**
   A cache within the budget when it was last opened stays within it at every
   moment, also between a rename and its counting.
   */
  lemma CacheWithinBudget(env: Env, s: Door, steps: seq<Step>)
    requires Opened(s) && WillingTail(env, s, steps) && Total(LastOpened(env, s, steps).objects) <= env.budget
    ensures Total(Run(env, s, steps).objects) <= env.budget
  {
    var t := Run(env, s, steps);
    CounterWithin(env, s, steps);
    RunWithin(env, s, steps);
    WillingIsClean(env, s, steps);
    RunAccounts(env, s, steps);
    if t.lock.Some? { assert Critical(t.reqs[t.lock.value]); }
  }
}
