/** The byte counter and the incoming files over whole runs. */
module BlobAccounting {
  import opened Bytes
  import opened Options
  import opened Sizes
  import opened Sorting
  import opened BlobCache
  import opened BlobDoor
  import opened BlobAgreement

  // Exact accounting.

  predicate Critical(q: Request) {
    TurnOf(q).Some? && TurnOf(q) != Some(Waiting)
  }

  /** The lock is held by the one request inside admission. */
  ghost predicate LockOk(s: Door) {
    && (forall r :: r in s.reqs ==> (Critical(s.reqs[r]) <==> s.lock == Some(r)))
    && (s.lock.Some? ==> s.lock.value in s.reqs)
  }

  /** A file is only published under a name that is not there yet. */
  ghost predicate NamesFree(s: Door) {
    forall r :: r in s.reqs && TurnOf(s.reqs[r]).Some? && TurnOf(s.reqs[r]).value.Evicting?
                ==> s.reqs[r].name !in s.objects
  }

  /** Bytes renamed into place whose addition to the counter is still to come. */
  function Uncounted(s: Door): (n: nat) {
    if s.lock.Some? && s.lock.value in s.reqs && TurnOf(s.reqs[s.lock.value]) == Some(Renamed)
    then |Payload(s.reqs[s.lock.value])| else 0
  }

  ghost predicate Accounted(s: Door) {
    LockOk(s) && NamesFree(s) && Total(s.objects) == s.used + Uncounted(s)
  }

  /** No request is dropped inside admission with a file operation left uncounted, and no count skips a file. */
  predicate Uninterrupted(step: Step) {
    !step.DropRenamed? && !(step.DropEvicting? && step.removed) && !(step.Restart? && step.unread != {})
  }

  // The shape of a step taken by r outside admission: only r's own request and
  // file change, and r is not inside admission before or after.

  ghost predicate OthersSame(s: Door, s': Door, r: nat) {
    && (forall r' :: r' != r ==> (r' in s.reqs <==> r' in s'.reqs))
    && (forall r' :: r' != r && r' in s.reqs ==> s'.reqs[r'] == s.reqs[r'])
  }

  ghost predicate Outside(s: Door, s': Door, r: nat) {
    s' == s ||
    (&& s'.objects == s.objects && s'.used == s.used
     && (s'.lock == s.lock || s.lock == Some(r))
     && (r in s.reqs ==> !Critical(s.reqs[r]))
     && (r in s'.reqs ==> !Critical(s'.reqs[r]))
     && OthersSame(s, s', r))
  }

  /** Files come only from r, and r gives up its own file only by having it removed. */
  ghost predicate FilesLocal(s: Door, s': Door, r: nat) {
    && OthersSame(s, s', r)
    && (forall t :: t in s'.incoming ==> t in s.incoming || (r in s'.reqs && Tok(s'.reqs[r]) == Some(t)))
    && (r in s.reqs && Tok(s.reqs[r]).Some? && Tok(s.reqs[r]).value in s'.incoming
        ==> r in s'.reqs && Tok(s'.reqs[r]) == Tok(s.reqs[r]))
  }

  lemma CloseShape(s: Door, r: nat, unlinked: bool)
    requires r in s.reqs
    ensures !Critical(s.reqs[r]) ==> Outside(s, Close(s, r, unlinked), r)
    ensures unlinked || Tok(s.reqs[r]).None? ==> FilesLocal(s, Close(s, r, unlinked), r)
  {
  }

  lemma UpdateShape(s: Door, r: nat, q: Request)
    requires r in s.reqs ==> !Critical(s.reqs[r]) && (Tok(s.reqs[r]) == Tok(q) || Tok(s.reqs[r]).None?)
    ensures !Critical(q) ==> Outside(s, Update(s, r, q), r)
    ensures FilesLocal(s, Update(s, r, q), r)
  {
  }

  lemma ReceiveShape(env: Env, s: Door, step: Step)
    requires step.StartPut? || step.Chunk?
    ensures Outside(s, Apply(env, s, step), step.r) && FilesLocal(s, Apply(env, s, step), step.r)
  {
  }

  lemma EndBodyShape(env: Env, s: Door, r: nat, unlinked: bool)
    ensures Outside(s, DoEndBody(env, s, r, unlinked), r)
    ensures unlinked ==> FilesLocal(s, DoEndBody(env, s, r, unlinked), r)
  {
    if AtPut(s, r, Receiving) {
      CloseShape(s, r, unlinked);
      UpdateShape(s, r, s.reqs[r].(pstage := Received));
    }
  }

  lemma HeadShape(s: Door, r: nat, answered: bool, unlinked: bool)
    ensures Outside(s, DoHead(s, r, answered, unlinked), r)
    ensures unlinked ==> FilesLocal(s, DoHead(s, r, answered, unlinked), r)
  {
    if AtPut(s, r, Received) {
      CloseShape(s, r, unlinked);
      UpdateShape(s, r, s.reqs[r].(pstage := Writing));
      UpdateShape(s, r, s.reqs[r].(pstage := PutAdmit(Waiting)));
    }
  }

  lemma ConfirmShape(s: Door, r: nat, answered: bool, unlinked: bool)
    ensures Outside(s, DoConfirm(s, r, answered, unlinked), r)
    ensures unlinked ==> FilesLocal(s, DoConfirm(s, r, answered, unlinked), r)
  {
    if AtPut(s, r, Confirming) {
      CloseShape(s, r, unlinked);
      UpdateShape(s, r, s.reqs[r].(pstage := PutAdmit(Waiting)));
    }
  }

  lemma PutPathShape(s: Door, r: nat, applied: bool, ok: bool, unlinked: bool)
    ensures Outside(s, DoPutPath(s, r, applied, ok, unlinked), r)
    ensures unlinked ==> FilesLocal(s, DoPutPath(s, r, applied, ok, unlinked), r)
  {
  }

  lemma GetShape(env: Env, s: Door, step: Step)
    requires step.StartGet? || step.Stat? || step.Open? || step.FinishRead?
    ensures Outside(s, Apply(env, s, step), step.r)
    ensures FilesLocal(s, Apply(env, s, step), step.r)
  {
  }

  lemma FetchShape(env: Env, s: Door, r: nat, answered: bool, lengthKnown: bool, created: bool)
    ensures Outside(s, DoFetch(env, s, r, answered, lengthKnown, created), r)
    ensures FilesLocal(s, DoFetch(env, s, r, answered, lengthKnown, created), r)
  {
  }

  lemma DeliverShape(s: Door, r: nat, n: nat, wrote: bool, partial: nat)
    ensures Outside(s, DoDeliver(s, r, n, wrote, partial), r)
    ensures FilesLocal(s, DoDeliver(s, r, n, wrote, partial), r)
  {
  }

  lemma EndStreamShape(s: Door, r: nat, synced: bool, unlinked: bool)
    ensures Outside(s, DoEndStream(s, r, synced, unlinked), r)
    ensures unlinked ==> FilesLocal(s, DoEndStream(s, r, synced, unlinked), r)
  {
  }

  lemma AbandonShape(s: Door, r: nat, unlinked: bool)
    ensures Outside(s, DoAbandon(s, r, unlinked), r)
    ensures unlinked ==> FilesLocal(s, DoAbandon(s, r, unlinked), r)
  {
    if r in s.reqs { CloseShape(s, r, unlinked); }
  }

  predicate IsAdmission(step: Step) {
    step.Acquire? || step.Check? || step.EvictNext? || step.Rename? || step.Count?
    || step.DropEvicting? || step.DropRenamed?
  }

  lemma OutsideShape(env: Env, s: Door, step: Step)
    requires !IsAdmission(step) && !step.Restart?
    ensures Outside(s, Apply(env, s, step), step.r)
    ensures Tidy(step) ==> FilesLocal(s, Apply(env, s, step), step.r)
  {
    match step
    case PutPath(r, applied, ok, unlinked) => PutPathShape(s, r, applied, ok, unlinked);
    case Fetch(r, answered, lengthKnown, created) => FetchShape(env, s, r, answered, lengthKnown, created);
    case Deliver(r, n, wrote, partial) => DeliverShape(s, r, n, wrote, partial);
    case EndStream(r, synced, unlinked) => EndStreamShape(s, r, synced, unlinked);
    case Abandon(r, unlinked) => AbandonShape(s, r, unlinked);
    case StartGet(_, _) => GetShape(env, s, step);
    case Stat(_) => GetShape(env, s, step);
    case Open(_) => GetShape(env, s, step);
    case FinishRead(_) => GetShape(env, s, step);
    case EndBody(r, unlinked) => EndBodyShape(env, s, r, unlinked);
    case Head(r, answered, unlinked) => HeadShape(s, r, answered, unlinked);
    case Confirm(r, answered, unlinked) => ConfirmShape(s, r, answered, unlinked);
    case StartPut(_, _, _) => ReceiveShape(env, s, step);
    case Chunk(_, _) => ReceiveShape(env, s, step);
  }

  lemma OutsideAccounts(s: Door, s': Door, r: nat)
    requires Accounted(s) && Outside(s, s', r)
    requires s'.lock == s.lock || r in s.reqs
    ensures Accounted(s')
  {
  }

  lemma LeaveAccounts(s: Door, r: nat, unlinked: bool)
    requires LockOk(s) && NamesFree(s) && r in s.reqs && Critical(s.reqs[r]) && Total(s.objects) == s.used
    ensures Accounted(Leave(s, r, unlinked)) && Accounted(Close(s, r, unlinked))
  {
  }

  lemma AcquireAccounts(s: Door, r: nat)
    requires Accounted(s)
    ensures Accounted(DoAcquire(s, r))
  {
  }

  /** The holder of the lock moves on, with a free name. */
  lemma EvictingAccounts(s: Door, r: nat, queue: seq<Name>)
    requires Accounted(s) && AtTurn(s, r) && s.lock == Some(r) && TurnOf(s.reqs[r]) != Some(Renamed)
    requires s.reqs[r].name !in s.objects
    ensures Accounted(Update(s, r, WithTurn(s.reqs[r], Evicting(queue))))
  {
  }

  lemma CheckAccounts(env: Env, s: Door, r: nat, listed: bool, listing: seq<Name>, accessed: Name -> int,
                      unlinked: bool)
    requires Accounted(s)
    ensures Accounted(DoCheck(env, s, r, listed, listing, accessed, unlinked))
  {
    if AtTurn(s, r) && TurnOf(s.reqs[r]) == Some(Checking) {
      var q := s.reqs[r];
      assert Critical(q);
      if q.name in s.objects || |Payload(q)| > env.budget {
        LeaveAccounts(s, r, unlinked);
      } else if s.used + |Payload(q)| <= env.budget {
        EvictingAccounts(s, r, []);
      } else if !listed {
        LeaveAccounts(s, r, unlinked);
      } else {
        EvictingAccounts(s, r, Sort(accessed, listing));
      }
    }
  }

  lemma EvictNextAccounts(env: Env, s: Door, r: nat, removed: bool)
    requires Accounted(s)
    ensures Accounted(DoEvictNext(env, s, r, removed))
  {
    if MustEvict(env, s, r) {
      EvictOneExact(Disk(s.objects, s.used), TurnOf(s.reqs[r]).value.queue[0], removed);
    }
  }

  /** The rename itself: the file is in place and still to be counted. */
  lemma RenamedAccounts(s: Door, r: nat, incoming': map<nat, seq<Byte>>)
    requires Accounted(s) && AtTurn(s, r) && TurnOf(s.reqs[r]).value.Evicting?
    ensures var q := s.reqs[r];
            Accounted(Update(s, r, WithTurn(q, Renamed)).(
                        objects := s.objects[q.name := Payload(q)], incoming := incoming'))
  {
    var q := s.reqs[r];
    assert Critical(q) && s.lock == Some(r);
    TotalWith(s.objects, q.name, Payload(q));
    HolderMoves(s, Update(s, r, WithTurn(q, Renamed)), r, WithTurn(q, Renamed));
  }

  /** The one request inside admission moves on, past the point where its name must be free. */
  lemma HolderMoves(s: Door, t: Door, r: nat, q: Request)
    requires LockOk(s) && s.lock == Some(r) && t == Update(s, r, q) && TurnOf(q) == Some(Renamed)
    ensures LockOk(t) && forall r' :: r' in t.reqs && TurnOf(t.reqs[r']).Some? ==> !TurnOf(t.reqs[r']).value.Evicting?
  {
    forall r' | r' in t.reqs ensures (Critical(t.reqs[r']) <==> t.lock == Some(r'))
        && (r' != r ==> !Critical(t.reqs[r'])) {
      if r' != r { assert t.reqs[r'] == s.reqs[r']; }
    }
  }

  lemma RenameAccounts(env: Env, s: Door, r: nat, renamed: bool, unlinked: bool)
    requires Accounted(s) && Inv(NOTHING, s)
    ensures Accounted(DoRename(env, s, r, renamed, unlinked))
  {
    if AtTurn(s, r) && TurnOf(s.reqs[r]).value.Evicting? {
      var q := s.reqs[r];
      assert Critical(q);
      LeaveAccounts(s, r, unlinked);
      assert RequestOk(NOTHING, s.store, s.incoming, q);
      assert HasFile(s.incoming, Tok(q).value, Payload(q));
      RenamedAccounts(s, r, s.incoming - {Tok(q).value});
    }
  }

  lemma CountAccounts(s: Door, r: nat)
    requires Accounted(s)
    ensures Accounted(DoCount(s, r))
  {
    if AtTurn(s, r) && TurnOf(s.reqs[r]) == Some(Renamed) {
      var t := s.(used := s.used + |Payload(s.reqs[r])|);
      LeaveAccounts(t, r, true);
    }
  }

  lemma DropEvictingAccounts(env: Env, s: Door, r: nat, unlinked: bool)
    requires Accounted(s)
    ensures Accounted(DoDropEvicting(env, s, r, false, unlinked))
  {
    if AtTurn(s, r) && Critical(s.reqs[r]) && TurnOf(s.reqs[r]) != Some(Renamed) { LeaveAccounts(s, r, unlinked); }
  }

  lemma RestartAccounts(env: Env, s: Door, step: Step)
    requires step.Restart? && step.unread == {}
    ensures Accounted(Apply(env, s, step))
  {
    var t := DoRestart(s, step.survivors, step.stuck, {});
    assert t.objects - {} == t.objects;
    assert t.reqs == map[] && t.lock == None && t.used == Total(t.objects);
  }

  lemma StepAccounts(env: Env, s: Door, step: Step)
    requires Accounted(s) && Inv(NOTHING, s) && Uninterrupted(step)
    ensures Accounted(Apply(env, s, step))
  {
    if IsAdmission(step) {
      match step
      case Acquire(r) => AcquireAccounts(s, r);
      case Check(r, listed, listing, accessed, unlinked) =>
        CheckAccounts(env, s, r, listed, listing, accessed, unlinked);
      case EvictNext(r, removed) => EvictNextAccounts(env, s, r, removed);
      case Rename(r, renamed, unlinked) => RenameAccounts(env, s, r, renamed, unlinked);
      case Count(r) => CountAccounts(s, r);
      case DropEvicting(r, _, unlinked) => DropEvictingAccounts(env, s, r, unlinked);
    } else if step.Restart? {
      RestartAccounts(env, s, step);
    } else {
      OutsideShape(env, s, step);
      OutsideAccounts(s, Apply(env, s, step), step.r);
    }
  }

  /** A law that covers no name: what is left of the invariant is who owns which incoming file. */
  const NOTHING: Law := Law((n: Name) => false, (n: Name, x: seq<Byte>) => true)

  /** That needs neither a hash without collisions nor streams that are whole. */
  lemma FilesOwned(env: Env, s: Door, steps: seq<Step>)
    requires Opened(s)
    ensures Inv(NOTHING, Run(env, s, steps))
  {
    RunKeeps(env, NOTHING, s, steps);
  }

  /** No interruption since the last restart, which counts the files afresh. */
  predicate CleanTail(steps: seq<Step>) {
    steps == []
    || (Uninterrupted(steps[|steps| - 1]) && (steps[|steps| - 1].Restart? || CleanTail(steps[..|steps| - 1])))
  }

  lemma OpenedAccounts(s: Door)
    requires Opened(s)
    ensures Accounted(s)
  {
  }

  lemma {:induction false} RunAccounts(env: Env, s: Door, steps: seq<Step>)
    requires Opened(s) && CleanTail(steps)
    ensures Accounted(Run(env, s, steps))
    decreases |steps|
  {
    if steps == [] {
      OpenedAccounts(s);
    } else {
      var k := |steps| - 1;
      var t := Run(env, s, steps[..k]);
      if steps[k].Restart? {
        RestartAccounts(env, t, steps[k]);
      } else {
        RunAccounts(env, s, steps[..k]);
        FilesOwned(env, s, steps[..k]);
        StepAccounts(env, t, steps[k]);
      }
    }
  }

  /** Whenever no admission is under way, the counter is the size of the cache, to the byte. */
  lemma CounterIsExact(env: Env, s: Door, steps: seq<Step>)
    requires Opened(s) && CleanTail(steps) && Run(env, s, steps).lock == None
    ensures Run(env, s, steps).used == Total(Run(env, s, steps).objects)
  {
    RunAccounts(env, s, steps);
  }

  // No file left behind.

  /** Every file under incoming/ belongs to a request that is still going. */
  ghost predicate Owned(s: Door) {
    forall t :: t in s.incoming ==> exists r :: r in s.reqs && Tok(s.reqs[r]) == Some(t)
  }

  /** The clean-up unlinks of this step succeed. */
  predicate Tidy(step: Step) {
    match step
    case EndBody(_, unlinked) => unlinked
    case Head(_, _, unlinked) => unlinked
    case PutPath(_, _, _, unlinked) => unlinked
    case Confirm(_, _, unlinked) => unlinked
    case EndStream(_, _, unlinked) => unlinked
    case Abandon(_, unlinked) => unlinked
    case Check(_, _, _, _, unlinked) => unlinked
    case Rename(_, _, unlinked) => unlinked
    case DropEvicting(_, _, unlinked) => unlinked
    case Restart(_, stuck, _) => stuck == {}
    case _ => true
  }

  lemma OwnedFrame(s: Door, s': Door, r: nat)
    requires Owned(s) && FilesLocal(s, s', r)
    ensures Owned(s')
  {
    forall t | t in s'.incoming
      ensures exists r' :: r' in s'.reqs && Tok(s'.reqs[r']) == Some(t)
    {
      if t in s.incoming {
        var r' :| r' in s.reqs && Tok(s.reqs[r']) == Some(t);
        if r' != r { assert s'.reqs[r'] == s.reqs[r']; }
      }
    }
  }

  lemma LeaveShape(s: Door, r: nat)
    requires r in s.reqs
    ensures FilesLocal(s, Leave(s, r, true), r)
  {
    CloseShape(s, r, true);
  }

  lemma TurnShape(s: Door, r: nat, turn: Turn)
    requires AtTurn(s, r)
    ensures FilesLocal(s, Update(s, r, WithTurn(s.reqs[r], turn)), r)
  {
  }

  lemma CheckFiles(env: Env, s: Door, r: nat, listed: bool, listing: seq<Name>, accessed: Name -> int)
    ensures FilesLocal(s, DoCheck(env, s, r, listed, listing, accessed, true), r)
  {
    if AtTurn(s, r) {
      LeaveShape(s, r);
      TurnShape(s, r, Evicting([]));
      TurnShape(s, r, Evicting(Sort(accessed, listing)));
    }
  }

  lemma RenameFiles(env: Env, s: Door, r: nat, renamed: bool)
    ensures FilesLocal(s, DoRename(env, s, r, renamed, true), r)
  {
    if AtTurn(s, r) { LeaveShape(s, r); }
  }

  lemma AcquireFiles(s: Door, r: nat)
    ensures FilesLocal(s, DoAcquire(s, r), r)
  {
    if AtTurn(s, r) { TurnShape(s, r, Checking); }
  }

  lemma EvictFiles(env: Env, s: Door, r: nat, removed: bool)
    ensures FilesLocal(s, DoEvictNext(env, s, r, removed), r)
  {
    if MustEvict(env, s, r) { TurnShape(s, r, Evicting(TurnOf(s.reqs[r]).value.queue[1..])); }
  }

  lemma CountFiles(s: Door, r: nat)
    ensures FilesLocal(s, DoCount(s, r), r)
  {
    if AtTurn(s, r) { LeaveShape(s.(used := s.used + |Payload(s.reqs[r])|), r); }
  }

  lemma DropRenamedFiles(s: Door, r: nat)
    ensures FilesLocal(s, DoDropRenamed(s, r), r)
  {
    if AtTurn(s, r) { CloseShape(s, r, true); }
  }

  lemma DropFiles(env: Env, s: Door, r: nat, removed: bool)
    ensures FilesLocal(s, DoDropEvicting(env, s, r, removed, true), r)
  {
    if AtTurn(s, r) { CloseShape(s, r, true); }
  }

  lemma StepOwned(env: Env, s: Door, step: Step)
    requires Owned(s) && Tidy(step)
    ensures Owned(Apply(env, s, step))
  {
    if !step.Restart? {
      if IsAdmission(step) { AdmissionFiles(env, s, step); } else { OutsideShape(env, s, step); }
      OwnedFrame(s, Apply(env, s, step), step.r);
    }
  }

  lemma AdmissionFiles(env: Env, s: Door, step: Step)
    requires IsAdmission(step) && Tidy(step)
    ensures FilesLocal(s, Apply(env, s, step), step.r)
  {
    match step
    case Check(r, listed, listing, accessed, _) => CheckFiles(env, s, r, listed, listing, accessed);
    case Rename(r, renamed, _) => RenameFiles(env, s, r, renamed);
    case DropEvicting(r, removed, _) => DropFiles(env, s, r, removed);
    case Acquire(r) => AcquireFiles(s, r);
    case EvictNext(r, removed) => EvictFiles(env, s, r, removed);
    case Count(r) => CountFiles(s, r);
    case DropRenamed(r) => DropRenamedFiles(s, r);
  }

  /** When clean-up unlinks succeed, a file under incoming/ always has a live owner. */
  lemma {:induction false} NothingLeftBehind(env: Env, s: Door, steps: seq<Step>)
    requires Opened(s) && s.incoming == map[] && forall i :: 0 <= i < |steps| ==> Tidy(steps[i])
    ensures Owned(Run(env, s, steps))
    ensures Run(env, s, steps).reqs == map[] ==> Run(env, s, steps).incoming == map[]
    decreases |steps|
  {
    if steps != [] {
      var k := |steps| - 1;
      NothingLeftBehind(env, s, steps[..k]);
      StepOwned(env, Run(env, s, steps[..k]), steps[k]);
    }
    assert Owned(Run(env, s, steps));
    if Run(env, s, steps).reqs == map[] {
      assert forall t :: t !in Run(env, s, steps).incoming;
      assert Run(env, s, steps).incoming.Keys == {};
    }
  }
}
