/** What the fine-grained admission steps add up to when nothing interrupts them. */
module BlobAdmission {
  import opened Bytes
  import opened Options
  import opened Sizes
  import opened Sorting
  import opened BlobCache
  import opened BlobDoor
  import opened BlobAgreement

  /** One eviction step for every file of the queue; those past the point of enough room do nothing. */
  function EvictSteps(r: nat, queue: seq<Name>, stuck: set<Name>): (steps: seq<Step>) {
    if queue == [] then [] else [EvictNext(r, queue[0] !in stuck)] + EvictSteps(r, queue[1..], stuck)
  }

  predicate AtEvicting(s: Door, r: nat, queue: seq<Name>) {
    AtTurn(s, r) && TurnOf(s.reqs[r]) == Some(Evicting(queue))
  }

  /** r is evicting or ready to rename, and everything but the cache and the queue is as in s. */
  ghost predicate OnlyCacheMoved(s: Door, t: Door, r: nat, d: Disk) {
    && AtTurn(s, r) && AtTurn(t, r) && TurnOf(t.reqs[r]).value.Evicting?
    && t == Update(s, r, WithTurn(s.reqs[r], TurnOf(t.reqs[r]).value)).(objects := d.objects, used := d.used)
  }

  lemma {:induction false} DoneEvicting(env: Env, s: Door, r: nat, steps: seq<Step>)
    requires !MustEvict(env, s, r) && forall i :: 0 <= i < |steps| ==> steps[i].EvictNext? && steps[i].r == r
    ensures Run(env, s, steps) == s
    decreases |steps|
  {
    if steps != [] { DoneEvicting(env, s, r, steps[..|steps| - 1]); }
  }

  lemma {:induction false} EvictStepsAre(r: nat, queue: seq<Name>, stuck: set<Name>)
    ensures forall i :: 0 <= i < |EvictSteps(r, queue, stuck)| ==>
              EvictSteps(r, queue, stuck)[i].EvictNext? && EvictSteps(r, queue, stuck)[i].r == r
    decreases |queue|
  {
    if queue != [] { EvictStepsAre(r, queue[1..], stuck); }
  }

  lemma RunOne(env: Env, s: Door, step: Step)
    ensures Run(env, s, [step]) == Apply(env, s, step)
  {
    RunSnoc(env, s, [], step);
    assert [] + [step] == [step];
  }

  /** An eviction step is one turn of the eviction loop. */
  lemma {:induction false} EvictStep(env: Env, s: Door, r: nat, queue: seq<Name>, removed: bool)
    requires AtEvicting(s, r, queue) && MustEvict(env, s, r)
    ensures var t := DoEvictNext(env, s, r, removed);
            && AtEvicting(t, r, queue[1..]) && Payload(t.reqs[r]) == Payload(s.reqs[r])
            && OnlyCacheMoved(s, t, r, EvictOne(Disk(s.objects, s.used), queue[0], removed))
  {
  }

  lemma MovedTwice(s: Door, t: Door, u: Door, r: nat, d: Disk, e: Disk)
    requires OnlyCacheMoved(s, t, r, d) && OnlyCacheMoved(t, u, r, e)
    ensures OnlyCacheMoved(s, u, r, e)
  {
    assert s.reqs[r := t.reqs[r]][r := u.reqs[r]] == s.reqs[r := u.reqs[r]];
  }

  lemma NotMoved(s: Door, r: nat, queue: seq<Name>)
    requires AtEvicting(s, r, queue)
    ensures OnlyCacheMoved(s, s, r, Disk(s.objects, s.used))
  {
    assert s.reqs[r := s.reqs[r]] == s.reqs;
  }

  /** What the eviction loop does while it must go on. */
  lemma {:induction false} EvictUnfolds(env: Env, s: Door, r: nat, queue: seq<Name>, stuck: set<Name>)
    requires AtEvicting(s, r, queue)
    ensures var d, need := Disk(s.objects, s.used), |Payload(s.reqs[r])|;
            Evict(d, queue, need, env.budget, stuck)
            == if MustEvict(env, s, r)
               then Evict(EvictOne(d, queue[0], queue[0] !in stuck), queue[1..], need, env.budget, stuck)
               else d
  {
  }

  /** The eviction steps do to the cache what the eviction loop does. */
  lemma {:induction false} EvictStepsRefine(env: Env, s: Door, r: nat, queue: seq<Name>, stuck: set<Name>)
    requires AtEvicting(s, r, queue)
    ensures var t := Run(env, s, EvictSteps(r, queue, stuck));
            && OnlyCacheMoved(s, t, r, Evict(Disk(s.objects, s.used), queue, |Payload(s.reqs[r])|, env.budget, stuck))
            && !MustEvict(env, t, r)
    decreases |queue|
  {
    EvictUnfolds(env, s, r, queue, stuck);
    if !MustEvict(env, s, r) {
      EvictStepsAre(r, queue, stuck);
      DoneEvicting(env, s, r, EvictSteps(r, queue, stuck));
      NotMoved(s, r, queue);
    } else {
      var step := EvictNext(r, queue[0] !in stuck);
      var t := DoEvictNext(env, s, r, queue[0] !in stuck);
      EvictStep(env, s, r, queue, queue[0] !in stuck);
      RunAppend(env, s, [step], EvictSteps(r, queue[1..], stuck));
      RunOne(env, s, step);
      EvictStepsRefine(env, t, r, queue[1..], stuck);
      var u := Run(env, t, EvictSteps(r, queue[1..], stuck));
      MovedTwice(s, t, u, r, Disk(t.objects, t.used),
                 Evict(Disk(t.objects, t.used), queue[1..], |Payload(s.reqs[r])|, env.budget, stuck));
    }
  }

  /** r waits for a free lock with its file in place. */
  predicate ReadyToAdmit(s: Door, r: nat) {
    && AtTurn(s, r) && TurnOf(s.reqs[r]) == Some(Waiting) && s.lock == None
    && HasFile(s.incoming, Tok(s.reqs[r]).value, Payload(s.reqs[r]))
  }

  /** An admission that nothing interrupts, with the file system's answers. */
  function AdmissionSteps(r: nat, listing: seq<Name>, accessed: Name -> int, luck: Luck): (steps: seq<Step>) {
    Opening(r, listing, accessed, luck.listed)
    + EvictSteps(r, Sort(accessed, listing), luck.stuck)
    + [Rename(r, luck.renames, true), Count(r)]
  }

  /** The two steps that open an admission. */
  function Opening(r: nat, listing: seq<Name>, accessed: Name -> int, listed: bool): (steps: seq<Step>) {
    [Acquire(r), Check(r, listed, listing, accessed, true)]
  }

  lemma RunTwo(env: Env, s: Door, a: Step, b: Step)
    ensures Run(env, s, [a, b]) == Apply(env, Apply(env, s, a), b)
  {
    RunOne(env, s, a);
    RunSnoc(env, s, [a], b);
    assert [a] + [b] == [a, b];
  }

  lemma RenameAndCount(env: Env, s: Door, t: Door, r: nat, d: Disk, renames: bool)
    requires OnlyCacheMoved(s, t, r, d) && !MustEvict(env, t, r)
    requires HasFile(s.incoming, Tok(s.reqs[r]).value, Payload(s.reqs[r]))
    ensures var u := DoCount(DoRename(env, t, r, renames, true), r);
            Disk(u.objects, u.used)
            == if renames then Disk(d.objects[s.reqs[r].name := Payload(s.reqs[r])], d.used
                + |Payload(s.reqs[r])|) else d
  {
  }

  lemma GoneMeansDone(env: Env, s: Door, r: nat, steps: seq<Step>)
    requires r !in s.reqs
    requires forall i :: 0 <= i < |steps| ==>
               && (steps[i].Acquire? || steps[i].Check? || steps[i].EvictNext? || steps[i].Rename? || steps[i].Count?)
               && steps[i].r == r
    ensures Run(env, s, steps) == s
  {
    if steps != [] { GoneMeansDone(env, s, r, steps[..|steps| - 1]); }
  }

  predicate Turned(env: Env, s: Door, r: nat, listed: bool)
    requires AtTurn(s, r)
  {
    || s.reqs[r].name in s.objects || |Payload(s.reqs[r])| > env.budget
    || (s.used + |Payload(s.reqs[r])| > env.budget && !listed)
  }

  lemma CheckLeaves(env: Env, u: Door, r: nat, listing: seq<Name>, accessed: Name -> int, listed: bool)
    requires AtTurn(u, r) && TurnOf(u.reqs[r]) == Some(Checking) && Turned(env, u, r, listed)
    ensures DoCheck(env, u, r, listed, listing, accessed, true) == Leave(u, r, true)
  {
  }

  lemma OpeningLeaves(env: Env, s: Door, r: nat, listing: seq<Name>, accessed: Name -> int, listed: bool)
    requires ReadyToAdmit(s, r) && Turned(env, s, r, listed)
    ensures var u := Run(env, s, Opening(r, listing, accessed, listed));
            r !in u.reqs && u.objects == s.objects && u.used == s.used
  {
    RunTwo(env, s, Acquire(r), Check(r, listed, listing, accessed, true));
    CheckLeaves(env, DoAcquire(s, r), r, listing, accessed, listed);
  }

  /** The queue an admission starts to evict from. */
  function Queue(env: Env, s: Door, r: nat, listing: seq<Name>, accessed: Name -> int): (q: seq<Name>)
    requires AtTurn(s, r)
  {
    if s.used + |Payload(s.reqs[r])| <= env.budget then [] else Sort(accessed, listing)
  }

  lemma CheckStarts(env: Env, u: Door, r: nat, listing: seq<Name>, accessed: Name -> int, listed: bool)
    requires AtTurn(u, r) && TurnOf(u.reqs[r]) == Some(Checking) && IsListing(listing, u.objects)
    requires !Turned(env, u, r, listed)
    ensures DoCheck(env, u, r, listed, listing, accessed, true)
            == Update(u, r, WithTurn(u.reqs[r], Evicting(Queue(env, u, r, listing, accessed))))
  {
  }

  lemma TurnTwice(s: Door, r: nat, a: Turn, b: Turn)
    requires AtTurn(s, r)
    ensures var u := Update(s, r, WithTurn(s.reqs[r], a));
            Update(u, r, WithTurn(u.reqs[r], b)) == Update(s, r, WithTurn(s.reqs[r], b))
  {
    assert s.reqs[r := WithTurn(s.reqs[r], a)][r := WithTurn(s.reqs[r], b)] == s.reqs[r := WithTurn(s.reqs[r], b)];
  }

  lemma OpeningEvicts(env: Env, s: Door, r: nat, listing: seq<Name>, accessed: Name -> int, listed: bool)
    requires ReadyToAdmit(s, r) && IsListing(listing, s.objects) && !Turned(env, s, r, listed)
    ensures Run(env, s, Opening(r, listing, accessed, listed))
            == Update(s, r, WithTurn(s.reqs[r], Evicting(Queue(env, s, r, listing, accessed)))).(lock := Some(r))
  {
    RunTwo(env, s, Acquire(r), Check(r, listed, listing, accessed, true));
    CheckStarts(env, DoAcquire(s, r), r, listing, accessed, listed);
    TurnTwice(s.(lock := Some(r)), r, Checking, Evicting(Queue(env, s, r, listing, accessed)));
  }

  /** Evictions for a whole listing, from the queue the check left. */
  lemma EvictPhase(env: Env, u: Door, r: nat, queue: seq<Name>, sorted: seq<Name>, stuck: set<Name>)
    requires AtEvicting(u, r, queue)
    requires queue == if u.used + |Payload(u.reqs[r])| <= env.budget then [] else sorted
    ensures var t := Run(env, u, EvictSteps(r, sorted, stuck));
            && OnlyCacheMoved(u, t, r, Evict(Disk(u.objects, u.used), sorted, |Payload(u.reqs[r])|, env.budget, stuck))
            && !MustEvict(env, t, r)
  {
    if queue == sorted {
      EvictStepsRefine(env, u, r, sorted, stuck);
    } else {
      EvictStepsAre(r, sorted, stuck);
      DoneEvicting(env, u, r, EvictSteps(r, sorted, stuck));
      NotMoved(u, r, queue);
    }
  }

  lemma RunThree(env: Env, s: Door, a: seq<Step>, b: seq<Step>, c: seq<Step>)
    ensures Run(env, s, a + b + c) == Run(env, Run(env, Run(env, s, a), b), c)
  {
    RunAppend(env, s, a + b, c);
    RunAppend(env, s, a, b);
  }

  /** Admission past its checks. */
  lemma AdmitPastChecks(d: Disk, name: Name, bytes: seq<Byte>, budget: nat, queue: seq<Name>, luck: Luck)
    requires name !in d.objects && |bytes| <= budget && (d.used + |bytes| <= budget || luck.listed)
    ensures var e := Evict(d, queue, |bytes|, budget, luck.stuck);
            Admit(d, name, bytes, budget, queue, luck).disk
            == if luck.renames then Disk(e.objects[name := bytes], e.used + |bytes|) else e
  {
  }

  lemma QueueLeft(env: Env, s: Door, r: nat, queue: seq<Name>)
    requires AtTurn(s, r)
    ensures var u := Update(s, r, WithTurn(s.reqs[r], Evicting(queue))).(lock := Some(r));
            && AtEvicting(u, r, queue) && Payload(u.reqs[r]) == Payload(s.reqs[r]) && Tok(u.reqs[r]) == Tok(s.reqs[r])
            && u.reqs[r].name == s.reqs[r].name
  {
  }

  lemma AfterOpening(env: Env, s: Door, u: Door, r: nat, queue: seq<Name>, sorted: seq<Name>, luck: Luck)
    requires ReadyToAdmit(s, r) && !Turned(env, s, r, luck.listed)
    requires queue == if s.used + |Payload(s.reqs[r])| <= env.budget then [] else sorted
    requires u == Update(s, r, WithTurn(s.reqs[r], Evicting(queue))).(lock := Some(r))
    ensures var v := Run(env, u, EvictSteps(r, sorted, luck.stuck));
            var t := DoCount(DoRename(env, v, r, luck.renames, true), r);
            Disk(t.objects, t.used) == Atomic(env, s, r, sorted, luck)
  {
    var p, d := Payload(s.reqs[r]), Disk(s.objects, s.used);
    QueueLeft(env, s, r, queue);
    EvictPhase(env, u, r, queue, sorted, luck.stuck);
    AdmitPastChecks(d, s.reqs[r].name, p, env.budget, sorted, luck);
    RenameAndCount(env, u, Run(env, u, EvictSteps(r, sorted, luck.stuck)), r,
                   Evict(d, sorted, |p|, env.budget, luck.stuck), luck.renames);
  }

  /** What an atomic admission of r's file would leave. */
  function Atomic(env: Env, s: Door, r: nat, sorted: seq<Name>, luck: Luck): (d: Disk)
    requires AtTurn(s, r)
  {
    Admit(Disk(s.objects, s.used), s.reqs[r].name, Payload(s.reqs[r]), env.budget, sorted, luck).disk
  }

  lemma TurnedAway(env: Env, s: Door, r: nat, listing: seq<Name>, accessed: Name -> int, luck: Luck)
    requires ReadyToAdmit(s, r) && Turned(env, s, r, luck.listed)
    ensures var t := Run(env, s, AdmissionSteps(r, listing, accessed, luck));
            Disk(t.objects, t.used) == Disk(s.objects, s.used)
  {
    var first, last := Opening(r, listing, accessed, luck.listed), [Rename(r, luck.renames, true), Count(r)];
    var evict := EvictSteps(r, Sort(accessed, listing), luck.stuck);
    var u := Run(env, s, first);
    RunThree(env, s, first, evict, last);
    OpeningLeaves(env, s, r, listing, accessed, luck.listed);
    EvictStepsAre(r, Sort(accessed, listing), luck.stuck);
    GoneMeansDone(env, u, r, evict);
    GoneMeansDone(env, u, r, last);
  }

  lemma LetIn(env: Env, s: Door, r: nat, listing: seq<Name>, accessed: Name -> int, luck: Luck)
    requires ReadyToAdmit(s, r) && IsListing(listing, s.objects) && !Turned(env, s, r, luck.listed)
    ensures var t := Run(env, s, AdmissionSteps(r, listing, accessed, luck));
            Disk(t.objects, t.used) == Atomic(env, s, r, Sort(accessed, listing), luck)
  {
    var first, last := Opening(r, listing, accessed, luck.listed), [Rename(r, luck.renames, true), Count(r)];
    var evict := EvictSteps(r, Sort(accessed, listing), luck.stuck);
    var u := Run(env, s, first);
    RunThree(env, s, first, evict, last);
    OpeningEvicts(env, s, r, listing, accessed, luck.listed);
    AfterOpening(env, s, u, r, Queue(env, s, r, listing, accessed), Sort(accessed, listing), luck);
    Closing(env, Run(env, u, evict), r, luck.renames);
  }

  lemma Closing(env: Env, v: Door, r: nat, renames: bool)
    ensures Run(env, v, [Rename(r, renames, true), Count(r)]) == DoCount(DoRename(env, v, r, renames, true), r)
  {
    RunTwo(env, v, Rename(r, renames, true), Count(r));
  }

  /** Taken together, the admission steps do to the cache exactly what one atomic admission does, whatever fails. */
  lemma AdmissionRefines(env: Env, s: Door, r: nat, listing: seq<Name>, accessed: Name -> int, luck: Luck)
    requires ReadyToAdmit(s, r) && IsListing(listing, s.objects)
    ensures var t := Run(env, s, AdmissionSteps(r, listing, accessed, luck));
            Disk(t.objects, t.used) == Atomic(env, s, r, Sort(accessed, listing), luck)
  {
    if Turned(env, s, r, luck.listed) {
      TurnedAway(env, s, r, listing, accessed, luck);
    } else {
      LetIn(env, s, r, listing, accessed, luck);
    }
  }
}
