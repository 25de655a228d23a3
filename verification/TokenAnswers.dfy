/** What an answered call on the saved login means, whatever other processes do meanwhile, and that calls get on. */
module TokenAnswers {
  import opened Bytes
  import opened Options
  import opened TokenStore
  import opened TokenRotation
  import opened TokenPromises

  predicate InFile(env: Env, s: Store, rec: Record) {
    s.file.Some? && env.parse(s.file.value) == Some(rec)
  }

  /** The first step of a call says what it is for; a login brings the credential it was granted. */
  predicate Asks(s: Store, step: Step, p: nat, job: Job) {
    step.p == p &&
    match job
    case Load(force) => step.StartLoad? && step.force == force
    case Logout => step.StartLogout?
    case Login(rec) =>
      && step.GrantLogin? && rec.access == step.access && rec.expiresAt == step.expiresAt
      && rec.issuer == step.issuer && rec.refresh == Some(s.nextCred)
  }

  /** p reads this record, and it has to be refreshed: the load was forced, or the record has expired. */
  predicate ReadsOld(env: Env, s: Store, step: Step, p: nat, force: bool, stored: Record) {
    && step.Read? && step.p == p && step.readable && InFile(env, s, stored)
    && (force || IsExpired(env, stored, step.now)) && stored.refresh.Some?
  }

  /** The issuer answers p with this record: a new credential, or the old one still good; the issuer's name stays. */
  predicate Granted(s: Store, step: Step, p: nat, stored: Record, rec: Record) {
    && step.Present? && step.p == p && rec.issuer == stored.issuer && stored.refresh.Some?
    && stored.refresh.value !in s.consumed
    && (match step.answer
        case Rotated(access, expiresAt) =>
          rec.access == access && rec.expiresAt == expiresAt && rec.refresh == Some(s.nextCred)
        case Kept(access, expiresAt) =>
          rec.access == access && rec.expiresAt == expiresAt && rec.refresh == stored.refresh
        case _ => false)
  }

  predicate ReadAt(env: Env, s: Store, steps: seq<Step>, p: nat, force: bool, stored: Record, i: nat)
  {
    i < |steps| && ReadsOld(env, Run(env, s, steps[..i]), steps[i], p, force, stored)
  }

  predicate GrantedAt(env: Env, s: Store, steps: seq<Step>, p: nat, stored: Record, rec: Record, i: nat)
  {
    i < |steps| && Granted(Run(env, s, steps[..i]), steps[i], p, stored, rec)
  }

  predicate Asked(s: Store, steps: seq<Step>, p: nat, job: Job) {
    steps != [] && Asks(s, steps[0], p, job)
  }

  /** In this call p read a record that had to be refreshed. */
  ghost predicate HasRead(env: Env, s: Store, steps: seq<Step>, p: nat, stored: Record) {
    exists force, i: nat :: Asked(s, steps, p, Load(force)) && ReadAt(env, s, steps, p, force, stored, i)
  }

  /** In this call p read a record, presented its credential, and was answered. */
  ghost predicate Refreshed(env: Env, s: Store, steps: seq<Step>, p: nat, stored: Record, rec: Record) {
    HasRead(env, s, steps, p, stored) && exists i: nat :: GrantedAt(env, s, steps, p, stored, rec, i)
  }

  /** How p came to this stage. */
  ghost predicate Came(env: Env, s: Store, steps: seq<Step>, p: nat, stage: Stage) {
    match stage
    case Waiting(job) => Asked(s, steps, p, job)
    case Holding(job) => Asked(s, steps, p, job)
    case Refreshing(stored) => HasRead(env, s, steps, p, stored)
    case Saving(rec, from, _) => Earned(env, s, steps, p, rec, from)
    case Renamed(rec) => exists from :: Earned(env, s, steps, p, rec, from)
  }

  ghost predicate Earned(env: Env, s: Store, steps: seq<Step>, p: nat, rec: Record, from: Option<Record>) {
    match from
    case None => Asked(s, steps, p, Login(rec))
    case Some(stored) => Refreshed(env, s, steps, p, stored, rec)
  }

  // More steps take nothing back.

  lemma AskedOn(s: Store, steps: seq<Step>, step: Step, p: nat, job: Job)
    requires Asked(s, steps, p, job)
    ensures Asked(s, steps + [step], p, job)
  {
  }

  lemma HasReadOn(env: Env, s: Store, steps: seq<Step>, step: Step, p: nat, stored: Record)
    requires HasRead(env, s, steps, p, stored)
    ensures HasRead(env, s, steps + [step], p, stored)
  {
    var force, i: nat :| Asked(s, steps, p, Load(force)) && ReadAt(env, s, steps, p, force, stored, i);
    assert (steps + [step])[..i] == steps[..i];
    AskedOn(s, steps, step, p, Load(force));
    assert ReadAt(env, s, steps + [step], p, force, stored, i);
  }

  lemma EarnedOn(env: Env, s: Store, steps: seq<Step>, step: Step, p: nat, rec: Record, from: Option<Record>)
    requires Earned(env, s, steps, p, rec, from)
    ensures Earned(env, s, steps + [step], p, rec, from)
  {
    match from
    case None => AskedOn(s, steps, step, p, Login(rec));
    case Some(stored) =>
      HasReadOn(env, s, steps, step, p, stored);
      var i: nat :| GrantedAt(env, s, steps, p, stored, rec, i);
      assert (steps + [step])[..i] == steps[..i];
      assert GrantedAt(env, s, steps + [step], p, stored, rec, i);
  }

  lemma CameOn(env: Env, s: Store, steps: seq<Step>, step: Step, p: nat, stage: Stage)
    requires Came(env, s, steps, p, stage)
    ensures Came(env, s, steps + [step], p, stage)
  {
    match stage
    case Waiting(job) => AskedOn(s, steps, step, p, job);
    case Holding(job) => AskedOn(s, steps, step, p, job);
    case Refreshing(stored) => HasReadOn(env, s, steps, step, p, stored);
    case Saving(rec, from, _) => EarnedOn(env, s, steps, step, p, rec, from);
    case Renamed(rec) =>
      var from :| Earned(env, s, steps, p, rec, from);
      EarnedOn(env, s, steps, step, p, rec, from);
  }

  // One step of p's own.

  /** Where a step of p's own leads from a stage it does not end. */
  predicate Follows(env: Env, s: Store, step: Step, p: nat, was: Stage, now: Stage) {
    || now == was
    || (was.Waiting? && now == Holding(was.job))
    || (was.Holding? && was.job.Load? && now.Refreshing? && ReadsOld(env, s, step, p, was.job.force, now.stored))
    || (was.Holding? && was.job.Login? && now.Saving? && now.rec == was.job.record && now.from == None)
    || (was.Refreshing? && now.Saving? && now.from == Some(was.stored) && Granted(s, step, p, was.stored, now.rec))
    || (was.Saving? && now.Saving? && now.rec == was.rec && now.from == was.from)
    || (was.Saving? && now == Renamed(was.rec))
  }

  lemma FileStepFollows(env: Env, s: Store, step: Step, p: nat)
    requires step.p == p && p in s.procs && p in Apply(env, s, step).procs && OnFile(step)
    ensures Follows(env, s, step, p, s.procs[p], Apply(env, s, step).procs[p])
  {
  }

  lemma OtherStepFollows(env: Env, s: Store, step: Step, p: nat)
    requires step.p == p && p in s.procs && p in Apply(env, s, step).procs && !OnFile(step)
    ensures Follows(env, s, step, p, s.procs[p], Apply(env, s, step).procs[p])
  {
  }

  lemma OwnStep(env: Env, s: Store, step: Step, p: nat)
    requires step.p == p && p in s.procs && p in Apply(env, s, step).procs
    ensures Follows(env, s, step, p, s.procs[p], Apply(env, s, step).procs[p])
  {
    if OnFile(step) { FileStepFollows(env, s, step, p); } else { OtherStepFollows(env, s, step, p); }
  }

  lemma FirstStep(env: Env, s: Store, step: Step, p: nat)
    requires p !in s.procs && p in Apply(env, s, step).procs
    ensures var stage := Apply(env, s, step).procs[p]; stage.Waiting? && Asks(s, step, p, stage.job)
  {
  }

  /** t is where the steps lead, and the next step leads on. */
  lemma CameFollows(env: Env, s: Store, steps: seq<Step>, step: Step, p: nat, was: Stage, now: Stage)
    requires Came(env, s, steps, p, was) && Follows(env, Run(env, s, steps), step, p, was, now)
    ensures Came(env, s, steps + [step], p, now)
  {
    var all := steps + [step];
    var t := Run(env, s, steps);
    CameOn(env, s, steps, step, p, was);
    assert all[..|steps|] == steps;
    if now == was {
    } else if was.Holding? && now.Refreshing? {
      assert ReadAt(env, s, all, p, was.job.force, now.stored, |steps|);
      assert Asked(s, all, p, Load(was.job.force));
    } else if was.Refreshing? {
      assert GrantedAt(env, s, all, p, was.stored, now.rec, |steps|);
    } else if was.Saving? && now.Renamed? {
      assert Earned(env, s, all, p, now.rec, was.from);
    }
  }

  lemma {:induction false} CallCame(env: Env, s: Store, steps: seq<Step>, p: nat)
    requires steps != [] && OneCall(env, s, steps, p)
    ensures Came(env, s, steps, p, Run(env, s, steps).procs[p])
    decreases |steps|
  {
    var k := |steps| - 1;
    var front := steps[..k];
    var t := Run(env, s, front);
    assert steps == front + [steps[k]];
    assert Run(env, s, steps) == Apply(env, t, steps[k]);
    if k == 0 {
      FirstStep(env, s, steps[0], p);
    } else {
      assert forall i {:trigger front[..i]} :: 0 <= i <= k ==> front[..i] == steps[..i];
      CallCame(env, s, front, p);
      if steps[k].p == p { OwnStep(env, t, steps[k], p); } else { OthersLeaveStage(env, t, steps[k], p); }
      CameFollows(env, s, front, steps[k], p, t.procs[p], Run(env, s, steps).procs[p]);
    }
  }

  // What each answer means.

  /** The step ends p's call with this event. */
  predicate Ends(env: Env, s: Store, step: Step, p: nat, e: Event) {
    p in s.procs && p !in Apply(env, s, step).procs && Apply(env, s, step).log == s.log + [e]
  }

  lemma EndingStep(env: Env, s: Store, step: Step, p: nat, e: Event)
    requires Ends(env, s, step, p, e) && !e.Errored? && !e.Presented?
    ensures step.p == p
    ensures match s.procs[p]
            case Holding(Load(force)) =>
              && e.Returned? && e.p == p && Apply(env, s, step).file == s.file
              && (match e.access
                  case None => s.file.None?
                  case Some(a) =>
                    exists rec :: InFile(env, s, rec) && rec.access == a && !force && step.Read?
                                  && !IsExpired(env, rec, step.now))
            case Holding(Logout) => e == Removed(p) && Apply(env, s, step).file.None?
            case Renamed(rec) => e == Returned(p, Some(rec.access)) && Apply(env, s, step).file == s.file
            case _ => false
  {
    var t := Apply(env, s, step);
    assert t.log[|s.log|] == e;
    if step.p != p { OthersLeaveStage(env, s, step, p); }
    if step.Read? && s.file.Some? && e.Returned? {
      var rec := env.parse(s.file.value).value;
      assert InFile(env, s, rec);
    }
  }

  /** The token returned is the one in the file: still good as read, or refreshed or granted in this very call. */
  ghost predicate Good(env: Env, s: Store, steps: seq<Step>, last: Step, p: nat, rec: Record) {
    || (Asked(s, steps, p, Load(false)) && last.Read? && !IsExpired(env, rec, last.now))
    || (exists stored :: Refreshed(env, s, steps, p, stored, rec))
    || Asked(s, steps, p, Login(rec))
  }

  /**
   What an answered call means, in every interleaving. A load that returns nothing found
   no file. A token that is returned is the one saved, and it was good as read, or is the issuer's
   answer to the credential this call read, or was granted to this login. A logout leaves no file.
   */
  lemma AnswerMeans(env: Env, s: Store, steps: seq<Step>, last: Step, p: nat, e: Event)
    requires EnvOk(env) && Inv(env, s) && steps != [] && OneCall(env, s, steps, p)
    requires Ends(env, Run(env, s, steps), last, p, e) && !e.Errored? && !e.Presented?
    ensures var u := Apply(env, Run(env, s, steps), last);
            match e
            case Returned(q, None) =>
              q == p && u.file.None? && (Asked(s, steps, p, Load(false)) || Asked(s, steps, p, Load(true)))
            case Returned(q, Some(a)) =>
              q == p && exists rec :: InFile(env, u, rec) && rec.access == a && Good(env, s, steps, last, p, rec)
            case Removed(q) => q == p && u.file.None? && Asked(s, steps, p, Logout)
            case _ => false
  {
    var t := Run(env, s, steps);
    var u := Apply(env, t, last);
    RunKeeps(env, s, steps);
    CallCame(env, s, steps, p);
    EndingStep(env, t, last, p, e);
    match t.procs[p]
    case Holding(Load(force)) =>
      if e.access.Some? {
        var rec :| InFile(env, t, rec) && rec.access == e.access.value && !force && !IsExpired(env, rec, last.now);
        assert Good(env, s, steps, last, p, rec) && InFile(env, u, rec);
      }
    case Renamed(rec) =>
      assert StageOk(env, t, t.procs[p]);
      var from :| Earned(env, s, steps, p, rec, from);
      if from.Some? { assert Refreshed(env, s, steps, p, from.value, rec); }
      assert Good(env, s, steps, last, p, rec);
      assert InFile(env, u, rec);
    case _ =>
  }

  // Calls get on.

  function Rank(stage: Stage): (r: nat) {
    match stage
    case Waiting(_) => 6
    case Holding(_) => 5
    case Refreshing(_) => 4
    case Saving(_, _, temp) => if temp.None? then 3 else 2
    case Renamed(_) => 1
  }

  /** The part of the new file that p has not written yet. */
  function Unwritten(env: Env, s: Store, p: nat): (n: int)
    requires p in s.procs
  {
    match s.procs[p]
    case Saving(rec, _, Some(temp)) => if temp in s.temps then |env.render(rec)| - |s.temps[temp]| else 0
    case _ => 0
  }

  /** A turn that works, at each stage. */
  predicate GoodTurn(env: Env, s: Store, step: Step, p: nat) {
    p in s.procs && step.p == p &&
    match s.procs[p]
    case Waiting(_) => step.Acquire?
    case Holding(Load(_)) => step.Read? && step.readable
    case Holding(Logout) => step.Remove? && step.ok
    case Holding(Login(_)) => step.BeginLoginSave?
    case Refreshing(stored) =>
      && step.Present? && (step.answer.Rotated? || step.answer.Kept?)
      && stored.refresh.Some? && stored.refresh.value !in s.consumed
    case Saving(_, _, None) => step.OpenTemp? && step.ok
    case Saving(_, _, Some(_)) =>
      if Unwritten(env, s, p) > 0 then step.Write? && step.ok && 0 < step.n <= Unwritten(env, s, p)
      else step.Rename? && step.ok
    case Renamed(_) => step.SyncDir? && step.ok
  }

  /** Nothing to refresh with. */
  predicate Hopeless(env: Env, s: Store, p: nat) {
    && p in s.procs && s.procs[p].Holding? && s.procs[p].job.Load?
    && s.file.Some? && env.parse(s.file.value).Some? && env.parse(s.file.value).value.refresh.None?
  }

  ghost predicate Answered(env: Env, s: Store, step: Step, p: nat) {
    exists e :: Ends(env, s, step, p, e) && (e.Returned? || e.Removed?)
  }

  predicate Nearer(env: Env, s: Store, t: Store, p: nat) {
    && p in s.procs && p in t.procs
    && (|| Rank(t.procs[p]) < Rank(s.procs[p])
        || (Rank(t.procs[p]) == Rank(s.procs[p]) && 0 <= Unwritten(env, t, p) < Unwritten(env, s, p)))
  }

  lemma SavingAdvances(env: Env, s: Store, step: Step, p: nat)
    requires Inv(env, s) && s.lock == Some(p) && GoodTurn(env, s, step, p) && s.procs[p].Saving?
    ensures Nearer(env, s, Apply(env, s, step), p)
  {
    assert StageOk(env, s, s.procs[p]);
  }

  lemma EarlyAdvances(env: Env, s: Store, step: Step, p: nat)
    requires Inv(env, s) && s.lock == Some(p) && GoodTurn(env, s, step, p) && !s.procs[p].Saving?
    ensures Answered(env, s, step, p) || Nearer(env, s, Apply(env, s, step), p) || Hopeless(env, s, p)
  {
    var t := Apply(env, s, step);
    if p !in t.procs && !Hopeless(env, s, p) {
      var e := t.log[|s.log|];
      assert Ends(env, s, step, p, e);
      assert e.Returned? || e.Removed?;
    }
  }

  /** Each turn that works brings the lock holder nearer to its answer, unless there is nothing to refresh with. */
  lemma TurnAdvances(env: Env, s: Store, step: Step, p: nat)
    requires Inv(env, s) && s.lock == Some(p) && GoodTurn(env, s, step, p)
    ensures Answered(env, s, step, p) || Nearer(env, s, Apply(env, s, step), p) || Hopeless(env, s, p)
  {
    if s.procs[p].Saving? { SavingAdvances(env, s, step, p); } else { EarlyAdvances(env, s, step, p); }
  }

  /** A free lock goes to whoever takes it. */
  lemma FreeLockTaken(env: Env, s: Store, step: Step, p: nat)
    requires s.lock == None && p in s.procs && s.procs[p].Waiting? && GoodTurn(env, s, step, p)
    ensures Apply(env, s, step).lock == Some(p) && Nearer(env, s, Apply(env, s, step), p)
  {
  }

  /** And no step of another process takes any of it back, or the lock, or the file. */
  lemma OthersLeaveHolder(env: Env, s: Store, step: Step, p: nat)
    requires Inv(env, s) && s.lock == Some(p) && step.p != p
    ensures var t := Apply(env, s, step);
            && t.lock == s.lock && t.file == s.file && SameStage(s, t, p)
            && (p in s.procs ==> Unwritten(env, t, p) == Unwritten(env, s, p))
  {
    OthersLeaveStage(env, s, step, p);
    assert step.p in s.procs ==> s.procs[step.p].Waiting?;
  }
}
