/** The token store's promises, over every run of any number of processes. */
module TokenPromises {
  import opened Bytes
  import opened Options
  import opened TokenStore
  import opened TokenRotation

  /** An exchange whose answer never gets into the file. */
  predicate Trouble(s: Store, step: Step) {
    match step
    case Present(p, answer) => answer.Lost?
    case Crash(p) => p in s.procs && Exchanged(s.procs[p]).Some?
    case OpenTemp(p, ok) => !ok && p in s.procs && Exchanged(s.procs[p]).Some?
    case Write(p, _, ok, _) => !ok && p in s.procs && Exchanged(s.procs[p]).Some?
    case Rename(p, ok, _) => !ok && p in s.procs && Exchanged(s.procs[p]).Some?
    case _ => false
  }

  predicate SmoothRun(env: Env, s: Store, steps: seq<Step>) {
    forall i :: 0 <= i < |steps| ==> !Trouble(Run(env, s, steps[..i]), steps[i])
  }

  lemma StrandedByTrouble(env: Env, s: Store, step: Step)
    requires !Trouble(s, step)
    ensures Apply(env, s, step).stranded == s.stranded
  {
  }

  lemma {:induction false} SmoothStrandsNothing(env: Env, s: Store, steps: seq<Step>)
    requires SmoothRun(env, s, steps)
    ensures Run(env, s, steps).stranded == s.stranded
    decreases |steps|
  {
    if steps != [] {
      var k := |steps| - 1;
      assert forall i :: 0 <= i < k ==> steps[..k][..i] == steps[..i];
      SmoothStrandsNothing(env, s, steps[..k]);
      StrandedByTrouble(env, Run(env, s, steps[..k]), steps[k]);
    }
  }

  /** Whatever happens, an exchanged credential comes up again only if its answer never reached the file. */
  lemma AgainMeansStranded(env: Env, steps: seq<Step>, i: nat, j: nat)
    requires EnvOk(env) && i < j < |Run(env, START, steps).log|
    requires Again(Run(env, START, steps).log[i], Run(env, START, steps).log[j])
    ensures Run(env, START, steps).log[j].cred in Run(env, START, steps).stranded
  {
    RunKeeps(env, START, steps);
  }

  /** In every state a run can reach, what is presented is stale if and only if its exchange was stranded. */
  lemma StaleIffStranded(env: Env, s: Store, p: nat, answer: Answer)
    requires EnvOk(env) && Inv(env, s) && p in s.procs && s.procs[p].Refreshing? && s.procs[p].stored.refresh.Some?
    requires !answer.Unreached?
    ensures var c, t := s.procs[p].stored.refresh.value, Apply(env, s, Present(p, answer));
            && |t.log| > |s.log| && t.log[|s.log|].Presented? && t.log[|s.log|].cred == c
            && (t.log[|s.log|].stale <==> c in s.stranded)
  {
    PresentedIsGood(env, s, p);
  }

  /** So without lost answers, crashes or failed saves in between, no exchanged credential is ever presented again. */
  lemma OneUse(env: Env, steps: seq<Step>, i: nat, j: nat)
    requires EnvOk(env) && SmoothRun(env, START, steps) && i < j < |Run(env, START, steps).log|
    ensures !Again(Run(env, START, steps).log[i], Run(env, START, steps).log[j])
  {
    SmoothStrandsNothing(env, START, steps);
    if Again(Run(env, START, steps).log[i], Run(env, START, steps).log[j]) {
      AgainMeansStranded(env, steps, i, j);
    }
  }

  /** Nor is any presented after being exchanged, however long ago that was. */
  lemma NoneStale(env: Env, steps: seq<Step>, i: nat)
    requires EnvOk(env) && SmoothRun(env, START, steps) && i < |Run(env, START, steps).log|
    requires Run(env, START, steps).log[i].Presented?
    ensures !Run(env, START, steps).log[i].stale
  {
    SmoothStrandsNothing(env, START, steps);
    RunKeeps(env, START, steps);
  }

  // Failures, logout, readers.

  /** The file changes only by a finished save and by a logout, each under the lock. */
  lemma FileChangesUnderLock(env: Env, s: Store, step: Step)
    requires Inv(env, s) && Apply(env, s, step).file != s.file
    ensures (step.Rename? && step.ok) || (step.Remove? && step.ok)
    ensures s.lock == Some(step.p)
  {
  }

  /** p puts a new file in place, or takes it away. */
  predicate Writes(env: Env, s: Store, step: Step, p: nat) {
    && step.p == p && p in s.procs
    && (match step
        case Rename(_, ok, _) => ok && s.procs[p].Saving? && DoRename(env, s, p, true, true).procs[p].Renamed?
        case Remove(_, ok) => ok && s.procs[p].Holding? && s.procs[p].job.Logout?
        case _ => false)
  }

  /** Nothing else changes the file. */
  lemma OnlyWritesChange(env: Env, s: Store, step: Step)
    requires Apply(env, s, step).file != s.file
    ensures Writes(env, s, step, step.p)
  {
  }

  /** p is in one call from the first step on. */
  predicate OneCall(env: Env, s: Store, steps: seq<Step>, p: nat) {
    && p !in s.procs && (steps != [] ==> p in Run(env, s, steps).procs)
    && forall i {:trigger steps[..i]} :: 0 < i < |steps| ==> p in Run(env, s, steps[..i]).procs
  }

  predicate WroteAt(env: Env, s: Store, steps: seq<Step>, p: nat, i: nat)
    requires i < |steps|
  {
    Writes(env, Run(env, s, steps[..i]), steps[i], p)
  }

  predicate SameStage(s: Store, t: Store, p: nat) {
    (p in t.procs <==> p in s.procs) && (p in s.procs ==> t.procs[p] == s.procs[p])
  }

  predicate OnFile(step: Step) {
    step.OpenTemp? || step.Write? || step.Rename? || step.SyncDir? || step.Remove?
  }

  lemma FileStepLeavesStage(env: Env, s: Store, step: Step, p: nat)
    requires step.p != p && OnFile(step)
    ensures SameStage(s, Apply(env, s, step), p)
  {
  }

  lemma OtherStepLeavesStage(env: Env, s: Store, step: Step, p: nat)
    requires step.p != p && !OnFile(step)
    ensures SameStage(s, Apply(env, s, step), p)
  {
  }

  lemma OthersLeaveStage(env: Env, s: Store, step: Step, p: nat)
    requires step.p != p
    ensures SameStage(s, Apply(env, s, step), p)
  {
    if OnFile(step) { FileStepLeavesStage(env, s, step, p); } else { OtherStepLeavesStage(env, s, step, p); }
  }

  /** A live process that writes is at `Renamed` from then on, and no other is. */
  lemma WritingStage(env: Env, s: Store, step: Step, p: nat)
    requires step.p == p && p in s.procs && p in Apply(env, s, step).procs
    ensures Apply(env, s, step).procs[p].Renamed? <==> s.procs[p].Renamed? || Writes(env, s, step, p)
  {
  }

  lemma StartingStage(env: Env, s: Store, step: Step, p: nat)
    requires p !in s.procs && p in Apply(env, s, step).procs
    ensures !Apply(env, s, step).procs[p].Renamed?
  {
  }

  lemma {:induction false} WroteIffRenamed(env: Env, s: Store, steps: seq<Step>, p: nat)
    requires steps != [] && OneCall(env, s, steps, p)
    ensures (exists i :: 0 <= i < |steps| && WroteAt(env, s, steps, p, i)) <==> Run(env, s, steps).procs[p].Renamed?
    decreases |steps|
  {
    var k := |steps| - 1;
    var front := steps[..k];
    var t := Run(env, s, front);
    assert steps[..|steps|] == steps;
    assert Run(env, s, steps) == Apply(env, t, steps[k]);
    assert forall i {:trigger front[..i]} :: 0 <= i <= k ==> front[..i] == steps[..i];
    assert WroteAt(env, s, steps, p, k) <==> Writes(env, t, steps[k], p);
    if k == 0 {
      assert front == [];
      StartingStage(env, s, steps[0], p);
    } else {
      assert front[..k] == front;
      WroteIffRenamed(env, s, front, p);
      assert forall i :: 0 <= i < k ==> (WroteAt(env, s, front, p, i) <==> WroteAt(env, s, steps, p, i));
      if steps[k].p == p { WritingStage(env, t, steps[k], p); } else { OthersLeaveStage(env, t, steps[k], p); }
    }
  }

  /**
   A call that ends in an error has changed the file, in whatever interleaving, if
   and only if it got as far as its rename: a failed sync of the directory, or a crash after it.
   */
  lemma FailedCallWroteIff(env: Env, s: Store, steps: seq<Step>, last: Step, p: nat)
    requires steps != [] && OneCall(env, s, steps, p)
    requires var t := Run(env, s, steps); Apply(env, t, last).log == t.log + [Errored(p)]
    ensures (exists i :: 0 <= i < |steps| && WroteAt(env, s, steps, p, i)) <==> Run(env, s, steps).procs[p].Renamed?
    ensures Apply(env, Run(env, s, steps), last).file == Run(env, s, steps).file
    ensures Run(env, s, steps).procs[p].Renamed? ==> last.SyncDir? || last.Crash?
  {
    var t := Run(env, s, steps);
    WroteIffRenamed(env, s, steps, p);
    assert steps[..|steps|] == steps && p in t.procs;
    var u := Apply(env, t, last);
    assert u.log[|t.log|] == Errored(p);
    FailingStep(env, t, last, p);
  }

  lemma FailingStep(env: Env, t: Store, last: Step, p: nat)
    requires |Apply(env, t, last).log| == |t.log| + 1 && Apply(env, t, last).log[|t.log|] == Errored(p) && p in t.procs
    ensures last.p == p && Apply(env, t, last).file == t.file
    ensures t.procs[p].Renamed? ==> last.SyncDir? || last.Crash?
  {
  }

  /** A login saved in full whose directory sync fails: an error, with the new file in place. */
  lemma FailedSyncReplaces(env: Env, access: seq<Byte>, expiresAt: Option<nat>, issuer: seq<Byte>)
    ensures var rec := Record(access, Some(0), expiresAt, issuer);
            var s := Run(env, START, [GrantLogin(0, access, expiresAt, issuer), Acquire(0), BeginLoginSave(0)]);
            var t := Run(env, s, [OpenTemp(0, true), Write(0, |env.render(rec)|, true, true), Rename(0, true, true)]);
            var u := Apply(env, t, SyncDir(0, false));
            s.file == None && u.log == [Errored(0)] && u.file == Some(env.render(rec))
  {
    var rec := Record(access, Some(0), expiresAt, issuer);
    SavingLogin(env, access, expiresAt, issuer);
    var s := START.(nextCred := 1, lock := Some(0), procs := map[0 := Saving(rec, None, None)]);
    RunThree(env, s, OpenTemp(0, true), Write(0, |env.render(rec)|, true, true), Rename(0, true, true));
    SavedInFull(env, s, rec);
  }

  lemma SavingLogin(env: Env, access: seq<Byte>, expiresAt: Option<nat>, issuer: seq<Byte>)
    ensures var rec := Record(access, Some(0), expiresAt, issuer);
            Run(env, START, [GrantLogin(0, access, expiresAt, issuer), Acquire(0), BeginLoginSave(0)])
            == START.(nextCred := 1, lock := Some(0), procs := map[0 := Saving(rec, None, None)])
  {
    RunThree(env, START, GrantLogin(0, access, expiresAt, issuer), Acquire(0), BeginLoginSave(0));
    var rec := Record(access, Some(0), expiresAt, issuer);
    var a := DoGrantLogin(START, 0, access, expiresAt, issuer);
    assert a == START.(nextCred := 1, procs := map[0 := Waiting(Login(rec))]);
    var b := DoAcquire(a, 0);
    assert b == START.(nextCred := 1, lock := Some(0), procs := map[0 := Holding(Login(rec))]);
  }

  lemma SavedInFull(env: Env, s: Store, rec: Record)
    requires s == START.(nextCred := 1, lock := Some(0), procs := map[0 := Saving(rec, None, None)])
    ensures var w := DoWrite(env, DoOpenTemp(s, 0, true), 0, |env.render(rec)|, true, true);
            var t := DoRename(env, w, 0, true, true);
            t.file == Some(env.render(rec)) && t.procs == map[0 := Renamed(rec)] && t.log == []
  {
    var text := env.render(rec);
    var a := DoOpenTemp(s, 0, true);
    assert a.procs == map[0 := Saving(rec, None, Some(0))] && a.temps == map[0 := []];
    var b := DoWrite(env, a, 0, |text|, true, true);
    assert [] + text[0..|text|] == text;
    assert b.procs == a.procs && b.temps == map[0 := text];
  }

  /** A login's own save, as opposed to a refresh. */
  predicate SavesLogin(s: Store, step: Step) {
    step.Rename? && step.ok && step.p in s.procs && s.procs[step.p].Saving? && s.procs[step.p].from.None?
  }

  lemma LoggedOutStep(env: Env, s: Store, step: Step)
    requires Inv(env, s) && s.file.None? && !SavesLogin(s, step)
    ensures Apply(env, s, step).file.None?
  {
    if step.Rename? && step.p in s.procs && s.procs[step.p].Saving? {
      assert StageOk(env, s, s.procs[step.p]);
    }
  }

  /** A refresh in flight never undoes a logout: once the file is gone, only a login brings one back. */
  lemma {:induction false} LogoutStands(env: Env, s: Store, steps: seq<Step>)
    requires EnvOk(env) && Inv(env, s) && s.file.None?
    requires forall i :: 0 <= i < |steps| ==> !SavesLogin(Run(env, s, steps[..i]), steps[i])
    ensures Run(env, s, steps).file.None?
    decreases |steps|
  {
    if steps != [] {
      var k := |steps| - 1;
      assert forall i :: 0 <= i < k ==> steps[..k][..i] == steps[..i];
      LogoutStands(env, s, steps[..k]);
      RunKeeps(env, s, steps[..k]);
      LoggedOutStep(env, Run(env, s, steps[..k]), steps[k]);
    }
  }

  /** A reader without the lock sees one whole record or no file. */
  lemma ReadersSeeWhole(env: Env, steps: seq<Step>)
    requires EnvOk(env)
    ensures var file := Run(env, START, steps).file; file.Some? ==> exists r :: file.value == env.render(r)
  {
    RunKeeps(env, START, steps);
  }

  // The waiter.

  lemma RunThree(env: Env, s: Store, a: Step, b: Step, c: Step)
    ensures Run(env, s, [a, b, c]) == Apply(env, Apply(env, Apply(env, s, a), b), c)
  {
    assert [a, b, c][..2] == [a, b] && [a, b][..1] == [a] && [a][..0] == [];
    assert Run(env, s, [a]) == Apply(env, Run(env, s, []), a);
  }

  /** Everything that is or will be done reuses this record: it is in the file, and nobody is past reading it. */
  predicate Settled(env: Env, s: Store, rec: Record) {
    && s.file == Some(env.render(rec))
    && forall p :: p in s.procs ==>
         match s.procs[p]
         case Waiting(job) => job != Load(true)
         case Holding(job) => job != Load(true)
         case Refreshing(_) => false
         case Saving(_, from, _) => from.None?
         case Renamed(r) => r == rec
  }

  /** No forced load, no login saved, no logout, and no read that finds the record expired. */
  predicate Calm(env: Env, s: Store, step: Step, rec: Record) {
    && (step.StartLoad? ==> !step.force)
    && !SavesLogin(s, step)
    && !(step.Remove? && step.ok)
    && (step.Read? ==> !IsExpired(env, rec, step.now))
  }

  predicate Reuses(before: seq<Event>, after: seq<Event>, rec: Record) {
    && |before| <= |after| && after[..|before|] == before
    && forall i :: |before| <= i < |after| ==>
         !after[i].Presented? && (after[i].Returned? ==> after[i].access == Some(rec.access))
  }

  predicate StaysSettled(env: Env, s: Store, t: Store, rec: Record) {
    Settled(env, t, rec) && Reuses(s.log, t.log, rec) && t.consumed == s.consumed
  }

  lemma SettledRead(env: Env, s: Store, step: Step, rec: Record)
    requires EnvOk(env) && Settled(env, s, rec) && Calm(env, s, step, rec)
    requires step.Read? || step.Present? || step.BeginLoginSave?
    ensures StaysSettled(env, s, Apply(env, s, step), rec)
  {
    assert env.parse(env.render(rec)) == Some(rec);
  }

  lemma SettledFile(env: Env, s: Store, step: Step, rec: Record)
    requires Settled(env, s, rec) && Calm(env, s, step, rec) && OnFile(step)
    ensures StaysSettled(env, s, Apply(env, s, step), rec)
  {
  }

  lemma SettledOther(env: Env, s: Store, step: Step, rec: Record)
    requires Settled(env, s, rec) && Calm(env, s, step, rec)
    requires !OnFile(step) && !(step.Read? || step.Present? || step.BeginLoginSave?)
    ensures StaysSettled(env, s, Apply(env, s, step), rec)
  {
  }

  lemma SettledStep(env: Env, s: Store, step: Step, rec: Record)
    requires EnvOk(env) && Settled(env, s, rec) && Calm(env, s, step, rec)
    ensures StaysSettled(env, s, Apply(env, s, step), rec)
  {
    if OnFile(step) {
      SettledFile(env, s, step, rec);
    } else if step.Read? || step.Present? || step.BeginLoginSave? {
      SettledRead(env, s, step, rec);
    } else {
      SettledOther(env, s, step, rec);
    }
  }

  lemma ReusesOn(a: seq<Event>, b: seq<Event>, c: seq<Event>, rec: Record)
    requires Reuses(a, b, rec) && Reuses(b, c, rec)
    ensures Reuses(a, c, rec)
  {
    assert c[..|a|] == b[..|a|] by { assert c[..|b|][..|a|] == c[..|a|]; }
    forall i | |a| <= i < |c| ensures !c[i].Presented? && (c[i].Returned? ==> c[i].access == Some(rec.access)) {
      if i < |b| { assert c[..|b|][i] == b[i]; }
    }
  }

  predicate CalmRun(env: Env, s: Store, steps: seq<Step>, rec: Record) {
    forall i :: 0 <= i < |steps| ==> Calm(env, Run(env, s, steps[..i]), steps[i], rec)
  }

  /** The end of the run from its last step. */
  lemma CalmFront(env: Env, s: Store, steps: seq<Step>, rec: Record)
    requires steps != [] && CalmRun(env, s, steps, rec)
    ensures var k := |steps| - 1;
            CalmRun(env, s, steps[..k], rec) && Calm(env, Run(env, s, steps[..k]), steps[k], rec)
  {
    var k := |steps| - 1;
    var front := steps[..k];
    forall i | 0 <= i < k ensures Calm(env, Run(env, s, front[..i]), front[i], rec) {
      assert front[..i] == steps[..i] && front[i] == steps[i];
    }
  }

  lemma {:induction false} SettledRun(env: Env, s: Store, steps: seq<Step>, rec: Record)
    requires EnvOk(env) && Settled(env, s, rec) && CalmRun(env, s, steps, rec)
    ensures Settled(env, Run(env, s, steps), rec) && Reuses(s.log, Run(env, s, steps).log, rec)
    ensures Run(env, s, steps).consumed == s.consumed
    decreases |steps|
  {
    if steps != [] {
      var k := |steps| - 1;
      var t := Run(env, s, steps[..k]);
      CalmFront(env, s, steps, rec);
      SettledRun(env, s, steps[..k], rec);
      SettledStep(env, t, steps[k], rec);
      ReusesOn(s.log, t.log, Apply(env, t, steps[k]).log, rec);
    }
  }

  /**
   However many processes wait out a refresh or come after it, in whatever order:
   until the record expires, is forced, or is replaced by a login or a logout,
   nothing is presented to the issuer and every load returns the refreshed token.
   */
  lemma WaitersReuseToken(env: Env, s: Store, winner: nat, steps: seq<Step>)
    requires EnvOk(env) && Inv(env, s) && winner in s.procs && s.procs[winner].Renamed?
    requires forall p :: p in s.procs ==> s.procs[p] != Waiting(Load(true))
    requires CalmRun(env, s, steps, s.procs[winner].rec)
    ensures Reuses(s.log, Run(env, s, steps).log, s.procs[winner].rec)
    ensures Run(env, s, steps).file == s.file && Run(env, s, steps).consumed == s.consumed
  {
    var rec := s.procs[winner].rec;
    assert StageOk(env, s, s.procs[winner]);
    assert forall p :: p in s.procs && p != winner ==> s.procs[p].Waiting?;
    SettledRun(env, s, steps, rec);
  }

  // Where the promise stops.

  lemma Presenting(env: Env, s: Store, p: nat, now: nat, stored: Record, c: nat)
    requires p !in s.procs && s.lock == None && s.file.Some? && env.parse(s.file.value) == Some(stored)
    requires stored.refresh == Some(c)
    ensures var t := Run(env, s, [StartLoad(p, true), Acquire(p), Read(p, now, true)]);
            t == s.(lock := Some(p), procs := s.procs[p := Refreshing(stored)])
  {
    RunThree(env, s, StartLoad(p, true), Acquire(p), Read(p, now, true));
    var a := DoStart(s, p, Load(true));
    var b := DoAcquire(a, p);
    assert b == s.(lock := Some(p), procs := s.procs[p := Holding(Load(true))]);
    assert s.procs[p := Holding(Load(true))][p := Refreshing(stored)] == s.procs[p := Refreshing(stored)];
  }

  /** After one lost answer the next refresh presents the same credential again, and is refused. */
  lemma LostAnswerRepeats(env: Env, s: Store, p: nat, now: nat, stored: Record, c: nat)
    requires p !in s.procs && s.lock == None && s.file.Some? && env.parse(s.file.value) == Some(stored)
    requires stored.refresh == Some(c) && c !in s.consumed
    ensures var a := Run(env, s, [StartLoad(p, true), Acquire(p), Read(p, now, true)]);
            var b := Apply(env, a, Present(p, Lost));
            var d := Run(env, b, [StartLoad(p, true), Acquire(p), Read(p, now, true)]);
            var e := Apply(env, d, Present(p, Refused));
            e.log == s.log + [Presented(c, false, true), Errored(p), Presented(c, true, false), Errored(p)]
                && e.file == s.file
  {
    Presenting(env, s, p, now, stored, c);
    var a := s.(lock := Some(p), procs := s.procs[p := Refreshing(stored)]);
    var b := DoPresent(a, p, Lost);
    assert b.procs == s.procs;
    assert b.log == s.log + [Presented(c, false, true)] + [Errored(p)];
    Presenting(env, b, p, now, stored, c);
    var d := b.(lock := Some(p), procs := b.procs[p := Refreshing(stored)]);
    assert DoPresent(d, p, Refused).log == b.log + [Presented(c, true, false)] + [Errored(p)];
  }

  /** The rotated credential never reaches the file: p crashes, or cannot even open its temporary file. */
  predicate LosesSave(step: Step, p: nat) {
    step == Crash(p) || step == OpenTemp(p, false)
  }

  /** Then any other process presents the exchanged credential again. */
  lemma LostSaveRepeats(env: Env, s: Store, p: nat, q: nat, lose: Step, now: nat, stored: Record, c: nat,
                        access: seq<Byte>)
    requires p !in s.procs && q !in s.procs && s.lock == None && s.file.Some? && env.parse(s.file.value) == Some(stored)
    requires stored.refresh == Some(c) && c !in s.consumed && c < s.nextCred && LosesSave(lose, p)
    ensures var a := Run(env, s, [StartLoad(p, true), Acquire(p), Read(p, now, true)]);
            var b := Apply(env, Apply(env, a, Present(p, Rotated(access, None))), lose);
            var d := Run(env, b, [StartLoad(q, true), Acquire(q), Read(q, now, true)]);
            var e := Apply(env, d, Present(q, Refused));
            && e.log == s.log + [Presented(c, false, true), Errored(p), Presented(c, true, false), Errored(q)]
            && c in b.stranded && e.file == s.file
  {
    Presenting(env, s, p, now, stored, c);
    var a := s.(lock := Some(p), procs := s.procs[p := Refreshing(stored)]);
    var b := Apply(env, DoPresent(a, p, Rotated(access, None)), lose);
    SaveLost(env, s, a, p, lose, stored, c, access);
    Presenting(env, b, q, now, stored, c);
    var d := b.(lock := Some(q), procs := b.procs[q := Refreshing(stored)]);
    assert DoPresent(d, q, Refused).log == b.log + [Presented(c, true, false)] + [Errored(q)];
  }

  lemma SaveLost(env: Env, s: Store, a: Store, p: nat, lose: Step, stored: Record, c: nat, access: seq<Byte>)
    requires p !in s.procs && s.lock == None && stored.refresh == Some(c) && c !in s.consumed && c < s.nextCred
    requires LosesSave(lose, p)
    requires a == s.(lock := Some(p), procs := s.procs[p := Refreshing(stored)])
    ensures var b := Apply(env, DoPresent(a, p, Rotated(access, None)), lose);
            && b.procs == s.procs && b.lock == None && b.file == s.file && c in b.consumed && c in b.stranded
            && b.log == s.log + [Presented(c, false, true)] + [Errored(p)]
  {
    var m := DoPresent(a, p, Rotated(access, None));
    assert m.procs[p] == Saving(Record(access, Some(s.nextCred), None, stored.issuer), Some(stored), None);
    assert Exchanged(m.procs[p]) == Some(c);
    assert m.procs - {p} == s.procs;
  }
}
