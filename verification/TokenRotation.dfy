/** What every interleaving of token-store processes keeps. */
module TokenRotation {
  import opened Bytes
  import opened Options
  import opened TokenStore

  // The invariant, piece by piece.

  /** Exactly the process past the lock holds it. */
  predicate LockOk(s: Store) {
    && (forall p :: p in s.procs ==> (!s.procs[p].Waiting? <==> s.lock == Some(p)))
    && (s.lock.Some? ==> s.lock.value in s.procs)
  }

  /** The file, if there is one, is one whole record. */
  predicate Whole(env: Env, file: Option<seq<Byte>>) {
    file.Some? ==> env.parse(file.value).Some? && file.value == env.render(env.parse(file.value).value)
  }

  function FileCred(env: Env, file: Option<seq<Byte>>): (c: Option<nat>) {
    if file.Some? && env.parse(file.value).Some? then env.parse(file.value).value.refresh else None
  }

  /** A refresh works on the record that is in the file, and a temporary file is the beginning of the new one. */
  predicate StageOk(env: Env, s: Store, stage: Stage) {
    match stage
    case Waiting(_) => true
    case Holding(_) => true
    case Renamed(rec) => s.file == Some(env.render(rec))
    case Refreshing(stored) => s.file == Some(env.render(stored))
    case Saving(rec, from, temp) =>
      && (from.Some? ==> s.file == Some(env.render(from.value)) && from.value.refresh.Some?)
      && (temp.Some? ==> temp.value in s.temps && s.temps[temp.value] <= env.render(rec))
      && (Exchanged(stage).Some? ==> Exchanged(stage).value in s.consumed)
  }

  predicate StagesOk(env: Env, s: Store) {
    forall p :: p in s.procs ==> StageOk(env, s, s.procs[p])
  }

  /** A credential that is in a process and not yet in the file. */
  function Pending(stage: Stage): (c: Option<nat>) {
    match stage
    case Waiting(Login(rec)) => rec.refresh
    case Holding(Login(rec)) => rec.refresh
    case Saving(rec, from, _) => if from.Some? && from.value.refresh == rec.refresh then None else rec.refresh
    case _ => None
  }

  predicate PendingOk(env: Env, s: Store) {
    && (forall p :: p in s.procs && Pending(s.procs[p]).Some? ==>
          var c := Pending(s.procs[p]).value;
          c < s.nextCred && c !in s.consumed && FileCred(env, s.file) != Some(c))
    && (forall p, q :: p in s.procs && q in s.procs && p != q && Pending(s.procs[p]).Some? ==>
          Pending(s.procs[p]) != Pending(s.procs[q]))
  }

  /** The saved credential is good, or its exchange is known to have been lost or to be under way. */
  predicate CredOk(env: Env, s: Store) {
    var c := FileCred(env, s.file);
    c.Some? ==>
      && c.value < s.nextCred
      && (c.value in s.consumed ==>
            c.value in s.stranded
            || (s.lock.Some? && s.lock.value in s.procs && Exchanged(s.procs[s.lock.value]) == c))
  }

  predicate SetsOk(s: Store) {
    s.stranded <= s.consumed && forall c :: c in s.consumed ==> c < s.nextCred
  }

  /** The second event presents a credential that the first had exchanged. */
  predicate Again(a: Event, b: Event) {
    a.Presented? && b.Presented? && a.consumed && a.cred == b.cred
  }

  predicate LogOk(s: Store) {
    && (forall i :: 0 <= i < |s.log| && s.log[i].Presented? ==>
          (s.log[i].stale ==> s.log[i].cred in s.stranded) && (s.log[i].consumed ==> s.log[i].cred in s.consumed))
    && (forall i, j :: 0 <= i < j < |s.log| && Again(s.log[i], s.log[j]) ==> s.log[j].stale)
  }

  predicate Inv(env: Env, s: Store) {
    LockOk(s) && Whole(env, s.file) && StagesOk(env, s) && PendingOk(env, s) && CredOk(env, s) && SetsOk(s) && LogOk(s)
  }

  // Ending a process.

  lemma EndKeeps(env: Env, s: Store, p: nat, e: Event)
    requires Inv(env, s) && p in s.procs && Exchanged(s.procs[p]).None? && !e.Presented?
    ensures Inv(env, End(s, p, e))
  {
  }

  lemma StrandKeeps(env: Env, s: Store, p: nat)
    requires Inv(env, s) && p in s.procs
    ensures var t := Strand(s, Exchanged(s.procs[p])); Inv(env, t)
    ensures Exchanged(s.procs[p]).Some? ==> Exchanged(s.procs[p]).value in Strand(s, Exchanged(s.procs[p])).stranded
  {
    assert StageOk(env, s, s.procs[p]);
  }

  /** The process may end once what it knew is on record. */
  lemma EndStrandedKeeps(env: Env, s: Store, p: nat, e: Event)
    requires Inv(env, s) && p in s.procs && !e.Presented?
    requires Exchanged(s.procs[p]).Some? ==> Exchanged(s.procs[p]).value in s.stranded
    ensures Inv(env, End(s, p, e))
  {
  }

  lemma UnlinkKeeps(env: Env, s: Store, p: nat, temp: nat, e: Event)
    requires Inv(env, s) && p in s.procs && s.lock == Some(p) && !e.Presented?
    requires Exchanged(s.procs[p]).Some? ==> Exchanged(s.procs[p]).value in s.stranded
    ensures Inv(env, End(s.(temps := s.temps - {temp}), p, e))
  {
    EndStrandedKeeps(env, s, p, e);
    var t := End(s, p, e);
    forall q | q in t.procs ensures StageOk(env, t.(temps := s.temps - {temp}), t.procs[q]) {
      assert q in s.procs && s.procs[q].Waiting?;
    }
  }

  lemma GiveUpKeeps(env: Env, s: Store, p: nat, unlinked: bool)
    requires Inv(env, s) && p in s.procs && s.procs[p].Saving?
    ensures Inv(env, GiveUp(s, p, unlinked))
  {
    var t := Strand(s, Exchanged(s.procs[p]));
    StrandKeeps(env, s, p);
    var temp := s.procs[p].temp;
    if temp.Some? && unlinked {
      UnlinkKeeps(env, t, p, temp.value, Errored(p));
    } else {
      EndStrandedKeeps(env, t, p, Errored(p));
    }
  }

  // Step by step.

  lemma StartKeeps(env: Env, s: Store, p: nat, job: Job)
    requires Inv(env, s) && !job.Login?
    ensures Inv(env, DoStart(s, p, job))
  {
  }

  lemma GrantLoginKeeps(env: Env, s: Store, p: nat, access: seq<Byte>, expiresAt: Option<nat>, issuer: seq<Byte>)
    requires Inv(env, s)
    ensures Inv(env, DoGrantLogin(s, p, access, expiresAt, issuer))
  {
  }

  lemma AcquireKeeps(env: Env, s: Store, p: nat)
    requires Inv(env, s)
    ensures Inv(env, DoAcquire(s, p))
  {
  }

  lemma LockFailsKeeps(env: Env, s: Store, p: nat)
    requires Inv(env, s)
    ensures Inv(env, DoLockFails(s, p))
  {
    if p in s.procs && s.procs[p].Waiting? { EndKeeps(env, s, p, Errored(p)); }
  }

  lemma ReadKeeps(env: Env, s: Store, p: nat, now: nat, readable: bool)
    requires Inv(env, s)
    ensures Inv(env, DoRead(env, s, p, now, readable))
  {
    if p in s.procs && s.procs[p].Holding? && s.procs[p].job.Load? {
      EndKeeps(env, s, p, Errored(p));
      EndKeeps(env, s, p, Returned(p, None));
      if s.file.Some? && env.parse(s.file.value).Some? {
        var stored := env.parse(s.file.value).value;
        EndKeeps(env, s, p, Returned(p, Some(stored.access)));
        RefreshingKeeps(env, s, p, stored);
      }
    }
  }

  lemma RefreshingKeeps(env: Env, s: Store, p: nat, stored: Record)
    requires Inv(env, s) && s.lock == Some(p) && p in s.procs && s.procs[p].Holding? && s.procs[p].job.Load?
    requires s.file == Some(env.render(stored))
    ensures Inv(env, At(s, p, Refreshing(stored)))
  {
  }

  /** A credential that is presented while already exchanged is one whose exchange was lost. */
  lemma PresentedIsGood(env: Env, s: Store, p: nat)
    requires EnvOk(env) && Inv(env, s) && p in s.procs && s.procs[p].Refreshing? && s.procs[p].stored.refresh.Some?
    ensures var c := s.procs[p].stored.refresh.value;
            FileCred(env, s.file) == Some(c) && c < s.nextCred && (c in s.consumed ==> c in s.stranded)
  {
    assert StageOk(env, s, s.procs[p]);
    assert env.parse(env.render(s.procs[p].stored)) == Some(s.procs[p].stored);
    assert s.lock == Some(p);
  }

  predicate LoggedOk(s: Store, c: nat, stale: bool, consumed: bool) {
    && (stale <==> c in s.consumed)
    && (stale ==> c in s.stranded) && (consumed ==> !stale)
  }

  /** Writing the presentation down, and its effect at the issuer. */
  function Note(s: Store, c: nat, stale: bool, consumed: bool): (s': Store) {
    s.(log := s.log + [Presented(c, stale, consumed)], consumed := if consumed then s.consumed + {c} else s.consumed)
  }

  lemma NoteLog(s: Store, c: nat, stale: bool, consumed: bool)
    requires LogOk(s) && SetsOk(s) && LoggedOk(s, c, stale, consumed)
    ensures LogOk(Note(s, c, stale, consumed))
  {
  }

  /** Without an exchange the process may end at once. */
  lemma NoteKeeps(env: Env, s: Store, p: nat, c: nat, stale: bool)
    requires Inv(env, s) && p in s.procs && s.procs[p].Refreshing? && LoggedOk(s, c, stale, false)
    ensures Inv(env, Note(s, c, stale, false))
  {
    NoteLog(s, c, stale, false);
    var t := Note(s, c, stale, false);
    forall q | q in t.procs ensures StageOk(env, t, t.procs[q]) {
      assert StageOk(env, s, s.procs[q]);
    }
  }

  lemma LostKeeps(env: Env, s: Store, p: nat, c: nat)
    requires Inv(env, s) && p in s.procs && s.procs[p].Refreshing? && s.lock == Some(p)
    requires FileCred(env, s.file) == Some(c) && c < s.nextCred && c !in s.consumed
    ensures Inv(env, End(Note(s, c, false, true).(stranded := s.stranded + {c}), p, Errored(p)))
  {
    NoteLog(s, c, false, true);
    var t := Note(s, c, false, true).(stranded := s.stranded + {c});
    forall q | q in t.procs ensures StageOk(env, t, t.procs[q]) {
      assert StageOk(env, s, s.procs[q]);
    }
    EndKeeps(env, t, p, Errored(p));
  }

  lemma KeptKeeps(env: Env, s: Store, p: nat, stored: Record, rec: Record)
    requires EnvOk(env) && Inv(env, s) && p in s.procs && s.procs[p] == Refreshing(stored) && s.lock == Some(p)
    requires stored.refresh.Some? && rec.refresh == stored.refresh
    ensures Inv(env, At(s, p, Saving(rec, Some(stored), None)))
  {
    assert StageOk(env, s, s.procs[p]);
    assert env.parse(env.render(stored)) == Some(stored);
  }

  /** The exchange is under way: the file still has the old credential, the process alone the new one. */
  lemma RotatedKeeps(env: Env, s: Store, p: nat, stored: Record, rec: Record)
    requires EnvOk(env) && Inv(env, s) && p in s.procs && s.procs[p] == Refreshing(stored) && s.lock == Some(p)
    requires stored.refresh.Some? && stored.refresh.value !in s.consumed && rec.refresh == Some(s.nextCred)
    ensures Inv(env, At(Note(s, stored.refresh.value, false, true).(nextCred := s.nextCred + 1), p,
                        Saving(rec, Some(stored), None)))
  {
    var c := stored.refresh.value;
    PresentedIsGood(env, s, p);
    NoteLog(s, c, false, true);
    assert StageOk(env, s, s.procs[p]);
    var t := At(Note(s, c, false, true).(nextCred := s.nextCred + 1), p, Saving(rec, Some(stored), None));
    forall q | q in t.procs ensures StageOk(env, t, t.procs[q]) {
      if q != p { assert StageOk(env, s, s.procs[q]); }
    }
    RotatedPending(env, s, t, p, c);
  }

  lemma RotatedPending(env: Env, s: Store, t: Store, p: nat, c: nat)
    requires PendingOk(env, s) && SetsOk(s) && CredOk(env, s) && FileCred(env, s.file) == Some(c) && c < s.nextCred
    requires t.file == s.file && t.consumed == s.consumed + {c} && t.nextCred == s.nextCred + 1
    requires p in s.procs && Pending(s.procs[p]).None? && t.procs.Keys == s.procs.Keys
    requires forall q :: q in s.procs && q != p ==> t.procs[q] == s.procs[q]
    requires Pending(t.procs[p]) == Some(s.nextCred)
    ensures PendingOk(env, t)
  {
  }

  lemma PresentKeeps(env: Env, s: Store, p: nat, answer: Answer)
    requires EnvOk(env) && Inv(env, s)
    ensures Inv(env, DoPresent(s, p, answer))
  {
    if p in s.procs && s.procs[p].Refreshing? && s.procs[p].stored.refresh.Some? {
      var stored := s.procs[p].stored;
      var c := stored.refresh.value;
      PresentedIsGood(env, s, p);
      if answer.Unreached? {
        EndKeeps(env, s, p, Errored(p));
      } else if c in s.consumed {
        NoteKeeps(env, s, p, c, true);
        EndKeeps(env, Note(s, c, true, false), p, Errored(p));
      } else {
        match answer {
          case Lost => LostKeeps(env, s, p, c);
          case Rotated(access, expiresAt) =>
            RotatedKeeps(env, s, p, stored, Record(access, Some(s.nextCred), expiresAt, stored.issuer));
          case Kept(access, expiresAt) => {
            NoteKeeps(env, s, p, c, false);
            KeptKeeps(env, Note(s, c, false, false), p, stored,
                Record(access, stored.refresh, expiresAt, stored.issuer));
          }
          case Refused => {
            NoteKeeps(env, s, p, c, false);
            EndKeeps(env, Note(s, c, false, false), p, Errored(p));
          }
        }
      }
    }
  }

  lemma BeginLoginSaveKeeps(env: Env, s: Store, p: nat)
    requires Inv(env, s)
    ensures Inv(env, DoBeginLoginSave(s, p))
  {
  }

  lemma OpenTempKeeps(env: Env, s: Store, p: nat, ok: bool)
    requires Inv(env, s)
    ensures Inv(env, DoOpenTemp(s, p, ok))
  {
    if p in s.procs && s.procs[p].Saving? && s.procs[p].temp.None? {
      if !ok { GiveUpKeeps(env, s, p, false); } else { TempOpened(env, s, p); }
    }
  }

  lemma TempOpened(env: Env, s: Store, p: nat)
    requires Inv(env, s) && p in s.procs && s.procs[p].Saving? && s.procs[p].temp.None?
    ensures Inv(env, At(s, p, s.procs[p].(temp := Some(s.nextTemp))).(
                       temps := s.temps[s.nextTemp := []], nextTemp := s.nextTemp + 1))
  {
    var stage := s.procs[p].(temp := Some(s.nextTemp));
    assert StageOk(env, s, s.procs[p]);
    assert Exchanged(stage) == Exchanged(s.procs[p]) && Pending(stage) == Pending(s.procs[p]);
    var t := At(s, p, stage).(temps := s.temps[s.nextTemp := []], nextTemp := s.nextTemp + 1);
    forall q | q in t.procs ensures StageOk(env, t, t.procs[q]) {
      if q != p { assert s.procs[q].Waiting?; }
    }
    assert forall q :: q in s.procs ==> Pending(t.procs[q]) == Pending(s.procs[q]);
  }

  lemma WriteKeeps(env: Env, s: Store, p: nat, n: nat, ok: bool, unlinked: bool)
    requires Inv(env, s)
    ensures Inv(env, DoWrite(env, s, p, n, ok, unlinked))
  {
    if p in s.procs && s.procs[p].Saving? && s.procs[p].temp.Some? && s.procs[p].temp.value in s.temps {
      if !ok {
        GiveUpKeeps(env, s, p, unlinked);
      } else {
        var temp, text := s.procs[p].temp.value, env.render(s.procs[p].rec);
        var done := |s.temps[temp]|;
        assert StageOk(env, s, s.procs[p]);
        if done + n <= |text| { TempGrows(env, s, p, s.temps[temp] + text[done..done + n]); }
      }
    }
  }

  lemma TempGrows(env: Env, s: Store, p: nat, bytes: seq<Byte>)
    requires Inv(env, s) && p in s.procs && s.procs[p].Saving? && s.procs[p].temp.Some?
    requires bytes <= env.render(s.procs[p].rec)
    ensures Inv(env, s.(temps := s.temps[s.procs[p].temp.value := bytes]))
  {
    var t := s.(temps := s.temps[s.procs[p].temp.value := bytes]);
    assert StageOk(env, s, s.procs[p]);
    forall q | q in t.procs ensures StageOk(env, t, t.procs[q]) {
      if q != p { assert s.procs[q].Waiting?; }
    }
  }

  /** The new record is in the file, whole, with a credential no one else has. */
  lemma RenamedKeeps(env: Env, s: Store, p: nat)
    requires EnvOk(env) && Inv(env, s) && p in s.procs && s.procs[p].Saving? && s.procs[p].temp.Some?
    ensures Inv(env, At(s, p, Renamed(s.procs[p].rec)).(
                       file := Some(env.render(s.procs[p].rec)), temps := s.temps - {s.procs[p].temp.value}))
  {
    var rec := s.procs[p].rec;
    var t := At(s, p, Renamed(rec)).(file := Some(env.render(rec)), temps := s.temps - {s.procs[p].temp.value});
    assert StageOk(env, s, s.procs[p]);
    assert env.parse(env.render(rec)) == Some(rec);
    assert FileCred(env, t.file) == rec.refresh;
    assert s.procs[p].from.Some? ==> env.parse(env.render(s.procs[p].from.value)) == s.procs[p].from;
    forall q | q in t.procs ensures StageOk(env, t, t.procs[q]) {
      if q != p { assert s.procs[q].Waiting?; }
    }
    RenamedPending(env, s, t, p);
    RenamedCred(env, s, t, p);
  }

  lemma RenamedPending(env: Env, s: Store, t: Store, p: nat)
    requires PendingOk(env, s) && p in s.procs && s.procs[p].Saving? && FileCred(env, t.file) == s.procs[p].rec.refresh
    requires Pending(s.procs[p]) == s.procs[p].rec.refresh || FileCred(env, s.file) == s.procs[p].rec.refresh
    requires t.consumed == s.consumed && t.nextCred == s.nextCred && t.procs == s.procs[p := Renamed(s.procs[p].rec)]
    ensures PendingOk(env, t)
  {
  }

  lemma RenamedCred(env: Env, s: Store, t: Store, p: nat)
    requires PendingOk(env, s) && CredOk(env, s) && p in s.procs && s.procs[p].Saving? && s.lock == Some(p)
    requires FileCred(env, t.file) == s.procs[p].rec.refresh
    requires Pending(s.procs[p]) == s.procs[p].rec.refresh
             || (FileCred(env, s.file) == s.procs[p].rec.refresh && Exchanged(s.procs[p]).None?)
    requires t.consumed == s.consumed && t.nextCred == s.nextCred && t.stranded == s.stranded
    ensures CredOk(env, t)
  {
  }

  lemma RenameKeeps(env: Env, s: Store, p: nat, ok: bool, unlinked: bool)
    requires EnvOk(env) && Inv(env, s)
    ensures Inv(env, DoRename(env, s, p, ok, unlinked))
  {
    if p in s.procs && s.procs[p].Saving? && s.procs[p].temp.Some? && s.procs[p].temp.value in s.temps
       && |s.temps[s.procs[p].temp.value]| >= |env.render(s.procs[p].rec)| {
      if !ok {
        GiveUpKeeps(env, s, p, unlinked);
      } else {
        assert StageOk(env, s, s.procs[p]);
        assert s.temps[s.procs[p].temp.value] == env.render(s.procs[p].rec);
        RenamedKeeps(env, s, p);
      }
    }
  }

  lemma SyncDirKeeps(env: Env, s: Store, p: nat, ok: bool)
    requires Inv(env, s)
    ensures Inv(env, DoSyncDir(s, p, ok))
  {
    if p in s.procs && s.procs[p].Renamed? {
      EndKeeps(env, s, p, if ok then Returned(p, Some(s.procs[p].rec.access)) else Errored(p));
    }
  }

  lemma RemoveKeeps(env: Env, s: Store, p: nat, ok: bool)
    requires Inv(env, s)
    ensures Inv(env, DoRemove(s, p, ok))
  {
    if p in s.procs && s.procs[p].Holding? && s.procs[p].job.Logout? {
      EndKeeps(env, s, p, Errored(p));
      var t := s.(file := None);
      forall q | q in t.procs ensures StageOk(env, t, t.procs[q]) {
        if q != p { assert s.procs[q].Waiting?; }
      }
      EndKeeps(env, t, p, Removed(p));
    }
  }

  lemma CrashKeeps(env: Env, s: Store, p: nat)
    requires Inv(env, s)
    ensures Inv(env, DoCrash(s, p))
  {
    if p in s.procs {
      StrandKeeps(env, s, p);
      EndStrandedKeeps(env, Strand(s, Exchanged(s.procs[p])), p, Errored(p));
    }
  }

  lemma StepKeeps(env: Env, s: Store, step: Step)
    requires EnvOk(env) && Inv(env, s)
    ensures Inv(env, Apply(env, s, step))
  {
    match step {
      case StartLoad(p, force) => StartKeeps(env, s, p, Load(force));
      case StartLogout(p) => StartKeeps(env, s, p, Logout);
      case GrantLogin(p, access, expiresAt, issuer) => GrantLoginKeeps(env, s, p, access, expiresAt, issuer);
      case Acquire(p) => AcquireKeeps(env, s, p);
      case LockFails(p) => LockFailsKeeps(env, s, p);
      case Read(p, now, readable) => ReadKeeps(env, s, p, now, readable);
      case Present(p, answer) => PresentKeeps(env, s, p, answer);
      case BeginLoginSave(p) => BeginLoginSaveKeeps(env, s, p);
      case OpenTemp(p, ok) => OpenTempKeeps(env, s, p, ok);
      case Write(p, n, ok, unlinked) => WriteKeeps(env, s, p, n, ok, unlinked);
      case Rename(p, ok, unlinked) => RenameKeeps(env, s, p, ok, unlinked);
      case SyncDir(p, ok) => SyncDirKeeps(env, s, p, ok);
      case Remove(p, ok) => RemoveKeeps(env, s, p, ok);
      case Crash(p) => CrashKeeps(env, s, p);
    }
  }

  lemma {:induction false} RunKeeps(env: Env, s: Store, steps: seq<Step>)
    requires EnvOk(env) && Inv(env, s)
    ensures Inv(env, Run(env, s, steps))
    decreases |steps|
  {
    if steps != [] {
      RunKeeps(env, s, steps[..|steps| - 1]);
      StepKeeps(env, Run(env, s, steps[..|steps| - 1]), steps[|steps| - 1]);
    }
  }
}
