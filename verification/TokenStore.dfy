/**
 The saved login: one token file, one lock, any number of processes that load,
 refresh, save or remove it, and an issuer whose refresh credentials are used once.
 */
module TokenStore {
  import opened Bytes
  import opened Options

  const U64_MAX: nat := 0xffff_ffff_ffff_ffff
  const EXPIRY_SKEW_SECS: nat := 60

  /** A refresh credential by number; absent and empty ones are None. */
  datatype Record = Record(access: seq<Byte>, refresh: Option<nat>, expiresAt: Option<nat>, issuer: seq<Byte>)

  /** JSON printing and parsing, and the expiry inside an access token. */
  datatype Env = Env(
    render: Record -> seq<Byte>,
    parse: seq<Byte> -> Option<Record>,
    jwtExpiry: seq<Byte> -> Option<nat>)

  ghost predicate EnvOk(env: Env) {
    forall r: Record :: env.parse(env.render(r)) == Some(r)
  }

  function EarliestExpiry(a: Option<nat>, b: Option<nat>): (r: Option<nat>) {
    if a.Some? && b.Some? then Some(if a.value <= b.value then a.value else b.value)
    else if a.Some? then a else b
  }

  function SaturatingAdd(a: nat, b: nat): (r: nat) {
    if a + b > U64_MAX then U64_MAX else a + b
  }

  predicate IsExpired(env: Env, r: Record, now: nat) {
    match EarliestExpiry(r.expiresAt, env.jwtExpiry(r.access))
    case None => false
    case Some(exp) => SaturatingAdd(now, EXPIRY_SKEW_SECS) >= exp
  }

  /** Somewhere the token says it ends at this time. */
  predicate SaysExpiry(env: Env, r: Record, exp: nat) {
    r.expiresAt == Some(exp) || env.jwtExpiry(r.access) == Some(exp)
  }

  /** Expired exactly when some known expiry, each a 64-bit number, is at most a minute away. */
  lemma ExpiredIff(env: Env, r: Record, now: nat)
    requires forall exp: nat :: SaysExpiry(env, r, exp) ==> exp <= U64_MAX
    ensures IsExpired(env, r, now) <==> exists exp: nat :: SaysExpiry(env, r, exp) && exp <= now + 60
  {
    var a, b := r.expiresAt, env.jwtExpiry(r.access);
    if a.Some? { assert SaysExpiry(env, r, a.value); }
    if b.Some? { assert SaysExpiry(env, r, b.value); }
  }

  datatype Job =
    | Load(force: bool)
    | Logout
    | Login(record: Record)     // granted by the issuer, not saved yet

  datatype Stage =
    | Waiting(job: Job)         // for the lock
    | Holding(job: Job)         // lock taken, nothing read or written yet
    | Refreshing(stored: Record)
    | Saving(rec: Record, from: Option<Record>, temp: Option<nat>)
    | Renamed(rec: Record)

  datatype Event =
    | Presented(cred: nat, stale: bool, consumed: bool)
    | Returned(p: nat, access: Option<seq<Byte>>)
    | Errored(p: nat)
    | Removed(p: nat)

  datatype Store = Store(
    file: Option<seq<Byte>>,
    temps: map<nat, seq<Byte>>,
    nextTemp: nat,
    lock: Option<nat>,
    procs: map<nat, Stage>,
    consumed: set<nat>,         // credentials the issuer has exchanged
    nextCred: nat,
    stranded: set<nat>,         // exchanged, but the answer never reached the file
    log: seq<Event>)

  const START := Store(None, map[], 0, None, map[], {}, 0, {}, [])

  /** What became of a presented credential. */
  datatype Answer =
    | Unreached                                          // the issuer never saw it
    | Refused                                            // an error, nothing exchanged
    | Lost                                               // exchanged, but no answer arrived
    | Rotated(access: seq<Byte>, expiresAt: Option<nat>) // exchanged for a new credential
    | Kept(access: seq<Byte>, expiresAt: Option<nat>)    // no new credential; the old stays good

  datatype Step =
    | StartLoad(p: nat, force: bool)
    | StartLogout(p: nat)
    | GrantLogin(p: nat, access: seq<Byte>, expiresAt: Option<nat>, issuer: seq<Byte>)
    | Acquire(p: nat)
    | LockFails(p: nat)
    | Read(p: nat, now: nat, readable: bool)
    | Present(p: nat, answer: Answer)
    | BeginLoginSave(p: nat)
    | OpenTemp(p: nat, ok: bool)
    | Write(p: nat, n: nat, ok: bool, unlinked: bool)
    | Rename(p: nat, ok: bool, unlinked: bool)
    | SyncDir(p: nat, ok: bool)
    | Remove(p: nat, ok: bool)
    | Crash(p: nat)

  /** The process ends and lets the lock go. */
  function End(s: Store, p: nat, e: Event): (s': Store) {
    s.(procs := s.procs - {p}, lock := if s.lock == Some(p) then None else s.lock, log := s.log + [e])
  }

  function At(s: Store, p: nat, stage: Stage): (s': Store) {
    s.(procs := s.procs[p := stage])
  }

  /** The credential whose exchange this process alone knows of. */
  function Exchanged(stage: Stage): (c: Option<nat>) {
    if stage.Saving? && stage.from.Some? && stage.rec.refresh != stage.from.value.refresh then stage.from.value.refresh
    else None
  }

  function Strand(s: Store, c: Option<nat>): (s': Store) {
    if c.Some? then s.(stranded := s.stranded + {c.value}) else s
  }

  function DoStart(s: Store, p: nat, job: Job): (s': Store) {
    if p in s.procs then s else At(s, p, Waiting(job))
  }

  function DoGrantLogin(s: Store, p: nat, access: seq<Byte>, expiresAt: Option<nat>, issuer: seq<Byte>): (s': Store) {
    if p in s.procs then s
    else At(s, p, Waiting(Login(Record(access, Some(s.nextCred), expiresAt, issuer)))).(nextCred := s.nextCred + 1)
  }

  function DoAcquire(s: Store, p: nat): (s': Store) {
    if p !in s.procs || !s.procs[p].Waiting? || s.lock.Some? then s
    else At(s, p, Holding(s.procs[p].job)).(lock := Some(p))
  }

  function DoLockFails(s: Store, p: nat): (s': Store) {
    if p !in s.procs || !s.procs[p].Waiting? then s else End(s, p, Errored(p))
  }

  function DoRead(env: Env, s: Store, p: nat, now: nat, readable: bool): (s': Store) {
    if p !in s.procs || !s.procs[p].Holding? || !s.procs[p].job.Load? then s
    else if s.file.None? then End(s, p, Returned(p, None))
    else if !readable then End(s, p, Errored(p))
    else
      match env.parse(s.file.value)
      case None => End(s, p, Errored(p))
      case Some(stored) =>
        if !s.procs[p].job.force && !IsExpired(env, stored, now) then End(s, p, Returned(p, Some(stored.access)))
        else if stored.refresh.None? then End(s, p, Errored(p))
        else At(s, p, Refreshing(stored))
  }

  /** An exchanged credential is refused whatever the request hoped for. */
  function DoPresent(s: Store, p: nat, answer: Answer): (s': Store) {
    if p !in s.procs || !s.procs[p].Refreshing? || s.procs[p].stored.refresh.None? then s
    else
      var stored := s.procs[p].stored;
      var c := stored.refresh.value;
      if answer.Unreached? then End(s, p, Errored(p))
      else if c in s.consumed then End(s.(log := s.log + [Presented(c, true, false)]), p, Errored(p))
      else
        match answer
        case Lost => End(s.(log := s.log + [Presented(c, false, true)], consumed := s.consumed + {c},
                            stranded := s.stranded + {c}), p, Errored(p))
        case Rotated(access, expiresAt) =>
          At(s.(log := s.log + [Presented(c, false, true)], consumed := s.consumed + {c}, nextCred := s.nextCred + 1),
             p, Saving(Record(access, Some(s.nextCred), expiresAt, stored.issuer), Some(stored), None))
        case Kept(access, expiresAt) =>
          At(s.(log := s.log + [Presented(c, false, false)]),
             p, Saving(Record(access, stored.refresh, expiresAt, stored.issuer), Some(stored), None))
        case _ => End(s.(log := s.log + [Presented(c, false, false)]), p, Errored(p))
  }

  function DoBeginLoginSave(s: Store, p: nat): (s': Store) {
    if p !in s.procs || !s.procs[p].Holding? || !s.procs[p].job.Login? then s
    else At(s, p, Saving(s.procs[p].job.record, None, None))
  }

  /** A save gives up before the rename: what it alone knew of is lost. */
  function GiveUp(s: Store, p: nat, unlinked: bool): (s': Store)
    requires p in s.procs && s.procs[p].Saving?
  {
    var temp := s.procs[p].temp;
    var t := Strand(s, Exchanged(s.procs[p]));
    End(if temp.Some? && unlinked then t.(temps := t.temps - {temp.value}) else t, p, Errored(p))
  }

  function DoOpenTemp(s: Store, p: nat, ok: bool): (s': Store) {
    if p !in s.procs || !s.procs[p].Saving? || s.procs[p].temp.Some? then s
    else if !ok then GiveUp(s, p, false)
    else
      At(s, p, s.procs[p].(temp := Some(s.nextTemp))).(
        temps := s.temps[s.nextTemp := []], nextTemp := s.nextTemp + 1)
  }

  function DoWrite(env: Env, s: Store, p: nat, n: nat, ok: bool, unlinked: bool): (s': Store) {
    if p !in s.procs || !s.procs[p].Saving? || s.procs[p].temp.None? || s.procs[p].temp.value !in s.temps then s
    else if !ok then GiveUp(s, p, unlinked)
    else
      var temp, text := s.procs[p].temp.value, env.render(s.procs[p].rec);
      var done := |s.temps[temp]|;
      if done + n > |text| then s else s.(temps := s.temps[temp := s.temps[temp] + text[done..done + n]])
  }

  /** Only a temporary file that is written to the end is renamed over the token file. */
  function DoRename(env: Env, s: Store, p: nat, ok: bool, unlinked: bool): (s': Store) {
    if p !in s.procs || !s.procs[p].Saving? || s.procs[p].temp.None? || s.procs[p].temp.value !in s.temps
       || |s.temps[s.procs[p].temp.value]| < |env.render(s.procs[p].rec)| then s
    else if !ok then GiveUp(s, p, unlinked)
    else
      var temp := s.procs[p].temp.value;
      At(s, p, Renamed(s.procs[p].rec)).(file := Some(s.temps[temp]), temps := s.temps - {temp})
  }

  function DoSyncDir(s: Store, p: nat, ok: bool): (s': Store) {
    if p !in s.procs || !s.procs[p].Renamed? then s
    else End(s, p, if ok then Returned(p, Some(s.procs[p].rec.access)) else Errored(p))
  }

  function DoRemove(s: Store, p: nat, ok: bool): (s': Store) {
    if p !in s.procs || !s.procs[p].Holding? || !s.procs[p].job.Logout? then s
    else if !ok then End(s, p, Errored(p))
    else End(s.(file := None), p, Removed(p))
  }

  function DoCrash(s: Store, p: nat): (s': Store) {
    if p !in s.procs then s else End(Strand(s, Exchanged(s.procs[p])), p, Errored(p))
  }

  function Apply(env: Env, s: Store, step: Step): (s': Store) {
    match step
    case StartLoad(p, force) => DoStart(s, p, Load(force))
    case StartLogout(p) => DoStart(s, p, Logout)
    case GrantLogin(p, access, expiresAt, issuer) => DoGrantLogin(s, p, access, expiresAt, issuer)
    case Acquire(p) => DoAcquire(s, p)
    case LockFails(p) => DoLockFails(s, p)
    case Read(p, now, readable) => DoRead(env, s, p, now, readable)
    case Present(p, answer) => DoPresent(s, p, answer)
    case BeginLoginSave(p) => DoBeginLoginSave(s, p)
    case OpenTemp(p, ok) => DoOpenTemp(s, p, ok)
    case Write(p, n, ok, unlinked) => DoWrite(env, s, p, n, ok, unlinked)
    case Rename(p, ok, unlinked) => DoRename(env, s, p, ok, unlinked)
    case SyncDir(p, ok) => DoSyncDir(s, p, ok)
    case Remove(p, ok) => DoRemove(s, p, ok)
    case Crash(p) => DoCrash(s, p)
  }

  function Run(env: Env, s: Store, steps: seq<Step>): (s': Store)
    decreases |steps|
  {
    if steps == [] then s else Apply(env, Run(env, s, steps[..|steps| - 1]), steps[|steps| - 1])
  }
}
