/**
 The blob door as a step system: any number of PUTs and GETs, each at its own
 stage, with the cache and the canonical store between them. Every outcome the
 code does not control (an answer from the store, an unlink, a dropped request)
 is part of the step, so a run is a list of steps and nothing else. A step that
 does not apply in the state it meets does nothing.
 */
module BlobDoor {
  import opened Bytes
  import opened Options
  import opened Sorting
  import opened BlobCache
  import Sizes

  /** BLAKE3 and the cache budget. */
  datatype Env = Env(b3: seq<Byte> -> Hash, budget: nat)

  /** Where an admission is. From `Checking` on it holds the lock. */
  datatype Turn =
    | Waiting
    | Checking
    | Evicting(queue: seq<Name>)
    | Renamed

  datatype PutStage =
    | Receiving             // body being pumped into incoming/
    | Received              // complete, hashed and closed
    | Writing               // head found nothing: put_path is next
    | Confirming            // put_path returned Ok: head again
    | PutAdmit(turn: Turn)  // accepted: promote, then answer

  datatype GetStage =
    | Looking
    | Seen                        // metadata found the file, open is next
    | Missed                      // not cached, or evicted before the open
    | Reading(file: seq<Byte>)    // cached file open
    | Filling(tok: nat, content: seq<Byte>, reported: nat, sent: nat, ok: bool)
    | Passing(content: seq<Byte>, reported: nat, sent: nat)
    | GetAdmit(gtok: nat, filled: seq<Byte>, gturn: Turn)

  datatype Request =
    | Put(name: Name, ptok: nat, body: seq<Byte>, pstage: PutStage)
    | Get(name: Name, gstage: GetStage)

  /** What a client learnt. */
  datatype Event =
    | Acked(name: Name, bytes: seq<Byte>)    // PUT answered 200 or 201
    | Served(name: Name, bytes: seq<Byte>)   // GET delivered its whole body
    | Absent(name: Name)                     // GET answered 404

  datatype Door = Door(
    objects: Files,
    used: nat,
    incoming: map<nat, seq<Byte>>,
    store: Files,
    lock: Option<nat>,
    reqs: map<nat, Request>,
    nextTok: nat,
    log: seq<Event>)

  datatype Step =
    | StartPut(r: nat, name: Name, created: bool)
    | Chunk(r: nat, bytes: seq<Byte>)
    | EndBody(r: nat, unlinked: bool)
    | Head(r: nat, answered: bool, unlinked: bool)
    | PutPath(r: nat, applied: bool, ok: bool, unlinked: bool)
    | Confirm(r: nat, answered: bool, unlinked: bool)
    | StartGet(r: nat, name: Name)
    | Stat(r: nat)
    | Open(r: nat)
    | FinishRead(r: nat)
    | Fetch(r: nat, answered: bool, lengthKnown: bool, created: bool)
    | Deliver(r: nat, n: nat, wrote: bool, partial: nat)
    | EndStream(r: nat, synced: bool, unlinked: bool)
    | Abandon(r: nat, unlinked: bool)                     // error or dropped request, outside the lock
    | Acquire(r: nat)
    | Check(r: nat, listed: bool, listing: seq<Name>, accessed: Name -> int, unlinked: bool)
    | EvictNext(r: nat, removed: bool)
    | Rename(r: nat, renamed: bool, unlinked: bool)
    | Count(r: nat)
    | DropEvicting(r: nat, removed: bool, unlinked: bool)  // request dropped inside the lock
    | DropRenamed(r: nat)
    | Restart(survivors: set<Name>, stuck: set<nat>, unread: set<Name>)

  // Small pieces the steps share.

  function Tok(q: Request): (t: Option<nat>) {
    match q
    case Put(_, tok, _, _) => Some(tok)
    case Get(_, Filling(tok, _, _, _, _)) => Some(tok)
    case Get(_, GetAdmit(tok, _, _)) => Some(tok)
    case Get(_, _) => None
  }

  function TurnOf(q: Request): (t: Option<Turn>) {
    match q
    case Put(_, _, _, PutAdmit(turn)) => Some(turn)
    case Get(_, GetAdmit(_, _, turn)) => Some(turn)
    case _ => None
  }

  function WithTurn(q: Request, turn: Turn): (r: Request)
    requires TurnOf(q).Some?
  {
    match q
    case Put(name, tok, body, _) => Put(name, tok, body, PutAdmit(turn))
    case Get(name, GetAdmit(tok, filled, _)) => Get(name, GetAdmit(tok, filled, turn))
  }

  /** The bytes an admission would publish. */
  function Payload(q: Request): (s: seq<Byte>)
    requires TurnOf(q).Some?
  {
    if q.Put? then q.body else q.gstage.filled
  }

  function Update(s: Door, r: nat, q: Request): (s': Door) {
    s.(reqs := s.reqs[r := q])
  }

  /** The request ends: its guard unlinks what it still owns, and the lock is let go. */
  function Close(s: Door, r: nat, unlinked: bool): (s': Door)
    requires r in s.reqs
  {
    var tok := Tok(s.reqs[r]);
    s.(reqs := s.reqs - {r},
       incoming := if tok.Some? && unlinked then s.incoming - {tok.value} else s.incoming,
       lock := if s.lock == Some(r) then None else s.lock)
  }

  function Log(s: Door, e: Event): (s': Door) {
    s.(log := s.log + [e])
  }

  /** An admission is over: a PUT answers now, a GET has already been served. */
  function Leave(s: Door, r: nat, unlinked: bool): (s': Door)
    requires r in s.reqs
  {
    var q := s.reqs[r];
    var t := Close(s, r, unlinked);
    if q.Put? then Log(t, Acked(q.name, q.body)) else t
  }

  predicate AtPut(s: Door, r: nat, stage: PutStage) {
    r in s.reqs && s.reqs[r].Put? && s.reqs[r].pstage == stage
  }

  predicate AtTurn(s: Door, r: nat) {
    r in s.reqs && TurnOf(s.reqs[r]).Some?
  }

  predicate AtGet(s: Door, r: nat) {
    r in s.reqs && s.reqs[r].Get?
  }

  predicate Matches(files: Files, name: Name, len: nat) {
    name in files && |files[name]| == len
  }

  // PUT.

  function DoStartPut(s: Door, r: nat, name: Name, created: bool): (s': Door) {
    if r in s.reqs || !created then s
    else Update(s, r, Put(name, s.nextTok, [], Receiving)).(
      incoming := s.incoming[s.nextTok := []], nextTok := s.nextTok + 1)
  }

  function DoChunk(s: Door, r: nat, bytes: seq<Byte>): (s': Door) {
    if !AtPut(s, r, Receiving) then s
    else
      var q := s.reqs[r];
      Update(s, r, q.(body := q.body + bytes)).(incoming := s.incoming[q.ptok := q.body + bytes])
  }

  /** An object's bytes must hash to its name; an outboard's are not hashed. */
  function DoEndBody(env: Env, s: Door, r: nat, unlinked: bool): (s': Door) {
    if !AtPut(s, r, Receiving) then s
    else
      var q := s.reqs[r];
      if q.name.obao || env.b3(q.body) == q.name.hash then Update(s, r, q.(pstage := Received))
      else Close(s, r, unlinked)
  }

  /** Exists-then-skip: only the length of what is already stored is compared. */
  function DoHead(s: Door, r: nat, answered: bool, unlinked: bool): (s': Door) {
    if !AtPut(s, r, Received) then s
    else
      var q := s.reqs[r];
      if !answered || q.name !in s.store then Update(s, r, q.(pstage := Writing))
      else if Matches(s.store, q.name, |q.body|) then Update(s, r, q.(pstage := PutAdmit(Waiting)))
      else Close(s, r, unlinked)
  }

  /** The write may be applied or not, whatever the answer says. */
  function DoPutPath(s: Door, r: nat, applied: bool, ok: bool, unlinked: bool): (s': Door) {
    if !AtPut(s, r, Writing) then s
    else
      var q := s.reqs[r];
      var t := if applied then s.(store := s.store[q.name := q.body]) else s;
      if ok then Update(t, r, q.(pstage := Confirming)) else Close(t, r, unlinked)
  }

  function DoConfirm(s: Door, r: nat, answered: bool, unlinked: bool): (s': Door) {
    if !AtPut(s, r, Confirming) then s
    else
      var q := s.reqs[r];
      if answered && Matches(s.store, q.name, |q.body|) then Update(s, r, q.(pstage := PutAdmit(Waiting)))
      else Close(s, r, unlinked)
  }

  // GET.

  function DoStartGet(s: Door, r: nat, name: Name): (s': Door) {
    if r in s.reqs then s else Update(s, r, Get(name, Looking))
  }

  function DoStat(s: Door, r: nat): (s': Door) {
    if !AtGet(s, r) || !s.reqs[r].gstage.Looking? then s
    else
      var q := s.reqs[r];
      Update(s, r, q.(gstage := if q.name in s.objects then Seen else Missed))
  }

  function DoOpen(s: Door, r: nat): (s': Door) {
    if !AtGet(s, r) || !s.reqs[r].gstage.Seen? then s
    else
      var q := s.reqs[r];
      Update(s, r, q.(gstage := if q.name in s.objects then Reading(s.objects[q.name]) else Missed))
  }

  function DoFinishRead(s: Door, r: nat): (s': Door) {
    if !AtGet(s, r) || !s.reqs[r].gstage.Reading? then s
    else Log(Close(s, r, false), Served(s.reqs[r].name, s.reqs[r].gstage.file))
  }

  /** The store streams the content, with its length or with none reported. */
  function DoFetch(env: Env, s: Door, r: nat, answered: bool, lengthKnown: bool, created: bool): (s': Door) {
    if !AtGet(s, r) || !s.reqs[r].gstage.Missed? then s
    else if !answered then Close(s, r, false)
    else
      var q := s.reqs[r];
      if q.name !in s.store then Log(Close(s, r, false), Absent(q.name))
      else
        var content := s.store[q.name];
        var reported := if lengthKnown then |content| else 0;
        if reported > env.budget || !created then Update(s, r, q.(gstage := Passing(content, reported, 0)))
        else Update(s, r, q.(gstage := Filling(s.nextTok, content, reported, 0, true))).(
          incoming := s.incoming[s.nextTok := []], nextTok := s.nextTok + 1)
  }

  /** n more bytes of a fill, of which the file got `kept`. */
  function FillPiece(s: Door, r: nat, n: nat, kept: nat, wrote: bool): (s': Door)
    requires AtGet(s, r) && s.reqs[r].gstage.Filling? && s.reqs[r].gstage.tok in s.incoming
    requires s.reqs[r].gstage.sent + n <= |s.reqs[r].gstage.content| && kept <= n
  {
    var g := s.reqs[r].gstage;
    Update(s, r, s.reqs[r].(gstage := Filling(g.tok, g.content, g.reported, g.sent + n, g.ok && wrote))).(
      incoming := s.incoming[g.tok := s.incoming[g.tok] + g.content[g.sent..g.sent + kept]])
  }

  function PassPiece(s: Door, r: nat, n: nat): (s': Door)
    requires AtGet(s, r) && s.reqs[r].gstage.Passing?
  {
    var g := s.reqs[r].gstage;
    Update(s, r, s.reqs[r].(gstage := Passing(g.content, g.reported, g.sent + n)))
  }

  /** How much of a piece reaches the file: all, a part on a failed write, none after one. */
  function Written(ok: bool, wrote: bool, n: nat, partial: nat): (kept: nat)
    ensures kept <= n
  {
    if !ok then 0 else if wrote then n else if partial <= n then partial else n
  }

  /** The next n bytes go to the client and, until a write fails, to the file. */
  function DoDeliver(s: Door, r: nat, n: nat, wrote: bool, partial: nat): (s': Door) {
    if !AtGet(s, r) then s
    else
      var g := s.reqs[r].gstage;
      if g.Filling? && g.sent + n <= |g.content| && g.tok in s.incoming
      then FillPiece(s, r, n, Written(g.ok, wrote, n, partial), wrote)
      else if g.Passing? && g.sent + n <= |g.content| then PassPiece(s, r, n)
      else s
  }

  predicate LengthAgrees(reported: nat, sent: nat) {
    reported == 0 || sent == reported
  }

  /** The stream ended without an error. A fill that is whole goes on to admission. */
  function DoEndStream(s: Door, r: nat, synced: bool, unlinked: bool): (s': Door) {
    if !AtGet(s, r) then s
    else
      var name := s.reqs[r].name;
      match s.reqs[r].gstage
      case Filling(tok, content, reported, sent, ok) =>
        if sent > |content| then s
        else
          var t := if LengthAgrees(reported, sent) then Log(s, Served(name, content[..sent])) else s;
          if ok && synced && LengthAgrees(reported, sent)
          then Update(t, r, Get(name, GetAdmit(tok, content[..sent], Waiting)))
          else Close(t, r, unlinked)
      case Passing(content, reported, sent) =>
        if sent > |content| then s
        else
          var t := if LengthAgrees(reported, sent) then Log(s, Served(name, content[..sent])) else s;
          Close(t, r, false)
      case _ => s
  }

  /** An error before admission, or the client going away. */
  function DoAbandon(s: Door, r: nat, unlinked: bool): (s': Door) {
    if r !in s.reqs || (TurnOf(s.reqs[r]).Some? && TurnOf(s.reqs[r]) != Some(Waiting)) then s
    else Close(s, r, unlinked)
  }

  // Admission, under the lock.

  function DoAcquire(s: Door, r: nat): (s': Door) {
    if !AtTurn(s, r) || TurnOf(s.reqs[r]) != Some(Waiting) || s.lock.Some? then s
    else Update(s, r, WithTurn(s.reqs[r], Checking)).(lock := Some(r))
  }

  /** Files of the cache, each once; those whose metadata could not be read are missing. */
  predicate IsListing(listing: seq<Name>, objects: Files) {
    && (forall i :: 0 <= i < |listing| ==> listing[i] in objects)
    && forall i, j :: 0 <= i < j < |listing| ==> listing[i] != listing[j]
  }

  /** The checks under the lock. The listing fails as a whole, or leaves files out. */
  function DoCheck(env: Env, s: Door, r: nat, listed: bool, listing: seq<Name>, accessed: Name -> int, unlinked: bool)
    : (s': Door)
  {
    if !AtTurn(s, r) || TurnOf(s.reqs[r]) != Some(Checking) then s
    else
      var q := s.reqs[r];
      if q.name in s.objects || |Payload(q)| > env.budget then Leave(s, r, unlinked)
      else if s.used + |Payload(q)| <= env.budget then Update(s, r, WithTurn(q, Evicting([])))
      else if !listed then Leave(s, r, unlinked)
      else if !IsListing(listing, s.objects) then s
      else Update(s, r, WithTurn(q, Evicting(Sort(accessed, listing))))
  }

  predicate MustEvict(env: Env, s: Door, r: nat) {
    && AtTurn(s, r) && TurnOf(s.reqs[r]).value.Evicting?
    && TurnOf(s.reqs[r]).value.queue != []
    && s.used + |Payload(s.reqs[r])| > env.budget
  }

  function DoEvictNext(env: Env, s: Door, r: nat, removed: bool): (s': Door) {
    if !MustEvict(env, s, r) then s
    else
      var q := s.reqs[r];
      var queue := TurnOf(q).value.queue;
      var d := EvictOne(Disk(s.objects, s.used), queue[0], removed);
      Update(s, r, WithTurn(q, Evicting(queue[1..]))).(objects := d.objects, used := d.used)
  }

  function DoRename(env: Env, s: Door, r: nat, renamed: bool, unlinked: bool): (s': Door) {
    if !AtTurn(s, r) || !TurnOf(s.reqs[r]).value.Evicting? || MustEvict(env, s, r) then s
    else
      var q := s.reqs[r];
      var tok := Tok(q);
      if !renamed || tok.None? || tok.value !in s.incoming then Leave(s, r, unlinked)
      else Update(s, r, WithTurn(q, Renamed)).(
        objects := s.objects[q.name := s.incoming[tok.value]],
        incoming := s.incoming - {tok.value})
  }

  function DoCount(s: Door, r: nat): (s': Door) {
    if !AtTurn(s, r) || TurnOf(s.reqs[r]) != Some(Renamed) then s
    else Leave(s.(used := s.used + |Payload(s.reqs[r])|), r, true)
  }

  /** A request dropped while an unlink is in flight: the unlink may still happen, uncounted. */
  function DoDropEvicting(env: Env, s: Door, r: nat, removed: bool, unlinked: bool): (s': Door) {
    if !AtTurn(s, r) || !(TurnOf(s.reqs[r]).value.Evicting? || TurnOf(s.reqs[r]).value.Checking?) then s
    else if removed && MustEvict(env, s, r) then
      Close(s.(objects := s.objects - {TurnOf(s.reqs[r]).value.queue[0]}), r, unlinked)
    else Close(s, r, unlinked)
  }

  /** A request dropped after its rename took effect and before the counter moved. */
  function DoDropRenamed(s: Door, r: nat): (s': Door) {
    if !AtTurn(s, r) || TurnOf(s.reqs[r]) != Some(Renamed) then s else Close(s, r, true)
  }

  /**
   A crash or a wipe: some cached files survive, the rest of the memory does not. The
   count skips the files whose metadata cannot be read.
   */
  ghost function DoRestart(s: Door, survivors: set<Name>, stuck: set<nat>, unread: set<Name>): (s': Door) {
    var objects := s.objects - (s.objects.Keys - survivors);
    s.(objects := objects, used := Sizes.Total(objects - unread),
       incoming := s.incoming - (s.incoming.Keys - stuck), lock := None, reqs := map[])
  }

  ghost function Apply(env: Env, s: Door, step: Step): (s': Door) {
    match step
    case StartPut(r, name, created) => DoStartPut(s, r, name, created)
    case Chunk(r, bytes) => DoChunk(s, r, bytes)
    case EndBody(r, unlinked) => DoEndBody(env, s, r, unlinked)
    case Head(r, answered, unlinked) => DoHead(s, r, answered, unlinked)
    case PutPath(r, applied, ok, unlinked) => DoPutPath(s, r, applied, ok, unlinked)
    case Confirm(r, answered, unlinked) => DoConfirm(s, r, answered, unlinked)
    case StartGet(r, name) => DoStartGet(s, r, name)
    case Stat(r) => DoStat(s, r)
    case Open(r) => DoOpen(s, r)
    case FinishRead(r) => DoFinishRead(s, r)
    case Fetch(r, answered, lengthKnown, created) => DoFetch(env, s, r, answered, lengthKnown, created)
    case Deliver(r, n, wrote, partial) => DoDeliver(s, r, n, wrote, partial)
    case EndStream(r, synced, unlinked) => DoEndStream(s, r, synced, unlinked)
    case Abandon(r, unlinked) => DoAbandon(s, r, unlinked)
    case Acquire(r) => DoAcquire(s, r)
    case Check(r, listed, listing, accessed, unlinked) => DoCheck(env, s, r, listed, listing, accessed, unlinked)
    case EvictNext(r, removed) => DoEvictNext(env, s, r, removed)
    case Rename(r, renamed, unlinked) => DoRename(env, s, r, renamed, unlinked)
    case Count(r) => DoCount(s, r)
    case DropEvicting(r, removed, unlinked) => DoDropEvicting(env, s, r, removed, unlinked)
    case DropRenamed(r) => DoDropRenamed(s, r)
    case Restart(survivors, stuck, unread) => DoRestart(s, survivors, stuck, unread)
  }

  ghost function Run(env: Env, s: Door, steps: seq<Step>): (s': Door)
    decreases |steps|
  {
    if steps == [] then s
    else Apply(env, Run(env, s, steps[..|steps| - 1]), steps[|steps| - 1])
  }

  lemma RunSnoc(env: Env, s: Door, steps: seq<Step>, step: Step)
    ensures Run(env, s, steps + [step]) == Apply(env, Run(env, s, steps), step)
  {
    assert (steps + [step])[..|steps|] == steps;
  }

  lemma AppendOne(env: Env, s: Door, a: seq<Step>, b: seq<Step>, step: Step)
    requires Run(env, s, a + b) == Run(env, Run(env, s, a), b)
    ensures Run(env, s, a + (b + [step])) == Run(env, Run(env, s, a), b + [step])
  {
    assert a + (b + [step]) == (a + b) + [step];
    RunSnoc(env, s, a + b, step);
    RunSnoc(env, Run(env, s, a), b, step);
  }

  lemma {:induction false} RunAppend(env: Env, s: Door, a: seq<Step>, b: seq<Step>)
    ensures Run(env, s, a + b) == Run(env, Run(env, s, a), b)
    decreases |b|
  {
    if b == [] {
      assert a + b == a;
    } else {
      var k := |b| - 1;
      RunAppend(env, s, a, b[..k]);
      AppendOne(env, s, a, b[..k], b[k]);
      assert b == b[..k] + [b[k]];
    }
  }
}
