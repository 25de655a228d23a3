/**
 What every run of the blob door keeps: the cache agrees with the canonical
 store, and what was once accepted stays readable.
 */
module BlobAgreement {
  import opened Bytes
  import opened Options
  import opened Sorting
  import opened BlobCache
  import opened BlobDoor
  import Sizes

  /**
   What is claimed of which names: `right` says whether bytes may stand under a
   covered name. Other names are not spoken of.
   */
  datatype Law = Law(covered: Name -> bool, right: (Name, seq<Byte>) -> bool)

  /** At most one content is right for a covered name. */
  ghost predicate Unique(law: Law) {
    forall n: Name, x: seq<Byte>, y: seq<Byte> :: law.covered(n) && law.right(n, x) && law.right(n, y) ==> x == y
  }

  /** For a covered name: the store has it, and these are its bytes. */
  predicate Canonical(law: Law, store: Files, name: Name, bytes: seq<Byte>) {
    law.covered(name) ==> name in store && store[name] == bytes
  }

  /** Every covered file in the store is right. */
  ghost predicate StoreOk(law: Law, store: Files) {
    forall n :: n in store && law.covered(n) ==> law.right(n, store[n])
  }

  /** Every covered file in the cache is the stored one. */
  ghost predicate CacheAgrees(law: Law, s: Door) {
    forall n :: n in s.objects ==> Canonical(law, s.store, n, s.objects[n])
  }

  predicate HasFile(incoming: map<nat, seq<Byte>>, tok: nat, bytes: seq<Byte>) {
    tok in incoming && incoming[tok] == bytes
  }

  predicate AdmitOk(law: Law, store: Files, incoming: map<nat, seq<Byte>>, name: Name, tok: nat, bytes: seq<Byte>,
                    turn: Turn) {
    Canonical(law, store, name, bytes) && (turn != Renamed ==> HasFile(incoming, tok, bytes))
  }

  predicate StreamOk(law: Law, store: Files, name: Name, content: seq<Byte>, reported: nat, sent: nat) {
    && Canonical(law, store, name, content)
    && sent <= |content|
    && (reported == 0 || reported == |content|)
  }

  /** Nobody has looked at these bytes yet: an outboard's are compared only with what is stored. */
  predicate Unchecked(name: Name, stage: PutStage) {
    stage == Receiving || (stage == Received && name.obao)
  }

  /** What each request relies on at its stage. */
  predicate RequestOk(law: Law, store: Files, incoming: map<nat, seq<Byte>>, q: Request) {
    match q
    case Put(name, tok, body, PutAdmit(turn)) => AdmitOk(law, store, incoming, name, tok, body, turn)
    case Put(name, tok, body, stage) =>
      HasFile(incoming, tok, body) && (Unchecked(name, stage) || !law.covered(name) || law.right(name, body))
    case Get(name, Reading(file)) => Canonical(law, store, name, file)
    case Get(name, Filling(tok, content, reported, sent, ok)) =>
      && StreamOk(law, store, name, content, reported, sent)
      && tok in incoming && (ok ==> incoming[tok] == content[..sent])
    case Get(name, Passing(content, reported, sent)) => StreamOk(law, store, name, content, reported, sent)
    case Get(name, GetAdmit(tok, filled, turn)) => AdmitOk(law, store, incoming, name, tok, filled, turn)
    case Get(_, _) => true
  }

  ghost predicate RequestsOk(law: Law, s: Door) {
    forall r :: r in s.reqs ==> RequestOk(law, s.store, s.incoming, s.reqs[r])
  }

  /** No two requests own the same incoming file, and new ones are fresh. */
  ghost predicate TokensOk(s: Door) {
    && (forall t :: t in s.incoming ==> t < s.nextTok)
    && (forall r :: r in s.reqs && Tok(s.reqs[r]).Some? ==> Tok(s.reqs[r]).value < s.nextTok)
    && (forall r, r' :: r in s.reqs && r' in s.reqs && r != r' && Tok(s.reqs[r]).Some?
                        ==> Tok(s.reqs[r]) != Tok(s.reqs[r']))
  }

  /** What clients were told is true of the store. */
  ghost predicate EventsOk(law: Law, s: Door) {
    forall i :: 0 <= i < |s.log| && !s.log[i].Absent? ==> Canonical(law, s.store, s.log[i].name, s.log[i].bytes)
  }

  /** A covered name once acknowledged is never reported absent. */
  ghost predicate NeverLost(law: Law, s: Door) {
    forall i, j :: 0 <= i < j < |s.log| && s.log[i].Acked? && s.log[j].Absent? && s.log[i].name == s.log[j].name
                   ==> !law.covered(s.log[i].name)
  }

  ghost predicate Inv(law: Law, s: Door) {
    && StoreOk(law, s.store)
    && CacheAgrees(law, s)
    && RequestsOk(law, s)
    && TokensOk(s)
    && EventsOk(law, s)
    && NeverLost(law, s)
  }

  /** Covered files in the store are never lost or changed. */
  ghost predicate StoreGrows(law: Law, before: Files, after: Files) {
    forall n :: n in before && law.covered(n) ==> n in after && after[n] == before[n]
  }

  /** A stream ends cleanly only when it is complete, or when its length tells that it is not. */
  predicate EndsWhole(law: Law, s: Door, r: nat) {
    AtGet(s, r) && law.covered(s.reqs[r].name) ==>
      match s.reqs[r].gstage
      case Filling(_, content, reported, sent, _) => reported == 0 ==> sent == |content|
      case Passing(content, reported, sent) => reported == 0 ==> sent == |content|
      case _ => true
  }

  /** The PUT is not turned away for its length. */
  predicate GoesOn(s: Door, r: nat, answered: bool) {
    AtPut(s, r, Received) &&
    (!answered || s.reqs[r].name !in s.store || Matches(s.store, s.reqs[r].name, |s.reqs[r].body|))
  }

  /** An object that gets past the hash check, or an outboard past the length check, is right for its name. */
  predicate BodyRight(env: Env, law: Law, s: Door, step: Step) {
    match step
    case EndBody(r, _) =>
      AtPut(s, r, Receiving) && law.covered(s.reqs[r].name) && !s.reqs[r].name.obao
      && env.b3(s.reqs[r].body) == s.reqs[r].name.hash ==>
        law.right(s.reqs[r].name, s.reqs[r].body)
    case Head(r, answered, _) =>
      GoesOn(s, r, answered) && law.covered(s.reqs[r].name) && s.reqs[r].name.obao ==>
        law.right(s.reqs[r].name, s.reqs[r].body)
    case _ => true
  }

  /** What the law needs of a step: nothing, but at the end of a stream and where a body is checked. */
  predicate Sound(env: Env, law: Law, s: Door, step: Step) {
    (step.EndStream? ==> EndsWhole(law, s, step.r)) && BodyRight(env, law, s, step)
  }

  // Framing: a request is unaffected by other requests' files and by the store growing.

  lemma RequestFrame(law: Law, q: Request, store: Files, incoming: map<nat, seq<Byte>>, store': Files,
                     incoming': map<nat, seq<Byte>>)
    requires RequestOk(law, store, incoming, q) && StoreGrows(law, store, store')
    requires Tok(q).Some? && Tok(q).value in incoming ==> HasFile(incoming', Tok(q).value, incoming[Tok(q).value])
    ensures RequestOk(law, store', incoming', q)
  {
  }

  /** The other requests, when r touches only its own incoming file. */
  lemma OthersFrame(law: Law, s: Door, r: nat, store': Files, incoming': map<nat, seq<Byte>>)
    requires Inv(law, s) && StoreGrows(law, s.store, store')
    requires forall r' :: r' in s.reqs && r' != r && Tok(s.reqs[r']).Some? && Tok(s.reqs[r']).value in s.incoming
                          ==> HasFile(incoming', Tok(s.reqs[r']).value, s.incoming[Tok(s.reqs[r']).value])
    ensures forall r' :: r' in s.reqs && r' != r ==> RequestOk(law, store', incoming', s.reqs[r'])
  {
    forall r' | r' in s.reqs && r' != r
      ensures RequestOk(law, store', incoming', s.reqs[r'])
    {
      RequestFrame(law, s.reqs[r'], s.store, s.incoming, store', incoming');
    }
  }

  /** Rewriting r's own request, with nothing else touched but r's own incoming file. */
  lemma UpdateKeeps(law: Law, s: Door, r: nat, q: Request, incoming': map<nat, seq<Byte>>)
    requires Inv(law, s) && r in s.reqs
    requires Tok(q) == Tok(s.reqs[r]) || Tok(q).None?
    requires forall t :: t in incoming' ==> t in s.incoming
    requires forall t :: t in s.incoming && Some(t) != Tok(s.reqs[r]) ==> HasFile(incoming', t, s.incoming[t])
    requires RequestOk(law, s.store, incoming', q)
    ensures Inv(law, Update(s, r, q).(incoming := incoming'))
  {
    OthersFrame(law, s, r, s.store, incoming');
  }

  /** Ending a request, whether or not its file could be unlinked. */
  lemma CloseKeeps(law: Law, s: Door, r: nat, unlinked: bool)
    requires Inv(law, s) && r in s.reqs
    ensures Inv(law, Close(s, r, unlinked))
  {
    OthersFrame(law, s, r, s.store, Close(s, r, unlinked).incoming);
  }

  lemma LogKeeps(law: Law, s: Door, e: Event)
    requires Inv(law, s)
    requires e.Absent? ==> e.name !in s.store
    requires !e.Absent? ==> Canonical(law, s.store, e.name, e.bytes)
    ensures Inv(law, Log(s, e))
  {
  }

  lemma LeaveKeeps(law: Law, s: Door, r: nat, unlinked: bool)
    requires Inv(law, s) && r in s.reqs && TurnOf(s.reqs[r]).Some?
    ensures Inv(law, Leave(s, r, unlinked))
  {
    var q := s.reqs[r];
    CloseKeeps(law, s, r, unlinked);
    if q.Put? { LogKeeps(law, Close(s, r, unlinked), Acked(q.name, q.body)); }
  }

  /** A new request with a fresh incoming file, or with none. */
  lemma StartKeeps(law: Law, s: Door, r: nat, q: Request)
    requires Inv(law, s) && (r in s.reqs ==> Tok(s.reqs[r]).None?)
    requires Tok(q) == Some(s.nextTok) && RequestOk(law, s.store, s.incoming[s.nextTok := []], q)
    ensures Inv(law, Update(s, r, q).(incoming := s.incoming[s.nextTok := []], nextTok := s.nextTok + 1))
  {
    OthersFrame(law, s, r, s.store, s.incoming[s.nextTok := []]);
  }

  lemma PutKeeps(env: Env, law: Law, s: Door, step: Step)
    requires Inv(law, s) && Unique(law) && Sound(env, law, s, step)
    requires step.StartPut? || step.Chunk? || step.EndBody? || step.Head? || step.Confirm?
    ensures Inv(law, Apply(env, s, step))
  {
    match step
    case StartPut(r, name, created) =>
      if r !in s.reqs && created { StartKeeps(law, s, r, Put(name, s.nextTok, [], Receiving)); }
    case Chunk(r, bytes) =>
      if AtPut(s, r, Receiving) {
        var q := s.reqs[r];
        UpdateKeeps(law, s, r, q.(body := q.body + bytes), s.incoming[q.ptok := q.body + bytes]);
      }
    case EndBody(r, unlinked) =>
      if AtPut(s, r, Receiving) {
        UpdateOrClose(law, s, r, s.reqs[r].(pstage := Received), unlinked);
      }
    case Head(r, answered, unlinked) =>
      if AtPut(s, r, Received) {
        var q := s.reqs[r];
        if GoesOn(s, r, answered) { StoredIsBody(law, s, q); }
        UpdateOrClose(law, s, r, q.(pstage := Writing), unlinked);
        UpdateOrClose(law, s, r, q.(pstage := PutAdmit(Waiting)), unlinked);
      }
    case Confirm(r, answered, unlinked) =>
      if AtPut(s, r, Confirming) {
        var q := s.reqs[r];
        StoredIsBody(law, s, q);
        UpdateOrClose(law, s, r, q.(pstage := PutAdmit(Waiting)), unlinked);
      }
  }

  lemma UpdateOrClose(law: Law, s: Door, r: nat, q: Request, unlinked: bool)
    requires Inv(law, s) && r in s.reqs && Tok(q) == Tok(s.reqs[r])
    ensures RequestOk(law, s.store, s.incoming, q) ==> Inv(law, Update(s, r, q))
    ensures Inv(law, Close(s, r, unlinked))
  {
    if RequestOk(law, s.store, s.incoming, q) {
      UpdateKeeps(law, s, r, q, s.incoming);
      assert Update(s, r, q).(incoming := s.incoming) == Update(s, r, q);
    }
    CloseKeeps(law, s, r, unlinked);
  }

  /** A right body that is in the store under its name is what the store holds. */
  lemma StoredIsBody(law: Law, s: Door, q: Request)
    requires Inv(law, s) && Unique(law) && q.Put? && (law.covered(q.name) ==> law.right(q.name, q.body))
    ensures q.name in s.store ==> Canonical(law, s.store, q.name, q.body)
  {
  }

  lemma PutPathKeeps(law: Law, s: Door, r: nat, applied: bool, ok: bool, unlinked: bool)
    requires Inv(law, s) && Unique(law)
    ensures Inv(law, DoPutPath(s, r, applied, ok, unlinked))
  {
    if AtPut(s, r, Writing) {
      var q := s.reqs[r];
      var t := if applied then s.(store := s.store[q.name := q.body]) else s;
      StoredIsBody(law, s, q);
      assert StoreGrows(law, s.store, t.store);
      OthersFrame(law, s, r, t.store, s.incoming);
      assert Inv(law, t);
      UpdateOrClose(law, t, r, q.(pstage := Confirming), unlinked);
    }
  }

  lemma LookKeeps(env: Env, law: Law, s: Door, step: Step)
    requires Inv(law, s) && (step.StartGet? || step.Stat?)
    ensures Inv(law, Apply(env, s, step))
  {
    match step
    case StartGet(r, name) =>
    case Stat(r) =>
      if AtGet(s, r) && s.reqs[r].gstage.Looking? {
        UpdateOrClose(law, s, r, s.reqs[r].(gstage := Seen), false);
        UpdateOrClose(law, s, r, s.reqs[r].(gstage := Missed), false);
      }
  }

  lemma ReadKeeps(env: Env, law: Law, s: Door, step: Step)
    requires Inv(law, s) && (step.Open? || step.FinishRead?)
    ensures Inv(law, Apply(env, s, step))
  {
    match step
    case Open(r) =>
      if AtGet(s, r) && s.reqs[r].gstage.Seen? {
        var q := s.reqs[r];
        UpdateOrClose(law, s, r, q.(gstage := Missed), false);
        if q.name in s.objects { UpdateOrClose(law, s, r, q.(gstage := Reading(s.objects[q.name])), false); }
      }
    case FinishRead(r) =>
      if AtGet(s, r) && s.reqs[r].gstage.Reading? {
        CloseKeeps(law, s, r, false);
        LogKeeps(law, Close(s, r, false), Served(s.reqs[r].name, s.reqs[r].gstage.file));
      }
  }

  lemma FetchKeeps(env: Env, law: Law, s: Door, r: nat, answered: bool, lengthKnown: bool, created: bool)
    requires Inv(law, s)
    ensures Inv(law, DoFetch(env, s, r, answered, lengthKnown, created))
  {
    if AtGet(s, r) && s.reqs[r].gstage.Missed? {
      var q := s.reqs[r];
      CloseKeeps(law, s, r, false);
      if q.name in s.store {
        var content := s.store[q.name];
        var reported := if lengthKnown then |content| else 0;
        UpdateOrClose(law, s, r, q.(gstage := Passing(content, reported, 0)), false);
        StartKeeps(law, s, r, q.(gstage := Filling(s.nextTok, content, reported, 0, true)));
      } else {
        LogKeeps(law, Close(s, r, false), Absent(q.name));
      }
    }
  }

  /** One more piece of a fill, written whole, in part or not at all. */
  lemma FillKeeps(law: Law, s: Door, r: nat, n: nat, kept: nat, wrote: bool)
    requires Inv(law, s) && AtGet(s, r) && s.reqs[r].gstage.Filling? && s.reqs[r].gstage.tok in s.incoming
    requires s.reqs[r].gstage.sent + n <= |s.reqs[r].gstage.content| && kept <= n
    requires s.reqs[r].gstage.ok && wrote ==> kept == n
    ensures Inv(law, FillPiece(s, r, n, kept, wrote))
  {
    var q := s.reqs[r];
    var g := q.gstage;
    var q' := q.(gstage := Filling(g.tok, g.content, g.reported, g.sent + n, g.ok && wrote));
    var bytes := s.incoming[g.tok] + g.content[g.sent..g.sent + kept];
    assert FillPiece(s, r, n, kept, wrote) == Update(s, r, q').(incoming := s.incoming[g.tok := bytes]);
    FillRequestOk(law, s.store, s.incoming, q, n, kept, wrote);
    FileGrows(law, s, r, q', g.tok, bytes);
  }

  lemma FileGrows(law: Law, s: Door, r: nat, q: Request, tok: nat, bytes: seq<Byte>)
    requires Inv(law, s) && r in s.reqs && Tok(s.reqs[r]) == Some(tok) && Tok(q) == Some(tok) && tok in s.incoming
    requires RequestOk(law, s.store, s.incoming[tok := bytes], q)
    ensures Inv(law, Update(s, r, q).(incoming := s.incoming[tok := bytes]))
  {
    UpdateKeeps(law, s, r, q, s.incoming[tok := bytes]);
  }

  lemma FillRequestOk(law: Law, store: Files, incoming: map<nat, seq<Byte>>, q: Request, n: nat, kept: nat, wrote: bool)
    requires RequestOk(law, store, incoming, q) && q.Get? && q.gstage.Filling? && q.gstage.tok in incoming
    requires q.gstage.sent + n <= |q.gstage.content| && kept <= n && (q.gstage.ok && wrote ==> kept == n)
    ensures var g := q.gstage;
            RequestOk(law, store, incoming[g.tok := incoming[g.tok] + g.content[g.sent..g.sent + kept]],
                      q.(gstage := Filling(g.tok, g.content, g.reported, g.sent + n, g.ok && wrote)))
  {
    var g := q.gstage;
    assert g.content[..g.sent] + g.content[g.sent..g.sent + n] == g.content[..g.sent + n];
  }

  lemma PassKeeps(law: Law, s: Door, r: nat, n: nat)
    requires Inv(law, s) && AtGet(s, r) && s.reqs[r].gstage.Passing?
    requires s.reqs[r].gstage.sent + n <= |s.reqs[r].gstage.content|
    ensures Inv(law, PassPiece(s, r, n))
  {
    var g := s.reqs[r].gstage;
    UpdateOrClose(law, s, r, s.reqs[r].(gstage := Passing(g.content, g.reported, g.sent + n)), false);
  }

  lemma DeliverKeeps(law: Law, s: Door, r: nat, n: nat, wrote: bool, partial: nat)
    requires Inv(law, s)
    ensures Inv(law, DoDeliver(s, r, n, wrote, partial))
  {
    if AtGet(s, r) {
      var g := s.reqs[r].gstage;
      if g.Filling? && g.sent + n <= |g.content| && g.tok in s.incoming {
        FillKeeps(law, s, r, n, Written(g.ok, wrote, n, partial), wrote);
      } else if g.Passing? && g.sent + n <= |g.content| {
        PassKeeps(law, s, r, n);
      }
    }
  }

  lemma WholeStream(law: Law, store: Files, name: Name, content: seq<Byte>, reported: nat, sent: nat)
    requires StreamOk(law, store, name, content, reported, sent) && LengthAgrees(reported, sent)
    requires law.covered(name) && reported == 0 ==> sent == |content|
    ensures Canonical(law, store, name, content[..sent])
  {
    assert content[..|content|] == content;
  }

  lemma EndStreamKeeps(law: Law, s: Door, r: nat, synced: bool, unlinked: bool)
    requires Inv(law, s) && EndsWhole(law, s, r)
    ensures Inv(law, DoEndStream(s, r, synced, unlinked))
  {
    if AtGet(s, r) {
      var q := s.reqs[r];
      match q.gstage
      case Filling(tok, content, reported, sent, ok) =>
        CloseKeeps(law, s, r, unlinked);
        if LengthAgrees(reported, sent) {
          WholeStream(law, s.store, q.name, content, reported, sent);
          var t := Log(s, Served(q.name, content[..sent]));
          LogKeeps(law, s, Served(q.name, content[..sent]));
          UpdateOrClose(law, t, r, Get(q.name, GetAdmit(tok, content[..sent], Waiting)), unlinked);
        }
      case Passing(content, reported, sent) =>
        CloseKeeps(law, s, r, false);
        if LengthAgrees(reported, sent) {
          WholeStream(law, s.store, q.name, content, reported, sent);
          LogKeeps(law, s, Served(q.name, content[..sent]));
          CloseKeeps(law, Log(s, Served(q.name, content[..sent])), r, false);
        }
      case _ =>
    }
  }

  lemma ShrinkKeeps(law: Law, s: Door, objects: Files, used: nat)
    requires Inv(law, s) && forall n :: n in objects ==> n in s.objects && objects[n] == s.objects[n]
    ensures Inv(law, s.(objects := objects, used := used))
  {
  }

  lemma TurnKeeps(law: Law, s: Door, r: nat, turn: Turn)
    requires Inv(law, s) && AtTurn(s, r) && turn != Renamed && TurnOf(s.reqs[r]) != Some(Renamed)
    ensures Inv(law, Update(s, r, WithTurn(s.reqs[r], turn)))
  {
    UpdateOrClose(law, s, r, WithTurn(s.reqs[r], turn), false);
  }

  lemma AcquireKeeps(law: Law, s: Door, r: nat)
    requires Inv(law, s)
    ensures Inv(law, DoAcquire(s, r))
  {
    if AtTurn(s, r) && TurnOf(s.reqs[r]) == Some(Waiting) { TurnKeeps(law, s, r, Checking); }
  }

  lemma CheckKeeps(env: Env, law: Law, s: Door, r: nat, listed: bool, listing: seq<Name>, accessed: Name -> int,
                   unlinked: bool)
    requires Inv(law, s)
    ensures Inv(law, DoCheck(env, s, r, listed, listing, accessed, unlinked))
  {
    if AtTurn(s, r) && TurnOf(s.reqs[r]) == Some(Checking) {
      LeaveKeeps(law, s, r, unlinked);
      TurnKeeps(law, s, r, Evicting([]));
      TurnKeeps(law, s, r, Evicting(Sort(accessed, listing)));
    }
  }

  lemma CountKeeps(law: Law, s: Door, r: nat)
    requires Inv(law, s)
    ensures Inv(law, DoCount(s, r)) && Inv(law, DoDropRenamed(s, r))
  {
    if AtTurn(s, r) {
      LeaveKeeps(law, s.(used := s.used + |Payload(s.reqs[r])|), r, true);
      CloseKeeps(law, s, r, true);
    }
  }

  lemma EvictNextKeeps(env: Env, law: Law, s: Door, r: nat, removed: bool)
    requires Inv(law, s)
    ensures Inv(law, DoEvictNext(env, s, r, removed))
  {
    if MustEvict(env, s, r) {
      var queue := TurnOf(s.reqs[r]).value.queue;
      var d := EvictOne(Disk(s.objects, s.used), queue[0], removed);
      TurnKeeps(law, s, r, Evicting(queue[1..]));
      ShrinkKeeps(law, Update(s, r, WithTurn(s.reqs[r], Evicting(queue[1..]))), d.objects, d.used);
    }
  }

  lemma DropEvictingKeeps(env: Env, law: Law, s: Door, r: nat, removed: bool, unlinked: bool)
    requires Inv(law, s)
    ensures Inv(law, DoDropEvicting(env, s, r, removed, unlinked))
  {
    if AtTurn(s, r) {
      CloseKeeps(law, s, r, unlinked);
      if MustEvict(env, s, r) {
        var t := s.(objects := s.objects - {TurnOf(s.reqs[r]).value.queue[0]});
        ShrinkKeeps(law, s, t.objects, s.used);
        CloseKeeps(law, t, r, unlinked);
      }
    }
  }

  lemma RenameKeeps(env: Env, law: Law, s: Door, r: nat, renamed: bool, unlinked: bool)
    requires Inv(law, s)
    ensures Inv(law, DoRename(env, s, r, renamed, unlinked))
  {
    if AtTurn(s, r) && TurnOf(s.reqs[r]).value.Evicting? {
      var q := s.reqs[r];
      LeaveKeeps(law, s, r, unlinked);
      var tok := Tok(q).value;
      UpdateKeeps(law, s, r, WithTurn(q, Renamed), s.incoming - {tok});
      var t := Update(s, r, WithTurn(q, Renamed)).(incoming := s.incoming - {tok});
      PublishKeeps(law, t, q.name, s.incoming[tok]);
    }
  }

  lemma PublishKeeps(law: Law, s: Door, name: Name, bytes: seq<Byte>)
    requires Inv(law, s) && Canonical(law, s.store, name, bytes)
    ensures Inv(law, s.(objects := s.objects[name := bytes]))
  {
  }

  lemma RestartKeeps(law: Law, s: Door, survivors: set<Name>, stuck: set<nat>, unread: set<Name>)
    requires Inv(law, s)
    ensures Inv(law, DoRestart(s, survivors, stuck, unread))
  {
    var objects := s.objects - (s.objects.Keys - survivors);
    ShrinkKeeps(law, s, objects, Sizes.Total(objects));
  }

  /** Admission steps that only decide and count. */
  predicate OnLock(step: Step) {
    step.Acquire? || step.Check? || step.Count? || step.DropRenamed?
  }

  /** Admission steps, and restarts, that move cached files. */
  predicate OnFiles(step: Step) {
    step.EvictNext? || step.DropEvicting? || step.Rename? || step.Restart?
  }

  lemma LockStepKeeps(env: Env, law: Law, s: Door, step: Step)
    requires Inv(law, s) && OnLock(step)
    ensures Inv(law, Apply(env, s, step))
  {
    match step
    case Acquire(r) => AcquireKeeps(law, s, r);
    case Check(r, listed, listing, accessed, unlinked) =>
      CheckKeeps(env, law, s, r, listed, listing, accessed, unlinked);
    case Count(r) => CountKeeps(law, s, r);
    case DropRenamed(r) => CountKeeps(law, s, r);
  }

  lemma EvictStepKeeps(env: Env, law: Law, s: Door, step: Step)
    requires Inv(law, s) && (step.EvictNext? || step.DropEvicting?)
    ensures Inv(law, Apply(env, s, step))
  {
    match step
    case EvictNext(r, removed) => EvictNextKeeps(env, law, s, r, removed);
    case DropEvicting(r, removed, unlinked) => DropEvictingKeeps(env, law, s, r, removed, unlinked);
  }

  lemma RenameStepKeeps(env: Env, law: Law, s: Door, step: Step)
    requires Inv(law, s) && step.Rename?
    ensures Inv(law, Apply(env, s, step))
  {
    RenameKeeps(env, law, s, step.r, step.renamed, step.unlinked);
  }

  lemma RestartStepIs(env: Env, s: Door, step: Step)
    requires step.Restart?
    ensures Apply(env, s, step) == DoRestart(s, step.survivors, step.stuck, step.unread)
  {
  }

  lemma RestartStepKeeps(env: Env, law: Law, s: Door, step: Step)
    requires Inv(law, s) && step.Restart?
    ensures Inv(law, Apply(env, s, step))
  {
    RestartStepIs(env, s, step);
    RestartKeeps(law, s, step.survivors, step.stuck, step.unread);
  }

  lemma AbandonKeeps(law: Law, s: Door, r: nat, unlinked: bool)
    requires Inv(law, s)
    ensures Inv(law, DoAbandon(s, r, unlinked))
  {
    if r in s.reqs { CloseKeeps(law, s, r, unlinked); }
  }

  lemma TransferStepKeeps(env: Env, law: Law, s: Door, step: Step)
    requires Inv(law, s) && Unique(law) && !OnLock(step) && !OnFiles(step) && Sound(env, law, s, step)
    ensures Inv(law, Apply(env, s, step))
  {
    match step
    case PutPath(r, applied, ok, unlinked) => PutPathKeeps(law, s, r, applied, ok, unlinked);
    case Deliver(r, n, wrote, partial) => DeliverKeeps(law, s, r, n, wrote, partial);
    case EndStream(r, synced, unlinked) => EndStreamKeeps(law, s, r, synced, unlinked);
    case Abandon(r, unlinked) => AbandonKeeps(law, s, r, unlinked);
    case StartPut(_, _, _) => PutKeeps(env, law, s, step);
    case Chunk(_, _) => PutKeeps(env, law, s, step);
    case EndBody(_, _) => PutKeeps(env, law, s, step);
    case Head(_, _, _) => PutKeeps(env, law, s, step);
    case Confirm(_, _, _) => PutKeeps(env, law, s, step);
    case StartGet(_, _) => LookKeeps(env, law, s, step);
    case Stat(_) => LookKeeps(env, law, s, step);
    case Open(_) => ReadKeeps(env, law, s, step);
    case FinishRead(_) => ReadKeeps(env, law, s, step);
    case Fetch(r, answered, lengthKnown, created) => FetchKeeps(env, law, s, r, answered, lengthKnown, created);
  }

  lemma StepKeeps(env: Env, law: Law, s: Door, step: Step)
    requires Inv(law, s) && Unique(law) && Sound(env, law, s, step)
    ensures Inv(law, Apply(env, s, step))
  {
    if OnLock(step) {
      LockStepKeeps(env, law, s, step);
    } else if step.Rename? {
      RenameStepKeeps(env, law, s, step);
    } else if step.Restart? {
      RestartStepKeeps(env, law, s, step);
    } else if OnFiles(step) {
      EvictStepKeeps(env, law, s, step);
    } else {
      TransferStepKeeps(env, law, s, step);
    }
  }

  // Whole runs.

  /** A door just opened on a cache directory: counted, and no request under way. */
  ghost predicate Opened(s: Door) {
    && s.reqs == map[] && s.lock == None && s.log == []
    && s.used == Sizes.Total(s.objects) && forall t :: t in s.incoming ==> t < s.nextTok
  }

  ghost predicate SoundRun(env: Env, law: Law, s: Door, steps: seq<Step>) {
    forall i :: 0 <= i < |steps| ==> Sound(env, law, Run(env, s, steps[..i]), steps[i])
  }

  lemma OpenedKeeps(law: Law, s: Door)
    requires Opened(s) && StoreOk(law, s.store) && CacheAgrees(law, s)
    ensures Inv(law, s)
  {
  }

  /** The run up to its last step, and that step. */
  lemma SoundFront(env: Env, law: Law, s: Door, steps: seq<Step>)
    requires steps != [] && SoundRun(env, law, s, steps)
    ensures var k := |steps| - 1;
            SoundRun(env, law, s, steps[..k]) && Sound(env, law, Run(env, s, steps[..k]), steps[k])
  {
    var k := |steps| - 1;
    var front := steps[..k];
    forall i | 0 <= i < k ensures Sound(env, law, Run(env, s, front[..i]), front[i]) {
      assert front[..i] == steps[..i] && front[i] == steps[i];
    }
  }

  lemma {:induction false} RunKeeps(env: Env, law: Law, s: Door, steps: seq<Step>)
    requires Unique(law) && Opened(s) && StoreOk(law, s.store) && CacheAgrees(law, s) && SoundRun(env, law, s, steps)
    ensures Inv(law, Run(env, s, steps))
    decreases |steps|
  {
    if steps == [] {
      OpenedKeeps(law, s);
    } else {
      var k := |steps| - 1;
      SoundFront(env, law, s, steps);
      RunKeeps(env, law, s, steps[..k]);
      StepKeeps(env, law, Run(env, s, steps[..k]), steps[k]);
    }
  }
}
