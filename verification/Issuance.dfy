/**
 Any number of `verify_and_issue` calls against one store, interleaved step by
 step with issuing, lost commits and restarts.
 */
module Issuance {
  import opened Bytes
  import opened Options
  import opened BindEncoding
  import Cbor
  import opened DirectChallenge

  /** How far a call has come. */
  datatype Progress =
    | Verifying(call: Call, nonce: seq<Byte>, asked: nat, staged: bool)
    | Ready(call: Call, grant: Grant)

  datatype Event =
    | Issued(call: Call, grant: Grant, expires: nat, credential: seq<Byte>)
    | Failed(call: Call, error: Error)

  datatype System = System(book: Book, calls: map<nat, Progress>, log: seq<Event>)

  datatype Step =
    | IssueChallenge(bytes: seq<Byte>, expires: nat)
    | Begin(id: nat, call: Call)
    | TakeNonce(id: nat)
    | Settle(id: nat)
    | CommitGrant(id: nat, lost: bool)
    | Restart

  function Fail(s: System, id: nat, call: Call, e: Error): (s': System) {
    s.(calls := s.calls - {id}, log := s.log + [Failed(call, e)])
  }

  function DoIssue(s: System, bytes: seq<Byte>, expires: nat): (s': System) {
    if bytes in s.book.issued then s
    else s.(book := s.book.(issued := s.book.issued[bytes := Entry(expires, None)]))
  }

  function DoBegin(crypto: Crypto, s: System, id: nat, call: Call): (s': System) {
    if id in s.calls then s
    else
      match crypto.parse(call.response.challengeBytes)
      case None => Fail(s, id, call, Identity(Upstream))
      case Some(challenge) => s.(calls := s.calls[id := Verifying(call, challenge.nonce, 0, false)])
  }

  function ScriptOf(crypto: Crypto, call: Call): (script: Script) {
    crypto.identify(call.response, call.edge, call.now)
  }

  function DoTakeNonce(crypto: Crypto, s: System, id: nat): (s': System) {
    if id !in s.calls || !s.calls[id].Verifying? then s
    else
      var p := s.calls[id];
      var consumes := ScriptOf(crypto, p.call).consumes;
      if p.asked >= |consumes| then s
      else
        match Stage(s.book, p.call.response.challengeBytes, p.nonce, p.staged, consumes[p.asked])
        case Some(e) => Fail(s, id, p.call, Identity(e))
        case None => s.(calls := s.calls[id := Verifying(p.call, p.nonce, p.asked + 1, true)])
  }

  /** Identity verdict, bind, channel and policy: nothing here touches the store. */
  function DoSettle(crypto: Crypto, s: System, id: nat): (s': System) {
    if id !in s.calls || !s.calls[id].Verifying?
       || s.calls[id].asked < |ScriptOf(crypto, s.calls[id].call).consumes| then s
    else
      var call := s.calls[id].call;
      match ScriptOf(crypto, call).verdict
      case None => Fail(s, id, call, Identity(Upstream))
      case Some(identity) =>
        match Decide(crypto, call, identity)
        case Err(e) => Fail(s, id, call, e)
        case Ok(grant) => s.(calls := s.calls[id := Ready(call, grant)])
  }

  /** The recheck and both writes, under the store's lock; a loss before the commit changes nothing. */
  function DoCommit(s: System, id: nat, lost: bool): (s': System) {
    if id !in s.calls || !s.calls[id].Ready? then s
    else
      var call, grant := s.calls[id].call, s.calls[id].grant;
      var bytes := call.response.challengeBytes;
      match CheckIssued(s.book, bytes, call.now)
      case Some(e) => Fail(s, id, call, e)
      case None =>
        if lost then Fail(s, id, call, Error.Commit)
        else System(Recorded(s.book, bytes, grant), s.calls - {id},
                    s.log + [Issued(call, grant, s.book.issued[bytes].expires, CredentialName(|s.book.credentials|))])
  }

  function Apply(crypto: Crypto, s: System, step: Step): (s': System) {
    match step
    case IssueChallenge(bytes, expires) => DoIssue(s, bytes, expires)
    case Begin(id, call) => DoBegin(crypto, s, id, call)
    case TakeNonce(id) => DoTakeNonce(crypto, s, id)
    case Settle(id) => DoSettle(crypto, s, id)
    case CommitGrant(id, lost) => DoCommit(s, id, lost)
    case Restart => s.(calls := map[])
  }

  function Run(crypto: Crypto, s: System, steps: seq<Step>): (s': System)
    decreases |steps|
  {
    if steps == [] then s
    else Apply(crypto, Run(crypto, s, steps[..|steps| - 1]), steps[|steps| - 1])
  }

  const START := System(Book(map[], []), map[], [])

  // The invariant.

  function ChallengeOf(e: Event): (bytes: seq<Byte>) {
    e.call.response.challengeBytes
  }

  /** The credentials handed out, oldest first. */
  function Wins(log: seq<Event>): (w: seq<Event>)
    ensures forall i :: 0 <= i < |w| ==> w[i].Issued?
  {
    if log == [] then []
    else
      var e := log[|log| - 1];
      Wins(log[..|log| - 1]) + (if e.Issued? then [e] else [])
  }

  lemma WinsAppend(log: seq<Event>, e: Event)
    ensures Wins(log + [e]) == if e.Issued? then Wins(log) + [e] else Wins(log)
  {
    assert (log + [e])[..|log|] == log;
  }

  lemma {:induction false} WinsComplete(log: seq<Event>, i: nat, j: nat)
    requires i < j < |log| && log[i].Issued? && log[j].Issued?
    ensures exists a, b :: 0 <= a < b < |Wins(log)| && Wins(log)[a] == log[i] && Wins(log)[b] == log[j]
    decreases |log|
  {
    var k := |log| - 1;
    var rest := log[..k];
    if j < k {
      WinsComplete(rest, i, j);
      var a, b :| 0 <= a < b < |Wins(rest)| && Wins(rest)[a] == rest[i] && Wins(rest)[b] == rest[j];
      assert Wins(log)[a] == log[i] && Wins(log)[b] == log[j];
    } else {
      WinsHas(rest, i);
      var a :| 0 <= a < |Wins(rest)| && Wins(rest)[a] == rest[i];
      assert Wins(log)[a] == log[i] && Wins(log)[|Wins(rest)|] == log[j];
    }
  }

  lemma {:induction false} WinsHas(log: seq<Event>, i: nat)
    requires i < |log| && log[i].Issued?
    ensures exists a :: 0 <= a < |Wins(log)| && Wins(log)[a] == log[i]
    decreases |log|
  {
    var k := |log| - 1;
    if i == k {
      assert Wins(log)[|Wins(log[..k])|] == log[i];
    } else {
      WinsHas(log[..k], i);
      var a :| 0 <= a < |Wins(log[..k])| && Wins(log[..k])[a] == log[..k][i];
      assert Wins(log)[a] == log[i];
    }
  }

  /** Credential and consumption, win by win. */
  predicate Matched(book: Book, wins: seq<Event>)
    requires forall i :: 0 <= i < |wins| ==> wins[i].Issued?
  {
    && |wins| == |book.credentials|
    && (forall i :: 0 <= i < |wins| ==> wins[i].credential == book.credentials[i] == CredentialName(i))
    && (forall i :: 0 <= i < |wins| ==>
          ChallengeOf(wins[i]) in book.issued
          && book.issued[ChallengeOf(wins[i])] == Entry(wins[i].expires, Some(wins[i].grant)))
    && (forall i, j :: 0 <= i < j < |wins| ==> ChallengeOf(wins[i]) != ChallengeOf(wins[j]))
  }

  /** Every consumed challenge has its win. */
  ghost predicate AllWon(book: Book, wins: seq<Event>) {
    forall bytes :: bytes in book.issued && book.issued[bytes].grant.Some? ==>
      exists i :: 0 <= i < |wins| && ChallengeOf(wins[i]) == bytes
  }

  predicate Deserved(crypto: Crypto, wins: seq<Event>)
    requires forall i :: 0 <= i < |wins| ==> wins[i].Issued?
  {
    forall i :: 0 <= i < |wins| ==> Earned(crypto, wins[i].call, wins[i].grant) && wins[i].call.now <= wins[i].expires
  }

  predicate ProgressOk(crypto: Crypto, p: Progress) {
    match p
    case Verifying(call, nonce, _, _) =>
      crypto.parse(call.response.challengeBytes).Some?
          && crypto.parse(call.response.challengeBytes).value.nonce == nonce
    case Ready(call, grant) => Earned(crypto, call, grant)
  }

  predicate CallsOk(crypto: Crypto, calls: map<nat, Progress>) {
    forall id :: id in calls ==> ProgressOk(crypto, calls[id])
  }

  ghost predicate Inv(crypto: Crypto, s: System) {
    && CallsOk(crypto, s.calls)
    && Matched(s.book, Wins(s.log)) && AllWon(s.book, Wins(s.log)) && Deserved(crypto, Wins(s.log))
  }

  lemma FailKeeps(crypto: Crypto, s: System, id: nat, call: Call, e: Error)
    requires Inv(crypto, s)
    ensures Inv(crypto, Fail(s, id, call, e))
  {
    WinsAppend(s.log, Failed(call, e));
  }

  lemma IssueKeeps(crypto: Crypto, s: System, bytes: seq<Byte>, expires: nat)
    requires Inv(crypto, s)
    ensures Inv(crypto, DoIssue(s, bytes, expires))
  {
  }

  lemma BeginKeeps(crypto: Crypto, s: System, id: nat, call: Call)
    requires Inv(crypto, s)
    ensures Inv(crypto, DoBegin(crypto, s, id, call))
  {
    FailKeeps(crypto, s, id, call, Identity(Upstream));
  }

  lemma TakeNonceKeeps(crypto: Crypto, s: System, id: nat)
    requires Inv(crypto, s)
    ensures Inv(crypto, DoTakeNonce(crypto, s, id))
  {
    if id in s.calls && s.calls[id].Verifying? {
      var p := s.calls[id];
      var consumes := ScriptOf(crypto, p.call).consumes;
      if p.asked < |consumes| {
        var e := Stage(s.book, p.call.response.challengeBytes, p.nonce, p.staged, consumes[p.asked]);
        if e.Some? { FailKeeps(crypto, s, id, p.call, Identity(e.value)); }
      }
    }
  }

  lemma SettleKeeps(crypto: Crypto, s: System, id: nat)
    requires Inv(crypto, s)
    ensures Inv(crypto, DoSettle(crypto, s, id))
  {
    if id in s.calls && s.calls[id].Verifying? && s.calls[id].asked >= |ScriptOf(crypto, s.calls[id].call).consumes| {
      var call := s.calls[id].call;
      var verdict := ScriptOf(crypto, call).verdict;
      if verdict.None? {
        FailKeeps(crypto, s, id, call, Identity(Upstream));
      } else {
        var d := Decide(crypto, call, verdict.value);
        if d.Err? { FailKeeps(crypto, s, id, call, d.error); } else { DecideIff(crypto, call, d.value); }
      }
    }
  }

  lemma RecordKeeps(book: Book, wins: seq<Event>, win: Event)
    requires forall i :: 0 <= i < |wins| ==> wins[i].Issued?
    requires Matched(book, wins) && AllWon(book, wins) && win.Issued?
    requires ChallengeOf(win) in book.issued && book.issued[ChallengeOf(win)] == Entry(win.expires, None)
    requires win.credential == CredentialName(|book.credentials|)
    ensures Matched(Recorded(book, ChallengeOf(win), win.grant), wins + [win])
    ensures AllWon(Recorded(book, ChallengeOf(win), win.grant), wins + [win])
  {
    var next, all := Recorded(book, ChallengeOf(win), win.grant), wins + [win];
    forall bytes | bytes in next.issued && next.issued[bytes].grant.Some?
      ensures exists i :: 0 <= i < |all| && ChallengeOf(all[i]) == bytes
    {
      if bytes == ChallengeOf(win) {
        assert ChallengeOf(all[|wins|]) == bytes;
      } else {
        var i :| 0 <= i < |wins| && ChallengeOf(wins[i]) == bytes;
        assert ChallengeOf(all[i]) == bytes;
      }
    }
  }

  lemma DeservedGrows(crypto: Crypto, wins: seq<Event>, win: Event)
    requires forall i :: 0 <= i < |wins| ==> wins[i].Issued?
    requires Deserved(crypto, wins) && win.Issued? && Earned(crypto, win.call, win.grant) && win.call.now <= win.expires
    ensures Deserved(crypto, wins + [win])
  {
  }

  lemma CallsShrink(crypto: Crypto, calls: map<nat, Progress>, id: nat)
    requires CallsOk(crypto, calls)
    ensures CallsOk(crypto, calls - {id})
  {
  }

  function WinOf(s: System, call: Call, grant: Grant): (e: Event)
    requires call.response.challengeBytes in s.book.issued
    ensures e.Issued?
  {
    Issued(call, grant, s.book.issued[call.response.challengeBytes].expires, CredentialName(|s.book.credentials|))
  }

  lemma WinKeeps(crypto: Crypto, s: System, id: nat, call: Call, grant: Grant)
    requires Inv(crypto, s) && Earned(crypto, call, grant) && Usable(s.book, call.response.challengeBytes, call.now)
    ensures Inv(crypto, System(Recorded(s.book, call.response.challengeBytes, grant), s.calls - {id},
                               s.log + [WinOf(s, call, grant)]))
  {
    var win := WinOf(s, call, grant);
    WinsAppend(s.log, win);
    RecordKeeps(s.book, Wins(s.log), win);
    DeservedGrows(crypto, Wins(s.log), win);
    CallsShrink(crypto, s.calls, id);
  }

  lemma CommitKeeps(crypto: Crypto, s: System, id: nat, lost: bool)
    requires Inv(crypto, s)
    ensures Inv(crypto, DoCommit(s, id, lost))
  {
    if id in s.calls && s.calls[id].Ready? {
      var call, grant := s.calls[id].call, s.calls[id].grant;
      var bytes := call.response.challengeBytes;
      var e := CheckIssued(s.book, bytes, call.now);
      if e.Some? {
        FailKeeps(crypto, s, id, call, e.value);
      } else if lost {
        FailKeeps(crypto, s, id, call, Error.Commit);
      } else {
        assert ProgressOk(crypto, s.calls[id]);
        WinKeeps(crypto, s, id, call, grant);
      }
    }
  }

  lemma StepKeeps(crypto: Crypto, s: System, step: Step)
    requires Inv(crypto, s)
    ensures Inv(crypto, Apply(crypto, s, step))
  {
    match step {
      case IssueChallenge(bytes, expires) => IssueKeeps(crypto, s, bytes, expires);
      case Begin(id, call) => BeginKeeps(crypto, s, id, call);
      case TakeNonce(id) => TakeNonceKeeps(crypto, s, id);
      case Settle(id) => SettleKeeps(crypto, s, id);
      case CommitGrant(id, lost) => CommitKeeps(crypto, s, id, lost);
      case Restart => {}
    }
  }

  lemma {:induction false} RunKeeps(crypto: Crypto, steps: seq<Step>)
    ensures Inv(crypto, Run(crypto, START, steps))
    decreases |steps|
  {
    if steps != [] {
      RunKeeps(crypto, steps[..|steps| - 1]);
      StepKeeps(crypto, Run(crypto, START, steps[..|steps| - 1]), steps[|steps| - 1]);
    }
  }

  // What every run guarantees.

  lemma WinsDiffer(book: Book, wins: seq<Event>, a: nat, b: nat)
    requires forall i :: 0 <= i < |wins| ==> wins[i].Issued?
    requires Matched(book, wins) && a < b < |wins|
    ensures ChallengeOf(wins[a]) != ChallengeOf(wins[b]) && wins[a].credential != wins[b].credential
  {
    if CredentialName(a) == CredentialName(b) { CredentialNamesDiffer(a, b); }
  }

  /** One credential per challenge: two credentials answer two challenges, and are different. */
  lemma OneCredentialPerChallenge(crypto: Crypto, steps: seq<Step>, i: nat, j: nat)
    requires i < j < |Run(crypto, START, steps).log|
    requires Run(crypto, START, steps).log[i].Issued? && Run(crypto, START, steps).log[j].Issued?
    ensures var log := Run(crypto, START, steps).log;
            ChallengeOf(log[i]) != ChallengeOf(log[j]) && log[i].credential != log[j].credential
  {
    var s := Run(crypto, START, steps);
    RunKeeps(crypto, steps);
    WinsComplete(s.log, i, j);
    var a, b :| 0 <= a < b < |Wins(s.log)| && Wins(s.log)[a] == s.log[i] && Wins(s.log)[b] == s.log[j];
    WinsDiffer(s.book, Wins(s.log), a, b);
  }

  /** A challenge is consumed exactly when a credential was returned for it, by the grant recorded with it. */
  lemma ConsumedWithCredential(crypto: Crypto, steps: seq<Step>, bytes: seq<Byte>)
    ensures var s := Run(crypto, START, steps);
            (bytes in s.book.issued && s.book.issued[bytes].grant.Some?)
            <==> (exists i :: 0 <= i < |Wins(s.log)| && ChallengeOf(Wins(s.log)[i]) == bytes)
    ensures var s := Run(crypto, START, steps);
            forall i :: 0 <= i < |Wins(s.log)| && ChallengeOf(Wins(s.log)[i]) == bytes ==>
              s.book.issued[bytes].grant == Some(Wins(s.log)[i].grant)
    ensures var s := Run(crypto, START, steps); |s.book.credentials| == |Wins(s.log)|
  {
    RunKeeps(crypto, steps);
  }

  /** Every credential was earned, before the challenge expired. */
  lemma CredentialsAreEarned(crypto: Crypto, steps: seq<Step>, i: nat)
    requires i < |Run(crypto, START, steps).log| && Run(crypto, START, steps).log[i].Issued?
    ensures var s := Run(crypto, START, steps);
            var win := s.log[i];
            && Earned(crypto, win.call, win.grant)
            && win.call.now <= win.expires
            && ChallengeOf(win) in s.book.issued
                && s.book.issued[ChallengeOf(win)] == Entry(win.expires, Some(win.grant))
  {
    var s := Run(crypto, START, steps);
    RunKeeps(crypto, steps);
    WinsHas(s.log, i);
  }

  /** The call a step belongs to. */
  function CallOf(step: Step): (id: Option<nat>) {
    match step
    case Begin(id, _) => Some(id)
    case TakeNonce(id) => Some(id)
    case Settle(id) => Some(id)
    case CommitGrant(id, _) => Some(id)
    case _ => None
  }

  /** The call is new at the first step and still going after the last. */
  predicate OneCall(crypto: Crypto, s: System, steps: seq<Step>, id: nat) {
    && id !in s.calls && (steps != [] ==> id in Run(crypto, s, steps).calls)
    && forall i {:trigger steps[..i]} :: 0 < i < |steps| ==> id in Run(crypto, s, steps[..i]).calls
  }

  lemma GoingOnChangesNothing(crypto: Crypto, s: System, step: Step, id: nat)
    requires CallOf(step) == Some(id) && id in Apply(crypto, s, step).calls
    ensures Apply(crypto, s, step).book == s.book
  {
  }

  /** The step that ends a call changes the book if and only if it hands out a credential. */
  lemma EndingStep(crypto: Crypto, t: System, last: Step, id: nat)
    requires CallOf(last) == Some(id) && |Apply(crypto, t, last).log| > |t.log|
    ensures var u := Apply(crypto, t, last); u.book != t.book <==> u.log[|t.log|].Issued?
  {
  }

  /**
   Whatever other calls, challenges and restarts come between its steps: a call
   that ends has changed the book if and only if it ends in a credential, and then only by that last step.
   */
  lemma OnlyWinsChangeBook(crypto: Crypto, s: System, steps: seq<Step>, last: Step, id: nat)
    requires OneCall(crypto, s, steps, id) && CallOf(last) == Some(id)
    requires |Apply(crypto, Run(crypto, s, steps), last).log| > |Run(crypto, s, steps).log|
    ensures forall i :: 0 <= i < |steps| && CallOf(steps[i]) == Some(id) ==>
              Apply(crypto, Run(crypto, s, steps[..i]), steps[i]).book == Run(crypto, s, steps[..i]).book
    ensures var t := Run(crypto, s, steps);
            Apply(crypto, t, last).book != t.book <==> Apply(crypto, t, last).log[|t.log|].Issued?
  {
    EndingStep(crypto, Run(crypto, s, steps), last, id);
    forall i | 0 <= i < |steps| && CallOf(steps[i]) == Some(id)
      ensures Apply(crypto, Run(crypto, s, steps[..i]), steps[i]).book == Run(crypto, s, steps[..i]).book
    {
      var next := steps[..i + 1];
      assert next[..i] == steps[..i] && next[i] == steps[i];
      assert Run(crypto, s, next) == Apply(crypto, Run(crypto, s, steps[..i]), steps[i]);
      assert i + 1 == |steps| ==> next == steps;
      GoingOnChangesNothing(crypto, Run(crypto, s, steps[..i]), steps[i], id);
    }
  }

  /** The book only grows by issued challenges and by commits that report their credential. */
  lemma OnlyCommitsConsume(crypto: Crypto, s: System, step: Step)
    requires Apply(crypto, s, step).book.credentials != s.book.credentials
    ensures var t := Apply(crypto, s, step);
            && |t.log| == |s.log| + 1 && t.log[|s.log|].Issued?
            && t.book == Recorded(s.book, ChallengeOf(t.log[|s.log|]), t.log[|s.log|].grant)
            && Usable(s.book, ChallengeOf(t.log[|s.log|]), t.log[|s.log|].call.now)
  {
  }

  // What a holder's signature is worth.

  /** A key that has only ever signed these claims, under a signature scheme without forgeries. */
  ghost predicate SignedOnly(crypto: Crypto, holder: Key, claims: set<Claim>) {
    forall payload: seq<Byte>, sig: seq<Byte> :: crypto.classical(holder, payload, sig) ==>
      exists c :: c in claims && payload == SigningBytes(crypto.keyBytes, c)
  }

  /** The claim is about the challenge that was used up and about all that the credential grants. */
  predicate Meant(c: Claim, win: Event)
    requires win.Issued?
  {
    && c.challenge == win.call.response.challengeBytes
    && c.sessionKey == win.grant.bind.sessionKey
    && c.operation == win.grant.bind.operation
    && c.resource == win.grant.bind.resource
    && c.channel == win.grant.bind.channel
  }

  /** Lengths a 64-bit machine can count. */
  predicate CallFits(call: Call) {
    && |call.response.challengeBytes| < Cbor.U64 && |call.bind.sessionKey.bytes| < Cbor.U64
    && |call.bind.channel| < Cbor.U64 && Cbor.Sized(call.bind.operation) && Cbor.Sized(call.bind.resource)
  }

  /**
   No transplant: whatever the interleaving, a credential for this holder is for a
   claim the holder signed, with that challenge, session key, operation, resource and channel.
   */
  lemma CredentialsWereMeant(crypto: Crypto, steps: seq<Step>, i: nat, holder: Key, claims: set<Claim>)
    requires SelfDelimiting(crypto.keyBytes) && SignedOnly(crypto, holder, claims)
    requires forall c :: c in claims ==> Fits(c)
    requires i < |Run(crypto, START, steps).log| && Run(crypto, START, steps).log[i].Issued?
    requires Run(crypto, START, steps).log[i].grant.identity.publicKey == holder
    requires CallFits(Run(crypto, START, steps).log[i].call)
    ensures var win := Run(crypto, START, steps).log[i];
            exists c :: c in claims && Meant(c, win)
  {
    var win := Run(crypto, START, steps).log[i];
    CredentialsAreEarned(crypto, steps, i);
    var bind := win.grant.bind;
    var claim := Claim(ChallengeOf(win), bind.sessionKey, bind.operation, bind.resource, bind.channel);
    var payload := SigningBytes(crypto.keyBytes, claim);
    assert crypto.classical(holder, payload, bind.signature);
    var c :| c in claims && payload == SigningBytes(crypto.keyBytes, c);
    SigningBytesInjective(crypto.keyBytes, claim, c);
    assert Meant(c, win);
  }

  /** The holder's one signed claim yields at most one credential, whoever presents it and however often. */
  lemma OneClaimOneCredential(crypto: Crypto, steps: seq<Step>, i: nat, j: nat, holder: Key, claim: Claim)
    requires SelfDelimiting(crypto.keyBytes) && SignedOnly(crypto, holder, {claim}) && Fits(claim)
    requires i < j < |Run(crypto, START, steps).log|
    requires Run(crypto, START, steps).log[i].Issued? && Run(crypto, START, steps).log[j].Issued?
    requires CallFits(Run(crypto, START, steps).log[i].call) && CallFits(Run(crypto, START, steps).log[j].call)
    ensures !(Run(crypto, START, steps).log[i].grant.identity.publicKey == holder
              && Run(crypto, START, steps).log[j].grant.identity.publicKey == holder)
  {
    var log := Run(crypto, START, steps).log;
    OneCredentialPerChallenge(crypto, steps, i, j);
    if log[i].grant.identity.publicKey == holder && log[j].grant.identity.publicKey == holder {
      CredentialsWereMeant(crypto, steps, i, holder, {claim});
      CredentialsWereMeant(crypto, steps, j, holder, {claim});
      assert false;
    }
  }

  // A call that nobody interrupts.

  function Solo(crypto: Crypto, call: Call, id: nat): (steps: seq<Step>) {
    [Begin(id, call)] + seq(|ScriptOf(crypto, call).consumes|, i => TakeNonce(id))
        + [Settle(id), CommitGrant(id, false)]
  }

  lemma RunAppend(crypto: Crypto, s: System, a: seq<Step>, b: Step)
    ensures Run(crypto, s, a + [b]) == Apply(crypto, Run(crypto, s, a), b)
  {
    assert (a + [b])[..|a|] == a;
  }

  /** After the nonces a call that runs alone has asked for. */
  function Checked(crypto: Crypto, s: System, id: nat, call: Call): (t: System)
    requires crypto.parse(call.response.challengeBytes).Some?
  {
    var n := |ScriptOf(crypto, call).consumes|;
    s.(calls := s.calls[id := Verifying(call, crypto.parse(call.response.challengeBytes).value.nonce, n, n > 0)])
  }

  lemma SoloChecks(crypto: Crypto, s: System, id: nat, call: Call, g: Grant)
    requires id !in s.calls && Succeeds(crypto, call, s.book, g)
    ensures Run(crypto, s, [Begin(id, call)] + seq(|ScriptOf(crypto, call).consumes|, i => TakeNonce(id)))
            == Checked(crypto, s, id, call)
  {
    var consumes := ScriptOf(crypto, call).consumes;
    var begun := [Begin(id, call)];
    RunAppend(crypto, s, [], Begin(id, call));
    assert [] + begun == begun;
    var one := DoBegin(crypto, s, id, call);
    if |consumes| == 0 {
      assert begun + seq(|consumes|, i => TakeNonce(id)) == begun;
    } else {
      assert consumes[0] in consumes;
      assert begun + seq(|consumes|, i => TakeNonce(id)) == begun + [TakeNonce(id)];
      RunAppend(crypto, s, begun, TakeNonce(id));
      assert DoTakeNonce(crypto, one, id).calls == Checked(crypto, s, id, call).calls;
    }
  }

  lemma SoloSettles(crypto: Crypto, s: System, id: nat, call: Call, g: Grant)
    requires Earned(crypto, call, g)
    ensures DoSettle(crypto, Checked(crypto, s, id, call), id) == s.(calls := s.calls[id := Ready(call, g)])
  {
    DecideIff(crypto, call, g);
    var t := Checked(crypto, s, id, call);
    assert t.calls[id := Ready(call, g)] == s.calls[id := Ready(call, g)];
  }

  /** Left alone, a call that earns a grant on a usable challenge gets its credential. */
  lemma SoloSucceeds(crypto: Crypto, s: System, id: nat, call: Call, g: Grant)
    requires id !in s.calls && Succeeds(crypto, call, s.book, g)
    ensures var t := Run(crypto, s, Solo(crypto, call, id));
            && t.book == Recorded(s.book, call.response.challengeBytes, g)
            && t.log == s.log + [Issued(call, g, s.book.issued[call.response.challengeBytes].expires,
                                        CredentialName(|s.book.credentials|))]
  {
    var checked := [Begin(id, call)] + seq(|ScriptOf(crypto, call).consumes|, i => TakeNonce(id));
    SoloChecks(crypto, s, id, call, g);
    SoloSettles(crypto, s, id, call, g);
    RunAppend(crypto, s, checked, Settle(id));
    RunAppend(crypto, s, checked + [Settle(id)], CommitGrant(id, false));
    assert Solo(crypto, call, id) == checked + [Settle(id)] + [CommitGrant(id, false)];
  }

  /**
   An honest login: the holder the identity check names signed these five things, the key
   and the channel are as they should be, the policy agrees, and the challenge is usable.
   */
  lemma HonestLoginSucceeds(crypto: Crypto, s: System, id: nat, call: Call, holder: Verified)
    requires id !in s.calls && crypto.parse(call.response.challengeBytes).Some?
    requires crypto.identify(call.response, call.edge, call.now).verdict == Some(holder)
    requires crypto.classical(
               holder.publicKey,
               SigningBytes(crypto.keyBytes, Claim(call.response.challengeBytes, call.bind.sessionKey,
                                                   call.bind.operation, call.bind.resource, call.bind.channel)),
               call.bind.signature)
    requires |call.bind.sessionKey.bytes| == (if call.bind.sessionKey.alg == Ed25519 then 32 else 33)
    requires call.channel.Some? && call.edge != [] && call.channel.value.provenEdge == call.edge
    requires Peer(call.channel.value) != [] && Conn(call.channel.value) != []
    requires call.bind.channel == crypto.b3(Peer(call.channel.value) + Conn(call.channel.value))
    requires call.allow(Grant(holder, call.edge, call.bind))
    requires call.response.challengeBytes in s.book.issued
    requires var entry := s.book.issued[call.response.challengeBytes];
             var consumes := crypto.identify(call.response, call.edge, call.now).consumes;
             && entry.grant == None && call.now <= entry.expires && |consumes| <= 1
             && forall c :: c in consumes ==>
               c.nonce == crypto.parse(call.response.challengeBytes).value.nonce && c.at <= entry.expires
    ensures var t := Run(crypto, s, Solo(crypto, call, id));
            && |t.log| == |s.log| + 1 && t.log[|s.log|].Issued?
            && t.log[|s.log|].grant == Grant(holder, call.edge, call.bind)
  {
    SoloSucceeds(crypto, s, id, call, Grant(holder, call.edge, call.bind));
  }
}
