/**
 One direct-challenge login: identity, same-holder bind, channel, local policy,
 and then nonce consumption and credential in one commit.
 */
module DirectChallenge {
  import opened Bytes
  import opened Options
  import opened BindEncoding
  import Decimal

  datatype AuthError = NonceReplay | TimeWindow | Upstream

  datatype Error = Identity(auth: AuthError) | WrongEdge | Channel | Bind | Policy | Commit

  datatype Challenge = Challenge(nonce: seq<Byte>, expiresAt: nat)

  datatype Response = Response(challengeBytes: seq<Byte>, proof: seq<Byte>)

  datatype Verified = Verified(publicKey: Key)

  datatype SessionBind = SessionBind(
    sessionKey: Key,
    operation: seq<seq<Byte>>,
    resource: seq<seq<Byte>>,
    channel: seq<Byte>,
    signature: seq<Byte>)

  /** An Iroh node id: 32 bytes. */
  type NodeId = s: seq<Byte> | |s| == 32 witness seq(32, i => 0)

  datatype AuthenticatedChannel =
    | Https(provenEdge: seq<Byte>, originSpki: seq<Byte>, serverConn: seq<Byte>)
    | Iroh(provenEdge: seq<Byte>, peerNode: NodeId, conn: seq<Byte>)

  datatype Grant = Grant(identity: Verified, edge: seq<Byte>, bind: SessionBind)

  /** The nonces the identity check asks to consume, in order, and what it concludes if all are granted. */
  datatype Script = Script(consumes: seq<Consume>, verdict: Option<Verified>)

  datatype Consume = Consume(nonce: seq<Byte>, at: nat)

  /** Foreign code: the v1 codec and identity check, signatures, the key encoding and BLAKE3. */
  datatype Crypto = Crypto(
    parse: seq<Byte> -> Option<Challenge>,
    identify: (Response, seq<Byte>, nat) -> Script,
    classical: (Key, seq<Byte>, seq<Byte>) -> bool,
    keyBytes: Key -> seq<Byte>,
    b3: seq<Byte> -> seq<Byte>)

  /** The arguments of one call. */
  datatype Call = Call(
    response: Response,
    bind: SessionBind,
    edge: seq<Byte>,
    channel: Option<AuthenticatedChannel>,
    now: nat,
    allow: Grant -> bool)

  function Peer(ch: AuthenticatedChannel): (p: seq<Byte>) {
    if ch.Https? then ch.originSpki else ch.peerNode
  }

  function Conn(ch: AuthenticatedChannel): (c: seq<Byte>) {
    if ch.Https? then ch.serverConn else ch.conn
  }

  function Binding(b3: seq<Byte> -> seq<Byte>, ch: AuthenticatedChannel, pinned: seq<Byte>): (r: Result<seq<Byte>,
                   Error>) {
    if pinned == [] || ch.provenEdge != pinned then Err(WrongEdge)
    else if Peer(ch) == [] || Conn(ch) == [] then Err(Error.Channel)
    else Ok(b3(Peer(ch) + Conn(ch)))
  }

  ghost predicate CollisionFree(b3: seq<Byte> -> seq<Byte>) {
    forall x: seq<Byte>, y: seq<Byte> :: b3(x) == b3(y) ==> x == y
  }

  /**
   Two channels that bind have the same binding if and only if peer and connection, run
   together, are the same bytes.
   */
  lemma BindingIff(b3: seq<Byte> -> seq<Byte>, c: AuthenticatedChannel, d: AuthenticatedChannel, pinned: seq<Byte>)
    requires CollisionFree(b3) && Binding(b3, c, pinned).Ok? && Binding(b3, d, pinned).Ok?
    ensures Binding(b3, c, pinned) == Binding(b3, d, pinned) <==> Peer(c) + Conn(c) == Peer(d) + Conn(d)
  {
  }

  /** Under equal bindings, it is the same peer and connection if and only if the peers' names have one length. */
  lemma SamePeerIff(b3: seq<Byte> -> seq<Byte>, c: AuthenticatedChannel, d: AuthenticatedChannel, pinned: seq<Byte>)
    requires CollisionFree(b3) && Binding(b3, c, pinned).Ok? && Binding(b3, c, pinned) == Binding(b3, d, pinned)
    ensures Peer(c) == Peer(d) && Conn(c) == Conn(d) <==> |Peer(c)| == |Peer(d)|
  {
    BindingIff(b3, c, d, pinned);
    var x, y := Peer(c) + Conn(c), Peer(d) + Conn(d);
    assert x[..|Peer(c)|] == Peer(c) && x[|Peer(c)|..] == Conn(c);
    assert y[..|Peer(d)|] == Peer(d) && y[|Peer(d)|..] == Conn(d);
  }

  /** Iroh channels, whose peers are node ids, are always told apart. */
  lemma IrohBindingIdentifies(b3: seq<Byte> -> seq<Byte>, c: AuthenticatedChannel, d: AuthenticatedChannel,
                              pinned: seq<Byte>)
    requires CollisionFree(b3) && c.Iroh? && d.Iroh?
    requires Binding(b3, c, pinned).Ok? && Binding(b3, c, pinned) == Binding(b3, d, pinned)
    ensures c == d
  {
    SamePeerIff(b3, c, d, pinned);
  }

  /**
   Otherwise the split is not bound: two HTTPS peers whose names differ in length, and an
   HTTPS peer named like a node.
   */
  lemma BindingsConfused(b3: seq<Byte> -> seq<Byte>, edge: seq<Byte>, node: NodeId, conn: seq<Byte>)
    requires edge != [] && conn != []
    ensures Binding(b3, Https(edge, [1, 2], [3]), edge).Ok?
    ensures Binding(b3, Https(edge, [1, 2], [3]), edge) == Binding(b3, Https(edge, [1], [2, 3]), edge)
    ensures Binding(b3, Https(edge, node, conn), edge).Ok?
    ensures Binding(b3, Https(edge, node, conn), edge) == Binding(b3, Iroh(edge, node, conn), edge)
  {
    var x: seq<Byte>, y: seq<Byte> := [1, 2] + [3], [1] + [2, 3];
    assert x == y;
  }

  function ClaimOf(call: Call): (c: Claim) {
    Claim(call.response.challengeBytes, call.bind.sessionKey, call.bind.operation, call.bind.resource,
        call.bind.channel)
  }

  predicate KeyLengthOk(k: Key) {
    |k.bytes| == (match k.alg case Ed25519 => 32 case P256 => 33)
  }

  function GrantOf(call: Call, identity: Verified): (g: Grant) {
    Grant(identity, call.edge, call.bind)
  }

  /** Everything after the identity check, in the order of the code. */
  function Decide(crypto: Crypto, call: Call, identity: Verified): (r: Result<Grant, Error>) {
    if !crypto.classical(identity.publicKey, SigningBytes(crypto.keyBytes, ClaimOf(call)), call.bind.signature) then
      Err(Error.Bind)
    else if !KeyLengthOk(call.bind.sessionKey) then Err(Error.Bind)
    else if call.channel.None? then Err(Error.Channel)
    else
      match Binding(crypto.b3, call.channel.value, call.edge)
      case Err(e) => Err(e)
      case Ok(binding) =>
        if binding != call.bind.channel then Err(Error.Channel)
        else if !call.allow(GrantOf(call, identity)) then Err(Policy)
        else Ok(GrantOf(call, identity))
  }

  /** The holder signed this challenge, session key, operation, resource and channel, and nothing less. */
  predicate Signed(crypto: Crypto, holder: Key, challenge: seq<Byte>, bind: SessionBind) {
    var claim := Claim(
      challenge := challenge, sessionKey := bind.sessionKey, operation := bind.operation, resource := bind.resource,
      channel := bind.channel);
    crypto.classical(holder, SigningBytes(crypto.keyBytes, claim), bind.signature)
  }

  /** What a grant stands for, whatever order it was established in. */
  predicate Earned(crypto: Crypto, call: Call, g: Grant) {
    && g.edge == call.edge && g.bind == call.bind
    && crypto.parse(call.response.challengeBytes).Some?
    && crypto.identify(call.response, call.edge, call.now).verdict == Some(g.identity)
    && Signed(crypto, g.identity.publicKey, call.response.challengeBytes, g.bind)
    && |g.bind.sessionKey.bytes| == (if g.bind.sessionKey.alg == Ed25519 then 32 else 33)
    && call.channel.Some? && call.edge != [] && call.channel.value.provenEdge == call.edge
    && Peer(call.channel.value) != [] && Conn(call.channel.value) != []
    && g.bind.channel == crypto.b3(Peer(call.channel.value) + Conn(call.channel.value))
    && call.allow(g)
  }

  lemma DecideIff(crypto: Crypto, call: Call, g: Grant)
    requires crypto.parse(call.response.challengeBytes).Some?
    ensures (crypto.identify(call.response, call.edge, call.now).verdict.Some?
             && Decide(crypto, call, crypto.identify(call.response, call.edge, call.now).verdict.value) == Ok(g))
            <==> Earned(crypto, call, g)
  {
  }

  /** Which check a refusal names: the first in the order signature and key, channel, policy that fails. */
  lemma DecideErrorIff(crypto: Crypto, call: Call, identity: Verified, e: Error)
    ensures var bound := Signed(crypto, identity.publicKey, call.response.challengeBytes, call.bind)
                         && |call.bind.sessionKey.bytes| == (if call.bind.sessionKey.alg == Ed25519 then 32 else 33);
            var open := call.channel.Some? && call.edge != [] && call.channel.value.provenEdge == call.edge;
            var here := open && Peer(call.channel.value) != [] && Conn(call.channel.value) != []
                        && call.bind.channel == crypto.b3(Peer(call.channel.value) + Conn(call.channel.value));
            Decide(crypto, call, identity) == Err(e) <==>
            match e
            case Bind => !bound
            case WrongEdge => bound && call.channel.Some? && !open
            case Channel => bound && (call.channel.None? || (open && !here))
            case Policy => bound && here && !call.allow(Grant(identity, call.edge, call.bind))
            case _ => false
  {
  }

  // The store.

  datatype Entry = Entry(expires: nat, grant: Option<Grant>)

  /** The durable record: issued challenges with their consumption, and the credentials. */
  datatype Book = Book(issued: map<seq<Byte>, Entry>, credentials: seq<seq<Byte>>)

  function CredentialName(n: nat): (s: seq<Byte>) {
    Ascii("committed-credential-") + Decimal.Print(n)
  }

  lemma CredentialNamesDiffer(m: nat, n: nat)
    requires CredentialName(m) == CredentialName(n)
    ensures m == n
  {
    var k := |Ascii("committed-credential-")|;
    assert CredentialName(m)[k..] == Decimal.Print(m);
    assert CredentialName(n)[k..] == Decimal.Print(n);
    Decimal.PrintRoundTrip(m);
    Decimal.PrintRoundTrip(n);
  }

  /** The exact challenge is issued, unused and not past its expiry. */
  function CheckIssued(book: Book, bytes: seq<Byte>, now: nat): (e: Option<Error>) {
    if bytes !in book.issued || book.issued[bytes].grant.Some? then Some(Identity(NonceReplay))
    else if now > book.issued[bytes].expires then Some(Identity(TimeWindow))
    else None
  }

  predicate Usable(book: Book, bytes: seq<Byte>, now: nat) {
    bytes in book.issued && book.issued[bytes].grant.None? && now <= book.issued[bytes].expires
  }

  function Recorded(book: Book, bytes: seq<Byte>, g: Grant): (b: Book)
    requires bytes in book.issued
  {
    Book(book.issued[bytes := book.issued[bytes].(grant := Some(g))],
         book.credentials + [CredentialName(|book.credentials|)])
  }

  /** The store's two operations, each under its lock. */
  class Store {
    var book: Book

    constructor ()
      ensures book == Book(map[], [])
    {
      book := Book(map[], []);
    }

    method Record(bytes: seq<Byte>, expires: nat)
      requires bytes !in book.issued
      modifies this
      ensures book == Book(old(book.issued)[bytes := Entry(expires, None)], old(book.credentials))
    {
      book := book.(issued := book.issued[bytes := Entry(expires, None)]);
    }

    method CommitGrant(bytes: seq<Byte>, now: nat, g: Grant, lost: bool) returns (r: Result<seq<Byte>, Error>)
      modifies this
      ensures r.Ok? <==> old(Usable(book, bytes, now)) && !lost
      ensures r.Err? ==> book == old(book)
      ensures r.Ok? ==> book == old(Recorded(book, bytes, g)) && r.value == CredentialName(old(|book.credentials|))
    {
      var e := CheckIssued(book, bytes, now);
      if e.Some? {
        return Err(e.value);
      }
      if lost {
        return Err(Error.Commit);
      }
      var next := book;
      var credential := CredentialName(|next.credentials|);
      next := next.(issued := next.issued[bytes := next.issued[bytes].(grant := Some(g))]);
      next := next.(credentials := next.credentials + [credential]);
      book := next;
      return Ok(credential);
    }
  }

  /** What one more request to consume a nonce answers. */
  function Stage(book: Book, bytes: seq<Byte>, nonce: seq<Byte>, staged: bool, c: Consume): (e: Option<AuthError>) {
    if staged || c.nonce != nonce then Some(NonceReplay)
    else
      match CheckIssued(book, bytes, c.at)
      case Some(Identity(e)) => Some(e)
      case Some(_) => Some(Upstream)
      case None => None
  }

  /** Stages a nonce without touching the store. */
  class StagedNonce {
    const store: Store
    const bytes: seq<Byte>
    const nonce: seq<Byte>
    var staged: bool

    constructor (store: Store, bytes: seq<Byte>, nonce: seq<Byte>)
      ensures this.store == store && this.bytes == bytes && this.nonce == nonce && !staged
    {
      this.store, this.bytes, this.nonce, staged := store, bytes, nonce, false;
    }

    method Take(c: Consume) returns (e: Option<AuthError>)
      modifies this
      ensures e == old(Stage(store.book, bytes, nonce, staged, c))
      ensures staged == (old(staged) || e.None?)
      ensures store.book == old(store.book)
    {
      if staged || c.nonce != nonce {
        return Some(NonceReplay);
      }
      var answer := CheckIssued(store.book, bytes, c.at);
      if answer.Some? {
        return Some(if answer.value.Identity? then answer.value.auth else Upstream);
      }
      staged := true;
      return None;
    }
  }

  /** The identity check goes through: at most one nonce, the right one, usable when asked for. */
  predicate ScriptGranted(book: Book, bytes: seq<Byte>, nonce: seq<Byte>, consumes: seq<Consume>) {
    |consumes| <= 1 && forall c :: c in consumes ==> c.nonce == nonce && Usable(book, bytes, c.at)
  }

  /** When a call that runs by itself ends in a credential. */
  ghost predicate Succeeds(crypto: Crypto, call: Call, book: Book, g: Grant) {
    && Earned(crypto, call, g)
    && ScriptGranted(book, call.response.challengeBytes, crypto.parse(call.response.challengeBytes).value.nonce,
                     crypto.identify(call.response, call.edge, call.now).consumes)
    && Usable(book, call.response.challengeBytes, call.now)
  }

  /** The identity check's requests, one after another. */
  method Identify(staged: StagedNonce, script: Script) returns (r: Result<Verified, AuthError>)
    requires !staged.staged
    modifies staged
    ensures staged.store.book == old(staged.store.book)
    ensures r.Ok? <==>
            (ScriptGranted(staged.store.book, staged.bytes, staged.nonce, script.consumes) && script.verdict.Some?)
    ensures r.Ok? ==> r.value == script.verdict.value
  {
    for i := 0 to |script.consumes|
      invariant staged.staged == (i > 0) && i <= 1
      invariant staged.store.book == old(staged.store.book)
      invariant forall k :: 0 <= k < i ==>
                  script.consumes[k].nonce == staged.nonce
                      && Usable(staged.store.book, staged.bytes, script.consumes[k].at)
    {
      var e := staged.Take(script.consumes[i]);
      if e.Some? {
        assert script.consumes[i] in script.consumes;
        return Err(e.value);
      }
    }
    return if script.verdict.Some? then Ok(script.verdict.value) else Err(Upstream);
  }

  /** The whole call, with no other call in between. */
  method VerifyAndIssue(crypto: Crypto, call: Call, store: Store, lost: bool) returns (r: Result<seq<Byte>, Error>)
    modifies store
    ensures r.Ok? <==> !lost && exists g :: Succeeds(crypto, call, old(store.book), g)
    ensures r.Err? ==> store.book == old(store.book)
    ensures r.Ok? ==> r.value == CredentialName(|old(store.book).credentials|)
    ensures r.Ok? ==> exists g :: (Succeeds(crypto, call, old(store.book), g)
                                   && store.book == Recorded(old(store.book), call.response.challengeBytes, g))
  {
    ghost var start := store.book;
    var challenge := crypto.parse(call.response.challengeBytes);
    if challenge.None? {
      return Err(Identity(Upstream));
    }
    var nonce := new StagedNonce(store, call.response.challengeBytes, challenge.value.nonce);
    var identity := Identify(nonce, crypto.identify(call.response, call.edge, call.now));
    if identity.Err? {
      return Err(Identity(identity.error));
    }
    var grant := Decide(crypto, call, identity.value);
    if grant.Err? {
      forall g ensures !Succeeds(crypto, call, start, g) {
        DecideIff(crypto, call, g);
      }
      return Err(grant.error);
    }
    DecideIff(crypto, call, grant.value);
    r := store.CommitGrant(call.response.challengeBytes, call.now, grant.value, lost);
    if r.Ok? { assert Succeeds(crypto, call, start, grant.value); }
  }
}
