/** The bytes a holder signs to bind a session key to one challenge, request and channel. */
module BindEncoding {
  import opened Bytes
  import opened Cbor
  import opened Options

  datatype Alg = Ed25519 | P256

  datatype Key = Key(alg: Alg, bytes: seq<Byte>)

  /** The request a bind speaks for. */
  datatype Claim = Claim(
    challenge: seq<Byte>,
    sessionKey: Key,
    operation: seq<seq<Byte>>,
    resource: seq<seq<Byte>>,
    channel: seq<Byte>)

  /** Lengths a 64-bit machine can count. */
  predicate Fits(c: Claim) {
    && |c.challenge| < U64 && KeyFits(c.sessionKey) && |c.channel| < U64
    && Sized(c.operation) && Sized(c.resource)
  }

  predicate KeyFits(k: Key) {
    |k.bytes| < U64
  }

  /** An encoding of keys from which the end of a key can be told. */
  ghost predicate SelfDelimiting(enc: Key -> seq<Byte>) {
    forall a: Key, b: Key, t: seq<Byte>, u: seq<Byte> ::
      KeyFits(a) && KeyFits(b) && enc(a) + t == enc(b) + u ==> a == b && t == u
  }

  const DOMAIN: seq<Byte> := Ascii("identikey-mjolnir/v1")
  const BIND: seq<Byte> := Ascii("bind")

  // The encoding from each field to the end.

  function FromChannel(c: Claim): (r: seq<Byte>) {
    PutString(2, c.channel, [])
  }

  function FromResource(c: Claim): (r: seq<Byte>) {
    PutTuple(c.resource, FromChannel(c))
  }

  function FromOperation(c: Claim): (r: seq<Byte>) {
    PutTuple(c.operation, FromResource(c))
  }

  function FromKey(enc: Key -> seq<Byte>, c: Claim): (r: seq<Byte>) {
    enc(c.sessionKey) + FromOperation(c)
  }

  function FromChallenge(enc: Key -> seq<Byte>, c: Claim): (r: seq<Byte>) {
    PutString(2, c.challenge, FromKey(enc, c))
  }

  function FromBind(enc: Key -> seq<Byte>, c: Claim): (r: seq<Byte>) {
    PutString(3, BIND, FromChallenge(enc, c))
  }

  function SigningBytes(enc: Key -> seq<Byte>, c: Claim): (r: seq<Byte>) {
    [0x87] + PutString(3, DOMAIN, FromBind(enc, c))
  }

  // Injectivity, field by field.

  lemma StringInjective(major: Major, s: seq<Byte>, t: seq<Byte>, s': seq<Byte>, t': seq<Byte>)
    requires |s| < U64 && |s'| < U64 && PutString(major, s, t) == PutString(major, s', t')
    ensures s == s' && t == t'
  {
    StringDecodes(major, s, t);
    StringDecodes(major, s', t');
  }

  lemma TupleInjective(p: seq<seq<Byte>>, t: seq<Byte>, p': seq<seq<Byte>>, t': seq<Byte>)
    requires Sized(p) && Sized(p') && PutTuple(p, t) == PutTuple(p', t')
    ensures p == p' && t == t'
  {
    TupleDecodes(p, t);
    TupleDecodes(p', t');
  }

  lemma OperationInjective(c: Claim, d: Claim)
    requires Fits(c) && Fits(d) && FromOperation(c) == FromOperation(d)
    ensures c.operation == d.operation && c.resource == d.resource && c.channel == d.channel
  {
    TupleInjective(c.operation, FromResource(c), d.operation, FromResource(d));
    TupleInjective(c.resource, FromChannel(c), d.resource, FromChannel(d));
    StringInjective(2, c.channel, [], d.channel, []);
  }

  lemma HeaderInjective(enc: Key -> seq<Byte>, c: Claim, d: Claim)
    requires SigningBytes(enc, c) == SigningBytes(enc, d)
    ensures FromChallenge(enc, c) == FromChallenge(enc, d)
  {
    assert SigningBytes(enc, c)[1..] == PutString(3, DOMAIN, FromBind(enc, c));
    assert SigningBytes(enc, d)[1..] == PutString(3, DOMAIN, FromBind(enc, d));
    StringInjective(3, DOMAIN, FromBind(enc, c), DOMAIN, FromBind(enc, d));
    StringInjective(3, BIND, FromChallenge(enc, c), BIND, FromChallenge(enc, d));
  }

  /** Equal signing bytes speak for the same challenge, key, operation, resource and channel. */
  lemma SigningBytesInjective(enc: Key -> seq<Byte>, c: Claim, d: Claim)
    requires SelfDelimiting(enc) && Fits(c) && Fits(d)
    ensures SigningBytes(enc, c) == SigningBytes(enc, d) <==> c == d
  {
    if SigningBytes(enc, c) == SigningBytes(enc, d) {
      HeaderInjective(enc, c, d);
      StringInjective(2, c.challenge, FromKey(enc, c), d.challenge, FromKey(enc, d));
      assert enc(c.sessionKey) + FromOperation(c) == enc(d.sessionKey) + FromOperation(d);
      OperationInjective(c, d);
    }
  }

  // A reader of the payload: an array of seven, in the order of the specification.

  datatype Fields = Fields(domain: seq<Byte>, purpose: seq<Byte>, claim: Claim)

  function ReadAfterKey(fields: Fields, s: seq<Byte>): (r: Option<Fields>) {
    match ReadTuple(s)
    case None => None
    case Some((operation, t)) =>
      match ReadTuple(t)
      case None => None
      case Some((resource, u)) =>
        match ReadString(2, u)
        case None => None
        case Some((channel, end)) =>
          if end != [] then None
          else Some(fields.(claim := fields.claim.(operation := operation, resource := resource, channel := channel)))
  }

  /** Text, text, bytes, a key as `readKey` reads it, two arrays of texts, bytes, and nothing more. */
  function ReadPayload(readKey: seq<Byte> -> Option<(Key, seq<Byte>)>, s: seq<Byte>): (r: Option<Fields>) {
    match ReadHead(s)
    case None => None
    case Some(h) =>
      if h.major != 4 || h.n != 7 then None
      else match ReadString(3, h.rest)
        case None => None
        case Some((domain, t)) =>
          match ReadString(3, t)
          case None => None
          case Some((purpose, u)) =>
            match ReadString(2, u)
            case None => None
            case Some((challenge, v)) =>
              match readKey(v)
              case None => None
              case Some((key, w)) => ReadAfterKey(Fields(domain, purpose, Claim(challenge, key, [], [], [])), w)
  }

  ghost predicate ReadsKeys(enc: Key -> seq<Byte>, readKey: seq<Byte> -> Option<(Key, seq<Byte>)>) {
    forall k: Key, t: seq<Byte> {:trigger enc(k) + t} :: KeyFits(k) ==> readKey(enc(k) + t) == Some((k, t))
  }

  lemma AfterKeyReads(c: Claim, fields: Fields)
    requires Fits(c)
    ensures ReadAfterKey(fields, FromOperation(c))
            == Some(fields.(claim := fields.claim.(operation := c.operation, resource := c.resource,
                                                   channel := c.channel)))
  {
    TupleDecodes(c.operation, FromResource(c));
    TupleDecodes(c.resource, FromChannel(c));
    StringDecodes(2, c.channel, []);
  }

  /** What is signed reads back as domain, purpose, challenge, key, operation, resource and channel, in that order. */
  lemma PayloadReads(enc: Key -> seq<Byte>, readKey: seq<Byte> -> Option<(Key, seq<Byte>)>, c: Claim)
    requires ReadsKeys(enc, readKey) && Fits(c)
    ensures ReadPayload(readKey, SigningBytes(enc, c))
            == Some(Fields(Ascii("identikey-mjolnir/v1"), Ascii("bind"), c))
  {
    var body := PutString(3, DOMAIN, FromBind(enc, c));
    HeadDecodes(4, 7, body);
    assert HeadBytes(4, 7) == [0x87];
    StringDecodes(3, DOMAIN, FromBind(enc, c));
    StringDecodes(3, BIND, FromChallenge(enc, c));
    StringDecodes(2, c.challenge, FromKey(enc, c));
    assert readKey(enc(c.sessionKey) + FromOperation(c)) == Some((c.sessionKey, FromOperation(c)));
    AfterKeyReads(c, Fields(DOMAIN, BIND, Claim(c.challenge, c.sessionKey, [], [], [])));
  }

  // A key map such as the one the bind carries is self-delimiting.

  function AlgName(alg: Alg): (s: seq<Byte>) {
    match alg
    case Ed25519 => Ascii("ed25519")
    case P256 => Ascii("p256")
  }

  function FromKeyBytes(k: Key, t: seq<Byte>): (r: seq<Byte>) {
    PutString(3, Ascii("key"), PutString(2, k.bytes, t))
  }

  /** A two-entry map from "alg" and "key" to the algorithm's name and the key's bytes, with what follows. */
  function PutKeyMap(k: Key, t: seq<Byte>): (r: seq<Byte>) {
    [0xa2] + PutString(3, Ascii("alg"), PutString(3, AlgName(k.alg), FromKeyBytes(k, t)))
  }

  function KeyMap(k: Key): (r: seq<Byte>) {
    PutKeyMap(k, [])
  }

  lemma StringThen(major: Major, s: seq<Byte>, t: seq<Byte>, u: seq<Byte>)
    ensures PutString(major, s, t) + u == PutString(major, s, t + u)
  {
    assert HeadBytes(major, |s|) + (s + t) + u == HeadBytes(major, |s|) + (s + (t + u));
  }

  lemma KeyMapThen(k: Key, t: seq<Byte>)
    ensures KeyMap(k) + t == PutKeyMap(k, t)
  {
    var body := PutString(2, k.bytes, []);
    StringThen(2, k.bytes, [], t);
    assert [] + t == t;
    StringThen(3, Ascii("key"), body, t);
    StringThen(3, AlgName(k.alg), FromKeyBytes(k, []), t);
    var entries := PutString(3, AlgName(k.alg), FromKeyBytes(k, []));
    StringThen(3, Ascii("alg"), entries, t);
    assert [0xa2] + PutString(3, Ascii("alg"), entries) + t == [0xa2] + (PutString(3, Ascii("alg"), entries) + t);
  }

  lemma KeyMapDelimits(a: Key, t: seq<Byte>, b: Key, u: seq<Byte>)
    requires KeyFits(a) && KeyFits(b) && KeyMap(a) + t == KeyMap(b) + u
    ensures a == b && t == u
  {
    KeyMapThen(a, t);
    KeyMapThen(b, u);
    var x := PutString(3, AlgName(a.alg), FromKeyBytes(a, t));
    var y := PutString(3, AlgName(b.alg), FromKeyBytes(b, u));
    assert PutKeyMap(a, t)[1..] == PutString(3, Ascii("alg"), x);
    assert PutKeyMap(b, u)[1..] == PutString(3, Ascii("alg"), y);
    StringInjective(3, Ascii("alg"), x, Ascii("alg"), y);
    StringInjective(3, AlgName(a.alg), FromKeyBytes(a, t), AlgName(b.alg), FromKeyBytes(b, u));
    StringInjective(3, Ascii("key"), PutString(2, a.bytes, t), Ascii("key"), PutString(2, b.bytes, u));
    StringInjective(2, a.bytes, t, b.bytes, u);
    assert |AlgName(Ed25519)| != |AlgName(P256)|;
  }

  lemma KeyMapSelfDelimiting()
    ensures SelfDelimiting(KeyMap)
  {
    forall a: Key, b: Key, t: seq<Byte>, u: seq<Byte> | KeyFits(a) && KeyFits(b) && KeyMap(a) + t == KeyMap(b) + u
      ensures a == b && t == u
    {
      KeyMapDelimits(a, t, b, u);
    }
  }

  // The buffer that is signed.

  lemma StringAppended(out: seq<Byte>, major: Major, s: seq<Byte>, t: seq<Byte>)
    ensures out + StringBytes(major, s) + t == out + PutString(major, s, t)
  {
    assert out + (HeadBytes(major, |s|) + s) + t == out + (HeadBytes(major, |s|) + (s + t));
  }

  lemma {:induction false} PartsThen(parts: seq<seq<Byte>>, t: seq<Byte>)
    ensures PutParts(parts, []) + t == PutParts(parts, t)
  {
    if parts == [] {
      assert [] + t == t;
    } else {
      PartsThen(parts[1..], t);
      StringThen(3, parts[0], PutParts(parts[1..], []), t);
    }
  }

  lemma TupleAppended(out: seq<Byte>, parts: seq<seq<Byte>>, t: seq<Byte>)
    ensures out + PutTuple(parts, []) + t == out + PutTuple(parts, t)
  {
    PartsThen(parts, t);
    var head, body := HeadBytes(4, |parts|), PutParts(parts, []);
    assert out + (head + body) + t == out + (head + (body + t));
  }

  method BindSigningBytes(enc: Key -> seq<Byte>, c: Claim) returns (out: seq<Byte>)
    requires Fits(c)
    ensures out == SigningBytes(enc, c)
  {
    var w := new Writer([0x87]);
    StringAppended(w.out, 3, DOMAIN, FromBind(enc, c));
    w.String(3, DOMAIN);
    StringAppended(w.out, 3, BIND, FromChallenge(enc, c));
    w.String(3, BIND);
    StringAppended(w.out, 2, c.challenge, FromKey(enc, c));
    w.String(2, c.challenge);
    assert w.out + enc(c.sessionKey) + FromOperation(c) == w.out + FromKey(enc, c);
    w.out := w.out + enc(c.sessionKey);
    TupleAppended(w.out, c.operation, FromResource(c));
    w.Tuple(c.operation);
    TupleAppended(w.out, c.resource, FromChannel(c));
    w.Tuple(c.resource);
    StringAppended(w.out, 2, c.channel, []);
    w.String(2, c.channel);
    assert w.out + [] == w.out;
    out := w.out;
  }
}
