/** A published snapshot: encrypted files, content-addressed chunks, and the reader that replays them. */
module Snapshot {
  import opened Bytes
  import opened Options
  import opened Hkdf
  import ChaCha
  import XChaCha
  import Base58

  const MAX_BODY: nat := 64 * 1024 * 1024
  const FRAME_OVERHEAD: nat := 16
  const U64: nat := 0x1_0000_0000_0000_0000

  /** HMAC-SHA256 and BLAKE3. */
  datatype Env = Env(hmac: Hmac, b3: seq<Byte> -> seq<Byte>)

  ghost predicate EnvOk(env: Env) {
    Digests(env.hmac) && forall s: seq<Byte> :: |env.b3(s)| == HASH
  }

  type Nonce = s: seq<Byte> | |s| == 24 witness seq(24, i => 0)

  /** What path and nonce do to a file's bytes. */
  type Cipher = (seq<Byte>, Nonce, seq<Byte>) -> seq<Byte>

  datatype File = File(path: seq<Byte>, content: seq<Byte>)

  datatype Entry = Entry(
    baoHash: seq<Byte>,
    ciphertextSize: nat,
    nonce: Nonce,
    path: seq<Byte>,
    plaintextSize: nat)

  datatype Chunk = Chunk(hash: seq<Byte>, ciphertext: seq<Byte>)

  /** Key from seed and path, then the stream: the same to seal and to open. */
  ghost function Sealed(env: Env, seed: seq<Byte>, path: seq<Byte>, nonce: Nonce, data: seq<Byte>): (r: seq<Byte>)
    requires EnvOk(env)
  {
    XChaCha.WordsLawful();
    XChaCha.Streamed(XChaCha.Keystream(XChaCha.WORDS, Okm(env.hmac, seed, path, 32), nonce), data)
  }

  ghost function Sealer(env: Env, seed: seq<Byte>): (c: Cipher)
    requires EnvOk(env)
  {
    (path, nonce, data) => Sealed(env, seed, path, nonce, data)
  }

  /** The key of a file: of its seed and its path, and of nothing else. */
  ghost predicate KeyIs(env: Env, seed: seq<Byte>, path: seq<Byte>, key: seq<Byte>) {
    exists zeros: seq<Byte> :: |zeros| == 32 && (forall i :: 0 <= i < 32 ==> zeros[i] == 0)
                               && key == env.hmac(env.hmac(zeros, seed), path + [1])
  }

  /** Sealing is the stream of that key and the nonce: each bit is flipped where the stream has a one. */
  lemma SealedIs(env: Env, seed: seq<Byte>, path: seq<Byte>, nonce: Nonce, data: seq<Byte>, key: seq<Byte>)
    requires EnvOk(env) && KeyIs(env, seed, path, key)
    ensures ChaCha.Lawful(XChaCha.WORDS) && |key| == 32
    ensures Sealed(env, seed, path, nonce, data)
            == XChaCha.Streamed(XChaCha.Keystream(XChaCha.WORDS, key, nonce), data)
  {
    var zeros: seq<Byte> :| |zeros| == 32 && (forall i :: 0 <= i < 32 ==> zeros[i] == 0)
                            && key == env.hmac(env.hmac(zeros, seed), path + [1]);
    OneBlock(env.hmac, seed, path, zeros);
    XChaCha.WordsLawful();
  }

  /** Applied twice it gives the data back, and it keeps the length. */
  ghost predicate Involutive(c: Cipher) {
    forall path: seq<Byte>, nonce: Nonce, data: seq<Byte> ::
      c(path, nonce, c(path, nonce, data)) == data && |c(path, nonce, data)| == |data|
  }

  lemma SealedTwice(env: Env, seed: seq<Byte>, path: seq<Byte>, nonce: Nonce, data: seq<Byte>)
    requires EnvOk(env)
    ensures Sealed(env, seed, path, nonce, Sealed(env, seed, path, nonce, data)) == data
    ensures |Sealed(env, seed, path, nonce, data)| == |data|
  {
    XChaCha.WordsLawful();
    XChaCha.StreamedTwice(XChaCha.Keystream(XChaCha.WORDS, Okm(env.hmac, seed, path, 32), nonce), data);
  }

  lemma SealerInvolutive(env: Env, seed: seq<Byte>)
    requires EnvOk(env)
    ensures Involutive(Sealer(env, seed))
  {
    var c := Sealer(env, seed);
    forall path: seq<Byte>, nonce: Nonce, data: seq<Byte>
      ensures c(path, nonce, c(path, nonce, data)) == data && |c(path, nonce, data)| == |data|
    {
      SealedTwice(env, seed, path, nonce, data);
    }
  }

  function HashName(env: Env, data: seq<Byte>): (r: seq<Byte>) {
    Base58.Encoding(env.b3(data))
  }

  method Seal(env: Env, seed: seq<Byte>, path: seq<Byte>, nonce: Nonce, data: seq<Byte>) returns (r: seq<Byte>)
    requires EnvOk(env)
    ensures r == Sealer(env, seed)(path, nonce, data)
  {
    var key := HkdfSha256(env.hmac, seed, path, 32, true);
    XChaCha.WordsLawful();
    r := XChaCha.XChaCha20Xor(XChaCha.WORDS, key.value, nonce, data);
  }

  predicate Fits(f: File) {
    |f.content| + FRAME_OVERHEAD <= MAX_BODY
  }

  function EntryOf(env: Env, c: Cipher, f: File, nonce: Nonce): (e: Entry) {
    var ct := c(f.path, nonce, f.content);
    Entry(HashName(env, ct), |ct|, nonce, f.path, |f.content|)
  }

  function ChunkOf(env: Env, c: Cipher, f: File, nonce: Nonce): (k: Chunk) {
    var ct := c(f.path, nonce, f.content);
    Chunk(HashName(env, ct), ct)
  }

  /** What the manifest lists and what is uploaded, file by file. */
  function Entries(env: Env, c: Cipher, files: seq<File>, nonces: seq<Nonce>): (r: seq<Entry>)
    requires |nonces| >= |files|
  {
    seq(|files|, i requires 0 <= i < |files| => EntryOf(env, c, files[i], nonces[i]))
  }

  function Chunks(env: Env, c: Cipher, files: seq<File>, nonces: seq<Nonce>): (r: seq<Chunk>)
    requires |nonces| >= |files|
  {
    seq(|files|, i requires 0 <= i < |files| => ChunkOf(env, c, files[i], nonces[i]))
  }

  lemma ListsGrow(env: Env, c: Cipher, files: seq<File>, nonces: seq<Nonce>, i: nat)
    requires |nonces| >= |files| && i < |files|
    ensures Entries(env, c, files[..i + 1], nonces)
            == Entries(env, c, files[..i], nonces) + [EntryOf(env, c, files[i], nonces[i])]
    ensures Chunks(env, c, files[..i + 1], nonces)
            == Chunks(env, c, files[..i], nonces) + [ChunkOf(env, c, files[i], nonces[i])]
  {
  }

  function FirstTooLarge(files: seq<File>): (path: Option<seq<Byte>>) {
    if files == [] then None else if Fits(files[0]) then FirstTooLarge(files[1..]) else Some(files[0].path)
  }

  /** One file: sealed under a key of its own, named by the hash of the ciphertext, if the server would take it. */
  method BuildEntry(env: Env, seed: seq<Byte>, f: File, nonce: Nonce) returns (r: Option<(Entry, Chunk)>)
    requires EnvOk(env)
    ensures r.Some? <==> Fits(f)
    ensures r.Some? ==> r.value.0 == EntryOf(env, Sealer(env, seed), f, nonce)
    ensures r.Some? ==> r.value.1 == ChunkOf(env, Sealer(env, seed), f, nonce)
  {
    var ciphertext := Seal(env, seed, f.path, nonce, f.content);
    SealedTwice(env, seed, f.path, nonce, f.content);
    var hash := Base58.Encode(env.b3(ciphertext));
    if |ciphertext| + FRAME_OVERHEAD > MAX_BODY {
      return None;
    }
    return Some((Entry(hash, |ciphertext|, nonce, f.path, |f.content|), Chunk(hash, ciphertext)));
  }

  /** One entry and one chunk per file, or the path of the first file that is too large. */
  method BuildSnapshot(env: Env, files: seq<File>, nonces: seq<Nonce>, seed: seq<Byte>)
    returns (r: Result<(seq<Entry>, seq<Chunk>), seq<Byte>>)
    requires EnvOk(env) && |nonces| >= |files|
    ensures r == match FirstTooLarge(files)
                 case Some(path) => Err(path)
                 case None => Ok((Entries(env, Sealer(env, seed), files, nonces),
                     Chunks(env, Sealer(env, seed), files, nonces)))
  {
    var entries: seq<Entry>, chunks: seq<Chunk> := [], [];
    ghost var c := Sealer(env, seed);
    for i := 0 to |files|
      invariant FirstTooLarge(files) == FirstTooLarge(files[i..])
      invariant entries == Entries(env, c, files[..i], nonces) && chunks == Chunks(env, c, files[..i], nonces)
    {
      var e := BuildEntry(env, seed, files[i], nonces[i]);
      if e.None? {
        return Err(files[i].path);
      }
      ListsGrow(env, c, files, nonces, i);
      entries := entries + [e.value.0];
      chunks := chunks + [e.value.1];
    }
    assert files[..|files|] == files;
    return Ok((entries, chunks));
  }

  // Framing.

  function Frame(ct: seq<Byte>, ob: seq<Byte>): (r: seq<Byte>) {
    BigEndian(|ct|, 8) + ct + BigEndian(|ob|, 8) + ob
  }

  /** The server's pattern: a length, that many bytes, a length, and exactly that many bytes. */
  function Unframe(s: seq<Byte>): (r: Option<(seq<Byte>, seq<Byte>)>) {
    if |s| < 8 then None
    else
      var n, t := Value(s[..8]), s[8..];
      if |t| < n + 8 then None
      else
        var m, u := Value(t[n..n + 8]), t[n + 8..];
        if |u| != m then None else Some((t[..n], u))
  }

  lemma UnframeParts(a: seq<Byte>, ct: seq<Byte>, b: seq<Byte>, ob: seq<Byte>)
    requires |a| == 8 && |b| == 8 && Value(a) == |ct| && Value(b) == |ob|
    ensures Unframe(a + ct + b + ob) == Some((ct, ob))
  {
    var s := a + ct + b + ob;
    var t := ct + b + ob;
    assert s[..8] == a && s[8..] == t;
    assert t[|ct|..|ct| + 8] == b && t[|ct| + 8..] == ob && t[..|ct|] == ct;
  }

  lemma FrameRoundTrip(ct: seq<Byte>, ob: seq<Byte>)
    requires |ct| < U64 && |ob| < U64
    ensures Unframe(Frame(ct, ob)) == Some((ct, ob)) && |Frame(ct, ob)| == |ct| + |ob| + FRAME_OVERHEAD
  {
    Pow256Values();
    BigEndianRoundTrip(|ct|, 8);
    BigEndianRoundTrip(|ob|, 8);
    UnframeParts(BigEndian(|ct|, 8), ct, BigEndian(|ob|, 8), ob);
  }

  lemma ThreeParts(t: seq<Byte>, n: nat)
    requires n + 8 <= |t|
    ensures t == t[..n] + t[n..n + 8] + t[n + 8..]
  {
  }

  lemma Regroup(a: seq<Byte>, b: seq<Byte>, c: seq<Byte>, d: seq<Byte>)
    ensures a + (b + c + d) == a + b + c + d
  {
  }

  /** The server accepts frames and nothing else. */
  lemma UnframeOnlyFrames(s: seq<Byte>)
    requires Unframe(s).Some?
    ensures s == Frame(Unframe(s).value.0, Unframe(s).value.1)
  {
    var n, t := Value(s[..8]), s[8..];
    ValueRoundTrip(s[..8]);
    ValueRoundTrip(t[n..n + 8]);
    assert s == s[..8] + t;
    ThreeParts(t, n);
    Regroup(s[..8], t[..n], t[n..n + 8], t[n + 8..]);
  }
}
