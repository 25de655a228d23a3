/** Uploading a snapshot's chunks and replaying it, over either storage backend. */
module Publishing {
  import opened Bytes
  import opened Options
  import opened Hkdf
  import opened Snapshot
  import Base58
  import Bs58

  /** Files beside the server, or a blob door that takes at most so many bytes. */
  datatype Backend = Local | Door(maxBytes: nat)

  type Store = map<seq<Byte>, seq<Byte>>

  datatype Upload = Upload(hash: seq<Byte>, framed: seq<Byte>)

  /**
   The name stands for these bytes. Beside the server it is the publisher's own text
   for their hash, and not empty; the door decodes it to 32 bytes.
   */
  predicate Names(env: Env, backend: Backend, name: seq<Byte>, data: seq<Byte>) {
    match backend
    case Local => name != [] && HashName(env, data) == name
    case Door(_) => Bs58.Decoded(name) == Some(env.b3(data)) && |env.b3(data)| == HASH
  }

  predicate Small(backend: Backend, data: seq<Byte>) {
    backend.Door? ==> |data| <= backend.maxBytes
  }

  /** What a backend stores: nothing empty, nothing too large, and nothing under a foreign name. */
  predicate Storable(env: Env, backend: Backend, name: seq<Byte>, data: seq<Byte>) {
    data != [] && Small(backend, data) && Names(env, backend, name, data)
  }

  predicate Accepts(env: Env, backend: Backend, up: Upload) {
    match Unframe(up.framed)
    case None => false
    case Some((ct, _)) => Storable(env, backend, up.hash, ct)
  }

  function Put(env: Env, backend: Backend, store: Store, up: Upload): (s: Store) {
    if Accepts(env, backend, up) then store[up.hash := Unframe(up.framed).value.0] else store
  }

  function PutAll(env: Env, backend: Backend, store: Store, ups: seq<Upload>): (s: Store) {
    if ups == [] then store
    else Put(env, backend, PutAll(env, backend, store, ups[..|ups| - 1]), ups[|ups| - 1])
  }

  /** Every chunk is under its own name. */
  predicate Honest(env: Env, backend: Backend, store: Store) {
    forall h :: h in store ==> Names(env, backend, h, store[h])
  }

  /** What uploads do to a store: nothing goes, and what is new is storable. */
  predicate Grown(env: Env, backend: Backend, before: Store, after: Store) {
    && (forall h :: h in before ==> h in after)
    && (forall h :: h in after && h !in before ==> Storable(env, backend, h, after[h]))
  }

  lemma {:induction false} PutAllGrows(env: Env, backend: Backend, store: Store, ups: seq<Upload>)
    requires Honest(env, backend, store)
    ensures Honest(env, backend, PutAll(env, backend, store, ups))
    ensures Grown(env, backend, store, PutAll(env, backend, store, ups))
  {
    if ups != [] { PutAllGrows(env, backend, store, ups[..|ups| - 1]); }
  }

  lemma {:induction false} PutAllKeeps(env: Env, backend: Backend, store: Store, ups: seq<Upload>, i: nat)
    requires i < |ups| && Accepts(env, backend, ups[i])
    ensures ups[i].hash in PutAll(env, backend, store, ups)
    decreases |ups|
  {
    if i < |ups| - 1 {
      assert ups[..|ups| - 1][i] == ups[i];
      PutAllKeeps(env, backend, store, ups[..|ups| - 1], i);
    }
  }

  // Which chunks are taken.

  function UploadOf(k: Chunk): (up: Upload) {
    Upload(k.hash, Frame(k.ciphertext, []))
  }

  /** A chunk as the publisher makes it. */
  predicate Proper(env: Env, k: Chunk) {
    k.hash == HashName(env, k.ciphertext) && |k.ciphertext| < U64
  }

  /** Not empty, not too large, and with a hash whose text the backend can read: see `AcceptedIff`. */
  predicate Takes(env: Env, backend: Backend, ct: seq<Byte>) {
    && ct != [] && Small(backend, ct)
    && match backend
       case Local => Bs58.LeadingZeros(env.b3(ct)) < HASH
       case Door(_) => Bs58.LeadingZeros(env.b3(ct)) == 0
  }

  lemma NamedIff(env: Env, backend: Backend, ct: seq<Byte>)
    requires |env.b3(ct)| == HASH
    ensures Names(env, backend, HashName(env, ct), ct)
            <==> match backend
                 case Local => Bs58.LeadingZeros(env.b3(ct)) < HASH
                 case Door(_) => Bs58.LeadingZeros(env.b3(ct)) == 0
  {
    var b := env.b3(ct);
    Bs58.EncodingEmptyIff(b);
    Bs58.DecodedIff(Base58.Encoding(b), b);
    Bs58.TextIsEncoding(b);
  }

  /**
   A chunk is taken if and only if it is not empty and its hash has a text: beside
   the server any but the all-zero hash, at the door one without a leading zero byte.
   */
  lemma AcceptedIff(env: Env, backend: Backend, k: Chunk)
    requires EnvOk(env) && Proper(env, k)
    ensures Accepts(env, backend, UploadOf(k)) <==> Takes(env, backend, k.ciphertext)
  {
    FrameRoundTrip(k.ciphertext, []);
    NamedIff(env, backend, k.ciphertext);
  }

  /** This ciphertext collides with nothing in the store. */
  predicate Collisionless(env: Env, ct: seq<Byte>, store: Store) {
    forall h :: h in store && env.b3(store[h]) == env.b3(ct) ==> store[h] == ct
  }

  lemma HonestHolds(env: Env, backend: Backend, store: Store, k: Chunk)
    requires EnvOk(env) && Honest(env, backend, store) && Proper(env, k) && Collisionless(env, k.ciphertext, store)
    requires k.hash in store
    ensures store[k.hash] == k.ciphertext
  {
    var mine, held := env.b3(k.ciphertext), env.b3(store[k.hash]);
    match backend
    case Local => Base58.EncodingInjective(held, mine);
    case Door(_) =>
      Bs58.DecodedIff(k.hash, held);
      Bs58.TextUnpadded(mine, held);
  }

  /**
   Once uploaded, among any other uploads, a chunk is stored under its hash with its own
   bytes if and only if it was there before or is one the backend takes.
   */
  lemma ChunkStored(env: Env, backend: Backend, store: Store, ups: seq<Upload>, k: Chunk)
    requires EnvOk(env) && Honest(env, backend, store) && Proper(env, k) && (UploadOf(k) in ups || k.hash in store)
    requires Collisionless(env, k.ciphertext, PutAll(env, backend, store, ups))
    ensures var s := PutAll(env, backend, store, ups);
            && (k.hash in s <==> k.hash in store || Takes(env, backend, k.ciphertext))
            && (k.hash in s ==> s[k.hash] == k.ciphertext)
  {
    var s := PutAll(env, backend, store, ups);
    PutAllGrows(env, backend, store, ups);
    AcceptedIff(env, backend, k);
    NamedIff(env, backend, k.ciphertext);
    if k.hash !in store && Takes(env, backend, k.ciphertext) {
      var i :| 0 <= i < |ups| && ups[i] == UploadOf(k);
      PutAllKeeps(env, backend, store, ups, i);
    }
    if k.hash in s { HonestHolds(env, backend, s, k); }
  }

  // Replay.

  /** The first entry with this path. */
  function Lookup(entries: seq<Entry>, path: seq<Byte>): (e: Option<Entry>) {
    if entries == [] then None
    else if entries[0].path == path then Some(entries[0])
    else Lookup(entries[1..], path)
  }

  lemma {:induction false} LookupFinds(entries: seq<Entry>, i: nat)
    requires i < |entries| && forall j :: 0 <= j < i ==> entries[j].path != entries[i].path
    ensures Lookup(entries, entries[i].path) == Some(entries[i])
  {
    if i > 0 {
      assert entries[1..][i - 1] == entries[i];
      assert forall j :: 0 <= j < i - 1 ==> entries[1..][j] == entries[j + 1];
      LookupFinds(entries[1..], i - 1);
    }
  }

  /** Serving a path: entry, chunk by hash, and the stream again. */
  function Serve(c: Cipher, entries: seq<Entry>, store: Store, path: seq<Byte>): (r: Option<seq<Byte>>) {
    match Lookup(entries, path)
    case None => None
    case Some(e) => if e.baoHash !in store then None else Some(c(e.path, e.nonce, store[e.baoHash]))
  }

  lemma {:induction false} NoneTooLarge(files: seq<File>, i: nat)
    requires FirstTooLarge(files) == None && i < |files|
    ensures Fits(files[i])
  {
    if i > 0 { NoneTooLarge(files[1..], i - 1); }
  }

  /** The first file with its path is looked up; a later one with the same path never is. */
  predicate FirstOfPath(files: seq<File>, i: nat)
    requires i < |files|
  {
    forall j :: 0 <= j < i ==> files[j].path != files[i].path
  }

  lemma {:induction false} FileServed(env: Env, backend: Backend, c: Cipher, files: seq<File>, nonces: seq<Nonce>,
                                      store: Store, ups: seq<Upload>, i: nat)
    requires EnvOk(env) && Involutive(c) && |nonces| >= |files| && FirstTooLarge(files) == None
    requires i < |files| && FirstOfPath(files, i) && Honest(env, backend, store)
    requires var k := ChunkOf(env, c, files[i], nonces[i]);
             && (UploadOf(k) in ups || k.hash in store)
             && Collisionless(env, k.ciphertext, PutAll(env, backend, store, ups))
    ensures var k := ChunkOf(env, c, files[i], nonces[i]);
            Serve(c, Entries(env, c, files, nonces), PutAll(env, backend, store, ups), files[i].path)
            == if k.hash in store || Takes(env, backend, k.ciphertext) then Some(files[i].content) else None
    ensures var e := Entries(env, c, files, nonces)[i]; e.plaintextSize == e.ciphertextSize == |files[i].content|
  {
    var f, n := files[i], nonces[i];
    assert c(f.path, n, c(f.path, n, f.content)) == f.content && |c(f.path, n, f.content)| == |f.content|;
    NoneTooLarge(files, i);
    ChunkStored(env, backend, store, ups, ChunkOf(env, c, f, n));
    LookupFinds(Entries(env, c, files, nonces), i);
  }

  /**
   Whatever else is uploaded, a published file is served with its own bytes if and only if
   its chunk was there before or is one the backend takes; its entry records its size.
   */
  lemma {:induction false} SnapshotReplays(env: Env, backend: Backend, seed: seq<Byte>, files: seq<File>,
                                           nonces: seq<Nonce>, store: Store, ups: seq<Upload>, i: nat)
    requires EnvOk(env) && |nonces| >= |files| && FirstTooLarge(files) == None
    requires i < |files| && FirstOfPath(files, i) && Honest(env, backend, store)
    requires var k := ChunkOf(env, Sealer(env, seed), files[i], nonces[i]);
             && (UploadOf(k) in ups || k.hash in store)
             && Collisionless(env, k.ciphertext, PutAll(env, backend, store, ups))
    ensures var c := Sealer(env, seed);
            var k := ChunkOf(env, c, files[i], nonces[i]);
            Serve(c, Entries(env, c, files, nonces), PutAll(env, backend, store, ups), files[i].path)
            == if k.hash in store || Takes(env, backend, k.ciphertext) then Some(files[i].content) else None
    ensures var e := Entries(env, Sealer(env, seed), files, nonces)[i];
            e.plaintextSize == e.ciphertextSize == |files[i].content|
  {
    SealerInvolutive(env, seed);
    FileServed(env, backend, Sealer(env, seed), files, nonces, store, ups, i);
  }

  // Files that are published and not served.

  lemma RefusedNotServed(env: Env, backend: Backend, c: Cipher, file: File, nonce: Nonce, up: Upload)
    requires !Accepts(env, backend, up)
    ensures Serve(c, Entries(env, c, [file], [nonce]), PutAll(env, backend, map[], [up]), file.path) == None
  {
    assert [up][..0] == [];
    assert PutAll(env, backend, map[], [up]) == map[];
  }

  /** One file, published to an empty store. */
  predicate Lost(env: Env, backend: Backend, c: Cipher, file: File, nonce: Nonce) {
    var up := UploadOf(ChunkOf(env, c, file, nonce));
    && !Accepts(env, backend, up)
    && Serve(c, Entries(env, c, [file], [nonce]), PutAll(env, backend, map[], [up]), file.path) == None
  }

  lemma UntakenIsLost(env: Env, backend: Backend, c: Cipher, file: File, nonce: Nonce)
    requires EnvOk(env) && Involutive(c) && |file.content| < U64
    requires !Takes(env, backend, c(file.path, nonce, file.content))
    ensures Lost(env, backend, c, file, nonce)
  {
    var k := ChunkOf(env, c, file, nonce);
    assert |c(file.path, nonce, file.content)| == |file.content|;
    AcceptedIff(env, backend, k);
    RefusedNotServed(env, backend, c, file, nonce, UploadOf(k));
  }

  /** An empty file is refused by both backends. */
  lemma EmptyFileNotServed(env: Env, backend: Backend, seed: seq<Byte>, path: seq<Byte>, nonce: Nonce)
    requires EnvOk(env)
    ensures Lost(env, backend, Sealer(env, seed), File(path, []), nonce)
  {
    var c := Sealer(env, seed);
    SealerInvolutive(env, seed);
    assert |c(path, nonce, [])| == 0;
    UntakenIsLost(env, backend, c, File(path, []), nonce);
  }

  lemma OneLeadingZero(env: Env, ct: seq<Byte>, maxBytes: nat)
    requires |env.b3(ct)| == HASH && ct != [] && env.b3(ct)[0] == 0 && env.b3(ct)[1] != 0
    ensures !Takes(env, Door(maxBytes), ct) && Takes(env, Local, ct)
  {
    var k := Bs58.LeadingZeros(env.b3(ct));
    if k > 1 { assert false; }
  }

  /** A file whose hash starts with a zero byte is refused by the door, and taken beside the server. */
  lemma LeadingZeroNotServed(env: Env, seed: seq<Byte>, file: File, nonce: Nonce, maxBytes: nat)
    requires EnvOk(env) && file.content != [] && |file.content| < U64
    requires var h := env.b3(Sealer(env, seed)(file.path, nonce, file.content)); h[0] == 0 && h[1] != 0
    ensures Lost(env, Door(maxBytes), Sealer(env, seed), file, nonce)
    ensures Accepts(env, Local, UploadOf(ChunkOf(env, Sealer(env, seed), file, nonce)))
  {
    var c := Sealer(env, seed);
    var ct := c(file.path, nonce, file.content);
    SealerInvolutive(env, seed);
    assert |ct| == |file.content|;
    OneLeadingZero(env, ct, maxBytes);
    UntakenIsLost(env, Door(maxBytes), c, file, nonce);
    AcceptedIff(env, Local, ChunkOf(env, c, file, nonce));
  }

  // Publishing: the server names the chunks it lacks, and each of those is put, until one is refused.

  function Sent(lacks: Chunk -> bool, up: Chunk -> Upload, chunks: seq<Chunk>): (ups: seq<Upload>) {
    if chunks == [] then []
    else
      var k := |chunks| - 1;
      Sent(lacks, up, chunks[..k]) + (if lacks(chunks[k]) then [up(chunks[k])] else [])
  }

  function Lacks(store: Store): (lacks: Chunk -> bool) {
    (chunk: Chunk) => chunk.hash !in store
  }

  function Missing(store: Store, chunks: seq<Chunk>): (ups: seq<Upload>) {
    Sent(Lacks(store), UploadOf, chunks)
  }

  /** The chunk is there already or the server takes it. */
  function Uploads(env: Env, backend: Backend, store: Store): (goes: Chunk -> bool) {
    (chunk: Chunk) => chunk.hash in store || Accepts(env, backend, UploadOf(chunk))
  }

  predicate AllUpTo(goes: Chunk -> bool, chunks: seq<Chunk>, i: nat)
    requires i <= |chunks|
  {
    forall j :: 0 <= j < i ==> goes(chunks[j])
  }

  lemma OneMoreGoes(goes: Chunk -> bool, chunks: seq<Chunk>, i: nat)
    requires i < |chunks| && AllUpTo(goes, chunks, i)
    ensures AllUpTo(goes, chunks, i + 1) <==> goes(chunks[i])
    ensures AllUpTo(goes, chunks, |chunks|) ==> goes(chunks[i])
  {
  }

  predicate NothingRefused(env: Env, backend: Backend, store: Store, chunks: seq<Chunk>) {
    AllUpTo(Uploads(env, backend, store), chunks, |chunks|)
  }

  method UploadMissing(env: Env, backend: Backend, store: Store, chunks: seq<Chunk>) returns (r: Option<Store>)
    ensures r.Some? <==> NothingRefused(env, backend, store, chunks)
    ensures r.Some? ==> r.value == PutAll(env, backend, store, Missing(store, chunks))
  {
    var current := store;
    for i := 0 to |chunks|
      invariant AllUpTo(Uploads(env, backend, store), chunks, i)
      invariant current == PutAll(env, backend, store, Missing(store, chunks[..i]))
    {
      MissingGrows(env, backend, store, chunks, i);
      OneMoreGoes(Uploads(env, backend, store), chunks, i);
      if chunks[i].hash in store {
        continue;
      }
      if !Accepts(env, backend, UploadOf(chunks[i])) {
        return None;
      }
      current := Put(env, backend, current, UploadOf(chunks[i]));
    }
    assert chunks[..|chunks|] == chunks;
    return Some(current);
  }

  lemma PutOneMore(env: Env, backend: Backend, store: Store, ups: seq<Upload>, up: Upload)
    ensures PutAll(env, backend, store, ups + [up]) == Put(env, backend, PutAll(env, backend, store, ups), up)
  {
    assert (ups + [up])[..|ups|] == ups;
  }

  lemma SentOneMore(lacks: Chunk -> bool, up: Chunk -> Upload, chunks: seq<Chunk>, i: nat)
    requires i < |chunks|
    ensures Sent(lacks, up, chunks[..i + 1])
            == Sent(lacks, up, chunks[..i]) + (if lacks(chunks[i]) then [up(chunks[i])] else [])
  {
    assert chunks[..i + 1][..i] == chunks[..i];
  }

  lemma {:induction false} SentHas(lacks: Chunk -> bool, up: Chunk -> Upload, chunks: seq<Chunk>, i: nat)
    requires i < |chunks| && lacks(chunks[i])
    ensures up(chunks[i]) in Sent(lacks, up, chunks)
    decreases |chunks|
  {
    var k := |chunks| - 1;
    if i < k {
      assert chunks[..k][i] == chunks[i];
      SentHas(lacks, up, chunks[..k], i);
    }
  }

  lemma MissingGrows(env: Env, backend: Backend, store: Store, chunks: seq<Chunk>, i: nat)
    requires i < |chunks|
    ensures var before := PutAll(env, backend, store, Missing(store, chunks[..i]));
            PutAll(env, backend, store, Missing(store, chunks[..i + 1]))
            == if chunks[i].hash in store then before else Put(env, backend, before, UploadOf(chunks[i]))
  {
    var m := Missing(store, chunks[..i]);
    SentOneMore(Lacks(store), UploadOf, chunks, i);
    PutOneMore(env, backend, store, m, UploadOf(chunks[i]));
    assert m + [] == m;
  }

  /** No chunk is refused if and only if each is there already or is one the backend takes. */
  lemma {:induction false} UploadIff(env: Env, backend: Backend, c: Cipher, files: seq<File>, nonces: seq<Nonce>,
                                     store: Store)
    requires EnvOk(env) && Involutive(c) && |nonces| >= |files| && FirstTooLarge(files) == None
    ensures var chunks := Chunks(env, c, files, nonces);
            NothingRefused(env, backend, store, chunks) <==>
            forall i :: 0 <= i < |chunks| ==> chunks[i].hash in store || Takes(env, backend, chunks[i].ciphertext)
  {
    var chunks := Chunks(env, c, files, nonces);
    forall i | 0 <= i < |chunks|
      ensures Uploads(env, backend, store)(chunks[i])
              <==> chunks[i].hash in store || Takes(env, backend, chunks[i].ciphertext)
    {
      NoneTooLarge(files, i);
      assert |c(files[i].path, nonces[i], files[i].content)| == |files[i].content|;
      AcceptedIff(env, backend, chunks[i]);
    }
  }

  // The whole command.

  datatype PublishError = TooLarge(path: seq<Byte>) | NoFiles | ManifestTooLarge | Refused

  /** Publishing, with the size of the manifest given by its entries. */
  method Publish(env: Env, backend: Backend, size: seq<Entry> -> nat, files: seq<File>, nonces: seq<Nonce>,
                 seed: seq<Byte>, store: Store) returns (r: Result<(seq<Entry>, Store), PublishError>)
    requires EnvOk(env) && |nonces| >= |files|
    ensures r.Ok? <==>
            && FirstTooLarge(files) == None && files != []
            && size(Entries(env, Sealer(env, seed), files, nonces)) <= MAX_BODY
            && NothingRefused(env, backend, store, Chunks(env, Sealer(env, seed), files, nonces))
    ensures r.Ok? ==> r.value.0 == Entries(env, Sealer(env, seed), files, nonces)
    ensures r.Ok? ==>
              var chunks := Chunks(env, Sealer(env, seed), files, nonces);
              r.value.1 == PutAll(env, backend, store, Missing(store, chunks))
    ensures FirstTooLarge(files).Some? ==> r == Err(TooLarge(FirstTooLarge(files).value))
    ensures files == [] ==> r == Err(NoFiles)
    ensures FirstTooLarge(files) == None && files != [] && r.Err? ==>
              r.error == if size(Entries(env, Sealer(env, seed), files, nonces)) > MAX_BODY then ManifestTooLarge
                         else Refused
  {
    var built := BuildSnapshot(env, files, nonces, seed);
    if built.Err? {
      return Err(TooLarge(built.error));
    }
    var (entries, chunks) := built.value;
    if entries == [] {
      return Err(NoFiles);
    }
    if size(entries) > MAX_BODY {
      return Err(ManifestTooLarge);
    }
    var after := UploadMissing(env, backend, store, chunks);
    if after.None? {
      return Err(Refused);
    }
    return Ok((entries, after.value));
  }

  predicate Drawn(pool: set<seq<Byte>>, store: Store) {
    forall h :: h in store ==> store[h] in pool
  }

  lemma PutDrawn(env: Env, backend: Backend, store: Store, k: Chunk, pool: set<seq<Byte>>)
    requires Drawn(pool, store) && k.ciphertext in pool && |k.ciphertext| < U64
    ensures Drawn(pool, Put(env, backend, store, UploadOf(k)))
  {
    FrameRoundTrip(k.ciphertext, []);
  }

  lemma {:induction false} UploadsDrawn(env: Env, backend: Backend, store: Store, chunks: seq<Chunk>,
                                        pool: set<seq<Byte>>)
    requires Drawn(pool, store)
    requires forall j :: 0 <= j < |chunks| ==> chunks[j].ciphertext in pool && |chunks[j].ciphertext| < U64
    ensures Drawn(pool, PutAll(env, backend, store, Missing(store, chunks)))
    decreases |chunks|
  {
    if chunks != [] {
      var k := |chunks| - 1;
      UploadsDrawn(env, backend, store, chunks[..k], pool);
      MissingGrows(env, backend, store, chunks, k);
      PutDrawn(env, backend, PutAll(env, backend, store, Missing(store, chunks[..k])), chunks[k], pool);
      assert chunks[..k + 1] == chunks;
    }
  }

  /**
   When no chunk is refused, and no two of the ciphertexts at hand collide, every path
   of the snapshot is served with the bytes of its file.
   */
  lemma {:induction false} PublishedIsServed(env: Env, backend: Backend, seed: seq<Byte>, files: seq<File>,
                                             nonces: seq<Nonce>, store: Store, pool: set<seq<Byte>>, i: nat)
    requires EnvOk(env) && |nonces| >= |files| && FirstTooLarge(files) == None
    requires i < |files| && FirstOfPath(files, i) && Honest(env, backend, store) && Drawn(pool, store)
    requires forall k :: k in Chunks(env, Sealer(env, seed), files, nonces) ==> k.ciphertext in pool
    requires forall x, y :: x in pool && y in pool && env.b3(x) == env.b3(y) ==> x == y
    requires NothingRefused(env, backend, store, Chunks(env, Sealer(env, seed), files, nonces))
    ensures var c := Sealer(env, seed);
            var after := PutAll(env, backend, store, Missing(store, Chunks(env, c, files, nonces)));
            Serve(c, Entries(env, c, files, nonces), after, files[i].path) == Some(files[i].content)
  {
    var c := Sealer(env, seed);
    SealerInvolutive(env, seed);
    var chunks := Chunks(env, c, files, nonces);
    forall j | 0 <= j < |chunks| ensures chunks[j].ciphertext in pool && |chunks[j].ciphertext| < U64 {
      assert chunks[j] in chunks;
      NoneTooLarge(files, j);
      assert |c(files[j].path, nonces[j], files[j].content)| == |files[j].content|;
    }
    UploadsDrawn(env, backend, store, chunks, pool);
    UploadIff(env, backend, c, files, nonces, store);
    if chunks[i].hash !in store { SentHas(Lacks(store), UploadOf, chunks, i); }
    FileServed(env, backend, c, files, nonces, store, Missing(store, chunks), i);
  }
}
