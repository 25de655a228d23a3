# Mjolnir in Dafny

A model of the parts of Mjolnir whose correctness ranges over whole runs or all
inputs, with proofs. `dafny verify dfyconfig.toml` checks everything.

**The blob door** (`BlobDoor`, `BlobAgreement`, `BlobPromises`, `BlobAnswers`,
`BlobAccounting`, `BlobBudget`, `BlobAdmission`, `BlobRoom`, `BlobLimits`) is a
step system: any number of PUTs and GETs, each at its own stage, over one cache directory, one byte counter, one admission lock and the
canonical store. Whatever the code does not control (store answers, failed
unlinks, dropped requests, restarts) is part of the step, so a run is a list of
steps and a theorem about all runs is a theorem about all lists. `BlobAgreement`
proves one invariant for any law that says which bytes a name stands for;
`BlobPromises` takes the hash as the law, `BlobAccounting` no law at all.
`BlobAnswers` is the other half of a promise: requests that nothing cuts short
are answered, and with what.
`BlobRoom` says exactly when the cache stays within its budget, and `BlobLimits`
holds the runs in which something goes wrong. `BlobCache` is
the cache object itself, with its loops; `BlobTransfer` the loops that move
bytes; `Multipart` the upload in parts.

**The key normalizer** (`KeyScan`, `KeyGrammar`, `KeyStream`, `KeyNormalizing`)
decodes escape sequences out of a byte stream that arrives in pieces. The
scanners are functions of the bytes still to be read. `KeyGrammar` defines the
encodings by themselves, `KeyStream` the theory of a lexer whose answers do not
change when more bytes arrive.

**Direct challenge** (`Cbor`, `BindEncoding`, `DirectChallenge`, `Issuance`) is
the signing encoding with a reader that knows nothing of the writer, one login
call as code, and any number of calls interleaved.

**Sites publishing** (`Base58`, `Bs58`, `Hkdf`, `ChaCha`, `XChaCha`,
`CipherLayout`, `Snapshot`, `Publishing`) goes from the in-place arithmetic to a
snapshot that a server replays, with either of its storage backends.
`CipherLayout` says which byte of key, nonce and counter goes into which word of
the cipher's state, apart from the code that puts it there.

**The gateway** (`GatewayConfig`, `NameOrder`, `DropIns`, `Declarations`,
`Routing`, `Reach`, `SanList`, `Subdomains`, `Hostnames`, `HeaderLines`, `Utf8`, `Unicode`,
`HeaderRewrite`) covers loading, routing, certificate names and the header
rewrite. `Declarations` reads what is loaded off the declarations of the file,
`Unicode` measures lossy decoding against the encoding of code points.

**The token store** (`TokenStore`, `TokenRotation`, `TokenPromises`,
`TokenAnswers`) is a step system of processes around one file, one lock and an
issuer of one-use credentials. `UrlCodecs` holds the URL encodings.

## How the outside world appears

- BLAKE3, HMAC-SHA256, signatures, the v1 identity check, JSON, TOML,
  socket-address and z32 code are function-valued parameters. What a theorem needs
  of them is in its `requires`: an injective hash (of no fixed length) for what
  the blob door promises about content, collision freedom among the chunks at
  hand for snapshots, a self-delimiting key encoding for binds, a parser that
  inverts the printer for tokens.
- Clocks, access times, random nonces, directory order and the outcome of every
  call into the network or the file system are parameters or parts of a step.
- Strings are their UTF-8 bytes. Unsigned widths are written out where they
  matter: 64-bit lengths, the 8-bit HKDF counter (checked or wrapping), 32-bit
  ChaCha words and block counter, saturating adds.
- Bit operations appear as arithmetic: `tag | n` and `remainder << 8 | byte` join
  disjoint bits and are sums, and exclusive or is defined bit by bit.

## What turned out not to hold

- A read of more than 48 bytes can trip the normalizer's cap, which looks at the
  whole buffer (`BurstTripsCap`). `CapIff` says exactly when a read differs from
  the uncapped rule.
- Over several reads, output and held bytes are those of the uncapped rule at
  every moment if and only if the cap is silent on each read (`EveryMomentIff`).
- A fill whose length the store did not report is published even when it stopped
  early (`UnreportedLengthCachesPrefix`). `LengthCheckIff` says for which streams
  the length check is enough.
- An outboard is compared by length only (`OutboardsMayDiffer`). After one PUT,
  cache and store agree on it if and only if the store had none or the same
  (`OutboardPutIff`), and they agree throughout a run in which the PUTs of an
  outboard that are not turned away carry the same bytes (`OutboardsAgree`).
- A request dropped inside admission can leave the counter wrong: too low after
  a rename that is not counted, too high after an unlink that is not. Each
  miscounts if and only if the file is not empty (`DroppedRenameMiscounts`,
  `DroppedUnlinkMiscounts`), and runs from a counted state get there
  (`RenameNotCounted`, `UnlinkNotCounted`, `MiscountFromEmpty`). The count at
  opening skips files it cannot read, and is exact if and only if those are
  empty (`SkippedMiscounts`).
- An unlink that fails, or a file left out of the listing, can let the cache
  exceed its budget (`StuckUnlinkExceeds`). An admission ends with room if and only
  if the files that were not listed or could not be unlinked leave room, alone
  (`AdmissionRoomIff`) and among other requests (`InterleavedRoomIff`); and the
  cache stays within the budget if and only if every file moved into place found
  room (`WithinIffRoomy`).
- A chunk that the manifest lists can be refused, so that its file is not served:
  every empty one (`EmptyFileNotServed`), and with a blob door as backend every one
  whose hash starts with a zero byte, because the publisher's base 58 drops leading
  zeros and the door wants 32 bytes (`LeadingZeroNotServed`). `AcceptedIff` is the
  exact condition for each backend; the chunk upload goes through if and only if
  every chunk is there already or meets it (`UploadIff`).
- A save whose directory sync fails reports an error with the new file in place
  (`FailedSyncReplaces`); `FailedCallWroteIff` says which failed calls wrote.
- Peer and connection are hashed without a boundary between them, and the kind of
  channel is not hashed, so two channels can share a binding
  (`BindingsConfused`). `BindingIff` and `SamePeerIff` say when; between Iroh
  connections it cannot happen (`IrohBindingIdentifies`).
- A routed host can lack a certificate name: `RoutedButUnnamed` is a loaded
  configuration with one, `UncoveredExactly` says which hosts they are.
- A credential that was exchanged comes up again if and only if its answer was
  lost on the way to the file (`AgainMeansStranded`, `StaleIffStranded`), as in
  `LostAnswerRepeats` and `LostSaveRepeats`.
- A request that starts with an empty line loses its headers in the rewrite
  (`LeadingEmptyLine`).
- A node name that ends like a port is read back as a node with a port
  (`WrittenIsRead`). No configuration gets there: a target that loads is z32, which
  has no hyphen, and is read back as it is (`LoadedTargetsReach`).

## Model

| member | source | states |
|---|---|---|
| `BlobAgreement.StepKeeps` | native/mjolnir_blob_door/src/http.rs:71-288 | for any law saying which bytes a name stands for, every step of a PUT, a GET, an admission or a restart keeps the invariant: cached objects, open files, fills and acknowledgements all follow the law and equal the canonical bytes |
| `BlobPromises.CacheAlwaysAgrees` | native/mjolnir_blob_door/src/cache.rs:162-212 | in every run whose streams come with a length, a non-outboard file under objects/ holds exactly the store's bytes for its hash, and hashes to its name |
| `BlobPromises.CacheAgreesIfWhole` | native/mjolnir_blob_door/src/http.rs:247-259 | the same when lengths are missing, as long as the fills that end cleanly were whole |
| `BlobPromises.ReportedIsSound` | native/mjolnir_blob_door/src/http.rs:247-259 | in every run, reported lengths make each cleanly ended fill a whole one |
| `BlobPromises.LengthCheckIff` | native/mjolnir_blob_door/src/http.rs:257 | the length check lets only whole streams through if and only if a length was reported or there is nothing to send |
| `BlobPromises.AcceptedStaysReadable` | native/mjolnir_blob_door/src/http.rs:98-166 | in every run whose streams come with a length, once an object's PUT is acknowledged every later completed GET delivers those bytes and none is told 404, through misses, evictions that win the open race, failed cache writes and restarts |
| `BlobPromises.AcceptedReadableIfWhole` | native/mjolnir_blob_door/src/http.rs:98-166 | the same when lengths are missing, as long as the fills that end cleanly were whole |
| `BlobAnswers.HitAnswered` | native/mjolnir_blob_door/src/http.rs:145-166 | from any state, a GET of a cached name is answered with the file, and nothing else changes |
| `BlobAnswers.MissAnswered` | native/mjolnir_blob_door/src/http.rs:227-273 | from any state, a miss whose stream arrives whole, with or without a length, kept or only passed on, is answered with the stored bytes |
| `BlobAnswers.AbsentAnswered` | native/mjolnir_blob_door/src/http.rs:145-166 | a name neither cached nor stored is answered with not found, and nothing else changes |
| `BlobAnswers.GetAnswered` | native/mjolnir_blob_door/src/http.rs:145-166 | in every run, after an object's PUT was acknowledged, a GET of it that no restart, departure, silent store or cut stream ends is never ended without its answer: it is on its way to the acknowledged bytes until it has been served them |
| `BlobAnswers.GetAdvances` | native/mjolnir_blob_door/src/http.rs:145-166 | each turn of such a GET brings it closer, and the last is the answer |
| `BlobAnswers.PutAnswered` | native/mjolnir_blob_door/src/http.rs:71-143 | in every run, a PUT of an object whose body was received under its own hash, and which no restart, departure or failing store ends, is on its way until it has been acknowledged with its own name and bytes |
| `BlobAnswers.PutAdvances` | native/mjolnir_blob_door/src/http.rs:71-143 | each turn of such a PUT, evictions included, brings it closer, and the last is the acknowledgement |
| `BlobAnswers.BodyReceived` | native/mjolnir_blob_door/src/http.rs:71-97 | a body sent in any pieces is received whole, in order, and passes the hash check if and only if it has its name's hash |
| `BlobPromises.OutboardsAgree` | native/mjolnir_blob_door/src/put.rs:31-61 | when all PUTs of an outboard that are not turned away for their length carry the same bytes, cache and store agree on every name, outboards included |
| `BlobAccounting.StepAccounts` | native/mjolnir_blob_door/src/cache.rs:162-241 | every uninterrupted step keeps: one lock holder, a free name until the rename, and counter plus uncounted rename equal to the directory's size |
| `BlobAccounting.CounterIsExact` | native/mjolnir_blob_door/src/cache.rs:62-78 | in every run, whatever the streams and bodies hold, whenever no admission is under way and no request was dropped inside one since the last restart, the counter is the number of bytes under objects/ |
| `BlobAccounting.FilesOwned` | native/mjolnir_blob_door/src/cache.rs:52-59 | in every run, with no assumption on hash, bodies or streams, no two requests share an incoming file and each holds what its request received |
| `BlobAccounting.NothingLeftBehind` | native/mjolnir_blob_door/src/cache.rs:52-59 | when clean-up unlinks succeed, every incoming file belongs to a live request, so none is left when all have ended |
| `BlobBudget.CacheWithinBudget` | native/mjolnir_blob_door/src/cache.rs:214-241 | in every interleaving in which, since the last opening, listings are complete, unlinks succeed and no request is dropped inside admission, a cache that opened within the budget never exceeds it, also between rename and counter update |
| `BlobRoom.WithinIffRoomy` | native/mjolnir_blob_door/src/cache.rs:191-241 | in every run without drops inside admission since the last opening, whatever listings and unlinks fail, a cache that opened within the budget is within it at every moment if and only if every file moved into place found room |
| `BlobRoom.InterleavedRoomIff` | native/mjolnir_blob_door/src/cache.rs:214-241 | in every interleaving, when a request's evictions end there is room for its file if and only if the files that were not listed or whose unlink failed leave room for it |
| `BlobRoom.AdmissionRoomIff` | native/mjolnir_blob_door/src/cache.rs:191-241 | the same for an undisturbed admission as a whole, counted, for any luck |
| `BlobBudget.AdmissionEndsWithin` | native/mjolnir_blob_door/src/cache.rs:191-212 | however full the cache was when it was opened, and so also under a smaller budget than before, an admission in such an interleaving ends with an exact counter within the budget |
| `BlobAdmission.AdmissionRefines` | native/mjolnir_blob_door/src/cache.rs:191-212 | lock, check, evictions, rename and count, taken together, do to the cache what one atomic admission does, with any outcome of the listing, of each unlink and of the rename, and any files missing from the listing |
| `BlobLimits.UnreportedLengthCachesPrefix` | native/mjolnir_blob_door/src/http.rs:257 | from any state, a run in which a fill without a reported length publishes the prefix that arrived, equal to the object if and only if all of it did |
| `BlobLimits.MissFillsCache` | native/mjolnir_blob_door/src/http.rs:227-273 | from any state with room, an object served from the store is in the cache afterwards, with the stored bytes, and counted |
| `BlobLimits.PutFillsCache` | native/mjolnir_blob_door/src/http.rs:98-143 | from any state with room, a new object or outboard is in the store and in the cache after its PUT, counted, and acknowledged |
| `BlobLimits.WrongHashRefused` | native/mjolnir_blob_door/src/http.rs:71-97 | a body under another hash leaves store, cache, counter and log as they were |
| `BlobLimits.OutboardsMayDiffer` | native/mjolnir_blob_door/src/put.rs:43-46 | from any state, a run after which the cache holds any other outboard of the stored length |
| `BlobLimits.OutboardPutIff` | native/mjolnir_blob_door/src/put.rs:31-61 | one PUT of an outboard from any state with room is taken if and only if the store has none or one of that length, and then cache and store agree if and only if the store had none or the very same |
| `BlobLimits.DroppedRenameMiscounts` | native/mjolnir_blob_door/src/cache.rs:191-212 | dropping a request after its rename leaves the counter exact if and only if the file is empty |
| `BlobLimits.DroppedUnlinkMiscounts` | native/mjolnir_blob_door/src/cache.rs:231-241 | dropping a request with an unlink done but not counted leaves the counter exact if and only if the victim is empty |
| `BlobLimits.RenameNotCounted` | native/mjolnir_blob_door/src/cache.rs:191-212 | from any counted state with room, the run that gets to such a rename |
| `BlobLimits.UnlinkNotCounted` | native/mjolnir_blob_door/src/cache.rs:231-241 | from any counted state without room, the run that gets to such an unlink |
| `BlobLimits.MiscountFromEmpty` | native/mjolnir_blob_door/src/cache.rs:191-241 | two objects that do not fit together: a run from an empty cache that ends with a wrong counter |
| `BlobLimits.StuckUnlinkExceeds` | native/mjolnir_blob_door/src/cache.rs:231-241 | from any state without room, a run in which a failed unlink lets an admission exceed the budget |
| `BlobLimits.SkippedMiscounts` | native/mjolnir_blob_door/src/cache.rs:255-266 | after an opening whose count skips files, the counter is exact if and only if the skipped files are empty |
| `BlobCache.EvictIsShortestCut` | native/mjolnir_blob_door/src/cache.rs:214-241 | with every unlink succeeding, what goes is the shortest prefix of the queue whose removal makes room |
| `BlobCache.EvictIsLru` | native/mjolnir_blob_door/src/cache.rs:214-241 | nothing evicted was used after something kept |
| `BlobCache.EvictMakesRoom` | native/mjolnir_blob_door/src/cache.rs:231-241 | evicting from a complete queue always makes room for what fits the budget |
| `BlobCache.EvictRoomIff` | native/mjolnir_blob_door/src/cache.rs:231-241 | for any queue and any failing unlinks, eviction makes room if and only if the files that are stuck or not in the queue leave room |
| `BlobCache.AdmitAccounts` | native/mjolnir_blob_door/src/cache.rs:162-212 | an admission keeps the counter exact whatever unlinks fail, and ends a new file within the budget when none does |
| `BlobCache.AdmitPublishes` | native/mjolnir_blob_door/src/cache.rs:162-212 | a kept file is there with its bytes, or as it was; only a file over the budget is let go; no other file appears or changes, and what goes was in the queue and not stuck, and room was short |
| `BlobCache.ScanSize` | native/mjolnir_blob_door/src/cache.rs:255-266 | the loop returns the directory's size without the files whose metadata cannot be read |
| `BlobCache.DiskCache.Open` | native/mjolnir_blob_door/src/cache.rs:62-78 | opening sweeps incoming/, leaves objects/ alone, and starts with a counter that is exact if and only if the files it could not read are empty |
| `BlobCache.DiskCache.EvictToFit` | native/mjolnir_blob_door/src/cache.rs:214-241 | the eviction loop works through all readable files in access order, does what the eviction function says with the unlinks that fail, and keeps an exact counter exact; it fails exactly when it needs a listing and gets none |
| `BlobCache.DiskCache.AdmitFile` | native/mjolnir_blob_door/src/cache.rs:162-212 | publishes, drops or fails as the admission function says for any luck with listing, unlinks and rename, gives up the incoming file unless it failed, keeps an exact counter exact, and then ends within budget if and only if the files that cannot go leave room |
| `BlobTransfer.PumpBody` | native/mjolnir_blob_door/src/pump.rs:19-43 | succeeds exactly for a clean stream within the limit whose writes succeed; then file and hashed bytes are the body; never writes more than the limit |
| `BlobTransfer.CanonicalStore.PutFile` | native/mjolnir_blob_door/src/put.rs:31-61 | success means the store has the name at that length; an existing object is never rewritten; no other name is touched |
| `BlobTransfer.Tee` | native/mjolnir_blob_door/src/http.rs:227-273 | the client gets all that arrives; the file is kept exactly when writes, sync, stream end and reported length all agree, and then equals what was sent |
| `Multipart.PutMultipart` | native/mjolnir_blob_door/src/s3.rs:77-166 | for every 64-bit length: parts numbered from 1, all full but the last, joining to the file, at most 10 000; the upload succeeds when the file is long enough and every part is accepted |
| `Multipart.PartSizeSuffices` | native/mjolnir_blob_door/src/s3.rs:169-172 | the size is at least 16 MiB, 10 000 parts of it cover the file, and it is the least such size |
| `Multipart.FitsI32` | native/mjolnir_blob_door/src/s3.rs:106-150 | while bytes remain, the next part number is at most 10 000 |
| `KeyScan.ScanStable` | native/mjolnir_client/src/connect.rs:503-525 | an answer other than "need more" is unchanged by bytes that come later |
| `KeyScan.NumberLoop` | native/mjolnir_client/src/connect.rs:539-560 | the digit loop, with saturation and digit limit, is the number scanner |
| `KeyScan.SkipColonsLoop` | native/mjolnir_client/src/connect.rs:733-745 | the colon loop is the colon scanner |
| `KeyGrammar.ScanIsGrammar` | native/mjolnir_client/src/connect.rs:594-725 | the scanner takes n bytes as byte b if and only if those bytes are an encoding of b in the grammar, where what an encoding stands for is said from its key, modifier and text alone |
| `KeyGrammar.ScanDecides` | native/mjolnir_client/src/connect.rs:594-725 | every encoding of the grammar, whatever follows it, is answered at once: with all of it and its byte if it stands for one, and by letting its first byte through if not |
| `KeyGrammar.KittyTypes` | native/mjolnir_client/src/connect.rs:653-725 | a report of a printable key is read as that key, with shift as its shifted character, with a text as that text; any other modifier, and anything unprintable, is let through |
| `KeyGrammar.ShiftIsKeyboard` | native/mjolnir_client/src/connect.rs:566-592 | shift gives a letter its capital, gives each other key of the US rows, written out as two texts, the character above it, and changes no other |
| `KeyGrammar.ShiftPairsUp` | native/mjolnir_client/src/connect.rs:566-592 | shift pairs the printable keys up: each is either moved by shift or what exactly one moved key becomes |
| `KeyGrammar.ShiftUndone` | native/mjolnir_client/src/connect.rs:566-592 | a separately written unshift table gives every moved key back |
| `KeyNormalizing.KeyNormalizer.Push` | native/mjolnir_client/src/connect.rs:460-463 | output and held bytes are the drain of held plus new bytes; at most 48 are held |
| `KeyNormalizing.KeyNormalizer.Flush` | native/mjolnir_client/src/connect.rs:465-467 | lets go of everything and holds nothing |
| `KeyNormalizing.KeyNormalizer.DrainLoop` | native/mjolnir_client/src/connect.rs:469-493 | the drain loop is the drain function, forced or not |
| `KeyNormalizing.ChunkIndependence` | native/mjolnir_client/src/connect.rs:460-525 | however a stream is cut into pushes on which the cap is silent, outputs and held bytes are those of the uncapped scanner on the whole stream |
| `KeyNormalizing.ShortChunkIndependence` | native/mjolnir_client/src/connect.rs:460-525 | the same for every split whose pushes find at most 48 bytes |
| `KeyNormalizing.CapIff` | native/mjolnir_client/src/connect.rs:514-516 | a read gives the uncapped result if and only if the cap bites at none of the places where the drain looks |
| `KeyNormalizing.EveryMomentIff` | native/mjolnir_client/src/connect.rs:460-525 | a run of reads agrees with the uncapped scanner after every read if and only if the cap is silent on every read |
| `KeyNormalizing.BurstTripsCap` | native/mjolnir_client/src/connect.rs:514-516 | five keys pushed together differ from five pushed one by one |
| `KeyNormalizing.RunIsLossless` | native/mjolnir_client/src/connect.rs:445-525 | any run of pushes and flushes outputs the input with only complete printable encodings collapsed to their byte, in order; at most 48 bytes held, none after a flush |
| `KeyNormalizing.RunNeverGrows` | native/mjolnir_client/src/connect.rs:460-493 | output and held bytes together are never longer than the input |
| `KeyNormalizing.KeyByKey` | native/mjolnir_client/src/connect.rs:594-725 | keys in any encoding of the grammar, pushed key by key, come back as themselves |
| `KeyNormalizing.ModifyOtherKeyRoundTrip` | native/mjolnir_client/src/connect.rs:601-652 | every printable code as `ESC[27;m;c~`, plain or shifted, decodes to itself |
| `KeyNormalizing.KittyKeyRoundTrip` | native/mjolnir_client/src/connect.rs:653-725 | a report of a key, in each of its forms, goes through the normalizer as the byte that was typed, shift included |
| `Cbor.HeadDecodes` | native/mjolnir_biscuit/src/direct_challenge.rs:94-112 | every 64-bit length is read back from its head, with what follows untouched |
| `Cbor.HeadShortest` | native/mjolnir_biscuit/src/direct_challenge.rs:94-112 | of all heads that read as a length, the written one is the shortest and the only one of its size (section 4.2.1 of RFC 8949) |
| `Cbor.TupleDecodes` | native/mjolnir_biscuit/src/direct_challenge.rs:78-83 | a tuple is read back with its component boundaries |
| `Cbor.Writer.Head` | native/mjolnir_biscuit/src/direct_challenge.rs:94-112 | appends exactly the head |
| `Cbor.Writer.Tuple` | native/mjolnir_biscuit/src/direct_challenge.rs:78-83 | the loop appends exactly the tuple |
| `BindEncoding.SigningBytesInjective` | native/mjolnir_biscuit/src/direct_challenge.rs:66-112 | equal signing bytes if and only if equal challenge, session key, operation, resource and channel, for any self-delimiting key encoding |
| `BindEncoding.PayloadReads` | native/mjolnir_biscuit/src/direct_challenge.rs:63-86 | a reader that knows the layout and not the writer finds the two domain tags, challenge, session key, operation, resource and channel at their places, in that order |
| `BindEncoding.KeyMapSelfDelimiting` | native/mjolnir_biscuit/src/direct_challenge.rs:63-65 | a two-entry key map is self-delimiting, so the assumption can be met |
| `BindEncoding.BindSigningBytes` | native/mjolnir_biscuit/src/direct_challenge.rs:66-86 | the buffer built step by step is the encoding |
| `DirectChallenge.DecideIff` | native/mjolnir_biscuit/src/direct_challenge.rs:267-295 | the checks in order yield a grant if and only if identity, a signature of the same holder over challenge, session key, operation, resource and channel, both lengths, proven edge, channel and policy all hold of it |
| `DirectChallenge.DecideErrorIff` | native/mjolnir_biscuit/src/direct_challenge.rs:267-295 | which error a refused call gets: the first check that fails, in the order of the code |
| `DirectChallenge.BindingIff` | native/mjolnir_biscuit/src/direct_challenge.rs:133-157 | with a collision-free hash, two bindings are equal if and only if peer and connection bytes, run together, are |
| `DirectChallenge.SamePeerIff` | native/mjolnir_biscuit/src/direct_challenge.rs:133-157 | channels with equal bindings are the same connection to the same peer if and only if the peer names are of one length |
| `DirectChallenge.IrohBindingIdentifies` | native/mjolnir_biscuit/src/direct_challenge.rs:133-157 | Iroh channels with equal bindings are the same channel, edge included |
| `DirectChallenge.BindingsConfused` | native/mjolnir_biscuit/src/direct_challenge.rs:133-157 | two HTTPS peers, and an HTTPS and an Iroh channel, that share a binding |
| `DirectChallenge.Store.CommitGrant` | native/mjolnir_biscuit/src/direct_challenge.rs:364-385 | succeeds exactly on a usable challenge that is not lost before commit, writing both consumption and credential; otherwise changes nothing |
| `DirectChallenge.StagedNonce.Take` | native/mjolnir_biscuit/src/direct_challenge.rs:218-233 | stages the right nonce once, never touching the store |
| `DirectChallenge.VerifyAndIssue` | native/mjolnir_biscuit/src/direct_challenge.rs:245-296 | a call by itself returns a credential exactly when some grant is earned, the nonce is granted and the challenge is usable; any error leaves the store unchanged |
| `Issuance.OneCredentialPerChallenge` | native/mjolnir_biscuit/src/direct_challenge.rs:180-201 | in every interleaving with restarts, two returned credentials answer two challenges and differ |
| `Issuance.ConsumedWithCredential` | native/mjolnir_biscuit/src/direct_challenge.rs:182-192 | a challenge is consumed if and only if a credential was returned for it, with that call's grant on record |
| `Issuance.CredentialsAreEarned` | native/mjolnir_biscuit/src/direct_challenge.rs:245-296 | every returned credential passed all checks and was within the challenge's expiry |
| `Issuance.OnlyWinsChangeBook` | native/mjolnir_biscuit/src/direct_challenge.rs:187-189 | over its whole course in any interleaving, no step of a call changes challenges or credentials but its last, and that one does if and only if it returns a credential |
| `Issuance.OnlyCommitsConsume` | native/mjolnir_biscuit/src/direct_challenge.rs:364-385 | credentials change only by a commit that reports one, on a challenge that was usable at that moment |
| `Issuance.CredentialsWereMeant` | native/mjolnir_biscuit/src/direct_challenge.rs:267-274 | without forgeries, a credential for a holder is for a claim that holder signed over this challenge, session key, operation, resource and channel, each spelled out |
| `Issuance.OneClaimOneCredential` | native/mjolnir_biscuit/src/direct_challenge.rs:245-296 | one signed claim yields at most one credential, however often presented |
| `Issuance.SoloSucceeds` | native/mjolnir_biscuit/src/direct_challenge.rs:245-296 | left alone, a call that earns a grant on a usable challenge gets its credential |
| `Issuance.HonestLoginSucceeds` | native/mjolnir_biscuit/src/direct_challenge.rs:245-296 | a holder who signs the challenge, the key, the operation, the resource and the binding of the channel used gets a credential for exactly these, as long as the challenge is unused and up to its last second |
| `Base58.Encode` | native/mjolnir_client/src/sites.rs:253-280 | the in-place division loop yields the base-58 numeral of the big-endian number |
| `Base58.Divide` | native/mjolnir_client/src/sites.rs:268-272 | one pass divides the number by 58 in place: old value = 58 * new value + remainder, quotients fitting a byte |
| `Base58.DigitsValue` | native/mjolnir_client/src/sites.rs:253-280 | the numeral has the number's value and no leading zero |
| `Base58.DigitsUnique` | native/mjolnir_client/src/sites.rs:253-280 | it is the only such numeral |
| `Base58.EncodingInjective` | native/mjolnir_client/src/sites.rs:253-280 | inputs of equal length never share an encoding |
| `Base58.LeadingZeroVanishes` | native/mjolnir_client/src/sites.rs:248-252 | leading zero bytes are not preserved |
| `Bs58.DecodedIff` | native/mjolnir_blob_door/src/lib.rs:92-99 | the door's decoder yields a byte string for exactly one text, the one with a `1` for each leading zero byte |
| `Bs58.TextIsEncoding` | native/mjolnir_client/src/sites.rs:246-280 | the publisher's text is that one if and only if there is no leading zero byte |
| `Hkdf.HkdfSha256` | native/mjolnir_client/src/sites.rs:302-323 | the expand loop gives the specified output; with overflow checks it fails exactly beyond 254 blocks |
| `Hkdf.OkmPrefix` | native/mjolnir_client/src/sites.rs:308-322 | a shorter output is a prefix of a longer one |
| `Hkdf.OkmIsBlocks` | native/mjolnir_client/src/sites.rs:308-322 | byte p is byte p % 32 of T(p / 32 + 1) of section 2.3 of RFC 5869 |
| `Hkdf.OneBlock` | native/mjolnir_client/src/sites.rs:302-323 | 32 bytes are one HMAC over info and the byte 1, keyed by an HMAC of the input under 32 zero bytes |
| `Hkdf.OkmChains` | native/mjolnir_client/src/sites.rs:308-322 | each later block is an HMAC over the block before it, info, and its own number, up to 255 blocks |
| `ChaCha.QuarterRound` | native/mjolnir_client/src/sites.rs:328-337 | the in-place quarter round is four add-xor-rotate steps on its lanes, nothing else touched |
| `ChaCha.TwentyRounds` | native/mjolnir_client/src/sites.rs:340-351 | the in-place rounds are the permutation |
| `ChaCha.PermutedInjective` | native/mjolnir_client/src/sites.rs:340-351 | the rounds lose nothing: they can be undone |
| `XChaCha.WordsLawful` | native/mjolnir_client/src/sites.rs:328-337 | on 32-bit words each add-xor-rotate step can be undone |
| `XChaCha.XChaCha20Xor` | native/mjolnir_client/src/sites.rs:385-416 | the block loop xors byte i of the data with byte i of the keystream of key and nonce |
| `XChaCha.HChaCha20` | native/mjolnir_client/src/sites.rs:359-376 | the subkey is words 0 to 3 and 12 to 15 after the rounds |
| `XChaCha.StreamedTwice` | native/mjolnir_client/src/sites.rs:378-384 | applying the stream again gives the data back |
| `XChaCha.StreamedPrefix` | native/mjolnir_client/src/sites.rs:402-415 | the start of the data is hidden alike whatever follows |
| `XChaCha.StreamedBit` | native/mjolnir_client/src/sites.rs:402-415 | each bit of the data is flipped exactly where the keystream has a one |
| `CipherLayout.KeystreamIs` | native/mjolnir_client/src/sites.rs:359-416 | block n of the keystream is the sum of a permuted state and itself, the state holding, word by word, constants, subkey words, n and the last eight nonce bytes, and the subkey coming from the state of constants, key words and the first sixteen nonce bytes |
| `CipherLayout.StatesExist` | native/mjolnir_client/src/sites.rs:359-416 | for every key, nonce and block there are such states |
| `CipherLayout.KeysTellApart` | native/mjolnir_client/src/sites.rs:359-376 | after the rounds the first states are equal if and only if key and first sixteen nonce bytes are |
| `CipherLayout.BlocksTellApart` | native/mjolnir_client/src/sites.rs:402-415 | if two blocks' states are equal after the rounds, then block number modulo 2^32, last nonce bytes and subkey words are |
| `CipherLayout.WordsOnWords` | native/mjolnir_client/src/sites.rs:325-337 | the operations the cipher is used with are little-endian load and store, addition modulo 2^32, and steps that can be undone |
| `CipherLayout.QuarterIs` | native/mjolnir_client/src/sites.rs:328-337 | the quarter round is the chain of additions, exclusive ors and rotations by 16, 12, 8 and 7 of section 2.1 of RFC 8439 |
| `CipherLayout.WordsAddXorRotate` | native/mjolnir_client/src/sites.rs:328-337 | each of its steps is an addition modulo 2^32, an exclusive or, and a rotation |
| `CipherLayout.RotateIs` | native/mjolnir_client/src/sites.rs:328-337 | each of the four rotations moves that many top bits to the bottom |
| `CipherLayout.RoundIsColumnsAndDiagonals` | native/mjolnir_client/src/sites.rs:340-351 | a double round is quarter rounds on the four columns and then on the four diagonals, and there are ten |
| `XChaCha.XorBitwise` | native/mjolnir_client/src/sites.rs:414 | a result bit is set exactly where the operands differ |
| `Snapshot.BuildSnapshot` | native/mjolnir_client/src/sites.rs:596-649 | one entry and one chunk per file, in order, or the path of the first file that is too large |
| `Snapshot.SealedIs` | native/mjolnir_client/src/sites.rs:596-649 | a file is sealed with the stream of its nonce and of the key that HMAC gives for the seed and the file's path |
| `Publishing.SnapshotReplays` | lib/mjolnir/sites/server.ex:59-130 | with either backend, whatever else is uploaded and in whatever order, a published file, the first of its path, is served with its own bytes if and only if its chunk was there before or is one the backend takes, and its entry records its size |
| `Publishing.AcceptedIff` | native/mjolnir_blob_door/src/http.rs:83-128 | a chunk is taken if and only if it is not empty and, beside the server, its hash is not all zero, or, at a door, its hash does not start with a zero byte and it is within the size limit |
| `Publishing.PublishedIsServed` | native/mjolnir_client/src/sites.rs:758-797 | when the upload goes through, and no two ciphertexts at hand collide, every path of the snapshot is served with the bytes of its file |
| `Publishing.EmptyFileNotServed` | lib/mjolnir/sites/storage/local.ex:22 | the chunk of an empty file is refused by both backends and the path not served |
| `Publishing.LeadingZeroNotServed` | lib/mjolnir/sites/storage/recrypt.ex:57-64 | a file whose hash starts with a zero byte is taken beside the server, but refused by a door and not served |
| `Publishing.UploadIff` | native/mjolnir_client/src/sites.rs:787-797 | no chunk is refused if and only if each is there already or is one the backend takes |
| `Publishing.UploadMissing` | native/mjolnir_client/src/sites.rs:787-797 | the loop sends exactly the chunks the store lacks, in order, and stops exactly when one is refused |
| `Publishing.Publish` | native/mjolnir_client/src/sites.rs:758-797 | publishing succeeds if and only if no file is too large, there is a file, the manifest fits the body limit and no chunk is refused, with the error of the first of these that fails |
| `Publishing.ChunkStored` | lib/mjolnir/api/sites_router.ex:255-264 | once uploaded, among any other uploads, a chunk is stored under its hash with its own bytes if and only if it was there before or is one the backend takes |
| `Snapshot.FrameRoundTrip` | native/mjolnir_client/src/sites.rs:669-678 | the server's pattern recovers ciphertext and outboard, with 16 bytes of overhead |
| `Snapshot.UnframeOnlyFrames` | lib/mjolnir/api/sites_router.ex:623-630 | the server accepts frames and nothing else |
| `GatewayConfig.NormalizeApexes` | native/mjolnir_gateway/src/config.rs:690-734 | fails exactly on an empty list or a bad apex; keeps the first of each suffix |
| `GatewayConfig.NormalizeRoutes` | native/mjolnir_gateway/src/config.rs:737-797 | keeps the first valid route of each key |
| `GatewayConfig.NormalizeAliases` | native/mjolnir_gateway/src/config.rs:800-872 | writes the last valid alias onto a shadowing route, in place, and collects the first valid alias of each other key |
| `GatewayConfig.ValidateAndNormalize` | native/mjolnir_gateway/src/config.rs:686-1017 | the loops together give the normal form the lemmas speak of |
| `Declarations.LoadsIff` | native/mjolnir_gateway/src/config.rs:686-734 | loading succeeds if and only if there is a domain, every domain has a host name and a known fallthrough, and the settings are accepted; no route, alias or certificate matters |
| `Declarations.ApexIsDeclared` | native/mjolnir_gateway/src/config.rs:690-734 | an apex is loaded if and only if it is the first domain of its name, with the mode that domain says |
| `Declarations.RouteIsDeclared` | native/mjolnir_gateway/src/config.rs:737-860 | a route is loaded if and only if it is the first good declaration of its key, with that backend, and its fallback is the node and port of the last good alias of that key, or none where there is none |
| `Declarations.AliasIsDeclared` | native/mjolnir_gateway/src/config.rs:800-872 | an alias is loaded if and only if no good route has its key and it is the first good declaration of that key, with that node and port |
| `Declarations.CertIsDeclared` | native/mjolnir_gateway/src/config.rs:874-911 | a certificate is loaded if and only if it is the first good declaration for its host, certificate and key file each in its place |
| `DropIns.MergeDropIns` | native/mjolnir_gateway/src/config.rs:512-569 | of the files listed, those with the extension are taken in name order, and of each only routes and aliases are appended; an unreadable directory or file is skipped |
| `DropIns.AppendedInOrder` | native/mjolnir_gateway/src/config.rs:505-569 | what is appended is every route and alias of every readable file with the extension, each from its place in its file, in the order of file names and then of the file |
| `DropIns.ListingOrderIrrelevant` | native/mjolnir_gateway/src/config.rs:506-522 | the order in which the directory lists its files does not matter |
| `DropIns.DropInsStayInside` | native/mjolnir_gateway/src/config.rs:505-569 | loading succeeds exactly when the base alone does, with the same apexes, certificates and settings |
| `DropIns.BaseRoutesStand` | native/mjolnir_gateway/src/config.rs:737-797 | every route of the base keeps its place, key and backend |
| `DropIns.BaseAliasesStand` | native/mjolnir_gateway/src/config.rs:800-872 | an alias of the base keeps its target unless a route takes its key, and that route has a fallback |
| `DropIns.FirstRouteWins` | native/mjolnir_gateway/src/config.rs:778-797 | the route for a key is the first valid one declared, with the last valid alias as fallback |
| `DropIns.FirstAliasWins` | native/mjolnir_gateway/src/config.rs:838-872 | the alias for a key is the first valid one, unless a route has the key |
| `DropIns.KeysAreUnique` | native/mjolnir_gateway/src/config.rs:686-872 | no apex, route or alias key occurs twice, and no key is both a route's and an alias's |
| `Routing.LongestWins` | native/mjolnir_gateway/src/route.rs:64-78 | the match is an apex and subdomain if and only if they match and no longer apex does |
| `Routing.OrderIrrelevant` | native/mjolnir_gateway/src/route.rs:28-38 | the order of the apexes in the file does not matter |
| `Routing.ClassifyIffRule` | native/mjolnir_gateway/src/main.rs:781-817 | the disposition is d if and only if the order-free rule gives d: longest apex, local route, alias, fallthrough, with the bare-apex cases |
| `Routing.LoadedByRule` | native/mjolnir_gateway/src/main.rs:781-817 | the same for every configuration that loads |
| `Reach.HostReaches` | native/mjolnir_gateway/src/main.rs:781-817 | from host to file: a host goes, below its longest apex, to the backend of the first good route declared, falling back to what is read as the node and port of the last good alias; without a route to what is read as the node and port of the first good alias; else where the apex lets hosts fall; below no apex it is refused |
| `Routing.BelowIff` | native/mjolnir_gateway/src/route.rs:64-78 | a host matches a suffix if and only if it is the suffix, or a subdomain, a dot and the suffix |
| `Routing.PortIgnored` | native/mjolnir_gateway/src/main.rs:657-661 | a host is classified alike with and without a port, by the rule for the host itself |
| `Routing.CaseIgnored` | native/mjolnir_gateway/src/route.rs:64-78 | hosts that differ in the case of letters only are classified alike |
| `Hostnames.HostnameIff` | native/mjolnir_gateway/src/config.rs:342-395 | a name is accepted if and only if it is at most 253 characters of labels (section 2.1 of RFC 1123) with dots between them |
| `Subdomains.WrittenIsRead` | native/mjolnir_gateway/src/main.rs:468-491 | what is written for a node and port is read back if and only if there is a node and, without a port, it does not end like one |
| `Subdomains.AliasReachesNode` | native/mjolnir_gateway/src/config.rs:248-256 | a hyphen-free node is always read back with its port |
| `Subdomains.LoadedTargetsReach` | native/mjolnir_gateway/src/config.rs:800-872 | every alias and every fallback of a configuration that loads is read back as its node and port |
| `SanList.DeriveSanList` | native/mjolnir_gateway/src/config.rs:434-464 | the nested loops build the candidate names, each kept once, in order |
| `SanList.SansDistinct` | native/mjolnir_gateway/src/config.rs:435-439 | no name twice |
| `SanList.SansMember` | native/mjolnir_gateway/src/config.rs:434-464 | the names are exactly the apexes, a wildcard for each apex that is not `none`, and the names spelled out by routes of `none` apexes and by aliases |
| `SanList.CoverageIff` | native/mjolnir_gateway/src/config.rs:434-464 | a host below an apex is covered if and only if it is the apex, is spelled out, or is one label below a wildcard apex (section 6.4.3 of RFC 6125) |
| `SanList.UncoveredExactly` | native/mjolnir_gateway/src/main.rs:781-817 | a routed host has no name exactly when its apex has a wildcard, it is neither the apex nor one label below it, and nothing spells it out |
| `SanList.LoadedUncoveredExactly` | native/mjolnir_gateway/src/config.rs:434-464 | the same for every configuration that loads |
| `SanList.RoutedButUnnamed` | native/mjolnir_gateway/src/main.rs:781-817 | a configuration that loads and routes a host two labels below its apex, with no name for it |
| `HeaderLines.LinesJoin` | native/mjolnir_gateway/src/main.rs:671-682 | a buffer with an empty line, not at its start, is its lines, the empty line and its body |
| `Utf8.AroundAscii` | native/mjolnir_gateway/src/main.rs:679 | lossy decoding leaves an ASCII byte where it is and decodes what is before and after it by itself |
| `Utf8.LossyTwice` | native/mjolnir_gateway/src/main.rs:679 | decoding again changes nothing |
| `Unicode.LossyKeepsIff` | native/mjolnir_gateway/src/main.rs:679 | decoding changes nothing if and only if the bytes encode code points |
| `Unicode.LossyIsText` | native/mjolnir_gateway/src/main.rs:679 | whatever comes in, what comes out encodes code points |
| `Unicode.ReplacedIsMaximal` | native/mjolnir_gateway/src/main.rs:679 | where no character stands, one U+FFFD replaces the longest piece that starts like one, or the byte that starts none |
| `HeaderRewrite.SetOrReplaceHeader` | native/mjolnir_gateway/src/main.rs:670-703 | the loop writes what the rewrite function says |
| `HeaderRewrite.RewriteLines` | native/mjolnir_gateway/src/main.rs:670-703 | whatever bytes came, afterwards the lines are the other lines, decoded, in order and then the new one; the body is kept byte for byte |
| `HeaderRewrite.KeptLines` | native/mjolnir_gateway/src/main.rs:679-697 | for an ASCII name, the lines that stay are exactly those of the client that do not carry the header, each decoded |
| `HeaderRewrite.ExactlyOne` | native/mjolnir_gateway/src/main.rs:667-669 | exactly one line carries the header, whatever bytes the client sent |
| `HeaderRewrite.Idempotent` | native/mjolnir_gateway/src/main.rs:670-703 | rewriting twice is rewriting once |
| `HeaderRewrite.HostUnchanged` | native/mjolnir_gateway/src/main.rs:623-655 | setting any header but Host leaves the extracted host |
| `HeaderRewrite.HostIsFirst` | native/mjolnir_gateway/src/main.rs:644-655 | the host is the trimmed value of the first line that is a Host header, in any case, with a value; there is none if and only if no line is |
| `HeaderRewrite.BodyIgnored` | native/mjolnir_gateway/src/main.rs:636-642 | nothing after the empty line takes part in finding the host |
| `HeaderRewrite.CarriesIff` | native/mjolnir_gateway/src/main.rs:684-697 | a line carries a header if and only if it is the name, in any case, a colon and a value |
| `HeaderRewrite.LeadingEmptyLine` | native/mjolnir_gateway/src/main.rs:684-690 | a buffer that starts with an empty line keeps only the new header and the body |
| `HeaderRewrite.WithoutTerminator` | native/mjolnir_gateway/src/main.rs:684-703 | without an empty line inside, the new header is inserted if and only if the buffer is empty or starts or ends with a line end, and what is written is given for both cases |
| `TokenRotation.StepKeeps` | native/mjolnir_api/src/auth.rs:149-244 | every step of any process keeps the store's invariant: one lock holder, a whole file, refreshes working on what is in the file, credentials in one place only |
| `TokenPromises.AgainMeansStranded` | native/mjolnir_api/src/auth.rs:222-244 | in every run, an exchanged credential is presented again only if its answer never reached the file |
| `TokenPromises.StaleIffStranded` | native/mjolnir_api/src/auth.rs:222-244 | in every reachable state, a presentation that reaches the issuer is stale if and only if the answer to that credential never reached the file |
| `TokenPromises.OneUse` | native/mjolnir_api/src/auth.rs:222-244 | without lost answers, crashes or failed saves after an exchange, no exchanged credential is ever presented again, by any process |
| `TokenPromises.NoneStale` | native/mjolnir_api/src/auth.rs:222-244 | in such runs no credential is stale when presented |
| `TokenPromises.WaitersReuseToken` | native/mjolnir_api/src/auth.rs:222-232 | after a refresh has been saved, however many processes wait or start, until a forced load, a login, a logout or an expired read every load returns the refreshed token, nothing is presented and the file stays |
| `TokenPromises.FileChangesUnderLock` | native/mjolnir_api/src/auth.rs:156-176 | the file changes only by a finished save or a logout of the lock holder |
| `TokenPromises.FailedCallWroteIff` | native/mjolnir_api/src/auth.rs:155-176 | over its whole course, a call that ends in an error wrote the file if and only if it was past its rename, and then it ended by a failed directory sync or a crash |
| `TokenPromises.FailedSyncReplaces` | native/mjolnir_api/src/auth.rs:171-175 | a run in which a save ends in an error with the new file in place |
| `TokenPromises.OnlyWritesChange` | native/mjolnir_api/src/auth.rs:155-176 | the file changes only by a rename or a removal |
| `TokenPromises.LogoutStands` | native/mjolnir_api/src/auth.rs:574-584 | a refresh in flight never undoes a logout: only a login brings the file back |
| `TokenPromises.ReadersSeeWhole` | native/mjolnir_api/src/auth.rs:155-170 | a reader without the lock sees one whole record or no file |
| `TokenPromises.LostAnswerRepeats` | native/mjolnir_api/src/auth.rs:240-242 | after one lost answer the next refresh presents the same credential and is refused |
| `TokenPromises.LostSaveRepeats` | native/mjolnir_api/src/auth.rs:233-244 | after a crash or a failed save behind an exchange, another process presents the same credential and is refused |
| `TokenStore.ExpiredIff` | native/mjolnir_api/src/auth.rs:142-147 | a token is expired if and only if some expiry it is known to have, its own or the one inside it, is at most 60 seconds away |
| `TokenAnswers.AnswerMeans` | native/mjolnir_api/src/auth.rs:222-244 | in every interleaving: a load that returns nothing found no file; a returned token is the one in the file, and was still good when read, or is the issuer's answer to the credential read in this call, or was granted to this login; a logout leaves no file |
| `TokenAnswers.TurnAdvances` | native/mjolnir_api/src/auth.rs:149-244 | each turn that works brings the lock holder nearer to its answer, unless its record has nothing to refresh with |
| `TokenAnswers.OthersLeaveHolder` | native/mjolnir_api/src/auth.rs:206-219 | no step of another process takes any of it back, or the lock, or the file |
| `UrlCodecs.QueryRoundTrip` | native/mjolnir_api/src/auth.rs:540-571 | decoding undoes encoding on every byte string |
| `UrlCodecs.EncodeQuery` | native/mjolnir_api/src/auth.rs:540-551 | the loop is the encoding |
| `UrlCodecs.EncodedIsPlain` | native/mjolnir_api/src/auth.rs:540-551 | an encoded value is printable and holds no character that would split the query |
| `UrlCodecs.PercentDecode` | native/mjolnir_api/src/auth.rs:553-571 | the loop is the decoding, with plus as space, incomplete escapes passed on and a plus sign taken as a hexadecimal digit's sign |
| `UrlCodecs.Base64RoundTrip` | native/mjolnir_api/src/auth.rs:612-630 | a reader for section 5 of RFC 4648 gives every byte string back |
| `UrlCodecs.Base64Length` | native/mjolnir_api/src/auth.rs:612-630 | n bytes become ceil(4n/3) characters, without padding |
| `UrlCodecs.Base64At` | native/mjolnir_api/src/auth.rs:612-630 | character k is the letter of table 2 of RFC 4648 for bits 6k to 6k + 5 of the input |
| `UrlCodecs.Base64UrlEncode` | native/mjolnir_api/src/auth.rs:612-630 | the chunk loop is the encoding |

## Left out

- BLAKE3, SHA-256, HMAC, Ed25519, P-256, the v1 identity codec and Biscuit: foreign code, taken as function parameters.
- `touch_accessed` and the test hooks of the cache: access times are an input of each eviction.
- The blob door's HTTP status codes, HEAD requests and header parsing.
- BlobPromises.CacheAlwaysAgrees: for runs whose streams come with a length, because the code checks none otherwise; `LengthCheckIff` has the exact condition and `CacheAgreesIfWhole` the runs without lengths.
- BlobPromises.AcceptedStaysReadable: for the same runs; `AcceptedReadableIfWhole` has the others.
- BlobAnswers.PutAnswered: for objects; what a PUT of an outboard comes to is `OutboardPutIff`.
- BlobAccounting.CounterIsExact: leaves out requests dropped inside admission, and files the count skipped, since the last opening; `DroppedRenameMiscounts`, `DroppedUnlinkMiscounts` and `SkippedMiscounts` say exactly what they do.
- BlobBudget.CacheWithinBudget: for runs with complete listings and unlinks that succeed; `WithinIffRoomy` and `InterleavedRoomIff` have the exact condition for all runs.
- BlobBudget.AdmissionEndsWithin: for the same runs; `InterleavedRoomIff` has the exact condition.
- Cbor.Writer, DirectChallenge.Store, BlobCache.DiskCache: the lock around each method is not an object; what interleaving adds is in the step systems.
- Issuance.CredentialsAreEarned: the identity check is taken to return any error that consuming a nonce returns.
- `record` overwriting an issued challenge before its assertion fails: issuing one again does nothing in the model.
- The token check of `CanonicalTuple`: the encoding is injective on tuples of any byte strings, so nothing rests on it.
- Manifest signing, canonical JSON, MIME types, the base64 form of nonces, and the HEAD record that follows the chunk upload.
- Publishing.UploadMissing: the server's list of missing hashes is the chunks whose hash the store lacks; that the hash belongs to a known chunk is not checked again. Requests to server, door and canonical store are taken to be answered.
- DropIns.MergeDropIns: reading and TOML parsing are one function of the file name.
- DropIns.AppendedInOrder: for a listing without a name twice, as a directory gives it.
- DropIns.DropInsStayInside: the scalar settings are one function parameter that may refuse, so that drop-in files cannot change them holds by the shape of the model.
- GatewayConfig.ValidateAndNormalize: environment-variable configuration and the individual checks and defaults of the scalar settings are that parameter.
- HeaderRewrite.RewriteLines: for buffers that hold an empty line and do not start with it; `WithoutTerminator` and `LeadingEmptyLine` have the others.
- The token store's device flow, discovery and token-response parsing.
- TokenStore: a refresh credential is a number, absent and empty ones being one case. A crash is that of a process: a power loss between a rename and the directory sync, after which the file may be the old one again, is not modelled.
- Connection pool, TLS, ACME, parked pages, CLI, TUI and terminal handling.
