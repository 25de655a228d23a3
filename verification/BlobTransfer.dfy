/** The loops that move a blob: a request body into incoming/, a file into the store, a stream to client and cache. */
module BlobTransfer {
  import opened Bytes
  import opened Options
  import opened BlobCache

  /** What a stream yields: pieces, and at most one error, after which it is over. */
  type Stream = seq<Option<seq<Byte>>>

  predicate Clean(stream: Stream) {
    forall i :: 0 <= i < |stream| ==> stream[i].Some?
  }

  /** All bytes before the first error. */
  function Content(stream: Stream): (s: seq<Byte>) {
    if stream == [] || stream[0].None? then [] else stream[0].value + Content(stream[1..])
  }

  lemma {:induction false} ContentPrefix(stream: Stream, k: nat)
    requires k <= |stream| && Clean(stream[..k])
    ensures Content(stream) == Content(stream[..k]) + Content(stream[k..])
    decreases k
  {
    if k == 0 {
      assert stream[..0] == [] && stream[0..] == stream;
    } else {
      var rest := stream[1..];
      assert stream[..k][0] == stream[0] && stream[0].Some?;
      var front := rest[..k - 1];
      assert stream[..k][1..] == front && rest[k - 1..] == stream[k..];
      forall i | 0 <= i < |front| ensures front[i].Some? { assert front[i] == stream[..k][i + 1]; }
      ContentPrefix(rest, k - 1);
      assert stream[0].value + (Content(rest[..k - 1]) + Content(stream[k..]))
          == stream[0].value + Content(rest[..k - 1]) + Content(stream[k..]);
    }
  }

  lemma ContentSnoc(stream: Stream, k: nat)
    requires k < |stream| && Clean(stream[..k]) && stream[k].Some?
    ensures Clean(stream[..k + 1]) && Content(stream[..k + 1]) == Content(stream[..k]) + stream[k].value
  {
    var head := stream[..k + 1];
    assert head[..k] == stream[..k] && head[k..] == [stream[k]];
    forall i | 0 <= i < k + 1 ensures head[i].Some? { if i < k { assert head[i] == stream[..k][i]; } }
    ContentPrefix(head, k);
    var last: Stream := [stream[k]];
    assert Content(last) == stream[k].value by { assert last[1..] == [] && stream[k].value + [] == stream[k].value; }
  }

  datatype PumpError = TooLarge | Io

  /**
   Body to file, hashing on the way. `wrote` says whether the write of each piece
   succeeds. What was hashed is what was written, and never more than the limit.
   */
  method PumpBody(body: Stream, maxBytes: nat, wrote: nat -> bool, synced: bool)
    returns (r: Result<nat, PumpError>, file: seq<Byte>, hashed: seq<Byte>)
    ensures r.Ok? <==> Clean(body) && |Content(body)| <= maxBytes && synced && forall i :: 0 <= i < |body| ==> wrote(i)
    ensures r.Ok? ==> file == hashed == Content(body) && r.value == |file|
    ensures |file| <= maxBytes && file <= Content(body)
  {
    file, hashed := [], [];
    var written := 0;
    for i := 0 to |body|
      invariant Clean(body[..i]) && file == hashed == Content(body[..i]) && written == |file| <= maxBytes
      invariant forall j :: 0 <= j < i ==> wrote(j)
    {
      ContentPrefix(body, i);
      if body[i].None? {
        return Err(Io), file, hashed;
      }
      ContentSnoc(body, i);
      ContentPrefix(body, i + 1);
      if written + |body[i].value| > maxBytes {
        return Err(TooLarge), file, hashed;
      }
      hashed := hashed + body[i].value;
      if !wrote(i) {
        return Err(Io), file, hashed;
      }
      file := file + body[i].value;
      written := written + |body[i].value|;
    }
    assert body[..|body|] == body;
    return if synced then Ok(written) else Err(Io), file, hashed;
  }

  datatype PutError = HashMismatch | NotConfirmed | Backend
  datatype PutOutcome = Created | AlreadyPresent

  /** Which calls to the store go through: the first head, the write's effect and answer, the second head. */
  datatype Faults = Faults(head: bool, applied: bool, answered: bool, confirm: bool)

  class CanonicalStore {
    var objects: Files
    var versions: map<Name, nat>

    constructor ()
      ensures objects == map[] && versions == map[]
    {
      objects, versions := map[], map[];
    }

    function Version(name: Name): (n: nat)
      reads this
    {
      if name in versions then versions[name] else 0
    }

    method Head(name: Name, answers: bool) returns (len: Option<nat>)
      ensures len == if answers && name in objects then Some(|objects[name]|) else None
    {
      len := if answers && name in objects then Some(|objects[name]|) else None;
    }

    method PutPath(name: Name, file: seq<Byte>, f: Faults) returns (ok: bool)
      modifies this
      ensures ok == f.answered
      ensures objects == if f.applied then old(objects)[name := file] else old(objects)
      ensures versions == if f.applied then old(versions)[name := old(Version(name)) + 1] else old(versions)
    {
      if f.applied {
        objects := objects[name := file];
        versions := versions[name := Version(name) + 1];
      }
      ok := f.answered;
    }

    /** Success is what the second head says, not what the write said; an object that is there is not written again. */
    method PutFile(name: Name, file: seq<Byte>, f: Faults) returns (r: Result<PutOutcome, PutError>)
      modifies this
      ensures r.Ok? ==> name in objects && |objects[name]| == |file|
      ensures r == Ok(AlreadyPresent) <==> f.head && old(name in objects && |objects[name]| == |file|)
      ensures f.head && old(name in objects) ==> objects == old(objects) && versions == old(versions)
      ensures r == Ok(Created) && f.applied ==> objects[name] == file && Version(name) == old(Version(name)) + 1
      ensures f == Faults(true, true, true, true) && old(name !in objects) ==> r == Ok(Created)
      ensures forall n :: n != name ==> (n in objects <==> n in old(objects))
      ensures forall n :: n != name && n in objects ==> objects[n] == old(objects)[n]
    {
      var existing := Head(name, f.head);
      if existing.Some? {
        return if existing.value == |file| then Ok(AlreadyPresent) else Err(HashMismatch);
      }
      var ok := PutPath(name, file, f);
      if !ok {
        return Err(Backend);
      }
      var len := Head(name, f.confirm);
      if len.None? {
        return Err(if f.confirm then NotConfirmed else Backend);
      }
      return if len.value == |file| then Ok(Created) else Err(NotConfirmed);
    }
  }

  /**
   Stream to the client and to the file at once. The client gets everything that
   arrives; the file is kept only if every write and the sync succeeded, the stream
   ended cleanly, and a reported length was reached.
   */
  method Tee(upstream: Stream, reported: nat, wrote: nat -> bool, synced: bool)
    returns (sent: seq<Byte>, file: seq<Byte>, keep: bool)
    ensures sent == Content(upstream)
    ensures keep <==> Clean(upstream) && synced && (forall i :: 0 <= i < |upstream| ==> wrote(i))
                      && (reported == 0 || |sent| == reported)
    ensures keep ==> file == sent
  {
    sent, file := [], [];
    var ok, written := true, 0;
    for i := 0 to |upstream|
      invariant Clean(upstream[..i]) && sent == Content(upstream[..i]) && written == |sent|
      invariant ok <==> forall j :: 0 <= j < i ==> wrote(j)
      invariant ok ==> file == sent
    {
      ContentPrefix(upstream, i);
      if upstream[i].None? {
        return sent, file, false;
      }
      ContentSnoc(upstream, i);
      if ok {
        if wrote(i) {
          file := file + upstream[i].value;
        } else {
          ok := false;
        }
      }
      written := written + |upstream[i].value|;
      sent := sent + upstream[i].value;
    }
    assert upstream[..|upstream|] == upstream;
    keep := ok && synced && !(reported > 0 && written != reported);
  }
}
