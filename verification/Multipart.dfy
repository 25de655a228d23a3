/** Cutting a large blob into the parts of a multipart upload. */
module Multipart {
  import opened Bytes
  import opened Options

  const MIN_PART: nat := 16 * 1024 * 1024
  const MAX_PARTS: nat := 10_000
  const U64: nat := 0x1_0000_0000_0000_0000
  const I32_MAX: nat := 0x7fff_ffff

  datatype Part = Part(number: nat, bytes: seq<Byte>)

  function DivCeil(n: nat, d: nat): (q: nat)
    requires d > 0
  {
    if n % d == 0 then n / d else n / d + 1
  }

  function Max(a: nat, b: nat): (m: nat) {
    if a >= b then a else b
  }

  function PartSizeFor(len: nat): (size: nat) {
    Max(Max(DivCeil(len, MAX_PARTS), 1), MIN_PART)
  }

  /** The chosen size reaches 16 MiB and 10 000 such parts cover the file. */
  lemma PartSizeSuffices(len: nat)
    ensures PartSizeFor(len) >= MIN_PART
    ensures MAX_PARTS * PartSizeFor(len) >= len
    ensures PartSizeFor(len) > MIN_PART ==> MAX_PARTS * (PartSizeFor(len) - 1) < len
  {
  }

  function Joined(parts: seq<Part>): (s: seq<Byte>) {
    if parts == [] then [] else Joined(parts[..|parts| - 1]) + parts[|parts| - 1].bytes
  }

  /** Numbered from 1, full except perhaps the last, which is not empty. */
  predicate WellCut(parts: seq<Part>, size: nat) {
    forall i {:trigger parts[i]} :: 0 <= i < |parts| ==>
      && parts[i].number == i + 1
      && (if i < |parts| - 1 then |parts[i].bytes| == size else 0 < |parts[i].bytes| <= size)
  }

  lemma {:induction false} JoinedLength(parts: seq<Part>, size: nat)
    requires forall i {:trigger parts[i]} :: 0 <= i < |parts| ==> |parts[i].bytes| == size
    ensures |Joined(parts)| == |parts| * size
  {
    if parts != [] {
      var k := |parts| - 1;
      JoinedLength(parts[..k], size);
      assert parts[k].bytes == parts[|parts| - 1].bytes && |parts[k].bytes| == size;
      assert |parts| * size == k * size + size;
    }
  }

  /** Never more than 10 000 parts, because all but the last are full. */
  lemma PartsBounded(parts: seq<Part>, len: nat)
    requires WellCut(parts, PartSizeFor(len)) && |Joined(parts)| == len
    ensures |parts| <= MAX_PARTS
  {
    if parts != [] {
      var k, size := |parts| - 1, PartSizeFor(len);
      var full := parts[..k];
      forall i | 0 <= i < |full| ensures |full[i].bytes| == size {
        assert full[i] == parts[i];
      }
      JoinedLength(full, size);
      PartSizeSuffices(len);
      assert len > k * size;
      Monotone(MAX_PARTS, k, size);
    }
  }

  lemma Monotone(a: nat, b: nat, c: nat)
    ensures a <= b ==> a * c <= b * c
  {
  }

  predicate AllAccepted(n: nat, accepts: nat -> bool) {
    forall i :: 1 <= i <= n ==> accepts(i)
  }

  /**
   The upload loop. `accepts` is the store's answer to each part number; the file
   may turn out shorter than the length it was announced with.
   */
  method PutMultipart(file: seq<Byte>, len: nat, accepts: nat -> bool) returns (r: Option<seq<Part>>)
    requires len < U64
    ensures r.Some? ==> len <= |file|
    ensures r.Some? ==> WellCut(r.value, PartSizeFor(len)) && Joined(r.value) == file[..len]
    ensures r.Some? ==> |r.value| <= MAX_PARTS && AllAccepted(|r.value|, accepts)
    ensures len <= |file| && (forall i :: 1 <= i <= MAX_PARTS ==> accepts(i)) ==> r.Some?
  {
    var size := PartSizeFor(len);
    var offset, number := 0, 1;
    var parts: seq<Part> := [];
    while offset < len
      invariant offset <= len && (offset <= |file|)
      invariant number == |parts| + 1
      invariant forall i {:trigger parts[i]} :: 0 <= i < |parts| ==> parts[i].number == i + 1
      invariant offset < len ==> forall i {:trigger parts[i]} :: 0 <= i < |parts| ==> |parts[i].bytes| == size
      invariant WellCut(parts, size) && Joined(parts) == file[..offset]
      invariant AllAccepted(|parts|, accepts)
      decreases len - offset
    {
      var take := if len - offset <= size then len - offset else size;
      FitsI32(parts, file, offset, len);
      assert number <= MAX_PARTS < I32_MAX;
      if offset + take > |file| {
        return None;
      }
      if !accepts(number) {
        return None;
      }
      var grown := parts + [Part(number, file[offset..offset + take])];
      assert grown[..|grown| - 1] == parts;
      assert file[..offset] + file[offset..offset + take] == file[..offset + take];
      parts := grown;
      offset := offset + take;
      number := number + 1;
    }
    PartsBounded(parts, len);
    return Some(parts);
  }

  /** While bytes remain, every part so far is full, so the next number is at most 10 000. */
  lemma FitsI32(parts: seq<Part>, file: seq<Byte>, offset: nat, len: nat)
    requires offset <= |file| && offset < len
    requires forall i {:trigger parts[i]} :: 0 <= i < |parts| ==> |parts[i].bytes| == PartSizeFor(len)
    requires Joined(parts) == file[..offset]
    ensures |parts| + 1 <= MAX_PARTS
  {
    var size := PartSizeFor(len);
    JoinedLength(parts, size);
    PartSizeSuffices(len);
    Monotone(MAX_PARTS, |parts|, size);
  }
}
