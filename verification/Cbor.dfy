/**
 CBOR heads and strings (section 3 of RFC 8949), as the session bind writes them,
 and a reader that knows nothing of the writer.
 */
module Cbor {
  import opened Bytes
  import opened Options

  const U64: nat := 0x1_0000_0000_0000_0000

  type Major = m: int | 0 <= m < 8

  /** Major type in the top three bits, n inline or in 1, 2, 4 or 8 bytes. */
  function HeadBytes(major: Major, n: nat): (r: seq<Byte>) {
    var tag := major * 32;
    if n < 24 then [tag + n]
    else if n < 0x100 then [tag + 24, n]
    else if n < 0x1_0000 then [tag + 25] + BigEndian(n, 2)
    else if n < 0x1_0000_0000 then [tag + 26] + BigEndian(n, 4)
    else [tag + 27] + BigEndian(n, 8)
  }

  datatype Head = Head(major: Major, n: nat, rest: seq<Byte>)

  /** Bytes that follow the initial byte for this additional information. */
  function Width(info: nat): (w: Option<nat>) {
    if info < 24 then Some(0)
    else if info == 24 then Some(1)
    else if info == 25 then Some(2)
    else if info == 26 then Some(4)
    else if info == 27 then Some(8)
    else None
  }

  /** What follows the initial byte. */
  function ReadBody(major: Major, info: nat, tail: seq<Byte>): (r: Option<Head>) {
    match Width(info)
    case None => None
    case Some(w) =>
      if |tail| < w then None
      else Some(Head(major, if w == 0 then info else Value(tail[..w]), tail[w..]))
  }

  /** Reads any well-formed head, shortest or not. */
  function ReadHead(s: seq<Byte>): (r: Option<Head>) {
    if s == [] then None else ReadBody(s[0] / 32, s[0] % 32, s[1..])
  }

  lemma ReadFirst(major: Major, info: nat, tail: seq<Byte>)
    requires info < 32
    ensures ReadHead([major * 32 + info] + tail) == ReadBody(major, info, tail)
  {
    var s := [major * 32 + info] + tail;
    assert s[0] / 32 == major && s[0] % 32 == info;
    assert s[1..] == tail;
  }

  lemma ReadWide(major: Major, info: nat, w: nat, n: nat, t: seq<Byte>)
    requires 24 <= info < 28 && Width(info) == Some(w) && n < Pow256(w)
    ensures ReadHead([major * 32 + info] + BigEndian(n, w) + t) == Some(Head(major, n, t))
  {
    var be := BigEndian(n, w);
    assert [major * 32 + info] + be + t == [major * 32 + info] + (be + t);
    ReadFirst(major, info, be + t);
    assert (be + t)[..w] == be && (be + t)[w..] == t;
    BigEndianRoundTrip(n, w);
  }

  /** Every 64-bit length comes back, with whatever follows untouched. */
  lemma HeadDecodes(major: Major, n: nat, t: seq<Byte>)
    requires n < U64
    ensures ReadHead(HeadBytes(major, n) + t) == Some(Head(major, n, t))
  {
    Pow256Values();
    if n < 24 {
      ReadFirst(major, n, t);
      assert t[0..] == t;
    } else if n < 0x100 {
      assert BigEndian(n, 1) == [n] by { assert BigEndian(n / 256, 0) == []; }
      assert [major * 32 + 24] + BigEndian(n, 1) == [major * 32 + 24, n];
      ReadWide(major, 24, 1, n, t);
    } else if n < 0x1_0000 {
      ReadWide(major, 25, 2, n, t);
    } else if n < 0x1_0000_0000 {
      ReadWide(major, 26, 4, n, t);
    } else {
      ReadWide(major, 27, 8, n, t);
    }
  }

  function HeadLength(n: nat): (k: nat) {
    if n < 24 then 1 else if n < 0x100 then 2 else if n < 0x1_0000 then 3 else if n < 0x1_0000_0000 then 5 else 9
  }

  lemma HeadHasLength(major: Major, n: nat)
    ensures |HeadBytes(major, n)| == HeadLength(n)
  {
  }

  /** The value fits the width it was written in, and the bytes are that width's. */
  lemma ReadFits(major: Major, info: nat, w: nat, tail: seq<Byte>)
    requires Width(info) == Some(w) && w <= |tail| && w > 0
    ensures var h := ReadBody(major, info, tail).value;
            h.n < Pow256(w) && tail == BigEndian(h.n, w) + h.rest
  {
    ValueRoundTrip(tail[..w]);
    assert tail == tail[..w] + tail[w..];
  }

  predicate Canonical(s: seq<Byte>, h: Head) {
    s == HeadBytes(h.major, h.n) + h.rest
  }

  lemma WrittenHead(major: Major, info: nat, w: nat, n: nat)
    requires info < 28 && Width(info) == Some(w) && HeadLength(n) == 1 + w && (w == 0 ==> n == info)
    ensures HeadBytes(major, n) == [major * 32 + info] + (if w == 0 then [] else BigEndian(n, w))
  {
    if w == 1 { OneByte(n); }
  }

  /** A head as long as the written one is the written one. */
  lemma ReadCanonical(s: seq<Byte>)
    requires ReadHead(s).Some? && HeadLength(ReadHead(s).value.n) == 1 + Width(s[0] % 32).value
    ensures Canonical(s, ReadHead(s).value)
  {
    var h := ReadHead(s).value;
    var major, info, tail := s[0] / 32, s[0] % 32, s[1..];
    var w := Width(info).value;
    if w > 0 { ReadFits(major, info, w, tail); }
    WrittenHead(major, info, w, h.n);
    assert s == [major * 32 + info] + tail;
    assert w == 0 ==> tail[0..] == tail;
  }

  /**
   Section 4.2.1 of RFC 8949: of all heads that read as (major, n), the one written
   is the shortest, and no other has its length.
   */
  lemma HeadShortest(s: seq<Byte>)
    requires ReadHead(s).Some?
    ensures var h := ReadHead(s).value;
            && h.n < U64
            && |HeadBytes(h.major, h.n)| + |h.rest| <= |s|
            && (|HeadBytes(h.major, h.n)| + |h.rest| == |s| <==> Canonical(s, h))
  {
    var h := ReadHead(s).value;
    var major, info, tail := s[0] / 32, s[0] % 32, s[1..];
    var w := Width(info).value;
    Pow256Values();
    HeadHasLength(major, h.n);
    if w > 0 { ReadFits(major, info, w, tail); }
    if HeadLength(h.n) == 1 + w { ReadCanonical(s); }
  }

  lemma OneByte(n: nat)
    requires n < 256
    ensures BigEndian(n, 1) == [n]
  {
    assert BigEndian(n / 256, 0) == [];
  }

  /** A string with what follows it. */
  function PutString(major: Major, s: seq<Byte>, t: seq<Byte>): (r: seq<Byte>) {
    HeadBytes(major, |s|) + (s + t)
  }

  function ReadString(major: Major, s: seq<Byte>): (r: Option<(seq<Byte>, seq<Byte>)>) {
    match ReadHead(s)
    case None => None
    case Some(h) =>
      if h.major != major || |h.rest| < h.n then None
      else Some((h.rest[..h.n], h.rest[h.n..]))
  }

  lemma StringDecodes(major: Major, s: seq<Byte>, t: seq<Byte>)
    requires |s| < U64
    ensures ReadString(major, PutString(major, s, t)) == Some((s, t))
  {
    HeadDecodes(major, |s|, s + t);
    assert (s + t)[..|s|] == s && (s + t)[|s|..] == t;
  }

  /** An array of text strings, component boundaries included. */
  function PutParts(parts: seq<seq<Byte>>, t: seq<Byte>): (r: seq<Byte>) {
    if parts == [] then t else PutString(3, parts[0], PutParts(parts[1..], t))
  }

  function PutTuple(parts: seq<seq<Byte>>, t: seq<Byte>): (r: seq<Byte>) {
    HeadBytes(4, |parts|) + PutParts(parts, t)
  }

  function ReadParts(n: nat, s: seq<Byte>): (r: Option<(seq<seq<Byte>>, seq<Byte>)>) {
    if n == 0 then Some(([], s))
    else
      match ReadString(3, s)
      case None => None
      case Some((part, rest)) =>
        match ReadParts(n - 1, rest)
        case None => None
        case Some((parts, end)) => Some(([part] + parts, end))
  }

  function ReadTuple(s: seq<Byte>): (r: Option<(seq<seq<Byte>>, seq<Byte>)>) {
    match ReadHead(s)
    case None => None
    case Some(h) => if h.major != 4 then None else ReadParts(h.n, h.rest)
  }

  predicate Sized(parts: seq<seq<Byte>>) {
    |parts| < U64 && forall i :: 0 <= i < |parts| ==> |parts[i]| < U64
  }

  lemma {:induction false} PartsDecode(parts: seq<seq<Byte>>, t: seq<Byte>)
    requires Sized(parts)
    ensures ReadParts(|parts|, PutParts(parts, t)) == Some((parts, t))
  {
    if parts != [] {
      PartsDecode(parts[1..], t);
      StringDecodes(3, parts[0], PutParts(parts[1..], t));
      assert [parts[0]] + parts[1..] == parts;
    }
  }

  lemma TupleDecodes(parts: seq<seq<Byte>>, t: seq<Byte>)
    requires Sized(parts)
    ensures ReadTuple(PutTuple(parts, t)) == Some((parts, t))
  {
    HeadDecodes(4, |parts|, PutParts(parts, t));
    PartsDecode(parts, t);
  }

  // The writer itself.

  function StringBytes(major: Major, s: seq<Byte>): (r: seq<Byte>) {
    HeadBytes(major, |s|) + s
  }

  /** The parts one after another, in the order the loop appends them. */
  function PartsBytes(parts: seq<seq<Byte>>): (r: seq<Byte>) {
    if parts == [] then [] else PartsBytes(parts[..|parts| - 1]) + StringBytes(3, parts[|parts| - 1])
  }

  lemma {:induction false} PartsAppended(parts: seq<seq<Byte>>, k: nat, t: seq<Byte>)
    requires k <= |parts|
    ensures PartsBytes(parts[..k]) + PutParts(parts[k..], t) == PutParts(parts, t)
    decreases k
  {
    if k == 0 {
      assert parts[..0] == [] && parts[0..] == parts;
    } else {
      PartsAppended(parts, k - 1, t);
      var last, rest := parts[k - 1], PutParts(parts[k..], t);
      assert parts[..k][..k - 1] == parts[..k - 1];
      assert parts[k - 1..][1..] == parts[k..];
      assert PutParts(parts[k - 1..], t) == HeadBytes(3, |last|) + (last + rest);
      assert PartsBytes(parts[..k - 1]) + (HeadBytes(3, |last|) + last) + rest
          == PartsBytes(parts[..k - 1]) + (HeadBytes(3, |last|) + (last + rest));
    }
  }

  lemma PartsGrow(parts: seq<seq<Byte>>, i: nat)
    requires i < |parts|
    ensures PartsBytes(parts[..i + 1]) == PartsBytes(parts[..i]) + StringBytes(3, parts[i])
  {
    assert parts[..i + 1][..i] == parts[..i];
  }

  lemma Reassociate(a: seq<Byte>, b: seq<Byte>, c: seq<Byte>, d: seq<Byte>)
    ensures a + (b + c) + d == a + (b + (c + d))
  {
  }

  /** The growing output buffer. */
  class Writer {
    var out: seq<Byte>

    constructor (first: seq<Byte>)
      ensures out == first
    {
      out := first;
    }

    method Head(major: Major, n: nat)
      requires n < U64
      modifies this
      ensures out == old(out) + HeadBytes(major, n)
    {
      var tag := major * 32;
      if n < 24 {
        out := out + [tag + n];
      } else if n < 0x100 {
        out := out + [tag + 24, n];
      } else if n < 0x1_0000 {
        out := out + [tag + 25];
        out := out + BigEndian(n, 2);
      } else if n < 0x1_0000_0000 {
        out := out + [tag + 26];
        out := out + BigEndian(n, 4);
      } else {
        out := out + [tag + 27];
        out := out + BigEndian(n, 8);
      }
    }

    method String(major: Major, s: seq<Byte>)
      requires |s| < U64
      modifies this
      ensures out == old(out) + StringBytes(major, s)
    {
      Head(major, |s|);
      out := out + s;
    }

    method Tuple(parts: seq<seq<Byte>>)
      requires Sized(parts)
      modifies this
      ensures out == old(out) + PutTuple(parts, [])
    {
      ghost var start := out;
      Head(4, |parts|);
      for i := 0 to |parts|
        invariant out == start + (HeadBytes(4, |parts|) + PartsBytes(parts[..i]))
      {
        String(3, parts[i]);
        PartsGrow(parts, i);
        Reassociate(start, HeadBytes(4, |parts|), PartsBytes(parts[..i]), StringBytes(3, parts[i]));
      }
      PartsAppended(parts, |parts|, []);
      assert parts[..|parts|] == parts;
      assert PartsBytes(parts) + [] == PartsBytes(parts);
    }
  }
}
