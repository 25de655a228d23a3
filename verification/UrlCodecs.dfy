/** Percent-encoding of query values and base64url, each with what undoes it. */
module UrlCodecs {
  import opened Bytes
  import opened Options
  import opened Sequences

  const PERCENT: Byte := 37
  const PLUS: Byte := 43
  const SPACE: Byte := 32

  predicate Unreserved(b: Byte) {
    65 <= b <= 90 || 97 <= b <= 122 || 48 <= b <= 57 || b == 45 || b == 95 || b == 46 || b == 126
  }

  /** An upper-case hexadecimal digit. */
  function HexDigit(n: nat): (b: Byte)
    requires n < 16
  {
    if n < 10 then 48 + n else 55 + n
  }

  function EncodeByte(b: Byte): (r: seq<Byte>) {
    if Unreserved(b) then [b] else [PERCENT, HexDigit(b / 16), HexDigit(b % 16)]
  }

  function Encoded(s: seq<Byte>): (r: seq<Byte>) {
    if s == [] then [] else Encoded(s[..|s| - 1]) + EncodeByte(s[|s| - 1])
  }

  method EncodeQuery(s: seq<Byte>) returns (out: seq<Byte>)
    ensures out == Encoded(s)
  {
    out := [];
    for i := 0 to |s|
      invariant out == Encoded(s[..i])
    {
      assert s[..i + 1][..i] == s[..i];
      if Unreserved(s[i]) {
        out := out + [s[i]];
      } else {
        out := out + [PERCENT, HexDigit(s[i] / 16), HexDigit(s[i] % 16)];
      }
    }
    assert s[..|s|] == s;
  }

  /** Either case is read. */
  function HexValue(b: Byte): (v: Option<nat>) {
    if 48 <= b <= 57 then Some(b - 48)
    else if 65 <= b <= 70 then Some(b - 55)
    else if 97 <= b <= 102 then Some(b - 87)
    else None
  }

  /** Two hexadecimal digits, or a plus sign and one. */
  function HexPair(a: Byte, b: Byte): (v: Option<Byte>) {
    match (HexValue(a), HexValue(b))
    case (Some(x), Some(y)) => Some(16 * x + y)
    case (None, Some(y)) => if a == PLUS then Some(y) else None
    case (_, _) => None
  }

  function Decoded(s: seq<Byte>): (r: seq<Byte>) {
    if s == [] then []
    else if s[0] == PERCENT && |s| > 2 && HexPair(s[1], s[2]).Some? then [HexPair(s[1], s[2]).value] + Decoded(s[3..])
    else [if s[0] == PLUS then SPACE else s[0]] + Decoded(s[1..])
  }

  /** An escape to decode starts here. */
  predicate IsEscape(s: seq<Byte>, i: nat) {
    i + 2 < |s| && s[i] == PERCENT && HexPair(s[i + 1], s[i + 2]).Some?
  }

  lemma DecodeEscape(out: seq<Byte>, s: seq<Byte>, i: nat)
    requires IsEscape(s, i)
    ensures out + Decoded(s[i..]) == out + [HexPair(s[i + 1], s[i + 2]).value] + Decoded(s[i + 3..])
  {
    var t := s[i..];
    assert t[1] == s[i + 1] && t[2] == s[i + 2] && t[3..] == s[i + 3..];
  }

  lemma DecodePlain(out: seq<Byte>, s: seq<Byte>, i: nat)
    requires i < |s| && !IsEscape(s, i)
    ensures out + Decoded(s[i..]) == out + [if s[i] == PLUS then SPACE else s[i]] + Decoded(s[i + 1..])
  {
    var t := s[i..];
    assert t[1..] == s[i + 1..];
    assert i + 2 < |s| ==> t[1] == s[i + 1] && t[2] == s[i + 2];
  }

  /** Before the lossy conversion to text, which changes no valid UTF-8. */
  method PercentDecode(s: seq<Byte>) returns (out: seq<Byte>)
    ensures out == Decoded(s)
  {
    out := [];
    var i := 0;
    assert [] + Decoded(s[0..]) == Decoded(s) by { assert s[0..] == s; }
    while i < |s|
      invariant i <= |s| && out + Decoded(s[i..]) == Decoded(s)
    {
      if s[i] == PERCENT && i + 2 < |s| {
        var v := HexPair(s[i + 1], s[i + 2]);
        if v.Some? {
          DecodeEscape(out, s, i);
          out := out + [v.value];
          i := i + 3;
          continue;
        }
      }
      DecodePlain(out, s, i);
      out := out + [if s[i] == PLUS then SPACE else s[i]];
      i := i + 1;
    }
    assert s[|s|..] == [];
    assert out + [] == out;
  }

  lemma HexRoundTrip(b: Byte)
    ensures HexPair(HexDigit(b / 16), HexDigit(b % 16)) == Some(b)
  {
  }

  lemma DecodeOne(b: Byte, t: seq<Byte>)
    ensures Decoded(EncodeByte(b) + t) == [b] + Decoded(t)
  {
    var s := EncodeByte(b) + t;
    if Unreserved(b) {
      assert s[1..] == t;
    } else {
      HexRoundTrip(b);
      assert s[1] == HexDigit(b / 16) && s[2] == HexDigit(b % 16) && s[3..] == t;
    }
  }

  lemma {:induction false} DecodeThen(s: seq<Byte>, t: seq<Byte>)
    ensures Decoded(Encoded(s) + t) == s + Decoded(t)
    decreases |s|
  {
    if s == [] {
      assert Encoded(s) + t == t && s + Decoded(t) == Decoded(t);
    } else {
      var k := |s| - 1;
      var e := EncodeByte(s[k]);
      Assoc(Encoded(s[..k]), e, t);
      DecodeThen(s[..k], e + t);
      DecodeOne(s[k], t);
      Assoc(s[..k], [s[k]], Decoded(t));
      assert s[..k] + [s[k]] == s;
    }
  }

  /** Decoding undoes encoding on every byte string. */
  lemma QueryRoundTrip(s: seq<Byte>)
    ensures Decoded(Encoded(s)) == s
  {
    DecodeThen(s, []);
    assert Encoded(s) + [] == Encoded(s) && s + [] == s;
  }

  /** A character that ends or splits a query or a request line, or stands for another. */
  predicate Splits(c: char) {
    c in {'&', '=', '#', '+', '?', '/', ';', ':', '@', '"', '<', '>', '\\'}
  }

  /** An encoded value holds printable characters only, and none that would split the query it is put in. */
  lemma {:induction false} EncodedIsPlain(s: seq<Byte>, b: Byte)
    requires b in Encoded(s)
    ensures 32 < b < 127 && !Splits(b as char)
    decreases |s|
  {
    var k := |s| - 1;
    if b in Encoded(s[..k]) { EncodedIsPlain(s[..k], b); }
  }

  // Base64url without padding.

  function Letter(v: nat): (b: Byte)
    requires v < 64
  {
    if v < 26 then 65 + v else if v < 52 then 71 + v else if v < 62 then v - 4 else if v == 62 then 45 else 95
  }

  function LetterValue(b: Byte): (v: Option<nat>)
    ensures v.Some? ==> v.value < 64
  {
    if 65 <= b <= 90 then Some(b - 65)
    else if 97 <= b <= 122 then Some(b - 71)
    else if 48 <= b <= 57 then Some(b + 4)
    else if b == 45 then Some(62)
    else if b == 95 then Some(63)
    else None
  }

  lemma LetterRoundTrip(v: nat)
    requires v < 64
    ensures LetterValue(Letter(v)) == Some(v)
  {
  }

  /** Up to three bytes as one 24-bit number, the missing ones zero. */
  function Bits(chunk: seq<Byte>): (n: nat)
    requires 1 <= |chunk| <= 3
    ensures n < 0x100_0000
  {
    chunk[0] as int * 0x1_0000
    + (if |chunk| > 1 then chunk[1] as int * 0x100 else 0)
    + (if |chunk| > 2 then chunk[2] as int else 0)
  }

  function Sextet(n: nat, i: nat): (v: nat)
    requires n < 0x100_0000 && i < 4
    ensures v < 64
  {
    if i == 0 then n / 0x4_0000 else if i == 1 then n / 0x1000 % 64 else if i == 2 then n / 64 % 64 else n % 64
  }

  function EncodeChunk(chunk: seq<Byte>): (r: seq<Byte>)
    requires 1 <= |chunk| <= 3
    ensures |r| == |chunk| + 1
  {
    var n := Bits(chunk);
    seq(|chunk| + 1, i requires 0 <= i < |chunk| + 1 => Letter(Sextet(n, i)))
  }

  function Base64(s: seq<Byte>): (r: seq<Byte>) {
    if s == [] then []
    else if |s| <= 3 then EncodeChunk(s)
    else EncodeChunk(s[..3]) + Base64(s[3..])
  }

  /** The alphabet of table 2 of RFC 4648: A to Z, a to z, 0 to 9, hyphen, underscore. */
  ghost predicate IsLetterOf(v: nat, c: char) {
    || (v < 26 && c as int == 'A' as int + v)
    || (26 <= v < 52 && c as int == 'a' as int + v - 26)
    || (52 <= v < 62 && c as int == '0' as int + v - 52)
    || (v == 62 && c == '-')
    || (v == 63 && c == '_')
  }

  /** The bytes from this one on, three of them while there are so many. */
  function ThreeFrom(s: seq<Byte>, at: nat): (chunk: seq<Byte>)
    requires at < |s|
    ensures 1 <= |chunk| <= 3
  {
    s[at..if at + 3 < |s| then at + 3 else |s|]
  }

  lemma ThreeLater(s: seq<Byte>, at: nat)
    requires 3 <= at < |s|
    ensures ThreeFrom(s[3..], at - 3) == ThreeFrom(s, at)
  {
  }

  lemma LetterInChunk(chunk: seq<Byte>, k: nat)
    requires 1 <= |chunk| <= 3 && k <= |chunk|
    ensures IsLetterOf(Sextet(Bits(chunk), k), EncodeChunk(chunk)[k] as char)
  {
  }

  lemma FirstChunk(s: seq<Byte>)
    requires s != []
    ensures EncodeChunk(ThreeFrom(s, 0)) <= Base64(s)
    ensures |s| > 3 ==> |ThreeFrom(s, 0)| == 3 && Base64(s)[4..] == Base64(s[3..])
    ensures |s| <= 3 ==> Base64(s) == EncodeChunk(ThreeFrom(s, 0))
  {
    assert ThreeFrom(s, 0) == if |s| > 3 then s[..3] else s;
  }

  /** Character k of the output is the letter of bits 6k to 6k + 5 of the input, the missing ones zero. */
  lemma {:induction false} Base64At(s: seq<Byte>, k: nat)
    requires k < |Base64(s)|
    ensures 3 * (k / 4) < |s|
    ensures IsLetterOf(Sextet(Bits(ThreeFrom(s, 3 * (k / 4))), k % 4), Base64(s)[k] as char)
    decreases |s|
  {
    FirstChunk(s);
    if |s| > 3 && k >= 4 {
      assert Base64(s)[k] == Base64(s)[4..][k - 4];
      Base64At(s[3..], k - 4);
      assert k / 4 == (k - 4) / 4 + 1 && k % 4 == (k - 4) % 4;
      ThreeLater(s, 3 * (k / 4));
    } else {
      LetterInChunk(ThreeFrom(s, 0), k);
    }
  }

  /** Exactly ceil(4n / 3) characters: no padding. */
  lemma {:induction false} Base64Length(s: seq<Byte>)
    ensures |Base64(s)| == (4 * |s| + 2) / 3
  {
    if |s| > 3 { Base64Length(s[3..]); }
  }

  method Base64UrlEncode(s: seq<Byte>) returns (out: seq<Byte>)
    ensures out == Base64(s)
  {
    out := [];
    var i := 0;
    while i < |s|
      invariant i <= |s| && out + Base64(s[i..]) == Base64(s)
    {
      var end := if i + 3 < |s| then i + 3 else |s|;
      var chunk := s[i..end];
      var n := Bits(chunk);
      var piece := [Letter(Sextet(n, 0)), Letter(Sextet(n, 1))];
      if |chunk| > 1 {
        piece := piece + [Letter(Sextet(n, 2))];
      }
      if |chunk| > 2 {
        piece := piece + [Letter(Sextet(n, 3))];
      }
      assert piece == EncodeChunk(chunk);
      ChunkStep(s, i, end);
      assert out + (piece + Base64(s[end..])) == out + piece + Base64(s[end..]);
      out := out + piece;
      i := end;
    }
    assert s[|s|..] == [];
    assert out + [] == out;
  }

  lemma ChunkStep(s: seq<Byte>, i: nat, end: nat)
    requires i < |s| && end == if i + 3 < |s| then i + 3 else |s|
    ensures Base64(s[i..]) == EncodeChunk(s[i..end]) + Base64(s[end..])
  {
    var t := s[i..];
    if i + 3 < |s| {
      assert t[..3] == s[i..end] && t[3..] == s[end..];
    } else {
      assert t == s[i..end] && s[end..] == [];
      assert EncodeChunk(t) + [] == EncodeChunk(t);
    }
  }

  // A reader for section 5 of RFC 4648.

  /** The bytes of a group of two, three or four letters. */
  function DecodeGroup(g: seq<Byte>): (r: Option<seq<Byte>>)
    requires 2 <= |g| <= 4
  {
    if exists i :: 0 <= i < |g| && LetterValue(g[i]).None? then None
    else
      var v0, v1 := LetterValue(g[0]).value, LetterValue(g[1]).value;
      var v2 := if |g| > 2 then LetterValue(g[2]).value else 0;
      var v3 := if |g| > 3 then LetterValue(g[3]).value else 0;
      var n := v0 * 0x4_0000 + v1 * 0x1000 + v2 * 64 + v3;
      Some([n / 0x1_0000, n / 0x100 % 0x100, n % 0x100][..|g| - 1])
  }

  function DecodeBase64(s: seq<Byte>): (r: Option<seq<Byte>>) {
    if s == [] then Some([])
    else if |s| == 1 then None
    else if |s| <= 4 then DecodeGroup(s)
    else
      match (DecodeGroup(s[..4]), DecodeBase64(s[4..]))
      case (Some(a), Some(b)) => Some(a + b)
      case (_, _) => None
  }

  lemma SextetsRebuild(n: nat)
    requires n < 0x100_0000
    ensures n == Sextet(n, 0) * 0x4_0000 + Sextet(n, 1) * 0x1000 + Sextet(n, 2) * 64 + Sextet(n, 3)
  {
  }

  lemma Digits256(a: Byte, b: Byte, c: Byte)
    ensures var n := a as int * 0x1_0000 + b as int * 0x100 + c as int;
            n / 0x1_0000 == a && n / 0x100 % 0x100 == b && n % 0x100 == c
  {
  }

  lemma BitsRebuild(chunk: seq<Byte>)
    requires 1 <= |chunk| <= 3
    ensures var n := Bits(chunk); [n / 0x1_0000, n / 0x100 % 0x100, n % 0x100][..|chunk|] == chunk
  {
    Digits256(chunk[0], if |chunk| > 1 then chunk[1] else 0, if |chunk| > 2 then chunk[2] else 0);
  }

  lemma MissingAreZero(chunk: seq<Byte>)
    requires 1 <= |chunk| <= 3
    ensures |chunk| < 3 ==> Sextet(Bits(chunk), 3) == 0
    ensures |chunk| < 2 ==> Sextet(Bits(chunk), 2) == 0
  {
  }

  lemma ChunkRoundTrip(chunk: seq<Byte>)
    requires 1 <= |chunk| <= 3
    ensures DecodeGroup(EncodeChunk(chunk)) == Some(chunk)
  {
    var n := Bits(chunk);
    var g := EncodeChunk(chunk);
    forall i | 0 <= i < |g| ensures LetterValue(g[i]) == Some(Sextet(n, i)) {
      LetterRoundTrip(Sextet(n, i));
    }
    SextetsRebuild(n);
    BitsRebuild(chunk);
    MissingAreZero(chunk);
  }

  /** Every byte string is read back from its base64url form. */
  lemma {:induction false} Base64RoundTrip(s: seq<Byte>)
    ensures DecodeBase64(Base64(s)) == Some(s)
  {
    if s != [] {
      if |s| <= 3 {
        ChunkRoundTrip(s);
      } else {
        var e := EncodeChunk(s[..3]);
        ChunkRoundTrip(s[..3]);
        Base64RoundTrip(s[3..]);
        Base64Length(s[3..]);
        assert (e + Base64(s[3..]))[..4] == e && (e + Base64(s[3..]))[4..] == Base64(s[3..]);
        assert s[..3] + s[3..] == s;
      }
    }
  }
}
