/** UTF-8 from the code points it encodes, and lossy decoding measured against it. */
module Unicode {
  import opened Bytes
  import opened Utf8

  /** A code point that is no surrogate. */
  type Scalar = c: int | 0 <= c < 0xD800 || 0xE000 <= c < 0x11_0000

  /** Table 3-6 of the Unicode Standard. */
  function Encode(c: Scalar): (r: Text)
    ensures 1 <= |r| <= 4
  {
    if c < 0x80 then [c]
    else if c < 0x800 then [0xC0 + c / 0x40, 0x80 + c % 0x40]
    else if c < 0x1_0000 then [0xE0 + c / 0x1000, 0x80 + c / 0x40 % 0x40, 0x80 + c % 0x40]
    else [0xF0 + c / 0x4_0000, 0x80 + c / 0x1000 % 0x40, 0x80 + c / 0x40 % 0x40, 0x80 + c % 0x40]
  }

  function EncodeAll(cs: seq<Scalar>): (r: Text) {
    if cs == [] then [] else Encode(cs[0]) + EncodeAll(cs[1..])
  }

  // An encoding is a whole character, and the other way round.

  lemma EncodeMatches(c: Scalar)
    ensures Width(Encode(c)[0]) == |Encode(c)|
    ensures |Encode(c)| > 1 ==> Second(Encode(c)[0], Encode(c)[1])
    ensures |Encode(c)| > 2 ==> Continues(Encode(c)[2])
    ensures |Encode(c)| > 3 ==> Continues(Encode(c)[3])
  {
  }

  lemma EncodedIsWhole(c: Scalar, t: Text)
    ensures var u := Encode(c) + t; Whole(u) && Matched(u) == |Encode(c)|
  {
    EncodeMatches(c);
    var u := Encode(c) + t;
    assert forall i :: 0 <= i < |Encode(c)| ==> u[i] == Encode(c)[i];
  }

  /** The code point that starts with these bytes, the missing ones as small as they can be. */
  function Point(a: Byte, b: Byte, c: Byte, d: Byte): (r: int) {
    if Width(a) == 2 then (a - 0xC0) * 0x40 + (b - 0x80)
    else if Width(a) == 3 then ((a - 0xE0) * 0x40 + (b - 0x80)) * 0x40 + (c - 0x80)
    else (((a - 0xF0) * 0x40 + (b - 0x80)) * 0x40 + (c - 0x80)) * 0x40 + (d - 0x80)
  }

  lemma TwoBytes(a: Byte, b: Byte)
    requires Width(a) == 2 && Second(a, b)
    ensures var p := Point(a, b, 0, 0); 0 <= p < 0xD800 && Encode(p) == [a, b]
  {
  }

  lemma ThreeBytes(a: Byte, b: Byte, c: Byte)
    requires Width(a) == 3 && Second(a, b) && Continues(c)
    ensures var p := Point(a, b, c, 0); (0 <= p < 0xD800 || 0xE000 <= p < 0x1_0000) && Encode(p) == [a, b, c]
  {
    var h := (a - 0xE0) * 0x40 + (b - 0x80);
    var p := h * 0x40 + (c - 0x80);
    assert p / 0x40 == h && p % 0x40 == c - 0x80;
    assert h / 0x40 == a - 0xE0 && h % 0x40 == b - 0x80;
    assert p / 0x1000 == h / 0x40;
  }

  lemma FourBytes(a: Byte, b: Byte, c: Byte, d: Byte)
    requires Width(a) == 4 && Second(a, b) && Continues(c) && Continues(d)
    ensures var p := Point(a, b, c, d); 0x1_0000 <= p < 0x11_0000 && Encode(p) == [a, b, c, d]
  {
    var g := (a - 0xF0) * 0x40 + (b - 0x80);
    var h := g * 0x40 + (c - 0x80);
    var p := h * 0x40 + (d - 0x80);
    assert p / 0x40 == h && p % 0x40 == d - 0x80;
    assert h / 0x40 == g && h % 0x40 == c - 0x80;
    assert g / 0x40 == a - 0xF0 && g % 0x40 == b - 0x80;
    assert p / 0x1000 == h / 0x40 && p / 0x4_0000 == g / 0x40;
  }

  lemma WholeIsEncoded(s: Text) returns (c: Scalar)
    requires s != [] && Whole(s)
    ensures s[..Matched(s)] == Encode(c)
  {
    if Matched(s) == 1 {
      c := s[0];
    } else if Matched(s) == 2 {
      TwoBytes(s[0], s[1]);
      c := Point(s[0], s[1], 0, 0);
    } else if Matched(s) == 3 {
      ThreeBytes(s[0], s[1], s[2]);
      c := Point(s[0], s[1], s[2], 0);
    } else {
      FourBytes(s[0], s[1], s[2], s[3]);
      c := Point(s[0], s[1], s[2], s[3]);
    }
  }

  // What comes out, and what stays.

  lemma FirstIsEncoded(s: Text) returns (c: Scalar)
    requires s != []
    ensures First(s) == Encode(c)
    ensures !Whole(s) ==> c == 0xFFFD
  {
    if Whole(s) {
      c := WholeIsEncoded(s);
    } else {
      c := 0xFFFD;
    }
  }

  /** Whatever comes in, what comes out is the encoding of code points. */
  lemma {:induction false} LossyIsText(s: Text) returns (cs: seq<Scalar>)
    ensures Lossy(s) == EncodeAll(cs)
    decreases |s|
  {
    if s == [] {
      cs := [];
    } else {
      var c := FirstIsEncoded(s);
      var rest := LossyIsText(s[Matched(s)..]);
      cs := [c] + rest;
      assert cs[1..] == rest;
    }
  }

  lemma {:induction false} TextStays(cs: seq<Scalar>)
    ensures Lossy(EncodeAll(cs)) == EncodeAll(cs)
  {
    if cs != [] {
      var t := EncodeAll(cs[1..]);
      EncodedIsWhole(cs[0], t);
      TextStays(cs[1..]);
      var u := Encode(cs[0]) + t;
      assert u[..|Encode(cs[0])|] == Encode(cs[0]) && u[|Encode(cs[0])|..] == t;
    }
  }

  /** Decoding changes nothing exactly where the bytes are the encoding of code points. */
  lemma LossyKeepsIff(s: Text)
    ensures Lossy(s) == s <==> exists cs: seq<Scalar> :: s == EncodeAll(cs)
  {
    if cs: seq<Scalar> :| s == EncodeAll(cs) { TextStays(cs); }
    if Lossy(s) == s {
      var cs := LossyIsText(s);
      assert s == EncodeAll(cs);
    }
  }

  // What one replacement character stands for.

  /** Some character's encoding starts like this. */
  ghost predicate Starts(p: Text) {
    exists c: Scalar :: p <= Encode(c)
  }

  lemma StartsMatch(p: Text)
    requires Starts(p) && p != []
    ensures |p| <= Width(p[0])
    ensures |p| > 1 ==> Second(p[0], p[1])
    ensures |p| > 2 ==> Continues(p[2])
    ensures |p| > 3 ==> Continues(p[3])
  {
    var c: Scalar :| p <= Encode(c);
    EncodeMatches(c);
  }

  lemma BrokenStarts(s: Text)
    requires s != [] && !Whole(s) && Width(s[0]) > 0
    ensures Starts(s[..Matched(s)])
  {
    var k, w := Matched(s), Width(s[0]);
    var b := if k > 1 then s[1] else if s[0] == 0xE0 then 0xA0 else if s[0] == 0xF0 then 0x90 else 0x80;
    var c := if k > 2 then s[2] else 0x80;
    if w == 2 {
      TwoBytes(s[0], b);
      assert s[..k] <= Encode(Point(s[0], b, 0, 0));
    } else if w == 3 {
      ThreeBytes(s[0], b, c);
      assert s[..k] <= Encode(Point(s[0], b, c, 0));
    } else {
      FourBytes(s[0], b, c, 0x80);
      assert s[..k] <= Encode(Point(s[0], b, c, 0x80));
    }
  }

  lemma NoLongerStart(s: Text)
    requires s != [] && !Whole(s) && Matched(s) < |s|
    ensures !Starts(s[..Matched(s) + 1])
  {
    if Starts(s[..Matched(s) + 1]) { StartsMatch(s[..Matched(s) + 1]); }
  }

  lemma WholeStarts(s: Text)
    requires s != [] && Whole(s)
    ensures exists c: Scalar :: Encode(c) <= s
  {
    var c := WholeIsEncoded(s);
    assert Encode(c) <= s;
  }

  /** These k bytes are the longest piece that starts like a character, or the one byte that starts none. */
  ghost predicate Maximal(s: Text, k: nat) {
    1 <= k <= |s| && (k > 1 ==> Starts(s[..k])) && (k < |s| ==> !Starts(s[..k + 1]))
  }

  /** Where no character stands, one replacement takes the place of that piece. */
  lemma ReplacedIsMaximal(s: Text) returns (k: nat)
    requires s != [] && forall c: Scalar :: !(Encode(c) <= s)
    ensures Maximal(s, k) && Lossy(s) == Encode(0xFFFD) + Lossy(s[k..])
  {
    if Whole(s) { WholeStarts(s); }
    k := Matched(s);
    if k > 1 { BrokenStarts(s); }
    if k < |s| { NoLongerStart(s); }
    assert Encode(0xFFFD) == REPLACEMENT;
  }
}
