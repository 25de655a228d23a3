/**
 Lossy UTF-8 decoding, seen as bytes again: each broken sequence becomes one replacement
 character, by the maximal subparts of section 3.9 of the Unicode Standard.
 */
module Utf8 {
  import opened Bytes

  type Text = seq<Byte>

  /** U+FFFD. */
  const REPLACEMENT: Text := [0xEF, 0xBF, 0xBD]

  predicate Continues(b: Byte) {
    0x80 <= b < 0xC0
  }

  /** How many bytes a character that starts like this has; 0 if none does. */
  function Width(b: Byte): (w: nat) {
    if b < 0x80 then 1
    else if 0xC2 <= b < 0xE0 then 2
    else if 0xE0 <= b < 0xF0 then 3
    else if 0xF0 <= b < 0xF5 then 4
    else 0
  }

  /** The second byte of a character: shorter forms, surrogates and what lies beyond U+10FFFF are left out. */
  predicate Second(first: Byte, b: Byte) {
    if first == 0xE0 then 0xA0 <= b < 0xC0
    else if first == 0xED then 0x80 <= b < 0xA0
    else if first == 0xF0 then 0x90 <= b < 0xC0
    else if first == 0xF4 then 0x80 <= b < 0x90
    else Continues(b)
  }

  /** How many bytes of a character are there: as many as it has, or those of the broken sequence. */
  function Matched(s: Text): (k: nat)
    requires s != []
    ensures 1 <= k <= |s| && k <= 4
  {
    if Width(s[0]) < 2 || |s| < 2 || !Second(s[0], s[1]) then 1
    else if Width(s[0]) < 3 || |s| < 3 || !Continues(s[2]) then 2
    else if Width(s[0]) < 4 || |s| < 4 || !Continues(s[3]) then 3
    else 4
  }

  /** The text starts with a whole character. */
  predicate Whole(s: Text)
    requires s != []
  {
    Matched(s) == Width(s[0])
  }

  function First(s: Text): (c: Text)
    requires s != []
    ensures c != []
  {
    if Whole(s) then s[..Matched(s)] else REPLACEMENT
  }

  function Lossy(s: Text): (r: Text) {
    if s == [] then [] else First(s) + Lossy(s[Matched(s)..])
  }

  /** A character ends where an ASCII byte or the text does. */
  lemma MatchedUpTo(s: Text, a: Byte, t: Text)
    requires s != [] && a < 128
    ensures var u := s + ([a] + t); Matched(u) == Matched(s) && (Whole(u) <==> Whole(s)) && First(u) == First(s)
  {
    var u := s + ([a] + t);
    assert u[0] == s[0];
    assert forall i :: 0 <= i < |s| ==> u[i] == s[i];
    assert u[|s|] == a;
    assert Matched(u) == Matched(s);
    assert u[..Matched(s)] == s[..Matched(s)];
  }

  lemma AsciiFirst(a: Byte, t: Text)
    requires a < 128
    ensures Lossy([a] + t) == [a] + Lossy(t)
  {
    var u := [a] + t;
    assert u[..1] == [a] && u[1..] == t;
  }

  /** One character further on. */
  lemma NextAround(s: Text, a: Byte, t: Text)
    requires s != [] && a < 128
    ensures var u := s + ([a] + t); Lossy(u) == First(s) + Lossy(s[Matched(s)..] + ([a] + t))
  {
    MatchedUpTo(s, a, t);
    assert (s + ([a] + t))[Matched(s)..] == s[Matched(s)..] + ([a] + t);
  }

  lemma Regroup(x: Text, y: Text, z: Text)
    ensures x + (y + z) == (x + y) + z
  {
  }

  /** ASCII stays, and what is around it is decoded by itself. */
  lemma {:induction false} AroundAscii(s: Text, a: Byte, t: Text)
    requires a < 128
    ensures Lossy(s + ([a] + t)) == Lossy(s) + ([a] + Lossy(t))
    decreases |s|
  {
    if s == [] {
      AsciiFirst(a, t);
      assert s + ([a] + t) == [a] + t;
    } else {
      var rest := s[Matched(s)..];
      NextAround(s, a, t);
      AroundAscii(rest, a, t);
      Regroup(First(s), Lossy(rest), [a] + Lossy(t));
    }
  }

  lemma Pairs(s: Text, a: Byte, b: Byte, t: Text)
    ensures s + ([a, b] + t) == s + ([a] + ([b] + t))
  {
    assert [a, b] + t == [a] + ([b] + t);
  }

  lemma AroundTwo(s: Text, a: Byte, b: Byte, t: Text)
    requires a < 128 && b < 128
    ensures Lossy(s + ([a, b] + t)) == Lossy(s) + ([a, b] + Lossy(t))
  {
    AroundAscii(s, a, [b] + t);
    AsciiFirst(b, t);
    Pairs(s, a, b, t);
    Pairs(Lossy(s), a, b, Lossy(t));
  }

  predicate NoAscii(s: Text) {
    forall i :: 0 <= i < |s| ==> s[i] >= 128
  }


  lemma EmptyIff(s: Text)
    ensures Lossy(s) == [] <==> s == []
  {
  }

  /** The first byte changes only if it is not ASCII, and then into one that is not. */
  lemma FirstByte(s: Text)
    requires s != []
    ensures if s[0] < 128 then Lossy(s) == [s[0]] + Lossy(s[1..]) else Lossy(s) != [] && Lossy(s)[0] >= 128
  {
    if s[0] < 128 {
      AsciiFirst(s[0], s[1..]);
      assert [s[0]] + s[1..] == s;
    }
  }

  // Decoding again changes nothing.

  lemma WholeFirst(s: Text, t: Text)
    requires s != []
    ensures var u := First(s) + t; Whole(u) && Matched(u) == |First(s)|
  {
    var c := First(s);
    var u := c + t;
    assert u[0] == c[0];
    assert forall i :: 0 <= i < |c| ==> u[i] == c[i];
    if Whole(s) { assert forall i :: 0 <= i < |c| ==> c[i] == s[i]; }
  }

  lemma {:induction false} LossyTwice(s: Text)
    ensures Lossy(Lossy(s)) == Lossy(s)
    decreases |s|
  {
    if s != [] {
      var rest := s[Matched(s)..];
      LossyTwice(rest);
      WholeFirst(s, Lossy(rest));
      var u := First(s) + Lossy(rest);
      assert u[..|First(s)|] == First(s) && u[|First(s)|..] == Lossy(rest);
    }
  }
}
