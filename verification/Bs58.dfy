/** The base-58 text the blob door reads: every leading zero byte is a leading `1`. */
module Bs58 {
  import opened Bytes
  import opened Options
  import opened Base58

  function Zeros(k: nat): (z: seq<Digit>)
    ensures |z| == k && forall i :: 0 <= i < k ==> z[i] == 0
  {
    seq(k, i => 0)
  }

  function LeadingZeros(s: seq<int>): (k: nat)
    ensures k <= |s| && (k < |s| ==> s[k] != 0) && forall i :: 0 <= i < k ==> s[i] == 0
  {
    if s != [] && s[0] == 0 then 1 + LeadingZeros(s[1..]) else 0
  }

  /** The bytes of n, most significant first; nothing for zero. */
  function Minimal(n: nat): (r: seq<Byte>) {
    if n == 0 then [] else Minimal(n / 256) + [n % 256]
  }

  function Text(b: seq<Byte>): (t: seq<Byte>) {
    Letters(Zeros(LeadingZeros(b)) + Digits(Value(b)))
  }

  function DigitOf(letter: Byte, from: nat): (d: Option<Digit>)
    requires from <= |ALPHABET| == 58
    ensures d.Some? ==> ALPHABET[d.value] == letter
    decreases 58 - from
  {
    if from == 58 then None else if ALPHABET[from] == letter then Some(from) else DigitOf(letter, from + 1)
  }

  function FromLetters(t: seq<Byte>): (r: Option<seq<Digit>>) {
    if t == [] then Some([])
    else
      match (FromLetters(t[..|t| - 1]), DigitOf(t[|t| - 1], 0))
      case (Some(s), Some(d)) => Some(s + [d])
      case _ => None
  }

  function Decoded(t: seq<Byte>): (b: Option<seq<Byte>>) {
    match FromLetters(t)
    case None => None
    case Some(s) => Some(Zeros(LeadingZeros(s)) + Minimal(Value58(s)))
  }

  // Letters and digits.

  lemma {:induction false} DigitOfLetter(d: Digit, from: nat)
    requires from <= d
    ensures DigitOf(ALPHABET[d], from) == Some(d)
    decreases d - from
  {
    if from < d {
      AlphabetOrdered(from, d);
      DigitOfLetter(d, from + 1);
    }
  }

  lemma {:induction false} FromLettersOf(s: seq<Digit>)
    ensures FromLetters(Letters(s)) == Some(s)
  {
    if s != [] {
      var k := |s| - 1;
      FromLettersOf(s[..k]);
      DigitOfLetter(s[k], 0);
      assert Letters(s)[..k] == Letters(s[..k]);
      assert s == s[..k] + [s[k]];
    }
  }

  lemma {:induction false} LettersOfDigits(t: seq<Byte>)
    requires FromLetters(t).Some?
    ensures Letters(FromLetters(t).value) == t
  {
    if t != [] {
      LettersOfDigits(t[..|t| - 1]);
      assert t == t[..|t| - 1] + [t[|t| - 1]];
    }
  }

  // A numeral is its leading zeros and its number, in base 58 and in base 256.

  lemma ZerosLead(k: nat, s: seq<int>)
    requires s != [] ==> s[0] != 0
    ensures LeadingZeros(Zeros(k) + s) == k
  {
    assert s != [] ==> (Zeros(k) + s)[k] == s[0];
  }

  lemma {:induction false} ZerosValue58(k: nat, s: seq<Digit>)
    ensures Value58(Zeros(k) + s) == Value58(s)
    decreases |s|, k
  {
    var z := Zeros(k) + s;
    if s != [] {
      assert z[..|z| - 1] == Zeros(k) + s[..|s| - 1];
      ZerosValue58(k, s[..|s| - 1]);
    } else if k > 0 {
      assert z[..|z| - 1] == Zeros(k - 1) + [];
      ZerosValue58(k - 1, []);
    } else {
      assert z == s;
    }
  }

  lemma {:induction false} ZerosValue(k: nat, s: seq<Byte>)
    ensures Value(Zeros(k) + s) == Value(s)
    decreases |s|, k
  {
    var z := Zeros(k) + s;
    if s != [] {
      assert z[..|z| - 1] == Zeros(k) + s[..|s| - 1];
      ZerosValue(k, s[..|s| - 1]);
    } else if k > 0 {
      assert z[..|z| - 1] == Zeros(k - 1) + [];
      ZerosValue(k - 1, []);
    } else {
      assert z == s;
    }
  }

  lemma {:induction false} MinimalValue(n: nat)
    ensures Value(Minimal(n)) == n
    ensures n > 0 ==> Minimal(n) != [] && Minimal(n)[0] != 0
  {
    if n > 0 {
      MinimalValue(n / 256);
      assert Minimal(n)[..|Minimal(n)| - 1] == Minimal(n / 256);
    }
  }

  lemma {:induction false} MinimalUnique(b: seq<Byte>)
    requires b != [] ==> b[0] != 0
    ensures Minimal(Value(b)) == b
  {
    if b != [] {
      var k := |b| - 1;
      LeadingByte(b);
      if k > 0 { assert b[..k][0] == b[0]; }
      MinimalUnique(b[..k]);
      assert Value(b) / 256 == Value(b[..k]) && Value(b) % 256 == b[k];
      assert b == b[..k] + [b[k]];
    }
  }

  lemma DigitsSplit(s: seq<Digit>)
    ensures s == Zeros(LeadingZeros(s)) + Digits(Value58(s))
  {
    var k := LeadingZeros(s);
    assert s == Zeros(k) + s[k..];
    ZerosValue58(k, s[k..]);
    DigitsUnique(s[k..]);
  }

  lemma BytesSplit(b: seq<Byte>)
    ensures b == Zeros(LeadingZeros(b)) + Minimal(Value(b))
  {
    var k := LeadingZeros(b);
    assert b == Zeros(k) + b[k..];
    ZerosValue(k, b[k..]);
    MinimalUnique(b[k..]);
  }

  /** The decoder takes one text for each byte string, the one with a `1` for each leading zero byte. */
  lemma DecodedIff(t: seq<Byte>, b: seq<Byte>)
    ensures Decoded(t) == Some(b) <==> t == Text(b)
  {
    if t == Text(b) {
      var k, n := LeadingZeros(b), Value(b);
      FromLettersOf(Zeros(k) + Digits(n));
      DigitsValue(n);
      ZerosLead(k, Digits(n));
      ZerosValue58(k, Digits(n));
      BytesSplit(b);
    }
    if Decoded(t) == Some(b) {
      var s := FromLetters(t).value;
      var k, n := LeadingZeros(s), Value58(s);
      LettersOfDigits(t);
      DigitsSplit(s);
      MinimalValue(n);
      ZerosLead(k, Minimal(n));
      ZerosValue(k, Minimal(n));
    }
  }

  /** The publisher's text is that one if and only if there is no leading zero byte. */
  lemma TextIsEncoding(b: seq<Byte>)
    ensures Encoding(b) == Text(b) <==> b == [] || b[0] != 0
  {
    var k, ds := LeadingZeros(b), Digits(Value(b));
    assert |Text(b)| == k + |ds| && |Encoding(b)| == |ds|;
    if k == 0 { assert Zeros(0) + ds == ds; }
  }

  /** Among strings of one length, a text the publisher writes is read as what it was written for or not at all. */
  lemma TextUnpadded(a: seq<Byte>, b: seq<Byte>)
    requires Encoding(a) == Text(b) && |a| == |b|
    ensures a == b
  {
    var k := LeadingZeros(b);
    var digits := Zeros(k) + Digits(Value(b));
    assert k > 0 ==> digits[0] == 0;
    LettersInjective(Digits(Value(a)), digits);
    DigitsValue(Value(a));
    assert digits == Digits(Value(b));
    EncodingInjective(a, b);
  }

  /** And it is empty if and only if there is nothing else. */
  lemma EncodingEmptyIff(b: seq<Byte>)
    ensures Encoding(b) == [] <==> LeadingZeros(b) == |b|
  {
    BytesSplit(b);
    DigitsValue(Value(b));
    if Value(b) > 0 { MinimalValue(Value(b)); }
  }
}
