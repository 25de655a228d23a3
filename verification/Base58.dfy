/** Base58 of a byte string read as one big-endian number, by long division in place. */
module Base58 {
  import opened Bytes

  type Digit = d: int | 0 <= d < 58

  function Span(first: char, last: char): (r: seq<Byte>)
    requires first <= last < 128 as char
    ensures |r| == last as int - first as int + 1
  {
    seq(last as int - first as int + 1, i => first as int + i)
  }

  /** The Bitcoin alphabet: digits and letters in ASCII order without 0, I, O and l. */
  const ALPHABET: seq<Byte> :=
    Span('1', '9') + Span('A', 'H') + Span('J', 'N') + Span('P', 'Z') + Span('a', 'k') + Span('m', 'z')

  /** The base-58 numeral of n, most significant digit first; nothing for zero. */
  function Digits(n: nat): (r: seq<Digit>) {
    if n == 0 then [] else Digits(n / 58) + [n % 58]
  }

  function Value58(s: seq<Digit>): (v: nat) {
    if s == [] then 0 else Value58(s[..|s| - 1]) * 58 + s[|s| - 1]
  }

  /** The numeral has the number's value and no leading zero. */
  lemma {:induction false} DigitsValue(n: nat)
    ensures Value58(Digits(n)) == n
    ensures n > 0 ==> Digits(n) != [] && Digits(n)[0] != 0
  {
    if n > 0 {
      DigitsValue(n / 58);
      assert Digits(n)[..|Digits(n)| - 1] == Digits(n / 58);
    }
  }

  lemma {:induction false} LeadingValue(s: seq<Digit>)
    requires s != [] && s[0] != 0
    ensures Value58(s) > 0
  {
    if |s| > 1 { LeadingValue(s[..|s| - 1]); } else { assert s[..0] == []; }
  }

  /** And it is the only such numeral. */
  lemma {:induction false} DigitsUnique(s: seq<Digit>)
    requires s != [] ==> s[0] != 0
    ensures Digits(Value58(s)) == s
  {
    if s != [] {
      var k := |s| - 1;
      LeadingValue(s);
      if k > 0 { assert s[..k][0] == s[0]; }
      DigitsUnique(s[..k]);
      assert Value58(s) / 58 == Value58(s[..k]) && Value58(s) % 58 == s[k];
      assert s == s[..k] + [s[k]];
    }
  }

  lemma AlphabetAscends(i: nat)
    requires i + 1 < 58
    ensures |ALPHABET| == 58 && ALPHABET[i] < ALPHABET[i + 1]
  {
  }

  lemma {:induction false} AlphabetOrdered(i: nat, j: nat)
    requires i < j < 58
    ensures |ALPHABET| == 58 && ALPHABET[i] < ALPHABET[j]
    decreases j - i
  {
    AlphabetAscends(j - 1);
    if i < j - 1 { AlphabetOrdered(i, j - 1); }
  }

  function Letters(s: seq<Digit>): (r: seq<Byte>)
    ensures |r| == |s|
  {
    seq(|s|, i requires 0 <= i < |s| => ALPHABET[s[i]])
  }

  lemma LettersInjective(s: seq<Digit>, t: seq<Digit>)
    requires Letters(s) == Letters(t)
    ensures s == t
  {
    forall i | 0 <= i < |s| ensures s[i] == t[i] {
      assert Letters(s)[i] == Letters(t)[i];
      if s[i] < t[i] { AlphabetOrdered(s[i], t[i]); }
      if t[i] < s[i] { AlphabetOrdered(t[i], s[i]); }
    }
  }

  function Encoding(bytes: seq<Byte>): (r: seq<Byte>) {
    Letters(Digits(Value(bytes)))
  }

  /** Two strings encode alike exactly when they are the same number. */
  lemma EncodingIsNumber(a: seq<Byte>, b: seq<Byte>)
    ensures Encoding(a) == Encoding(b) <==> Value(a) == Value(b)
  {
    if Encoding(a) == Encoding(b) {
      LettersInjective(Digits(Value(a)), Digits(Value(b)));
      DigitsValue(Value(a));
      DigitsValue(Value(b));
    }
  }

  /** So hashes, which have one length, never share an encoding. */
  lemma EncodingInjective(a: seq<Byte>, b: seq<Byte>)
    requires |a| == |b| && Encoding(a) == Encoding(b)
    ensures a == b
  {
    EncodingIsNumber(a, b);
    ValueRoundTrip(a);
    ValueRoundTrip(b);
  }

  /** Leading zero bytes are not preserved. */
  lemma {:induction false} LeadingZeroVanishes(b: seq<Byte>)
    ensures Value([0] + b) == Value(b) && Encoding([0] + b) == Encoding(b)
  {
    if b == [] {
      assert [0] + b == [0] && [0][..0] == [];
    } else {
      var k := |b| - 1;
      LeadingZeroVanishes(b[..k]);
      assert ([0] + b)[..k + 1] == [0] + b[..k];
    }
  }

  // The loops.

  lemma ValueSnoc(s: seq<Byte>, b: Byte)
    ensures Value(s + [b]) == Value(s) * 256 + b
  {
    assert (s + [b])[..|s|] == s;
  }

  lemma {:induction false} LeadingByte(s: seq<Byte>)
    requires s != [] && s[0] != 0
    ensures Value(s) > 0
  {
    if |s| > 1 { LeadingByte(s[..|s| - 1]); } else { assert s[..0] == []; }
  }

  /** One column of the division: the quotient fits a byte. */
  lemma Column(rem: nat, b: Byte)
    requires rem < 58
    ensures (rem * 256 + b) / 58 < 256 && (rem * 256 + b) == 58 * ((rem * 256 + b) / 58) + (rem * 256 + b) % 58
  {
  }

  /** Divides num[start..] by 58 in place. The remainder shifted by eight bits leaves room for the byte, so OR adds. */
  method Divide(num: array<Byte>, start: nat) returns (rem: nat)
    requires start <= num.Length
    modifies num
    ensures rem < 58 && num[..start] == old(num[..start])
    ensures old(Value(num[start..])) == 58 * Value(num[start..]) + rem
  {
    rem := 0;
    var i := start;
    while i < num.Length
      invariant start <= i <= num.Length && rem < 58
      invariant num[..start] == old(num[..start]) && num[i..] == old(num[i..])
      invariant old(Value(num[start..i])) == 58 * Value(num[start..i]) + rem
    {
      ghost var done, b := num[start..i], num[i];
      var acc := rem * 256 + num[i];
      Column(rem, num[i]);
      assert old(num[start..i + 1]) == old(num[start..i]) + [b];
      ValueSnoc(old(num[start..i]), b);
      num[i] := acc / 58;
      assert num[start..i + 1] == done + [num[i]];
      ValueSnoc(done, num[i]);
      rem := acc % 58;
      i := i + 1;
    }
    assert num[start..num.Length] == num[start..];
    assert old(num[start..num.Length]) == old(num[start..]);
  }

  /** Skips zero bytes, which contribute nothing. */
  method SkipZeros(num: array<Byte>, start: nat) returns (s: nat)
    requires start <= num.Length
    ensures start <= s <= num.Length
    ensures Value(num[s..]) == Value(num[start..])
    ensures s < num.Length ==> num[s] != 0
  {
    s := start;
    while s < num.Length && num[s] == 0
      invariant start <= s <= num.Length
      invariant Value(num[s..]) == Value(num[start..])
    {
      LeadingZeroVanishes(num[s + 1..]);
      assert num[s..] == [0] + num[s + 1..];
      s := s + 1;
    }
  }

  function Reversed(s: seq<Byte>): (r: seq<Byte>)
    ensures |r| == |s|
  {
    seq(|s|, i requires 0 <= i < |s| => s[|s| - 1 - i])
  }

  lemma StepDigits(v: nat, q: nat, rem: nat, digits: seq<Byte>)
    requires v == 58 * q + rem && rem < 58 && v > 0
    ensures Letters(Digits(v)) + Reversed(digits) == Letters(Digits(q)) + Reversed(digits + [ALPHABET[rem]])
  {
    assert v / 58 == q && v % 58 == rem;
    assert Digits(v) == Digits(q) + [rem];
    assert Letters(Digits(v)) == Letters(Digits(q)) + [ALPHABET[rem]];
    assert Reversed(digits + [ALPHABET[rem]]) == [ALPHABET[rem]] + Reversed(digits);
  }

  method Encode(bytes: seq<Byte>) returns (r: seq<Byte>)
    ensures r == Encoding(bytes)
  {
    if bytes == [] {
      return [];
    }
    var num := new Byte[|bytes|](i requires 0 <= i < |bytes| => bytes[i]);
    assert num[0..] == bytes;
    var digits: seq<Byte> := [];
    var start := SkipZeros(num, 0);
    while start < num.Length
      invariant start <= num.Length
      invariant start < num.Length ==> num[start] != 0
      invariant Letters(Digits(Value(num[start..]))) + Reversed(digits) == Encoding(bytes)
      decreases Value(num[start..])
    {
      ghost var v := Value(num[start..]);
      LeadingByte(num[start..]);
      var rem := Divide(num, start);
      StepDigits(v, Value(num[start..]), rem, digits);
      digits := digits + [ALPHABET[rem]];
      start := SkipZeros(num, start);
    }
    return Reversed(digits);
  }
}
