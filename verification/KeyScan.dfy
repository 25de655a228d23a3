/**
 The key scanners of the terminal client: they recognise an escape sequence
 that stands for one printable ASCII key and nothing else.
 */
module KeyScan {
  import opened Bytes
  import opened Decimal
  import opened Options

  const ESC: Byte := 0x1b
  const BRACKET: Byte := 91   // [
  const SEMICOLON: Byte := 59
  const COLON: Byte := 58
  const TILDE: Byte := 126
  const LETTER_U: Byte := 117
  const MODIFY_PREFIX: seq<Byte> := [50, 55, 59]   // 27;
  const CAP := 48
  const MAX_DIGITS := 8

  // Each scanner takes the bytes still to be read and answers with what is
  // left after the piece it recognised.

  datatype Num = NumMore | NumBad | NumOk(n: nat, rest: seq<Byte>)
  datatype Colon = ColonMore | ColonBad | ColonAt(rest: seq<Byte>)
  datatype Csi = CsiMore | CsiNo | CsiAscii(rest: seq<Byte>, byte: Byte)
  datatype KeyScan = Forward(n: nat) | Ascii(consumed: nat, byte: Byte) | NeedMore

  /** The digits in front of s. */
  function Digits(s: seq<Byte>): (d: seq<Byte>)
    ensures |d| <= |s| && AllDigits(d)
  {
    if s == [] || !IsDigit(s[0]) then [] else [s[0]] + Digits(s[1..])
  }

  /** A run of one to eight digits, complete only once the byte after it is seen. */
  function ScanNumber(s: seq<Byte>): (r: Num)
    ensures r.NumOk? ==> 0 < |r.rest| < |s|
  {
    var d := Digits(s);
    if s == [] then NumMore
    else if d == [] || |d| > MAX_DIGITS then NumBad
    else if |d| == |s| then NumMore
    else NumOk(Number(d), s[|d|..])
  }

  lemma {:induction false} DigitsStep(s: seq<Byte>, j: nat)
    requires j < |s| && AllDigits(s[..j])
    ensures Digits(s) == s[..j] + Digits(s[j..])
    decreases j
  {
    if j > 0 {
      assert s[..j][0] == s[0];
      assert s[1..][..j - 1] == s[..j][1..];
      DigitsStep(s[1..], j - 1);
      assert s[1..][j - 1..] == s[j..];
      assert s[..j] == [s[0]] + s[..j][1..];
    } else {
      assert s[0..] == s;
    }
  }

  /** One turn of the loop: the value stays exact, and a ninth digit is one too many. */
  lemma OneMoreDigit(t: seq<Byte>, k: nat)
    requires k < |t| && k <= MAX_DIGITS && AllDigits(t[..k]) && IsDigit(t[k])
    ensures AllDigits(t[..k + 1])
    ensures k + 1 <= MAX_DIGITS ==> Number(t[..k + 1]) == SaturatingAdd(SaturatingMul(Number(t[..k]), 10), t[k] - 48)
    ensures |Digits(t)| >= k + 1
  {
    assert t[..k + 1][..k] == t[..k];
    NumberBound(t[..k + 1]);
    PowBound(k + 1);
    DigitsStep(t, k);
    assert t[k..][0] == t[k];
  }

  /** Where the digits end. */
  lemma DigitsStop(t: seq<Byte>, k: nat)
    requires k <= |t| && AllDigits(t[..k]) && (k < |t| ==> !IsDigit(t[k]))
    ensures Digits(t) == t[..k]
  {
    if k < |t| {
      DigitsStep(t, k);
      assert t[k..][0] == t[k];
    } else {
      assert t[..k] == t;
      DigitsAll(t);
    }
  }

  lemma {:induction false} DigitsAll(t: seq<Byte>)
    requires AllDigits(t)
    ensures Digits(t) == t
  {
    if t != [] {
      DigitsAll(t[1..]);
      assert t == [t[0]] + t[1..];
    }
  }

  /** The `number` loop on (s, i), with its saturating value and its digit limit. */
  method NumberLoop(s: seq<Byte>, i: nat) returns (r: Num)
    requires i <= |s|
    ensures r == ScanNumber(s[i..])
  {
    if i >= |s| { return NumMore; }
    ghost var t := s[i..];
    if !IsDigit(s[i]) {
      assert Digits(t) == [];
      return NumBad;
    }
    var n := 0;
    var j := i;
    while j < |s| && IsDigit(s[j])
      invariant i <= j <= |s|
      invariant j - i <= MAX_DIGITS
      invariant AllDigits(t[..j - i])
      invariant n == Number(t[..j - i])
    {
      OneMoreDigit(t, j - i);
      n := SaturatingAdd(SaturatingMul(n, 10), s[j] - 48);
      j := j + 1;
      if j - i > MAX_DIGITS {
        return NumBad;
      }
    }
    DigitsStop(t, j - i);
    if j == |s| {
      return NumMore;
    }
    assert t[j - i..] == s[j..];
    r := NumOk(n, s[j..]);
  }

  const U32_MAX := 0xffff_ffff

  function SaturatingMul(a: nat, b: nat): (r: nat)
    ensures r <= U32_MAX
  {
    if a * b > U32_MAX then U32_MAX else a * b
  }

  function SaturatingAdd(a: nat, b: nat): (r: nat)
    ensures r <= U32_MAX
  {
    if a + b > U32_MAX then U32_MAX else a + b
  }

  lemma PowBound(k: nat)
    requires k <= 9
    ensures Pow10(k) <= 1_000_000_000
  {
    assert Pow10(9) == 1_000_000_000 by {
      assert Pow10(3) == 1000;
      assert Pow10(6) == 1_000_000;
    }
    PowMonotone(k, 9);
  }

  lemma PowMonotone(a: nat, b: nat)
    requires a <= b
    ensures Pow10(a) <= Pow10(b)
    decreases b
  {
    if a < b { PowMonotone(a, b - 1); }
  }

  /** Any number of `:digits` sub-parameters. */
  function SkipColons(s: seq<Byte>): (r: Colon)
    ensures r.ColonAt? ==> |r.rest| <= |s| && (s != [] ==> r.rest != [])
    decreases |s|
  {
    if s != [] && s[0] == COLON then
      match ScanNumber(s[1..])
      case NumMore => ColonMore
      case NumBad => ColonBad
      case NumOk(_, rest) => SkipColons(rest)
    else ColonAt(s)
  }

  /** The `skip_colons` loop. */
  method SkipColonsLoop(s: seq<Byte>) returns (r: Colon)
    ensures r == SkipColons(s)
  {
    var t := s;
    while t != [] && t[0] == COLON
      invariant SkipColons(s) == SkipColons(t)
      decreases |t|
    {
      var num := NumberLoop(t, 1);
      match num
      case NumMore => return ColonMore;
      case NumBad => return ColonBad;
      case NumOk(_, rest) => t := rest;
    }
    r := ColonAt(t);
  }

  predicate PlainMod(mods: nat) {
    mods == 1 || mods == 2
  }

  predicate Printable(n: int) {
    32 <= n <= 126
  }

  /** What Shift does to a key on a US layout. */
  function ApplyShift(key: Byte): (r: Byte)
    ensures Printable(key) ==> Printable(r)
  {
    if 97 <= key <= 122 then key - 32
    else match key
      case 49 => 33   // 1 !
      case 50 => 64   // 2 @
      case 51 => 35   // 3 #
      case 52 => 36   // 4 $
      case 53 => 37   // 5 %
      case 54 => 94   // 6 ^
      case 55 => 38   // 7 &
      case 56 => 42   // 8 *
      case 57 => 40   // 9 (
      case 48 => 41   // 0 )
      case 96 => 126  // ` ~
      case 45 => 95   // - _
      case 61 => 43   // = +
      case 91 => 123  // [ {
      case 93 => 125  // ] }
      case 92 => 124  // \ |
      case 59 => 58   // ; :
      case 39 => 34   // ' "
      case 44 => 60   // , <
      case 46 => 62   // . >
      case 47 => 63   // / ?
      case _ => key
  }

  /** xterm's modifyOtherKeys form, after `ESC [`: `27;mods;code~`. */
  function ModifyOtherKeys(s: seq<Byte>): (r: Csi)
    ensures r.CsiAscii? ==> |r.rest| < |s| && Printable(r.byte)
  {
    if |s| < |MODIFY_PREFIX| then
      if s <= MODIFY_PREFIX then CsiMore else CsiNo
    else if !(MODIFY_PREFIX <= s) then CsiNo
    else match ScanNumber(s[3..])
      case NumMore => CsiMore
      case NumBad => CsiNo
      case NumOk(mods, t) =>
        if t[0] != SEMICOLON then CsiNo
        else match ScanNumber(t[1..])
          case NumMore => CsiMore
          case NumBad => CsiNo
          case NumOk(code, u) =>
            if u[0] == TILDE && PlainMod(mods) && Printable(code) then CsiAscii(u[1..], code) else CsiNo
  }

  /** One parameter with its colon sub-parameters: a number, then `skip_colons`. */
  function ScanField(s: seq<Byte>): (r: Num)
    ensures r.NumOk? ==> 0 < |r.rest| < |s|
  {
    match ScanNumber(s)
    case NumMore => NumMore
    case NumBad => NumBad
    case NumOk(n, t) =>
      match SkipColons(t)
      case ColonMore => NumMore
      case ColonBad => NumBad
      case ColonAt(rest) => NumOk(n, rest)
  }

  /** The key byte a kitty report stands for, if it is a printable key with no Ctrl or Alt. */
  function KittyByte(key: nat, mods: nat, text: Option<nat>): (r: Option<Byte>)
    ensures r.Some? ==> Printable(r.value) && PlainMod(mods)
  {
    if !PlainMod(mods) then None
    else match text
      case Some(t) => if Printable(t) then Some(t) else None
      case None =>
        if !Printable(key) then None
        else Some(if mods == 2 then ApplyShift(key) else key)
  }

  /** The closing `u` of a kitty report. */
  function KittyEnd(s: seq<Byte>, byte: Option<Byte>): (r: Csi)
    requires s != [] && (byte.Some? ==> Printable(byte.value))
    ensures r.CsiAscii? ==> |r.rest| < |s| && Printable(r.byte)
  {
    if s[0] == LETTER_U && byte.Some? then CsiAscii(s[1..], byte.value) else CsiNo
  }

  /** After the modifiers: perhaps the associated text, then the end. */
  function KittyText(s: seq<Byte>, key: nat, mods: nat): (r: Csi)
    requires s != []
    ensures r.CsiAscii? ==> |r.rest| < |s| && Printable(r.byte)
  {
    if s[0] != SEMICOLON then KittyEnd(s, KittyByte(key, mods, None))
    else match ScanField(s[1..])
      case NumMore => CsiMore
      case NumBad => CsiNo
      case NumOk(text, t) => KittyEnd(t, KittyByte(key, mods, Some(text)))
  }

  /** After the key: perhaps the modifiers, then the rest. */
  function KittyMods(s: seq<Byte>, key: nat): (r: Csi)
    requires s != []
    ensures r.CsiAscii? ==> |r.rest| < |s| && Printable(r.byte)
  {
    if s[0] != SEMICOLON then KittyEnd(s, KittyByte(key, 1, None))
    else match ScanField(s[1..])
      case NumMore => CsiMore
      case NumBad => CsiNo
      case NumOk(mods, t) => KittyText(t, key, mods)
  }

  /** The kitty form, after `ESC [`: `key[;mods[;text]]u`, each with sub-parameters. */
  function KittyPrintable(s: seq<Byte>): (r: Csi)
    ensures r.CsiAscii? ==> |r.rest| < |s| && Printable(r.byte)
  {
    match ScanField(s)
    case NumMore => CsiMore
    case NumBad => CsiNo
    case NumOk(key, t) => KittyMods(t, key)
  }

  function CsiPrintable(s: seq<Byte>): (r: Csi)
    ensures r.CsiAscii? ==> |r.rest| < |s| && Printable(r.byte)
  {
    if MODIFY_PREFIX <= s || s <= MODIFY_PREFIX then ModifyOtherKeys(s) else KittyPrintable(s)
  }

  /** How many leading bytes come before the first escape. */
  function PlainRun(buf: seq<Byte>): (n: nat)
    ensures n <= |buf|
    ensures forall i :: 0 <= i < n ==> buf[i] != ESC
    ensures n < |buf| ==> buf[n] == ESC
  {
    if buf == [] || buf[0] == ESC then 0 else 1 + PlainRun(buf[1..])
  }

  /**
   One look at the front of the buffer. `capped` is the shipped scanner, which
   gives up on an escape sequence once the whole buffer passes 48 bytes; the
   uncapped one is the rule the cap cuts short.
   */
  function Scan(buf: seq<Byte>, capped: bool): (r: KeyScan)
    requires buf != []
    ensures r.Forward? ==> 1 <= r.n <= |buf|
    ensures r.Ascii? ==> 2 < r.consumed <= |buf| && Printable(r.byte) && buf[0] == ESC
    ensures buf[0] == ESC && r.Forward? ==> r.n == 1
    ensures r.NeedMore? ==> buf[0] == ESC && (capped ==> |buf| <= CAP)
  {
    if buf[0] != ESC then Forward(PlainRun(buf))
    else if |buf| == 1 || (|buf| == 2 && buf[1] == BRACKET) then NeedMore
    else if buf[1] != BRACKET then Forward(1)
    else if capped && |buf| > CAP then Forward(1)
    else match CsiPrintable(buf[2..])
      case CsiMore => NeedMore
      case CsiNo => Forward(1)
      case CsiAscii(rest, byte) => Ascii(|buf| - |rest|, byte)
  }

  // Prefix stability: an answer other than "need more" does not depend on
  // bytes that have not arrived yet.

  function MoreNum(r: Num, t: seq<Byte>): (q: Num) {
    if r.NumOk? then NumOk(r.n, r.rest + t) else r
  }

  function MoreColon(r: Colon, t: seq<Byte>): (q: Colon) {
    if r.ColonAt? then ColonAt(r.rest + t) else r
  }

  function MoreCsi(r: Csi, t: seq<Byte>): (q: Csi) {
    if r.CsiAscii? then CsiAscii(r.rest + t, r.byte) else r
  }

  lemma Tail(s: seq<Byte>, t: seq<Byte>, k: nat)
    requires k <= |s|
    ensures (s + t)[k..] == s[k..] + t
  {
  }

  lemma {:induction false} DigitsStable(s: seq<Byte>, t: seq<Byte>)
    ensures |Digits(s)| < |s| ==> Digits(s + t) == Digits(s)
    ensures |Digits(s + t)| >= |Digits(s)|
    decreases |s|
  {
    if s != [] {
      DigitsStable(s[1..], t);
      Tail(s, t, 1);
    }
  }

  lemma NumberStable(s: seq<Byte>, t: seq<Byte>)
    requires ScanNumber(s) != NumMore
    ensures ScanNumber(s + t) == MoreNum(ScanNumber(s), t)
  {
    DigitsStable(s, t);
    Tail(s, t, |Digits(s)|);
    if Digits(s) == [] { assert (s + t)[0] == s[0]; }
  }

  lemma {:induction false} ColonsStable(s: seq<Byte>, t: seq<Byte>)
    requires s != [] && SkipColons(s) != ColonMore
    ensures SkipColons(s + t) == MoreColon(SkipColons(s), t)
    decreases |s|
  {
    if s[0] == COLON {
      Tail(s, t, 1);
      NumberStable(s[1..], t);
      if ScanNumber(s[1..]).NumOk? {
        ColonsStable(ScanNumber(s[1..]).rest, t);
      }
    }
  }

  lemma FieldStable(s: seq<Byte>, t: seq<Byte>)
    requires ScanField(s) != NumMore
    ensures ScanField(s + t) == MoreNum(ScanField(s), t)
  {
    NumberStable(s, t);
    if ScanNumber(s).NumOk? {
      ColonsStable(ScanNumber(s).rest, t);
    }
  }

  lemma ModifyOtherKeysStable(s: seq<Byte>, t: seq<Byte>)
    requires MODIFY_PREFIX <= s && ModifyOtherKeys(s) != CsiMore
    ensures ModifyOtherKeys(s + t) == MoreCsi(ModifyOtherKeys(s), t)
  {
    Tail(s, t, 3);
    NumberStable(s[3..], t);
    var mods := ScanNumber(s[3..]);
    if mods.NumOk? && mods.rest[0] == SEMICOLON {
      Tail(mods.rest, t, 1);
      NumberStable(mods.rest[1..], t);
      var code := ScanNumber(mods.rest[1..]);
      if code.NumOk? { Tail(code.rest, t, 1); }
    }
  }

  lemma KittyEndStable(s: seq<Byte>, t: seq<Byte>, byte: Option<Byte>)
    requires s != [] && (byte.Some? ==> Printable(byte.value))
    ensures KittyEnd(s + t, byte) == MoreCsi(KittyEnd(s, byte), t)
  {
    Tail(s, t, 1);
  }

  lemma KittyTextStable(s: seq<Byte>, t: seq<Byte>, key: nat, mods: nat)
    requires s != [] && KittyText(s, key, mods) != CsiMore
    ensures KittyText(s + t, key, mods) == MoreCsi(KittyText(s, key, mods), t)
  {
    if s[0] == SEMICOLON {
      Tail(s, t, 1);
      FieldStable(s[1..], t);
      var text := ScanField(s[1..]);
      if text.NumOk? { KittyEndStable(text.rest, t, KittyByte(key, mods, Some(text.n))); }
    } else {
      KittyEndStable(s, t, KittyByte(key, mods, None));
    }
  }

  lemma KittyModsStable(s: seq<Byte>, t: seq<Byte>, key: nat)
    requires s != [] && KittyMods(s, key) != CsiMore
    ensures KittyMods(s + t, key) == MoreCsi(KittyMods(s, key), t)
  {
    if s[0] == SEMICOLON {
      Tail(s, t, 1);
      FieldStable(s[1..], t);
      var mods := ScanField(s[1..]);
      if mods.NumOk? { KittyTextStable(mods.rest, t, key, mods.n); }
    } else {
      KittyEndStable(s, t, KittyByte(key, 1, None));
    }
  }

  lemma KittyStable(s: seq<Byte>, t: seq<Byte>)
    requires KittyPrintable(s) != CsiMore
    ensures KittyPrintable(s + t) == MoreCsi(KittyPrintable(s), t)
  {
    FieldStable(s, t);
    var key := ScanField(s);
    if key.NumOk? { KittyModsStable(key.rest, t, key.n); }
  }

  /** A decided answer for an escape sequence is final. */
  lemma ScanStable(buf: seq<Byte>, t: seq<Byte>)
    requires buf != [] && buf[0] == ESC && Scan(buf, false) != NeedMore
    ensures Scan(buf + t, false) == Scan(buf, false)
  {
    if buf[1] == BRACKET {
      var s := buf[2..];
      Tail(buf, t, 2);
      if MODIFY_PREFIX <= s {
        ModifyOtherKeysStable(s, t);
      } else {
        NotModify(s, t);
        KittyStable(s, t);
      }
    }
  }

  lemma NotModify(s: seq<Byte>, t: seq<Byte>)
    requires !(MODIFY_PREFIX <= s) && !(s <= MODIFY_PREFIX)
    ensures !(MODIFY_PREFIX <= s + t) && !(s + t <= MODIFY_PREFIX)
  {
    var k :| 0 <= k < |s| && k < 3 && s[k] != MODIFY_PREFIX[k];
    assert (s + t)[k] == s[k];
  }

  /** Below the cap the shipped scanner is the uncapped one. */
  lemma CapSilent(buf: seq<Byte>)
    requires buf != [] && |buf| <= CAP
    ensures Scan(buf, true) == Scan(buf, false)
  {
  }
}
