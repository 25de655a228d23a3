/**
 The key encodings as a grammar, written without reference to the scanners:
 what a terminal may send for a printable key, and which byte it stands for.
 The scanner is then shown to accept exactly this language.
 */
module KeyGrammar {
  import opened Bytes
  import opened Decimal
  import opened Options
  import opened KeyScan
  import opened Sequences

  /** A parameter: a numeral and its colon-separated sub-parameters. */
  datatype Field = Field(num: seq<Byte>, subs: seq<seq<Byte>>)

  datatype Encoding =
    | ModifyOther(mods: seq<Byte>, code: seq<Byte>)
    | Kitty1(key: Field)
    | Kitty2(key: Field, modsField: Field)
    | Kitty3(key: Field, modsField: Field, text: Field)

  predicate Numeral(d: seq<Byte>) {
    1 <= |d| <= MAX_DIGITS && AllDigits(d)
  }

  predicate FieldOk(f: Field) {
    Numeral(f.num) && forall i :: 0 <= i < |f.subs| ==> Numeral(f.subs[i])
  }

  predicate EncodingOk(e: Encoding) {
    match e
    case ModifyOther(mods, code) => Numeral(mods) && Numeral(code)
    case Kitty1(key) => FieldOk(key)
    case Kitty2(key, mods) => FieldOk(key) && FieldOk(mods)
    case Kitty3(key, mods, text) => FieldOk(key) && FieldOk(mods) && FieldOk(text)
  }

  // The printers put a piece in front of whatever follows it.

  function PrintSubs(subs: seq<seq<Byte>>, t: seq<Byte>): (s: seq<Byte>)
    ensures |s| >= |t|
  {
    if subs == [] then t else [COLON] + (subs[0] + PrintSubs(subs[1..], t))
  }

  function PrintField(f: Field, t: seq<Byte>): (s: seq<Byte>)
    ensures |s| >= |t|
  {
    f.num + PrintSubs(f.subs, t)
  }

  /** The bytes after `ESC [`. */
  function Body(e: Encoding, t: seq<Byte>): (s: seq<Byte>)
    ensures |s| > |t|
  {
    match e
    case ModifyOther(mods, code) => MODIFY_PREFIX + (mods + ([SEMICOLON] + (code + ([TILDE] + t))))
    case Kitty1(key) => PrintField(key, [LETTER_U] + t)
    case Kitty2(key, mods) => PrintField(key, [SEMICOLON] + PrintField(mods, [LETTER_U] + t))
    case Kitty3(key, mods, text) =>
      PrintField(key, [SEMICOLON] + PrintField(mods, [SEMICOLON] + PrintField(text, [LETTER_U] + t)))
  }

  function Render(e: Encoding): (s: seq<Byte>) {
    [ESC, BRACKET] + Body(e, [])
  }

  /** A kitty report that begins `27;` is read as the other form, and so refused. */
  predicate Shadowed(e: Encoding) {
    !e.ModifyOther? && MODIFY_PREFIX <= Body(e, [])
  }

  /** The character a key press types: the text that came with it, or the key itself, in upper case under Shift. */
  function Typed(key: nat, mods: nat, text: Option<nat>): (b: Option<Byte>) {
    if mods != 1 && mods != 2 then None
    else if text.Some? then (if 32 <= text.value <= 126 then Some(text.value) else None)
    else if key < 32 || key > 126 then None
    else if mods == 1 then Some(key)
    else Some(ApplyShift(key))
  }

  /** The printable byte the sequence stands for, when it is plain or shifted only. */
  function Meaning(e: Encoding): (b: Option<Byte>)
    requires EncodingOk(e)
  {
    match e
    case ModifyOther(mods, code) => Typed(Number(code), Number(mods), Some(Number(code)))
    case Kitty1(key) => if Shadowed(e) then None else Typed(Number(key.num), 1, None)
    case Kitty2(key, mods) => if Shadowed(e) then None else Typed(Number(key.num), Number(mods.num), None)
    case Kitty3(key, mods, text) =>
      if Shadowed(e) then None else Typed(Number(key.num), Number(mods.num), Some(Number(text.num)))
  }

  /** `enc` is a complete encoding of the printable byte b. */
  ghost predicate Encodes(enc: seq<Byte>, b: Byte) {
    exists e :: EncodingOk(e) && Render(e) == enc && Meaning(e) == Some(b)
  }

  // Printing in front of t is printing followed by t.

  lemma {:induction false} SubsAppend(subs: seq<seq<Byte>>, t: seq<Byte>, u: seq<Byte>)
    ensures PrintSubs(subs, t + u) == PrintSubs(subs, t) + u
    decreases |subs|
  {
    if subs != [] {
      var p := PrintSubs(subs[1..], t);
      SubsAppend(subs[1..], t, u);
      Assoc(subs[0], p, u);
      Assoc([COLON], subs[0] + p, u);
    }
  }

  lemma FieldAppend(f: Field, t: seq<Byte>, u: seq<Byte>)
    ensures PrintField(f, t + u) == PrintField(f, t) + u
  {
    SubsAppend(f.subs, t, u);
    Assoc(f.num, PrintSubs(f.subs, t), u);
  }

  lemma BodyAppend(e: Encoding, u: seq<Byte>)
    ensures Body(e, u) == Body(e, []) + u
  {
    assert [] + u == u;
    match e
    case ModifyOther(mods, code) =>
      Assoc([TILDE], [], u);
      Assoc(code, [TILDE] + [], u);
      Assoc([SEMICOLON], code + ([TILDE] + []), u);
      Assoc(mods, [SEMICOLON] + (code + ([TILDE] + [])), u);
      Assoc(MODIFY_PREFIX, mods + ([SEMICOLON] + (code + ([TILDE] + []))), u);
    case Kitty1(key) =>
      Assoc([LETTER_U], [], u);
      FieldAppend(key, [LETTER_U] + [], u);
    case Kitty2(key, mods) =>
      Assoc([LETTER_U], [], u);
      FieldAppend(mods, [LETTER_U] + [], u);
      Assoc([SEMICOLON], PrintField(mods, [LETTER_U] + []), u);
      FieldAppend(key, [SEMICOLON] + PrintField(mods, [LETTER_U] + []), u);
    case Kitty3(key, mods, text) =>
      Assoc([LETTER_U], [], u);
      var pt := PrintField(text, [LETTER_U] + []);
      FieldAppend(text, [LETTER_U] + [], u);
      Assoc([SEMICOLON], pt, u);
      var pm := PrintField(mods, [SEMICOLON] + pt);
      FieldAppend(mods, [SEMICOLON] + pt, u);
      Assoc([SEMICOLON], pm, u);
      FieldAppend(key, [SEMICOLON] + pm, u);
  }

  // Everything in the grammar is accepted: each scanner reads its piece off the
  // front and leaves what was printed after it.

  lemma Drop(d: seq<Byte>, t: seq<Byte>)
    ensures (d + t)[|d|..] == t
    ensures d != [] ==> (d + t)[0] == d[0]
  {
  }

  lemma {:induction false} DigitsAccepted(d: seq<Byte>, t: seq<Byte>)
    requires AllDigits(d) && (t == [] || !IsDigit(t[0]))
    ensures Digits(d + t) == d
    decreases |d|
  {
    if d == [] {
      assert d + t == t;
    } else {
      assert (d + t)[1..] == d[1..] + t;
      DigitsAccepted(d[1..], t);
    }
  }

  lemma NumberAccepted(d: seq<Byte>, t: seq<Byte>)
    requires Numeral(d) && t != [] && !IsDigit(t[0])
    ensures ScanNumber(d + t) == NumOk(Number(d), t)
  {
    DigitsAccepted(d, t);
    Drop(d, t);
  }

  /** What may follow a parameter: neither another digit nor a sub-parameter. */
  predicate Ends(t: seq<Byte>) {
    t != [] && !IsDigit(t[0]) && t[0] != COLON
  }

  lemma {:induction false} ColonsAccepted(subs: seq<seq<Byte>>, t: seq<Byte>)
    requires Ends(t) && forall j :: 0 <= j < |subs| ==> Numeral(subs[j])
    ensures SkipColons(PrintSubs(subs, t)) == ColonAt(t)
    ensures !IsDigit(PrintSubs(subs, t)[0])
    decreases |subs|
  {
    if subs != [] {
      var rest := PrintSubs(subs[1..], t);
      ColonsAccepted(subs[1..], t);
      Drop([COLON], subs[0] + rest);
      NumberAccepted(subs[0], rest);
    }
  }

  lemma FieldAccepted(f: Field, t: seq<Byte>)
    requires FieldOk(f) && Ends(t)
    ensures ScanField(PrintField(f, t)) == NumOk(Number(f.num), t)
  {
    ColonsAccepted(f.subs, t);
    NumberAccepted(f.num, PrintSubs(f.subs, t));
  }

  /** What a scanner answers for a complete sequence: its byte, or that it stands for none. */
  function Verdict(byte: Option<Byte>, rest: seq<Byte>): (r: Csi) {
    match byte case Some(b) => CsiAscii(rest, b) case None => CsiNo
  }

  lemma ModifyUnfolds(s: seq<Byte>)
    requires ScanNumber(s).NumOk? && ScanNumber(s).rest[0] == SEMICOLON && ScanNumber(ScanNumber(s).rest[1..]).NumOk?
    ensures var mods, code := ScanNumber(s).n, ScanNumber(ScanNumber(s).rest[1..]);
            ModifyOtherKeys(MODIFY_PREFIX + s)
            == if code.rest[0] == TILDE && PlainMod(mods) && Printable(code.n) then CsiAscii(code.rest[1..], code.n)
               else CsiNo
  {
    Drop(MODIFY_PREFIX, s);
  }

  lemma ModifyDecided(mods: seq<Byte>, code: seq<Byte>, rest: seq<Byte>)
    requires Numeral(mods) && Numeral(code)
    ensures var s := Body(ModifyOther(mods, code), rest);
            MODIFY_PREFIX <= s && ModifyOtherKeys(s) == Verdict(Meaning(ModifyOther(mods, code)), rest)
  {
    var end := [TILDE] + rest;
    var u := [SEMICOLON] + (code + end);
    NumberAccepted(mods, u);
    Drop([SEMICOLON], code + end);
    NumberAccepted(code, end);
    Drop([TILDE], rest);
    ModifyUnfolds(mods + u);
  }

  lemma TypedIsKittyByte(key: nat, mods: nat, text: Option<nat>)
    ensures KittyByte(key, mods, text) == Typed(key, mods, text)
  {
  }

  lemma KittyEndDecided(byte: Option<Byte>, rest: seq<Byte>)
    requires byte.Some? ==> Printable(byte.value)
    ensures KittyEnd([LETTER_U] + rest, byte) == Verdict(byte, rest)
  {
    Drop([LETTER_U], rest);
  }

  lemma KittyTextDecided(key: nat, mods: nat, f: Field, rest: seq<Byte>)
    requires FieldOk(f)
    ensures KittyText([SEMICOLON] + PrintField(f, [LETTER_U] + rest), key, mods)
            == Verdict(Typed(key, mods, Some(Number(f.num))), rest)
  {
    var end := [LETTER_U] + rest;
    Drop([SEMICOLON], PrintField(f, end));
    FieldAccepted(f, end);
    TypedIsKittyByte(key, mods, Some(Number(f.num)));
    KittyEndDecided(KittyByte(key, mods, Some(Number(f.num))), rest);
  }

  lemma KittyModsDecided(key: nat, f: Field, t: seq<Byte>)
    requires FieldOk(f) && Ends(t)
    ensures KittyMods([SEMICOLON] + PrintField(f, t), key) == KittyText(t, key, Number(f.num))
  {
    Drop([SEMICOLON], PrintField(f, t));
    FieldAccepted(f, t);
  }

  lemma Kitty1Decided(key: Field, rest: seq<Byte>)
    requires FieldOk(key)
    ensures KittyPrintable(Body(Kitty1(key), rest)) == Verdict(Typed(Number(key.num), 1, None), rest)
  {
    FieldAccepted(key, [LETTER_U] + rest);
    TypedIsKittyByte(Number(key.num), 1, None);
    KittyEndDecided(KittyByte(Number(key.num), 1, None), rest);
  }

  lemma Kitty2Decided(key: Field, mods: Field, rest: seq<Byte>)
    requires FieldOk(key) && FieldOk(mods)
    ensures KittyPrintable(Body(Kitty2(key, mods), rest))
            == Verdict(Typed(Number(key.num), Number(mods.num), None), rest)
  {
    var end := [LETTER_U] + rest;
    FieldAccepted(key, [SEMICOLON] + PrintField(mods, end));
    KittyModsDecided(Number(key.num), mods, end);
    TypedIsKittyByte(Number(key.num), Number(mods.num), None);
    KittyEndDecided(KittyByte(Number(key.num), Number(mods.num), None), rest);
  }

  lemma Kitty3Decided(key: Field, mods: Field, text: Field, rest: seq<Byte>)
    requires FieldOk(key) && FieldOk(mods) && FieldOk(text)
    ensures KittyPrintable(Body(Kitty3(key, mods, text), rest))
            == Verdict(Typed(Number(key.num), Number(mods.num), Some(Number(text.num))), rest)
  {
    var u := [SEMICOLON] + PrintField(text, [LETTER_U] + rest);
    FieldAccepted(key, [SEMICOLON] + PrintField(mods, u));
    KittyModsDecided(Number(key.num), mods, u);
    KittyTextDecided(Number(key.num), Number(mods.num), text, rest);
  }

  lemma KittyDecided(e: Encoding, rest: seq<Byte>)
    requires EncodingOk(e) && !e.ModifyOther? && !Shadowed(e)
    ensures KittyPrintable(Body(e, rest)) == Verdict(Meaning(e), rest)
  {
    match e
    case Kitty1(key) => Kitty1Decided(key, rest);
    case Kitty2(key, mods) => Kitty2Decided(key, mods, rest);
    case Kitty3(key, mods, text) => Kitty3Decided(key, mods, text, rest);
  }

  // A kitty report of key 27 with modifiers begins like the other form, and ends unlike it.

  lemma {:induction false} NumeralBeforeSemicolon(d: seq<Byte>, t: seq<Byte>)
    requires AllDigits(d) && t != [] && !IsDigit(t[0]) && MODIFY_PREFIX <= d + t
    ensures d == [50, 55] && t[0] == SEMICOLON
  {
    var s := d + t;
    assert s[0] == 50 && s[1] == 55 && s[2] == SEMICOLON;
    assert s[|d|] == t[0];
    assert forall i :: 0 <= i < |d| ==> s[i] == d[i] && IsDigit(s[i]);
  }

  /** After `27;`, a number and then neither `;number~` nor an end to wait for. */
  predicate NoTilde(s: seq<Byte>) {
    ScanNumber(s).NumOk? &&
    (ScanNumber(s).rest[0] == SEMICOLON ==>
       ScanNumber(ScanNumber(s).rest[1..]).NumOk? && ScanNumber(ScanNumber(s).rest[1..]).rest[0] != TILDE)
  }

  lemma NoTildeRefused(s: seq<Byte>)
    requires NoTilde(s)
    ensures ModifyOtherKeys(MODIFY_PREFIX + s) == CsiNo
  {
    Drop(MODIFY_PREFIX, s);
  }

  lemma FieldStarts(f: Field, t: seq<Byte>)
    requires FieldOk(f) && Ends(t)
    ensures ScanNumber(PrintField(f, t)) == NumOk(Number(f.num), PrintSubs(f.subs, t))
    ensures PrintSubs(f.subs, t) != []
    ensures PrintSubs(f.subs, t)[0] == if f.subs == [] then t[0] else COLON
  {
    ColonsAccepted(f.subs, t);
    NumberAccepted(f.num, PrintSubs(f.subs, t));
  }

  lemma AfterMods(mods: Field, t: seq<Byte>)
    requires FieldOk(mods) && Ends(t) && (t[0] == SEMICOLON ==> ScanNumber(t[1..]).NumOk?)
    requires t[0] == SEMICOLON ==> ScanNumber(t[1..]).rest[0] != TILDE
    ensures NoTilde(PrintField(mods, t))
  {
    FieldStarts(mods, t);
  }

  lemma AfterText(text: Field, rest: seq<Byte>)
    requires FieldOk(text)
    ensures var t := [SEMICOLON] + PrintField(text, [LETTER_U] + rest);
            ScanNumber(t[1..]).NumOk? && ScanNumber(t[1..]).rest[0] != TILDE
  {
    Drop([SEMICOLON], PrintField(text, [LETTER_U] + rest));
    FieldStarts(text, [LETTER_U] + rest);
  }

  lemma KeyIsEscape(key: Field, t: seq<Byte>)
    requires FieldOk(key) && Ends(t) && MODIFY_PREFIX <= PrintField(key, t)
    ensures t[0] == SEMICOLON && PrintField(key, t) == MODIFY_PREFIX + t[1..]
  {
    FieldStarts(key, t);
    NumeralBeforeSemicolon(key.num, PrintSubs(key.subs, t));
    assert key.subs == [];
    assert t == [SEMICOLON] + t[1..];
    assert [50, 55] + ([SEMICOLON] + t[1..]) == MODIFY_PREFIX + t[1..];
  }

  lemma ShadowedRefused(e: Encoding, rest: seq<Byte>)
    requires EncodingOk(e) && !e.ModifyOther? && MODIFY_PREFIX <= Body(e, rest)
    ensures ModifyOtherKeys(Body(e, rest)) == CsiNo
  {
    var end := [LETTER_U] + rest;
    match e
    case Kitty1(key) => KeyIsEscape(key, end);
    case Kitty2(key, mods) =>
      KeyIsEscape(key, [SEMICOLON] + PrintField(mods, end));
      Drop([SEMICOLON], PrintField(mods, end));
      AfterMods(mods, end);
      NoTildeRefused(PrintField(mods, end));
    case Kitty3(key, mods, text) =>
      var t := [SEMICOLON] + PrintField(text, end);
      KeyIsEscape(key, [SEMICOLON] + PrintField(mods, t));
      Drop([SEMICOLON], PrintField(mods, t));
      AfterText(text, rest);
      AfterMods(mods, t);
      NoTildeRefused(PrintField(mods, t));
  }

  lemma CsiDecides(e: Encoding, rest: seq<Byte>)
    requires EncodingOk(e)
    ensures CsiPrintable(Body(e, rest)) == Verdict(Meaning(e), rest)
  {
    BodyAppend(e, rest);
    if e.ModifyOther? {
      ModifyDecided(e.mods, e.code, rest);
    } else if Shadowed(e) {
      ShadowedRefused(e, rest);
    } else {
      KittyDecided(e, rest);
      NotPrefix(e, rest);
    }
  }

  lemma RenderThen(e: Encoding, rest: seq<Byte>)
    ensures Render(e) + rest == [ESC, BRACKET] + Body(e, rest)
    ensures (Render(e) + rest)[2..] == Body(e, rest)
  {
    BodyAppend(e, rest);
    Assoc([ESC, BRACKET], Body(e, []), rest);
    Drop([ESC, BRACKET], Body(e, rest));
  }

  /**
   Every sequence of the grammar is decided as soon as it is complete, whatever follows: it
   is read as its meaning, or passed on if it has none.
   */
  lemma ScanDecides(e: Encoding, rest: seq<Byte>)
    requires EncodingOk(e)
    ensures Scan(Render(e) + rest, false)
            == match Meaning(e) case Some(b) => Ascii(|Render(e)|, b) case None => Forward(1)
  {
    RenderThen(e, rest);
    CsiDecides(e, rest);
  }

  /** A kitty report ends in a letter, so it is never the beginning of `27;`. */
  lemma NotPrefix(e: Encoding, rest: seq<Byte>)
    requires EncodingOk(e) && !e.ModifyOther? && !Shadowed(e)
    ensures !(MODIFY_PREFIX <= Body(e, rest)) && !(Body(e, rest) <= MODIFY_PREFIX)
  {
    var b := Body(e, []);
    BodyAppend(e, rest);
    EndsInU(e);
    if |b| < 3 {
      assert (b + rest)[|b| - 1] == LETTER_U;
    } else {
      var k :| 0 <= k < 3 && b[k] != MODIFY_PREFIX[k];
      assert (b + rest)[k] == b[k];
    }
  }

  lemma EndsInU(e: Encoding)
    requires !e.ModifyOther?
    ensures var b := Body(e, []); b[|b| - 1] == LETTER_U
  {
    var end := [LETTER_U] + [];
    match e
    case Kitty1(key) => FieldLast(key, end);
    case Kitty2(key, mods) =>
      FieldLast(mods, end);
      FieldLast(key, [SEMICOLON] + PrintField(mods, end));
    case Kitty3(key, mods, text) =>
      FieldLast(text, end);
      FieldLast(mods, [SEMICOLON] + PrintField(text, end));
      FieldLast(key, [SEMICOLON] + PrintField(mods, [SEMICOLON] + PrintField(text, end)));
  }

  lemma FieldLast(f: Field, t: seq<Byte>)
    requires t != []
    ensures var p := PrintField(f, t); p[|p| - 1] == t[|t| - 1]
  {
    FieldAppend(f, [], t);
    assert [] + t == t;
  }

  // Only the grammar is accepted.

  lemma {:induction false} DigitsSplit(s: seq<Byte>)
    ensures s == Digits(s) + s[|Digits(s)|..]
    decreases |s|
  {
    if s != [] && IsDigit(s[0]) {
      DigitsSplit(s[1..]);
      var d := Digits(s[1..]);
      assert s[1..][|d|..] == s[|d| + 1..];
      assert s == [s[0]] + s[1..];
    } else {
      assert s == [] + s[0..];
    }
  }

  lemma NumberSound(s: seq<Byte>) returns (d: seq<Byte>)
    requires ScanNumber(s).NumOk?
    ensures Numeral(d) && s == d + ScanNumber(s).rest && Number(d) == ScanNumber(s).n
  {
    d := Digits(s);
    DigitsSplit(s);
  }

  lemma Head(s: seq<Byte>)
    requires s != []
    ensures s == [s[0]] + s[1..]
  {
  }

  lemma {:induction false} ColonsSound(s: seq<Byte>) returns (subs: seq<seq<Byte>>)
    requires SkipColons(s).ColonAt?
    ensures s == PrintSubs(subs, SkipColons(s).rest)
    ensures forall j :: 0 <= j < |subs| ==> Numeral(subs[j])
    decreases |s|
  {
    if s != [] && s[0] == COLON {
      var d := NumberSound(s[1..]);
      var tail := ColonsSound(ScanNumber(s[1..]).rest);
      subs := [d] + tail;
      assert subs[1..] == tail;
      Head(s);
    } else {
      subs := [];
    }
  }

  lemma FieldSound(s: seq<Byte>) returns (f: Field)
    requires ScanField(s).NumOk?
    ensures FieldOk(f) && s == PrintField(f, ScanField(s).rest)
    ensures ScanField(s).n == Number(f.num)
  {
    var d := NumberSound(s);
    var subs := ColonsSound(ScanNumber(s).rest);
    f := Field(d, subs);
  }

  lemma ModifySound(s: seq<Byte>) returns (e: Encoding)
    requires ModifyOtherKeys(s).CsiAscii?
    ensures EncodingOk(e) && s == Body(e, ModifyOtherKeys(s).rest)
    ensures Meaning(e) == Some(ModifyOtherKeys(s).byte)
  {
    var mods := NumberSound(s[3..]);
    var t := ScanNumber(s[3..]).rest;
    var code := NumberSound(t[1..]);
    var u := ScanNumber(t[1..]).rest;
    e := ModifyOther(mods, code);
    Head(t);
    Head(u);
    assert s == MODIFY_PREFIX + s[3..];
  }

  lemma KittyTextSound(key: Field, mods: Field, u: seq<Byte>) returns (text: Field)
    requires FieldOk(key) && FieldOk(mods) && u != [] && u[0] == SEMICOLON
    requires KittyText(u, Number(key.num), Number(mods.num)).CsiAscii?
    ensures var r := KittyText(u, Number(key.num), Number(mods.num));
            && FieldOk(text) && u == [SEMICOLON] + PrintField(text, [LETTER_U] + r.rest)
            && Typed(Number(key.num), Number(mods.num), Some(Number(text.num))) == Some(r.byte)
  {
    text := FieldSound(u[1..]);
    Head(u);
    Head(ScanField(u[1..]).rest);
    TypedIsKittyByte(Number(key.num), Number(mods.num), Some(Number(text.num)));
  }

  lemma KittyModsSound(key: Field, t: seq<Byte>) returns (e: Encoding)
    requires FieldOk(key) && t != [] && t[0] == SEMICOLON && KittyMods(t, Number(key.num)).CsiAscii?
    ensures var r := KittyMods(t, Number(key.num));
            && (e.Kitty2? || e.Kitty3?) && EncodingOk(e) && Body(e, r.rest) == PrintField(key, t)
            && (!Shadowed(e) ==> Meaning(e) == Some(r.byte))
  {
    var mods := FieldSound(t[1..]);
    var u := ScanField(t[1..]).rest;
    Head(t);
    Head(u);
    if u[0] != SEMICOLON {
      e := Kitty2(key, mods);
      TypedIsKittyByte(Number(key.num), Number(mods.num), None);
    } else {
      var text := KittyTextSound(key, mods, u);
      e := Kitty3(key, mods, text);
    }
  }

  lemma KittySound(s: seq<Byte>) returns (e: Encoding)
    requires KittyPrintable(s).CsiAscii? && !(MODIFY_PREFIX <= s)
    ensures EncodingOk(e) && s == Body(e, KittyPrintable(s).rest)
    ensures Meaning(e) == Some(KittyPrintable(s).byte)
  {
    var key := FieldSound(s);
    var t := ScanField(s).rest;
    Head(t);
    if t[0] != SEMICOLON {
      e := Kitty1(key);
      TypedIsKittyByte(Number(key.num), 1, None);
    } else {
      e := KittyModsSound(key, t);
    }
    NotShadowed(e, s, KittyPrintable(s).rest);
  }

  lemma NotShadowed(e: Encoding, s: seq<Byte>, t: seq<Byte>)
    requires s == Body(e, t) && !(MODIFY_PREFIX <= s)
    ensures !Shadowed(e)
  {
    BodyAppend(e, t);
  }

  /** Soundness: whatever the scanner collapses is an encoding of the byte it gives. */
  lemma ScanSound(buf: seq<Byte>, capped: bool)
    requires buf != [] && Scan(buf, capped).Ascii?
    ensures Encodes(buf[..Scan(buf, capped).consumed], Scan(buf, capped).byte)
  {
    var s := buf[2..];
    var r := Scan(buf, capped);
    var e: Encoding;
    if MODIFY_PREFIX <= s || s <= MODIFY_PREFIX {
      e := ModifySound(s);
    } else {
      e := KittySound(s);
    }
    RenderIsPrefix(buf, e, CsiPrintable(s).rest);
    assert EncodingOk(e) && Render(e) == buf[..r.consumed] && Meaning(e) == Some(r.byte);
  }

  lemma RenderIsPrefix(buf: seq<Byte>, e: Encoding, t: seq<Byte>)
    requires |buf| >= 2 && buf[0] == ESC && buf[1] == BRACKET && buf[2..] == Body(e, t)
    ensures |t| <= |buf| && buf[..|buf| - |t|] == Render(e)
  {
    BodyAppend(e, t);
    Assoc([ESC, BRACKET], Body(e, []), t);
    assert buf == [ESC, BRACKET] + buf[2..];
    assert buf == Render(e) + t;
  }

  /** The scanner and the grammar agree both ways on what a complete key is. */
  lemma ScanIsGrammar(buf: seq<Byte>, n: nat, b: Byte)
    requires buf != []
    ensures Scan(buf, false) == Ascii(n, b) <==> n <= |buf| && Encodes(buf[..n], b)
  {
    if Scan(buf, false) == Ascii(n, b) {
      ScanSound(buf, false);
    }
    if n <= |buf| && Encodes(buf[..n], b) {
      EncodedIsScanned(buf, n, b);
    }
  }

  lemma EncodedIsScanned(buf: seq<Byte>, n: nat, b: Byte)
    requires buf != [] && n <= |buf| && Encodes(buf[..n], b)
    ensures Scan(buf, false) == Ascii(n, b)
  {
    var e :| EncodingOk(e) && Render(e) == buf[..n] && Meaning(e) == Some(b);
    ScanDecides(e, buf[n..]);
    assert buf == buf[..n] + buf[n..];
  }

  // Shift, for the encodings that carry the unshifted key.

  predicate Moved(key: Byte) {
    ApplyShift(key) != key
  }

  /** The key that a shifted symbol is on; every other byte is its own. */
  function Unshift(b: Byte): (key: Byte) {
    if 65 <= b <= 90 then b + 32
    else match b
      case 33 => 49
      case 64 => 50
      case 35 => 51
      case 36 => 52
      case 37 => 53
      case 94 => 54
      case 38 => 55
      case 42 => 56
      case 40 => 57
      case 41 => 48
      case 126 => 96
      case 95 => 45
      case 43 => 61
      case 123 => 91
      case 125 => 93
      case 124 => 92
      case 58 => 59
      case 34 => 39
      case 60 => 44
      case 62 => 46
      case 63 => 47
      case _ => b
  }

  /** A key that Shift moves can be told from what it became. */
  lemma ShiftUndone(key: Byte)
    ensures Moved(key) ==> Unshift(ApplyShift(key)) == key
  {
  }

  lemma UnshiftUndone(b: Byte)
    ensures Unshift(b) != b ==> Moved(Unshift(b)) && ApplyShift(Unshift(b)) == b
  {
  }

  /** Shifting twice is shifting once. */
  lemma ShiftSettles(key: Byte)
    ensures !Moved(ApplyShift(key))
  {
  }

  /**
   Shift pairs up the printing characters: each but the space is either the plain
   symbol of a key or the shifted symbol of exactly one, and never both.
   */
  lemma ShiftPairsUp(b: Byte)
    requires Printable(b) && b != 32
    ensures Moved(b) <==> forall key: Byte :: Moved(key) ==> ApplyShift(key) != b
    ensures forall k: Byte, l: Byte :: Moved(k) && Moved(l) && ApplyShift(k) == ApplyShift(l) ==> k == l
  {
    forall k: Byte, l: Byte | Moved(k) && Moved(l) && ApplyShift(k) == ApplyShift(l) ensures k == l {
      ShiftUndone(k);
      ShiftUndone(l);
    }
    if Moved(b) {
      forall key: Byte | Moved(key) ensures ApplyShift(key) != b {
        ShiftSettles(key);
      }
    } else {
      PlainIsShifted(b);
      UnshiftUndone(b);
    }
  }

  lemma PlainIsShifted(b: Byte)
    requires Printable(b) && b != 32 && !Moved(b)
    ensures Unshift(b) != b
  {
  }

  // The keyboard, row by row.

  const PLAIN_KEYS := "`1234567890-=[]\\;',./"
  const SHIFTED_KEYS := "~!@#$%^&*()_+{}|:\"<>?"

  /** The key of the rows with this code, if there is one. */
  predicate OnRows(key: Byte) {
    exists i :: 0 <= i < |PLAIN_KEYS| && PLAIN_KEYS[i] as int == key
  }

  lemma RowsShift(i: nat)
    requires i < |PLAIN_KEYS|
    ensures |SHIFTED_KEYS| == |PLAIN_KEYS| && PLAIN_KEYS[i] as int < 128
    ensures ApplyShift(PLAIN_KEYS[i] as int) == SHIFTED_KEYS[i] as int
  {
  }

  lemma RowsComplete(key: Byte)
    requires ApplyShift(key) != key && !(97 <= key <= 122)
    ensures OnRows(key)
  {
    var i := if key == 96 then 0 else if key == 48 then 10 else if 49 <= key <= 57 then key - 48
             else if key == 45 then 11 else if key == 61 then 12 else if key == 91 then 13 else if key == 93 then 14
             else if key == 92 then 15 else if key == 59 then 16 else if key == 39 then 17 else if key == 44 then 18
             else if key == 46 then 19 else 20;
    assert PLAIN_KEYS[i] as int == key;
  }

  /** Shift puts a letter in upper case and turns the other keys of a US keyboard into what is printed above them. */
  lemma ShiftIsKeyboard(key: Byte)
    ensures 97 <= key <= 122 ==> ApplyShift(key) == key - 32
    ensures forall i :: 0 <= i < |PLAIN_KEYS| && PLAIN_KEYS[i] as int == key ==>
              i < |SHIFTED_KEYS| && ApplyShift(key) == SHIFTED_KEYS[i] as int
    ensures !(97 <= key <= 122) && !OnRows(key) ==> ApplyShift(key) == key
  {
    forall i | 0 <= i < |PLAIN_KEYS| && PLAIN_KEYS[i] as int == key
      ensures i < |SHIFTED_KEYS| && ApplyShift(key) == SHIFTED_KEYS[i] as int
    {
      RowsShift(i);
    }
    if !(97 <= key <= 122) && ApplyShift(key) != key { RowsComplete(key); }
  }

  // Kitty reports with plain numbers.

  function Numbered(n: nat): (f: Field) {
    Field(Print(n), [])
  }

  /** `ESC[key;mods u`, with the modifiers left out or a text added. */
  function KittyReport(key: nat, mods: Option<nat>, text: Option<nat>): (s: seq<Byte>) {
    [ESC, BRACKET] + Print(key)
    + (match mods case None => [] case Some(m) => [SEMICOLON] + Print(m))
    + (match (mods, text) case (Some(_), Some(t)) => [SEMICOLON] + Print(t) case _ => [])
    + [LETTER_U]
  }

  function Report(key: nat, mods: Option<nat>, text: Option<nat>): (e: Encoding) {
    if mods.None? then Kitty1(Numbered(key))
    else if text.None? then Kitty2(Numbered(key), Numbered(mods.value))
    else Kitty3(Numbered(key), Numbered(mods.value), Numbered(text.value))
  }

  predicate Short(n: nat) {
    n < 100_000_000
  }

  lemma NumberedOk(n: nat)
    requires Short(n)
    ensures FieldOk(Numbered(n)) && Number(Print(n)) == n
  {
    PrintRoundTrip(n);
    assert Pow10(8) == 100_000_000;
    PrintFits(n, 8);
  }

  lemma ReportIs(key: nat, mods: Option<nat>, text: Option<nat>)
    ensures Render(Report(key, mods, text)) == KittyReport(key, mods, text)
  {
  }

  predicate ReportShort(key: nat, mods: Option<nat>, text: Option<nat>) {
    Short(key) && (mods.Some? ==> Short(mods.value)) && (text.Some? ==> Short(text.value))
  }

  lemma ReportMeans(key: nat, mods: Option<nat>, text: Option<nat>)
    requires ReportShort(key, mods, text) && key != 27
    ensures EncodingOk(Report(key, mods, text))
    ensures Meaning(Report(key, mods, text))
            == match mods case None => Typed(key, 1, None) case Some(m) => Typed(key, m, text)
  {
    NumberedOk(key);
    if mods.Some? { NumberedOk(mods.value); }
    if mods.Some? && text.Some? { NumberedOk(text.value); }
    var e := Report(key, mods, text);
    if Shadowed(e) {
      ReportNotShadowed(key, e);
    }
  }

  /** What comes after the key. */
  function AfterKey(e: Encoding): (t: seq<Byte>)
    requires !e.ModifyOther?
  {
    match e
    case Kitty1(_) => [LETTER_U]
    case Kitty2(_, mods) => [SEMICOLON] + PrintField(mods, [LETTER_U])
    case Kitty3(_, mods, text) => [SEMICOLON] + PrintField(mods, [SEMICOLON] + PrintField(text, [LETTER_U]))
  }

  lemma BodyOfKey(e: Encoding)
    requires !e.ModifyOther?
    ensures Body(e, []) == PrintField(e.key, AfterKey(e)) && Ends(AfterKey(e))
  {
    assert [LETTER_U] + [] == [LETTER_U];
  }

  lemma ReportNotShadowed(key: nat, e: Encoding)
    requires !e.ModifyOther? && e.key == Numbered(key) && Shadowed(e)
    ensures key == 27
  {
    PrintRoundTrip(key);
    BodyOfKey(e);
    NumeralBeforeSemicolon(Print(key), AfterKey(e));
    assert [50, 55][..1] == [50] && [50][..0] == [];
    assert Number([50]) == 2 && Number([50, 55]) == 27;
  }

  /**
   A kitty report of any key but 27, whatever follows it: without modifiers, or with 1, the
   key types itself; with 2, itself shifted; a text types itself under either; and with any
   other modifier, or when what it would type is not printable, the report is passed on.
   */
  lemma KittyTypes(key: nat, mods: Option<nat>, text: Option<nat>, rest: seq<Byte>)
    requires ReportShort(key, mods, text) && key != 27 && (mods.None? ==> text.None?)
    ensures var s := KittyReport(key, mods, text);
            var plain, shifted := mods == None || mods == Some(1), mods == Some(2);
            && (text.None? && plain && Printable(key) ==> Scan(s + rest, false) == Ascii(|s|, key))
            && (text.None? && shifted && Printable(key) ==> Scan(s + rest, false) == Ascii(|s|, ApplyShift(key)))
            && (text.Some? && (plain || shifted) && Printable(text.value) ==>
                  Scan(s + rest, false) == Ascii(|s|, text.value))
            && (!plain && !shifted ==> Scan(s + rest, false) == Forward(1))
            && (!Printable(if text.Some? then text.value else key) ==> Scan(s + rest, false) == Forward(1))
  {
    ReportMeans(key, mods, text);
    ReportIs(key, mods, text);
    ScanDecides(Report(key, mods, text), rest);
  }
}
