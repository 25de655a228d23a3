/** Replacing one request header in a buffered request, without touching the rest. */
module HeaderRewrite {
  import opened Bytes
  import opened Options
  import opened Hostnames
  import opened HeaderLines
  import Utf8

  /** Every line decoded by itself. */
  function Decoded(decode: Text -> Text, lines: seq<Text>): (r: seq<Text>)
    ensures |r| == |lines|
  {
    seq(|lines|, i requires 0 <= i < |lines| => decode(lines[i]))
  }

  /** A decoder that works line by line: it keeps each CRLF and makes no new ones. */
  ghost predicate LineByLine(decode: Text -> Text) {
    && (forall l: Text, t: Text :: decode(Ended(l, t)) == Ended(decode(l), decode(t)))
    && (forall l: Text :: NoCrlf(l) ==> NoCrlf(decode(l)))
    && (forall l: Text :: decode(l) == [] <==> l == [])
  }

  lemma {:induction false} LossyNoCrlf(l: Text)
    requires NoCrlf(l)
    ensures NoCrlf(Utf8.Lossy(l))
    decreases |l|
  {
    if l != [] {
      if l[0] < 128 {
        LossyNoCrlf(l[1..]);
        Utf8.FirstByte(l);
        if |l| > 1 { Utf8.FirstByte(l[1..]); }
      } else {
        FirstNoCrlf(l);
        LossyNoCrlf(l[Utf8.Matched(l)..]);
      }
    }
  }

  /** What a byte that is not ASCII starts is decoded without ASCII. */
  lemma FirstNoCrlf(l: Text)
    requires l != [] && l[0] >= 128
    ensures Utf8.NoAscii(Utf8.First(l))
  {
  }

  /** Lossy UTF-8 is one. */
  lemma LossyLineByLine()
    ensures LineByLine(Utf8.Lossy)
  {
    forall l: Text, t: Text ensures Utf8.Lossy(Ended(l, t)) == Ended(Utf8.Lossy(l), Utf8.Lossy(t)) {
      Utf8.AroundTwo(l, CR, LF, t);
    }
    forall l: Text | NoCrlf(l) ensures NoCrlf(Utf8.Lossy(l)) { LossyNoCrlf(l); }
    forall l: Text ensures Utf8.Lossy(l) == [] <==> l == [] { Utf8.EmptyIff(l); }
  }

  lemma {:induction false} LineNone(s: Text)
    ensures Line(s).None? <==> NoCrlf(s)
    decreases |s|
  {
    if |s| >= 2 {
      if StartsCrlf(s) {
        assert s[0] == CR && s[1] == LF;
      } else {
        LineNone(s[1..]);
        if NoCrlf(s[1..]) {
          forall i | 0 <= i < |s| - 1 ensures !(s[i] == CR && s[i + 1] == LF) {
            if i > 0 { assert s[1..][i - 1] == s[i] && s[1..][i] == s[i + 1]; }
          }
        }
      }
    }
  }

  /** Decoding and splitting commute. */
  lemma {:induction false} SplitDecoded(decode: Text -> Text, s: Text)
    requires LineByLine(decode)
    ensures SplitLines(decode(s)) == Decoded(decode, SplitLines(s))
    decreases |s|
  {
    LineNone(s);
    if Line(s).None? {
      LineNone(decode(s));
    } else {
      var (l, t) := Line(s).value;
      LineShortens(s);
      EndedOfLine(s);
      LineOfEnded(decode(l), decode(t));
      SplitDecoded(decode, t);
      assert [decode(l)] + Decoded(decode, SplitLines(t)) == Decoded(decode, [l] + SplitLines(t));
    }
  }

  lemma DecodedOk(decode: Text -> Text, lines: seq<Text>)
    requires LineByLine(decode) && LinesOk(lines)
    ensures LinesOk(Decoded(decode, lines))
  {
    forall i | 0 <= i < |lines| ensures LineOk(Decoded(decode, lines)[i]) { assert LineOk(lines[i]); }
  }

  /** The line carries this header, in any case. */
  predicate Carries(line: Text, name: Text) {
    |line| >= |name| + 1 && Lower(line[..|name| + 1]) == Lower(name + [COLON])
  }

  function NewLine(name: Text, value: Text): (l: Text) {
    name + [COLON, 32] + value
  }

  /** What the loop writes for these pieces: it stops at the first empty one. */
  function Emit(pieces: seq<Text>, name: Text, value: Text): (out: Text) {
    if pieces == [] then []
    else if pieces[0] == [] then Ended(NewLine(name, value), [CR, LF])
    else if Carries(pieces[0], name) then Emit(pieces[1..], name, value)
    else Ended(pieces[0], Emit(pieces[1..], name, value))
  }

  function HeadAndBody(buf: Text): (r: (Text, Text)) {
    match Cut(buf) case Some(p) => p case None => (buf, [])
  }

  function Rewritten(buf: Text, name: Text, value: Text): (out: Text) {
    var (head, body) := HeadAndBody(buf);
    Emit(SplitLines(Utf8.Lossy(head)), name, value) + body
  }

  /** One turn of the loop. */
  lemma EmitStep(out: Text, pieces: seq<Text>, i: nat, name: Text, value: Text)
    requires i < |pieces|
    ensures var line := pieces[i];
            out + Emit(pieces[i..], name, value)
            == if line == [] then out + name + [COLON, 32] + value + [CR, LF, CR, LF]
               else if Carries(line, name) then out + Emit(pieces[i + 1..], name, value)
               else out + line + [CR, LF] + Emit(pieces[i + 1..], name, value)
  {
    var line, rest := pieces[i], Emit(pieces[i + 1..], name, value);
    assert pieces[i..][1..] == pieces[i + 1..];
    assert out + (line + ([CR, LF] + rest)) == out + line + [CR, LF] + rest;
    assert out + (name + [COLON, 32] + value + ([CR, LF] + [CR, LF]))
            == out + name + [COLON, 32] + value + [CR, LF, CR, LF];
  }

  method SetOrReplaceHeader(buf: Text, name: Text, value: Text) returns (out: Text)
    ensures out == Rewritten(buf, name, value)
  {
    var (head, body) := HeadAndBody(buf);
    var pieces := SplitLines(Utf8.Lossy(head));
    out := [];
    var i := 0;
    while i < |pieces|
      invariant i <= |pieces|
      invariant out + Emit(pieces[i..], name, value) == Emit(pieces, name, value)
    {
      var line := pieces[i];
      EmitStep(out, pieces, i, name, value);
      if line == [] {
        out := out + name + [COLON, 32] + value + [CR, LF, CR, LF];
        return out + body;
      }
      if Carries(line, name) {
        i := i + 1;
        continue;
      }
      out := out + line + [CR, LF];
      i := i + 1;
    }
    assert pieces[|pieces|..] == [];
    assert out + [] == out;
    return out + body;
  }

  /** The lines that stay. */
  function Others(lines: seq<Text>, name: Text): (r: seq<Text>) {
    if lines == [] then []
    else if Carries(lines[0], name) then Others(lines[1..], name)
    else [lines[0]] + Others(lines[1..], name)
  }

  lemma {:induction false} EmitJoin(lines: seq<Text>, name: Text, value: Text)
    requires LinesOk(lines)
    ensures Emit(lines + [[], []], name, value) == Join(Others(lines, name) + [NewLine(name, value)], [CR, LF])
  {
    if lines == [] {
      assert (lines + [[], []])[0] == [];
      assert [] + [NewLine(name, value)] == [NewLine(name, value)];
    } else {
      var all := lines + [[], []];
      assert LineOk(lines[0]);
      assert all[0] == lines[0] && all[1..] == lines[1..] + [[], []];
      EmitJoin(lines[1..], name, value);
      if !Carries(lines[0], name) {
        var rest := Others(lines[1..], name) + [NewLine(name, value)];
        assert Others(lines, name) + [NewLine(name, value)] == [lines[0]] + rest;
      }
    }
  }

  lemma {:induction false} JoinBody(lines: seq<Text>, t: Text, body: Text)
    ensures Join(lines, t) + body == Join(lines, t + body)
  {
    if lines != [] {
      JoinBody(lines[1..], t, body);
      var l, u := lines[0], Join(lines[1..], t);
      assert l + ([CR, LF] + u) + body == l + ([CR, LF] + (u + body));
    }
  }

  lemma {:induction false} OthersOk(lines: seq<Text>, name: Text)
    requires LinesOk(lines)
    ensures LinesOk(Others(lines, name))
  {
    if lines != [] {
      assert LineOk(lines[0]);
      OthersOk(lines[1..], name);
    }
  }

  /** A request as it should arrive: an empty line somewhere, and not at the start. */
  predicate Proper(buf: Text) {
    Cut(buf).Some? && !StartsCrlf(buf)
  }

  /** The lines a request is read as. */
  function Read(buf: Text): (lines: seq<Text>)
    requires Proper(buf)
  {
    Decoded(Utf8.Lossy, Lines(buf))
  }

  lemma DecodedEmpties(decode: Text -> Text, lines: seq<Text>)
    requires LineByLine(decode)
    ensures Decoded(decode, lines + [[], []]) == Decoded(decode, lines) + [[], []]
  {
  }

  lemma ReadOk(buf: Text)
    requires Proper(buf)
    ensures LinesOk(Read(buf)) && Read(buf) != []
    ensures SplitLines(Utf8.Lossy(HeadAndBody(buf).0)) == Read(buf) + [[], []]
  {
    var lines := Lines(buf);
    LinesJoin(buf);
    CutJoin(lines, Cut(buf).value.1);
    SplitJoin(lines);
    LossyLineByLine();
    DecodedOk(Utf8.Lossy, lines);
    SplitDecoded(Utf8.Lossy, Join(lines, [CR, LF]));
    DecodedEmpties(Utf8.Lossy, lines);
  }

  /** The rewritten request: the other lines in order, then the new line; the body byte for byte. */
  lemma RewriteLines(buf: Text, name: Text, value: Text)
    requires Proper(buf) && NoCrlf(NewLine(name, value))
    ensures var out := Rewritten(buf, name, value);
            && Proper(out)
            && Lines(out) == Others(Read(buf), name) + [NewLine(name, value)]
            && Cut(out).value.1 == Cut(buf).value.1
            && out == Join(Others(Read(buf), name) + [NewLine(name, value)], [CR, LF] + Cut(buf).value.1)
  {
    var lines, body := Read(buf), Cut(buf).value.1;
    ReadOk(buf);
    EmitJoin(lines, name, value);
    var all := Others(lines, name) + [NewLine(name, value)];
    JoinBody(all, [CR, LF], body);
    OthersOk(lines, name);
    assert LinesOk(all);
    LinesOfJoin(all, body);
    CutJoin(all, body);
  }

  predicate IsAscii(s: Text) {
    forall i :: 0 <= i < |s| ==> s[i] < 128
  }

  /** ASCII bytes at the start come through, and nothing else looks like them. */
  ghost predicate ByteByByte(decode: Text -> Text) {
    && decode([]) == []
    && forall s: Text :: s != [] ==>
         if s[0] < 128 then decode(s) == [s[0]] + decode(s[1..]) else decode(s) != [] && decode(s)[0] >= 128
  }

  lemma LossyByteByByte()
    ensures ByteByByte(Utf8.Lossy)
  {
    forall s: Text | s != []
      ensures if s[0] < 128 then Utf8.Lossy(s) == [s[0]] + Utf8.Lossy(s[1..])
              else Utf8.Lossy(s) != [] && Utf8.Lossy(s)[0] >= 128
    {
      Utf8.FirstByte(s);
    }
  }

  lemma {:induction false} PrefixKept(decode: Text -> Text, l: Text, k: nat)
    requires ByteByByte(decode) && k <= |l| && IsAscii(l[..k])
    ensures |decode(l)| >= k && decode(l)[..k] == l[..k]
    decreases k
  {
    if k > 0 {
      assert l[..k][0] == l[0];
      assert l[1..][..k - 1] == l[..k][1..];
      PrefixKept(decode, l[1..], k - 1);
      assert l[..k] == [l[0]] + l[1..][..k - 1];
    }
  }

  lemma {:induction false} PrefixMeant(decode: Text -> Text, l: Text, k: nat)
    requires ByteByByte(decode) && k <= |decode(l)| && IsAscii(decode(l)[..k])
    ensures |l| >= k && l[..k] == decode(l)[..k]
    decreases k
  {
    if k > 0 {
      var d := decode(l);
      assert d[..k][0] == d[0];
      var e := decode(l[1..]);
      assert e[..k - 1] == d[..k][1..];
      PrefixMeant(decode, l[1..], k - 1);
      assert l[..k] == [l[0]] + l[1..][..k - 1];
    }
  }

  lemma LowerAscii(s: Text, t: Text)
    requires Lower(s) == Lower(t) && IsAscii(t)
    ensures IsAscii(s)
  {
    forall i | 0 <= i < |s| ensures s[i] < 128 {
      assert Lower(s)[i] == LowerByte(s[i]) && Lower(t)[i] == LowerByte(t[i]);
    }
  }

  /** The decoder neither hides this header nor makes one up. */
  ghost predicate Transparent(decode: Text -> Text, name: Text) {
    forall l: Text :: Carries(decode(l), name) <==> Carries(l, name)
  }

  lemma AsciiTransparent(decode: Text -> Text, name: Text)
    requires ByteByByte(decode) && IsAscii(name)
    ensures Transparent(decode, name)
  {
    var k := |name| + 1;
    forall l: Text ensures Carries(decode(l), name) <==> Carries(l, name) {
      if Carries(l, name) {
        LowerAscii(l[..k], name + [COLON]);
        PrefixKept(decode, l, k);
      }
      if Carries(decode(l), name) {
        LowerAscii(decode(l)[..k], name + [COLON]);
        PrefixMeant(decode, l, k);
      }
    }
  }

  lemma {:induction false} OthersDecoded(decode: Text -> Text, lines: seq<Text>, name: Text)
    requires Transparent(decode, name)
    ensures Others(Decoded(decode, lines), name) == Decoded(decode, Others(lines, name))
    decreases |lines|
  {
    if lines != [] {
      OthersDecoded(decode, lines[1..], name);
      assert Decoded(decode, lines)[1..] == Decoded(decode, lines[1..]);
      var rest := Others(lines[1..], name);
      assert Decoded(decode, [lines[0]] + rest) == [decode(lines[0])] + Decoded(decode, rest);
    }
  }

  /** For an ASCII name, what stays is exactly the client's lines that do not carry the header, each decoded. */
  lemma KeptLines(buf: Text, name: Text, value: Text)
    requires Proper(buf) && NoCrlf(NewLine(name, value)) && IsAscii(name)
    ensures var out := Rewritten(buf, name, value);
            Proper(out) && Lines(out) == Decoded(Utf8.Lossy, Others(Lines(buf), name)) + [NewLine(name, value)]
  {
    RewriteLines(buf, name, value);
    LossyByteByByte();
    AsciiTransparent(Utf8.Lossy, name);
    OthersDecoded(Utf8.Lossy, Lines(buf), name);
  }

  /** How many lines carry the header. */
  function Count(lines: seq<Text>, name: Text): (n: nat) {
    if lines == [] then 0 else Count(lines[1..], name) + (if Carries(lines[0], name) then 1 else 0)
  }

  lemma NewLineCarries(name: Text, value: Text)
    ensures Carries(NewLine(name, value), name)
  {
    assert NewLine(name, value)[..|name| + 1] == name + [COLON];
  }

  lemma {:induction false} CountOthers(lines: seq<Text>, name: Text, value: Text)
    ensures Count(Others(lines, name) + [NewLine(name, value)], name) == 1
  {
    if lines == [] {
      NewLineCarries(name, value);
      assert [NewLine(name, value)][1..] == [];
    } else {
      CountOthers(lines[1..], name, value);
      if !Carries(lines[0], name) {
        var rest := Others(lines[1..], name) + [NewLine(name, value)];
        assert Others(lines, name) + [NewLine(name, value)] == [lines[0]] + rest;
        assert ([lines[0]] + rest)[1..] == rest;
      }
    }
  }

  /** Exactly one line carries the header afterwards, whatever bytes the client sent. */
  lemma ExactlyOne(buf: Text, name: Text, value: Text)
    requires Proper(buf) && NoCrlf(NewLine(name, value))
    ensures var out := Rewritten(buf, name, value); Proper(out) && Count(Lines(out), name) == 1
  {
    RewriteLines(buf, name, value);
    CountOthers(Read(buf), name, value);
  }

  lemma {:induction false} OthersAgain(lines: seq<Text>, name: Text, value: Text)
    ensures Others(Others(lines, name) + [NewLine(name, value)], name) == Others(lines, name)
  {
    if lines == [] {
      NewLineCarries(name, value);
      assert [NewLine(name, value)][1..] == [];
    } else {
      OthersAgain(lines[1..], name, value);
      if !Carries(lines[0], name) {
        var rest := Others(lines[1..], name) + [NewLine(name, value)];
        assert Others(lines, name) + [NewLine(name, value)] == [lines[0]] + rest;
        assert ([lines[0]] + rest)[1..] == rest;
      }
    }
  }

  lemma {:induction false} OthersAmong(lines: seq<Text>, name: Text, i: nat)
    requires i < |Others(lines, name)|
    ensures Others(lines, name)[i] in lines
    decreases |lines|
  {
    if Carries(lines[0], name) {
      OthersAmong(lines[1..], name, i);
    } else if i > 0 {
      OthersAmong(lines[1..], name, i - 1);
    }
  }

  lemma DecodedTwice(decode: Text -> Text, lines: seq<Text>, name: Text, last: Text)
    requires decode(last) == last && forall l: Text :: decode(decode(l)) == decode(l)
    ensures var all := Others(Decoded(decode, lines), name) + [last]; Decoded(decode, all) == all
  {
    var all := Others(Decoded(decode, lines), name) + [last];
    forall i | 0 <= i < |all| ensures decode(all[i]) == all[i] {
      if i < |all| - 1 { OthersAmong(Decoded(decode, lines), name, i); }
    }
  }

  /** A rewritten request is read as it is written. */
  lemma ReadsBack(buf: Text, name: Text, value: Text)
    requires Proper(buf) && NoCrlf(NewLine(name, value)) && Utf8.Lossy(NewLine(name, value)) == NewLine(name, value)
    ensures var out := Rewritten(buf, name, value); Proper(out) && Read(out) == Lines(out)
  {
    RewriteLines(buf, name, value);
    forall l: Text ensures Utf8.Lossy(Utf8.Lossy(l)) == Utf8.Lossy(l) { Utf8.LossyTwice(l); }
    DecodedTwice(Utf8.Lossy, Lines(buf), name, NewLine(name, value));
  }

  /** Doing it twice is doing it once. */
  lemma Idempotent(buf: Text, name: Text, value: Text)
    requires Proper(buf) && NoCrlf(NewLine(name, value)) && Utf8.Lossy(NewLine(name, value)) == NewLine(name, value)
    ensures Rewritten(Rewritten(buf, name, value), name, value) == Rewritten(buf, name, value)
  {
    ReadsBack(buf, name, value);
    RewriteLines(buf, name, value);
    RewriteLines(Rewritten(buf, name, value), name, value);
    OthersAgain(Read(buf), name, value);
  }

  /** The line is this header, in any case, with this value. */
  ghost predicate IsHeader(line: Text, name: Text, value: Text) {
    exists n: Text :: line == n + [COLON] + value && Lower(n) == Lower(name)
  }

  lemma PrefixIsName(line: Text, name: Text)
    requires Carries(line, name)
    ensures IsHeader(line, name, line[|name| + 1..])
  {
    var k := |name|;
    var n := line[..k];
    forall i | 0 <= i <= k ensures LowerByte(line[i]) == LowerByte((name + [COLON])[i]) {
      assert Lower(line[..k + 1])[i] == LowerByte(line[i]);
      assert Lower(name + [COLON])[i] == LowerByte((name + [COLON])[i]);
    }
    assert line[k] == COLON;
    assert Lower(n) == Lower(name);
    assert line == n + [COLON] + line[k + 1..];
  }

  /** A line carries a header exactly when it is that name, a colon and some value. */
  lemma CarriesIff(line: Text, name: Text)
    ensures Carries(line, name) <==> exists v: Text :: IsHeader(line, name, v)
    ensures forall v: Text :: IsHeader(line, name, v) ==> |line| > |name| && v == line[|name| + 1..]
  {
    if Carries(line, name) { PrefixIsName(line, name); }
    forall v: Text | IsHeader(line, name, v)
      ensures Carries(line, name) && v == line[|name| + 1..]
    {
      var n: Text :| line == n + [COLON] + v && Lower(n) == Lower(name);
      assert |n| == |name| by { assert |Lower(n)| == |Lower(name)|; }
      assert line[..|name| + 1] == n + [COLON];
      assert Lower(n + [COLON]) == Lower(n) + [COLON] && Lower(name + [COLON]) == Lower(name) + [COLON];
    }
  }

  // The Host header.

  const HOST: Text := Ascii("host:")

  predicate IsHostLine(l: Text) {
    |l| > 5 && Lower(l[..5]) == HOST
  }

  /** The value of the first Host line. */
  function HostIn(lines: seq<Text>, trim: Text -> Text): (r: Option<Text>) {
    if lines == [] then None
    else if IsHostLine(lines[0]) then Some(trim(lines[0][5..]))
    else HostIn(lines[1..], trim)
  }

  function ExtractHost(buf: Text, trim: Text -> Text): (r: Option<Text>) {
    HostIn(SplitLines(Utf8.Lossy(HeadAndBody(buf).0)), trim)
  }

  lemma {:induction false} HostBeforeEmpty(lines: seq<Text>, trim: Text -> Text)
    ensures HostIn(lines + [[], []], trim) == HostIn(lines, trim)
  {
    if lines == [] {
      var two: seq<Text> := [[], []];
      assert lines + two == two;
      assert two[1..][1..] == [];
    } else {
      assert (lines + [[], []])[1..] == lines[1..] + [[], []];
      HostBeforeEmpty(lines[1..], trim);
    }
  }

  lemma HostFromLines(buf: Text, trim: Text -> Text)
    requires Proper(buf)
    ensures ExtractHost(buf, trim) == HostIn(Read(buf), trim)
  {
    ReadOk(buf);
    HostBeforeEmpty(Read(buf), trim);
  }

  lemma HostLineIff(l: Text)
    ensures IsHostLine(l) <==> exists v: Text :: IsHeader(l, Ascii("host"), v) && v != []
    ensures forall v: Text :: IsHeader(l, Ascii("host"), v) ==> |l| > 4 && v == l[5..]
  {
    var name := Ascii("host");
    assert Lower(name + [COLON]) == HOST;
    assert |name| == 4;
    CarriesIff(l, name);
    if IsHostLine(l) {
      PrefixIsName(l, name);
      assert l[5..] != [];
    }
  }

  /** A line that names a host to route by: an empty value is passed over. */
  ghost predicate NamesHost(l: Text, v: Text) {
    IsHeader(l, Ascii("host"), v) && v != []
  }

  ghost predicate FirstHost(lines: seq<Text>, i: nat, v: Text) {
    && i < |lines| && NamesHost(lines[i], v)
    && forall j :: 0 <= j < i ==> !exists w: Text :: NamesHost(lines[j], w)
  }

  /** The host is the trimmed value of the first line that is a Host header with a value. */
  lemma {:induction false} HostIsFirst(lines: seq<Text>, trim: Text -> Text)
    ensures match HostIn(lines, trim)
            case Some(h) => exists i: nat, v: Text :: FirstHost(lines, i, v) && h == trim(v)
            case None => forall i, v: Text :: 0 <= i < |lines| ==> !NamesHost(lines[i], v)
  {
    if lines != [] {
      var l, rest := lines[0], lines[1..];
      HostLineIff(l);
      HostIsFirst(rest, trim);
      if IsHostLine(l) {
        assert NamesHost(l, l[5..]);
        assert FirstHost(lines, 0, l[5..]);
      } else if HostIn(rest, trim).Some? {
        var i: nat, v: Text :| FirstHost(rest, i, v) && HostIn(rest, trim).value == trim(v);
        forall j | 0 <= j < i + 1 ensures !exists w: Text :: NamesHost(lines[j], w) {
          if j > 0 { assert lines[j] == rest[j - 1]; }
        }
        assert lines[i + 1] == rest[i];
        assert FirstHost(lines, i + 1, v);
      } else {
        forall i, v: Text | 0 <= i < |lines| ensures !NamesHost(lines[i], v) {
          if i > 0 { assert lines[i] == rest[i - 1]; }
        }
      }
    }
  }

  lemma {:induction false} CutOtherBody(s: Text, body: Text)
    requires Cut(s).Some?
    ensures Cut(Cut(s).value.0 + body) == Some((Cut(s).value.0, body))
    decreases |s|
  {
    var head := Cut(s).value.0;
    if StartsCrlfCrlf(s) {
      assert (head + body)[..4] == head && (head + body)[4..] == body;
    } else {
      CutOtherBody(s[1..], body);
      var h := Cut(s[1..]).value.0;
      CutStarts(s[1..]);
      assert (head + body)[1..] == h + body;
    }
  }

  lemma {:induction false} CutStarts(s: Text)
    requires Cut(s).Some?
    ensures |Cut(s).value.0| >= 4 && Cut(s).value.0 <= s
    decreases |s|
  {
    if !StartsCrlfCrlf(s) { CutStarts(s[1..]); }
  }

  /** Nothing after the empty line takes part, whatever it says. */
  lemma BodyIgnored(buf: Text, body: Text, trim: Text -> Text)
    requires Cut(buf).Some?
    ensures ExtractHost(Cut(buf).value.0 + body, trim) == ExtractHost(buf, trim)
  {
    CutOtherBody(buf, body);
  }

  /** Only the Host header's lines are Host lines. */
  lemma HostLineIsHost(l: Text, name: Text)
    requires COLON !in name && IsHostLine(l) && Carries(l, name)
    ensures Lower(name) == Ascii("host")
  {
    var k := |name|;
    forall i | 0 <= i < 5 ensures LowerByte(l[i]) == HOST[i] {
      assert Lower(l[..5])[i] == LowerByte(l[i]);
    }
    forall i | 0 <= i <= k ensures LowerByte(l[i]) == LowerByte((name + [COLON])[i]) {
      assert Lower(l[..k + 1])[i] == LowerByte(l[i]);
    }
    assert HOST[0] == 104 && HOST[1] == 111 && HOST[2] == 115 && HOST[3] == 116 && HOST[4] == COLON;
    assert LowerByte(l[k]) == COLON;
    assert k >= 4;
    assert LowerByte(l[4]) == LowerByte((name + [COLON])[4]);
    forall i | 0 <= i < 4 ensures Lower(name)[i] == Ascii("host")[i] {
      assert LowerByte(l[i]) == HOST[i] && LowerByte(l[i]) == LowerByte((name + [COLON])[i]);
      assert (name + [COLON])[i] == name[i];
    }
  }

  lemma {:induction false} HostKept(lines: seq<Text>, name: Text, value: Text, trim: Text -> Text)
    requires COLON !in name && Lower(name) != Ascii("host")
    ensures HostIn(Others(lines, name) + [NewLine(name, value)], trim) == HostIn(lines, trim)
  {
    if lines == [] {
      NewLineCarries(name, value);
      if IsHostLine(NewLine(name, value)) { HostLineIsHost(NewLine(name, value), name); }
      assert [NewLine(name, value)][1..] == [];
    } else {
      HostKept(lines[1..], name, value, trim);
      if Carries(lines[0], name) {
        if IsHostLine(lines[0]) { HostLineIsHost(lines[0], name); }
      } else {
        var rest := Others(lines[1..], name) + [NewLine(name, value)];
        assert Others(lines, name) + [NewLine(name, value)] == [lines[0]] + rest;
        assert ([lines[0]] + rest)[1..] == rest;
      }
    }
  }

  /** Setting any header but Host leaves the host the request is routed by. */
  lemma HostUnchanged(buf: Text, name: Text, value: Text, trim: Text -> Text)
    requires Proper(buf) && NoCrlf(NewLine(name, value)) && Utf8.Lossy(NewLine(name, value)) == NewLine(name, value)
    requires COLON !in name && Lower(name) != Ascii("host")
    ensures ExtractHost(Rewritten(buf, name, value), trim) == ExtractHost(buf, trim)
  {
    ReadsBack(buf, name, value);
    RewriteLines(buf, name, value);
    HostFromLines(buf, trim);
    HostFromLines(Rewritten(buf, name, value), trim);
    HostKept(Read(buf), name, value, trim);
  }

  lemma StartsDecoded(decode: Text -> Text, t: Text)
    requires LineByLine(decode)
    ensures StartsCrlf(decode(Ended([], t)))
  {
    assert decode(Ended([], t)) == Ended(decode([]), decode(t));
    assert decode([]) == [];
  }

  /** A buffer that starts with an empty line loses every header it has. */
  lemma LeadingEmptyLine(buf: Text, name: Text, value: Text)
    requires Cut(buf).Some? && StartsCrlf(buf)
    ensures Rewritten(buf, name, value) == Ended(NewLine(name, value), [CR, LF]) + Cut(buf).value.1
  {
    var head := Cut(buf).value.0;
    assert head == Ended([], head[2..]);
    LossyLineByLine();
    StartsDecoded(Utf8.Lossy, head[2..]);
  }

  lemma {:induction false} EmitWithoutEmpty(pieces: seq<Text>, name: Text, value: Text)
    requires [] !in pieces
    ensures Emit(pieces, name, value) == Join(Others(pieces, name), [])
  {
    if pieces != [] {
      EmitWithoutEmpty(pieces[1..], name, value);
      var rest := Others(pieces[1..], name);
      assert ([pieces[0]] + rest)[1..] == rest;
    }
  }

  lemma {:induction false} EmitUpToEmpty(front: seq<Text>, back: seq<Text>, name: Text, value: Text)
    requires [] !in front && back != [] && back[0] == []
    ensures Emit(front + back, name, value) == Join(Others(front, name) + [NewLine(name, value)], [CR, LF])
  {
    var all := front + back;
    if front == [] {
      assert all == back && Others(front, name) + [NewLine(name, value)] == [NewLine(name, value)];
    } else {
      assert all[0] == front[0] && all[1..] == front[1..] + back;
      EmitUpToEmpty(front[1..], back, name, value);
      if !Carries(front[0], name) {
        var rest := Others(front[1..], name) + [NewLine(name, value)];
        assert Others(front, name) + [NewLine(name, value)] == [front[0]] + rest;
        assert ([front[0]] + rest)[1..] == rest;
      }
    }
  }

  lemma EmptyDecoded(decode: Text -> Text, lines: seq<Text>)
    requires LineByLine(decode)
    ensures [] in Decoded(decode, lines) <==> [] in lines
  {
    var pieces := Decoded(decode, lines);
    forall i | 0 <= i < |lines| ensures pieces[i] == [] <==> lines[i] == [] {
    }
    if [] in lines {
      var i :| 0 <= i < |lines| && lines[i] == [];
      assert pieces[i] == [];
    }
  }

  /** What the loop writes for decoded lines, up to the first empty one if there is one. */
  lemma EmitDecoded(decode: Text -> Text, lines: seq<Text>, name: Text, value: Text, k: nat)
    requires LineByLine(decode)
    ensures [] !in lines ==> Emit(Decoded(decode, lines), name, value) == Join(Others(Decoded(decode, lines), name), [])
    ensures k < |lines| && lines[k] == [] && [] !in lines[..k] ==>
              Emit(Decoded(decode, lines), name, value)
              == Join(Others(Decoded(decode, lines[..k]), name) + [NewLine(name, value)], [CR, LF])
  {
    var pieces := Decoded(decode, lines);
    EmptyDecoded(decode, lines);
    if [] !in lines { EmitWithoutEmpty(pieces, name, value); }
    if k < |lines| && lines[k] == [] && [] !in lines[..k] {
      EmptyDecoded(decode, lines[..k]);
      assert pieces[..k] == Decoded(decode, lines[..k]) && pieces[k..][0] == decode(lines[k]);
      EmitUpToEmpty(pieces[..k], pieces[k..], name, value);
      assert pieces[..k] + pieces[k..] == pieces;
    }
  }

  /**
   A buffer in which no empty line has arrived yet: the header is written, with an
   empty line after it, if and only if the buffer is empty or starts or ends with CRLF.
   */
  lemma WithoutTerminator(buf: Text, name: Text, value: Text, k: nat)
    requires Cut(buf).None?
    ensures [] in SplitLines(buf) <==> buf == [] || StartsCrlf(buf) || EndsCrlf(buf)
    ensures [] !in SplitLines(buf) ==>
              Rewritten(buf, name, value) == Join(Others(Decoded(Utf8.Lossy, SplitLines(buf)), name), [])
    ensures k < |SplitLines(buf)| && SplitLines(buf)[k] == [] && [] !in SplitLines(buf)[..k] ==>
              Rewritten(buf, name, value)
              == Join(Others(Decoded(Utf8.Lossy, SplitLines(buf)[..k]), name) + [NewLine(name, value)], [CR, LF])
  {
    EmptyPieceIff(buf);
    LossyLineByLine();
    SplitDecoded(Utf8.Lossy, buf);
    EmitDecoded(Utf8.Lossy, SplitLines(buf), name, value, k);
    var written := Emit(Decoded(Utf8.Lossy, SplitLines(buf)), name, value);
    assert written + [] == written;
  }
}
