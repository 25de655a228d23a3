/** Header blocks as lines: cutting a buffer at its empty line, splitting at CRLF, and joining again. */
module HeaderLines {
  import opened Bytes
  import opened Options

  type Text = seq<Byte>

  const CR: Byte := 13
  const LF: Byte := 10

  predicate StartsCrlf(s: Text) {
    |s| >= 2 && s[0] == CR && s[1] == LF
  }

  /** No CRLF inside. */
  predicate NoCrlf(l: Text) {
    forall i :: 0 <= i < |l| - 1 ==> !(l[i] == CR && l[i + 1] == LF)
  }

  /** A line and what follows it. */
  function Ended(l: Text, t: Text): (s: Text) {
    l + ([CR, LF] + t)
  }

  /** Up to the first CRLF, and after it. */
  function Line(s: Text): (r: Option<(Text, Text)>) {
    if |s| < 2 then None
    else if StartsCrlf(s) then Some(([], s[2..]))
    else
      match Line(s[1..])
      case None => None
      case Some((l, t)) => Some(([s[0]] + l, t))
  }

  lemma {:induction false} LineOfEnded(l: Text, t: Text)
    requires NoCrlf(l)
    ensures Line(Ended(l, t)) == Some((l, t))
    decreases |l|
  {
    var s := Ended(l, t);
    if l == [] {
      assert s == [CR, LF] + t;
      assert s[2..] == t;
    } else {
      assert s[1..] == Ended(l[1..], t);
      LineOfEnded(l[1..], t);
      assert !StartsCrlf(s) by { if |l| == 1 { assert s[1] == CR; } else { assert s[1] == l[1]; } }
      assert [l[0]] + l[1..] == l;
    }
  }

  lemma {:induction false} EndedOfLine(s: Text)
    requires Line(s).Some?
    ensures s == Ended(Line(s).value.0, Line(s).value.1) && NoCrlf(Line(s).value.0)
    decreases |s|
  {
    if StartsCrlf(s) {
      assert s == [CR, LF] + s[2..];
    } else {
      EndedOfLine(s[1..]);
      var (l, t) := Line(s[1..]).value;
      assert s == [s[0]] + s[1..];
      assert l != [] ==> l[0] == s[1];
      assert Ended([s[0]] + l, t) == [s[0]] + Ended(l, t);
    }
  }

  lemma LineShortens(s: Text)
    requires Line(s).Some?
    ensures |Line(s).value.1| < |s|
  {
    EndedOfLine(s);
  }

  function SplitLines(s: Text): (r: seq<Text>)
    decreases |s|
  {
    match Line(s)
    case None => [s]
    case Some((l, t)) => LineShortens(s); [l] + SplitLines(t)
  }

  predicate StartsCrlfCrlf(s: Text) {
    |s| >= 4 && s[0] == CR && s[1] == LF && s[2] == CR && s[3] == LF
  }

  /** The block up to and including the first CRLFCRLF, and the rest. */
  function Cut(s: Text): (r: Option<(Text, Text)>) {
    if |s| < 4 then None
    else if StartsCrlfCrlf(s) then Some((s[..4], s[4..]))
    else
      match Cut(s[1..])
      case None => None
      case Some((h, b)) => Some(([s[0]] + h, b))
  }

  /** How the cut of a buffer follows from the cut after its first line. */
  function CutAfter(l: Text, t: Text): (r: Option<(Text, Text)>) {
    if StartsCrlf(t) then Some((Ended(l, [CR, LF]), t[2..]))
    else
      match Cut(t)
      case None => None
      case Some((h, b)) => Some((Ended(l, h), b))
  }

  lemma CutEmptyLine(t: Text)
    ensures Cut(Ended([], t)) == CutAfter([], t)
  {
    var s := Ended([], t);
    assert s == [CR, LF] + t;
    if StartsCrlf(t) {
      assert s[..4] == Ended([], [CR, LF]) && s[4..] == t[2..];
    } else {
      var u := s[1..];
      assert u[1..] == t;
      if |t| >= 3 && Cut(t).Some? {
        var (h, b) := Cut(t).value;
        assert [CR] + ([LF] + h) == Ended([], h);
      }
      if |t| == 2 { assert Cut(u).None?; }
    }
  }

  lemma {:induction false} CutLine(l: Text, t: Text)
    requires NoCrlf(l)
    ensures Cut(Ended(l, t)) == CutAfter(l, t)
    decreases |l|
  {
    if l == [] {
      CutEmptyLine(t);
    } else {
      var s := Ended(l, t);
      assert s[1..] == Ended(l[1..], t);
      CutLine(l[1..], t);
      assert !StartsCrlf(s) by { if |l| == 1 { assert s[1] == CR; } else { assert s[1] == l[1]; } }
      forall h ensures [l[0]] + Ended(l[1..], h) == Ended(l, h) {
        assert [l[0]] + l[1..] == l;
        assert [l[0]] + (l[1..] + ([CR, LF] + h)) == [l[0]] + l[1..] + ([CR, LF] + h);
      }
      if |s| < 4 { assert CutAfter(l, t).None?; }
    }
  }

  predicate LineOk(l: Text) {
    l != [] && NoCrlf(l)
  }

  predicate LinesOk(lines: seq<Text>) {
    forall i :: 0 <= i < |lines| ==> LineOk(lines[i])
  }

  function Join(lines: seq<Text>, t: Text): (s: Text) {
    if lines == [] then t else Ended(lines[0], Join(lines[1..], t))
  }

  lemma JoinStart(lines: seq<Text>, t: Text)
    requires LinesOk(lines) && lines != []
    ensures !StartsCrlf(Join(lines, t))
  {
    var l, u := lines[0], Join(lines[1..], t);
    assert LineOk(l);
    if |l| == 1 { assert Ended(l, u)[1] == CR; } else { assert Ended(l, u)[1] == l[1]; }
  }

  /** A block of proper lines is cut right after its empty line. */
  lemma {:induction false} CutJoin(lines: seq<Text>, body: Text)
    requires LinesOk(lines) && lines != []
    ensures Cut(Join(lines, [CR, LF] + body)) == Some((Join(lines, [CR, LF]), body))
    decreases |lines|
  {
    var l, t := lines[0], Join(lines[1..], [CR, LF] + body);
    assert LineOk(l);
    CutLine(l, t);
    if |lines| == 1 {
      assert t[2..] == body;
    } else {
      JoinStart(lines[1..], [CR, LF] + body);
      CutJoin(lines[1..], body);
    }
  }

  lemma {:induction false} SplitJoin(lines: seq<Text>)
    requires LinesOk(lines)
    ensures SplitLines(Join(lines, [CR, LF])) == lines + [[], []]
    decreases |lines|
  {
    if lines == [] {
      assert Line([CR, LF]) == Some(([], [])) by { assert [CR, LF][2..] == []; }
      assert Line([]) == None;
      assert SplitLines([]) == [[]];
    } else {
      assert LineOk(lines[0]);
      LineOfEnded(lines[0], Join(lines[1..], [CR, LF]));
      SplitJoin(lines[1..]);
      assert [lines[0]] + (lines[1..] + [[], []]) == lines + [[], []];
    }
  }

  /** The lines before the empty one, for a buffer that has one and does not start with it. */
  function Lines(s: Text): (r: seq<Text>)
    requires Cut(s).Some? && !StartsCrlf(s)
    decreases |s|
  {
    CutHasLine(s);
    LineShortens(s);
    var (l, t) := Line(s).value;
    if StartsCrlf(t) then [l]
    else
      CutOfRest(s);
      [l] + Lines(t)
  }

  lemma {:induction false} CutHasLine(s: Text)
    requires Cut(s).Some?
    ensures Line(s).Some?
    decreases |s|
  {
    if !StartsCrlfCrlf(s) { CutHasLine(s[1..]); }
  }

  lemma CutOfRest(s: Text)
    requires Cut(s).Some? && Line(s).Some? && !StartsCrlf(Line(s).value.1)
    ensures Cut(Line(s).value.1).Some?
  {
    EndedOfLine(s);
    CutLine(Line(s).value.0, Line(s).value.1);
  }

  /** Every such buffer is its lines, an empty line and its body. */
  lemma {:induction false} LinesJoin(s: Text)
    requires Cut(s).Some? && !StartsCrlf(s)
    ensures LinesOk(Lines(s)) && Lines(s) != []
    ensures s == Join(Lines(s), [CR, LF] + Cut(s).value.1)
    decreases |s|
  {
    CutHasLine(s);
    LineShortens(s);
    EndedOfLine(s);
    var (l, t) := Line(s).value;
    assert l != [];
    CutLine(l, t);
    if StartsCrlf(t) {
      assert t == [CR, LF] + t[2..];
      assert [l][1..] == [];
    } else {
      CutOfRest(s);
      LinesJoin(t);
      assert ([l] + Lines(t))[1..] == Lines(t);
    }
  }

  /** Joining and reading back gives the same lines. */
  lemma {:induction false} LinesOfJoin(lines: seq<Text>, body: Text)
    requires LinesOk(lines) && lines != []
    ensures var s := Join(lines, [CR, LF] + body); Cut(s).Some? && !StartsCrlf(s) && Lines(s) == lines
    decreases |lines|
  {
    var l, t := lines[0], Join(lines[1..], [CR, LF] + body);
    assert LineOk(l);
    JoinStart(lines, [CR, LF] + body);
    CutJoin(lines, body);
    LineOfEnded(l, t);
    if |lines| == 1 {
      assert [l] == lines;
    } else {
      LinesOfJoin(lines[1..], body);
      assert [l] + lines[1..] == lines;
    }
  }

  predicate EndsCrlf(s: Text) {
    |s| >= 2 && s[|s| - 2] == CR && s[|s| - 1] == LF
  }

  lemma {:induction false} CrlfHasLine(s: Text)
    requires EndsCrlf(s)
    ensures Line(s).Some?
    decreases |s|
  {
    if !StartsCrlf(s) { CrlfHasLine(s[1..]); }
  }

  lemma EndOfEnded(l: Text, t: Text)
    ensures EndsCrlf(Ended(l, t)) <==> t == [] || EndsCrlf(t)
    ensures NoCrlf(l) ==> (StartsCrlf(Ended(l, t)) <==> l == [])
  {
    var s := Ended(l, t);
    if |t| >= 2 { assert s[|s| - 2] == t[|t| - 2] && s[|s| - 1] == t[|t| - 1]; }
    if |t| == 1 { assert s[|s| - 2] == LF; }
    if |l| == 1 { assert s[1] == CR; }
    if |l| >= 2 { assert s[0] == l[0] && s[1] == l[1]; }
  }

  /** Without CRLFCRLF, a piece is empty only at the start or at the end. */
  lemma {:induction false} EmptyPieceIff(s: Text)
    requires Cut(s).None?
    ensures [] in SplitLines(s) <==> s == [] || StartsCrlf(s) || EndsCrlf(s)
    decreases |s|
  {
    if Line(s).None? {
      if EndsCrlf(s) { CrlfHasLine(s); }
    } else {
      var (l, t) := Line(s).value;
      LineShortens(s);
      EndedOfLine(s);
      CutLine(l, t);
      EndOfEnded(l, t);
      EmptyPieceIff(t);
    }
  }
}
