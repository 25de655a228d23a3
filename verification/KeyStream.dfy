/**
 Cutting a byte stream into segments, one look at the front at a time. The
 facts here hold of any lexer, so they are proved without looking inside one.
 */
module KeyStream {
  import opened Bytes
  import opened Options
  import opened Sequences

  /** A byte passed on as it came, or an encoding collapsed to the key it stands for. */
  datatype Segment = Raw(byte: Byte) | Key(enc: seq<Byte>, byte: Byte)

  /** The input a segment accounts for. */
  function Came(g: Segment): (s: seq<Byte>) {
    if g.Raw? then [g.byte] else g.enc
  }

  function Source(gs: seq<Segment>): (s: seq<Byte>) {
    if gs == [] then [] else Came(gs[0]) + Source(gs[1..])
  }

  /** The output a list of segments gives: one byte each. */
  function Emit(gs: seq<Segment>): (s: seq<Byte>)
    ensures |s| == |gs|
  {
    if gs == [] then [] else [gs[0].byte] + Emit(gs[1..])
  }

  lemma {:induction false} EmitAppend(a: seq<Segment>, b: seq<Segment>)
    ensures Emit(a + b) == Emit(a) + Emit(b)
    ensures Source(a + b) == Source(a) + Source(b)
    decreases |a|
  {
    if a == [] {
      assert a + b == b;
    } else {
      assert (a + b)[1..] == a[1..] + b;
      EmitAppend(a[1..], b);
      assert Came(a[0]) + (Source(a[1..]) + Source(b)) == Came(a[0]) + Source(a[1..]) + Source(b);
    }
  }

  /** The first segment of a buffer, or none while the lexer has to wait. */
  type Lexer = seq<Byte> -> Option<Segment>

  /** What a lexer takes is a non-empty prefix. */
  ghost predicate Lawful(f: Lexer) {
    forall buf: seq<Byte> :: f(buf).Some? ==> Came(f(buf).value) != [] && Came(f(buf).value) <= buf
  }

  /** What it takes does not depend on bytes that come later. */
  ghost predicate Stable(f: Lexer) {
    forall a: seq<Byte>, b: seq<Byte> :: f(a).Some? ==> f(a + b) == f(a)
  }

  datatype Parsed = Parsed(segs: seq<Segment>, held: seq<Byte>)

  function Cons(g: Segment, p: Parsed): (r: Parsed) {
    Parsed([g] + p.segs, p.held)
  }

  function Join(p: Parsed, q: Parsed): (r: Parsed) {
    Parsed(p.segs + q.segs, q.held)
  }

  function Rest(buf: seq<Byte>, g: Segment): (r: seq<Byte>)
    requires Came(g) <= buf
  {
    buf[|Came(g)|..]
  }

  ghost function Parse(f: Lexer, buf: seq<Byte>): (p: Parsed)
    requires Lawful(f)
    decreases |buf|
  {
    match f(buf)
    case Some(g) => Cons(g, Parse(f, Rest(buf, g)))
    case None => Parsed([], buf)
  }

  lemma TakeRest(buf: seq<Byte>, g: Segment)
    requires Came(g) <= buf
    ensures Came(g) + Rest(buf, g) == buf
  {
  }

  lemma ConsOut(g: Segment, p: Parsed)
    ensures Emit(Cons(g, p).segs) == [g.byte] + Emit(p.segs)
    ensures Source(Cons(g, p).segs) == Came(g) + Source(p.segs)
  {
    assert Cons(g, p).segs[1..] == p.segs;
  }

  /** Nothing is lost or invented: the segments and the held bytes are the input. */
  lemma {:induction false} ParseLossless(f: Lexer, buf: seq<Byte>)
    requires Lawful(f)
    ensures Source(Parse(f, buf).segs) + Parse(f, buf).held == buf
    decreases |buf|
  {
    match f(buf)
    case Some(g) =>
      var rest := Rest(buf, g);
      ParseLossless(f, rest);
      var p := Parse(f, rest);
      ConsOut(g, p);
      Assoc(Came(g), Source(p.segs), p.held);
      TakeRest(buf, g);
    case None =>
  }

  /** What holds of every first segment holds of all of them. */
  lemma {:induction false} ParseAll(f: Lexer, buf: seq<Byte>, ok: Segment -> bool)
    requires Lawful(f) && forall b: seq<Byte> :: f(b).Some? ==> ok(f(b).value)
    ensures forall i :: 0 <= i < |Parse(f, buf).segs| ==> ok(Parse(f, buf).segs[i])
    decreases |buf|
  {
    if f(buf).Some? { ParseAll(f, Rest(buf, f(buf).value), ok); }
  }

  /** Cutting the stream anywhere changes nothing: parse a, then what a held with b behind it. */
  lemma {:induction false} ParseSplit(f: Lexer, a: seq<Byte>, b: seq<Byte>)
    requires Lawful(f) && Stable(f)
    ensures Parse(f, a + b) == Join(Parse(f, a), Parse(f, Parse(f, a).held + b))
    decreases |a|
  {
    match f(a)
    case Some(g) =>
      var rest := Rest(a, g);
      assert f(a + b) == f(a);
      ParseSplit(f, rest, b);
      assert Rest(a + b, g) == rest + b;
      var p, q := Parse(f, rest), Parse(f, Parse(f, rest).held + b);
      assert ([g] + p.segs) + q.segs == [g] + (p.segs + q.segs);
    case None =>
      var q := Parse(f, a + b);
      assert [] + q.segs == q.segs;
  }

  lemma {:induction false} HeldIsFixed(f: Lexer, buf: seq<Byte>)
    requires Lawful(f)
    ensures f(Parse(f, buf).held).None?
    decreases |buf|
  {
    if f(buf).Some? { HeldIsFixed(f, Rest(buf, f(buf).value)); }
  }

  /** A run of bytes the lexer passes on singly. */
  lemma {:induction false} PlainRunBytewise(f: Lexer, buf: seq<Byte>, n: nat)
    requires Lawful(f) && n <= |buf|
    requires forall i :: 0 <= i < n ==> f(buf[i..]) == Some(Raw(buf[i]))
    ensures Emit(Parse(f, buf).segs) == buf[..n] + Emit(Parse(f, buf[n..]).segs)
    ensures Parse(f, buf).held == Parse(f, buf[n..]).held
    decreases n
  {
    assert buf[0..] == buf;
    if n > 0 {
      var rest := buf[1..];
      assert Rest(buf, Raw(buf[0])) == rest;
      forall i | 0 <= i < n - 1 ensures f(rest[i..]) == Some(Raw(rest[i])) {
        assert rest[i..] == buf[i + 1..];
      }
      PlainRunBytewise(f, rest, n - 1);
      ConsOut(Raw(buf[0]), Parse(f, rest));
      assert rest[n - 1..] == buf[n..];
      assert buf[..n] == [buf[0]] + rest[..n - 1];
      Assoc([buf[0]], rest[..n - 1], Emit(Parse(f, buf[n..]).segs));
    }
  }

  // Two lexers that differ only where `bites` holds.

  ghost predicate DifferOnly(f: Lexer, h: Lexer, bites: seq<Byte> -> bool) {
    forall buf: seq<Byte> ::
      if bites(buf) then h(buf).Some? && (f(buf).Some? ==> f(buf).value.byte != h(buf).value.byte)
      else h(buf) == f(buf)
  }

  /** At none of the places where f looks does `bites` hold. */
  ghost predicate Never(f: Lexer, bites: seq<Byte> -> bool, buf: seq<Byte>)
    requires Lawful(f)
    decreases |buf|
  {
    !bites(buf) && (f(buf).Some? ==> Never(f, bites, Rest(buf, f(buf).value)))
  }

  lemma {:induction false} NeverMeansSame(f: Lexer, h: Lexer, bites: seq<Byte> -> bool, buf: seq<Byte>)
    requires Lawful(f) && Lawful(h) && DifferOnly(f, h, bites) && Never(f, bites, buf)
    ensures Parse(h, buf) == Parse(f, buf)
    decreases |buf|
  {
    if f(buf).Some? { NeverMeansSame(f, h, bites, Rest(buf, f(buf).value)); }
  }

  lemma {:induction false} SomewhereMeansDifferent(f: Lexer, h: Lexer, bites: seq<Byte> -> bool, buf: seq<Byte>)
    requires Lawful(f) && Lawful(h) && DifferOnly(f, h, bites) && !Never(f, bites, buf)
    ensures Emit(Parse(h, buf).segs) != Emit(Parse(f, buf).segs)
    decreases |buf|
  {
    if h(buf).Some? {
      ConsOut(h(buf).value, Parse(h, Rest(buf, h(buf).value)));
    }
    if f(buf).Some? {
      var g := f(buf).value;
      var rest := Rest(buf, g);
      ConsOut(g, Parse(f, rest));
      if !bites(buf) {
        SomewhereMeansDifferent(f, h, bites, rest);
        var x, y := Emit(Parse(h, rest).segs), Emit(Parse(f, rest).segs);
        assert ([g.byte] + x)[1..] == x && ([g.byte] + y)[1..] == y;
      } else {
        assert Emit(Parse(f, buf).segs)[0] == g.byte;
        assert Emit(Parse(h, buf).segs)[0] == h(buf).value.byte;
      }
    }
  }
}
