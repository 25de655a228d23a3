/**
 The incremental key decoder. It holds bytes across reads, so the question is
 whether what comes out depends on how the stream was cut into reads.
 */
module KeyNormalizing {
  import opened Bytes
  import opened Decimal
  import opened Options
  import opened KeyScan
  import opened KeyGrammar
  import opened KeyStream
  import opened Sequences

  /** What a drain produced, and what it kept for the next read. */
  datatype Drained = Drained(out: seq<Byte>, held: seq<Byte>)

  function Before(front: seq<Byte>, d: Drained): (r: Drained) {
    Drained(front + d.out, d.held)
  }

  /** Scan and take from the front until the scanner wants more bytes. */
  function Drain(buf: seq<Byte>, capped: bool): (d: Drained)
    decreases |buf|
  {
    if buf == [] then Drained([], [])
    else match Scan(buf, capped)
      case Forward(n) => Before(buf[..n], Drain(buf[n..], capped))
      case Ascii(n, byte) => Before([byte], Drain(buf[n..], capped))
      case NeedMore => Drained([], buf)
  }

  /** A drain that was told to let go of everything. */
  function Released(d: Drained, force: bool): (r: Drained) {
    if force then Drained(d.out + d.held, []) else d
  }

  lemma BeforeBefore(a: seq<Byte>, b: seq<Byte>, d: Drained)
    ensures Before(a, Before(b, d)) == Before(a + b, d)
  {
    assert a + (b + d.out) == a + b + d.out;
  }

  class KeyNormalizer {
    var pending: seq<Byte>

    constructor ()
      ensures pending == []
    {
      pending := [];
    }

    method Push(input: seq<Byte>) returns (out: seq<Byte>)
      modifies this
      ensures Drained(out, pending) == Drain(old(pending) + input, true)
      ensures |pending| <= CAP
    {
      pending := pending + input;
      out := DrainLoop(false);
      HeldIsShort(old(pending) + input);
    }

    method Flush() returns (out: seq<Byte>)
      modifies this
      ensures Drained(out, pending) == Released(Drain(old(pending), true), true)
      ensures pending == []
    {
      out := DrainLoop(true);
    }

    method DrainLoop(force: bool) returns (out: seq<Byte>)
      modifies this
      ensures Drained(out, pending) == Released(Drain(old(pending), true), force)
    {
      out := [];
      while pending != []
        invariant Drain(old(pending), true) == Before(out, Drain(pending, true))
        decreases |pending|
      {
        var r := Scan(pending, true);
        if r.NeedMore? {
          if force {
            out := out + pending;
            pending := [];
          }
          return;
        }
        match r
        case Forward(n) =>
          BeforeBefore(out, pending[..n], Drain(pending[n..], true));
          out := out + pending[..n];
          pending := pending[n..];
        case Ascii(n, byte) =>
          BeforeBefore(out, [byte], Drain(pending[n..], true));
          out := out + [byte];
          pending := pending[n..];
      }
    }
  }

  /** A push never holds more than the cap. */
  lemma {:induction false} HeldIsShort(buf: seq<Byte>)
    ensures |Drain(buf, true).held| <= CAP
    decreases |buf|
  {
    if buf != [] {
      match Scan(buf, true)
      case Forward(n) => HeldIsShort(buf[n..]);
      case Ascii(n, _) => HeldIsShort(buf[n..]);
      case NeedMore =>
    }
  }

  // The same drain one byte at a time, remembering where each byte came from.

  ghost predicate SegmentOk(g: Segment) {
    g.Key? ==> Encodes(g.enc, g.byte)
  }

  /** The first segment of a buffer, unless the scanner has to wait for it. */
  function First(buf: seq<Byte>, capped: bool): (g: Option<Segment>)
    ensures g.Some? ==> Came(g.value) != [] && Came(g.value) <= buf
  {
    if buf == [] then None
    else if buf[0] != ESC then Some(Raw(buf[0]))
    else match Scan(buf, capped)
      case Forward(_) => Some(Raw(ESC))
      case Ascii(n, byte) => Some(Key(buf[..n], byte))
      case NeedMore => None
  }

  function Keys(capped: bool): (f: Lexer)
    ensures Lawful(f)
  {
    buf => First(buf, capped)
  }

  lemma KeysSound(capped: bool)
    ensures forall b: seq<Byte> :: Keys(capped)(b).Some? ==> SegmentOk(Keys(capped)(b).value)
  {
    forall b: seq<Byte> | First(b, capped).Some? && First(b, capped).value.Key?
      ensures SegmentOk(First(b, capped).value)
    {
      ScanSound(b, capped);
    }
  }

  lemma FirstStable(a: seq<Byte>, b: seq<Byte>)
    requires First(a, false).Some?
    ensures First(a + b, false) == First(a, false)
  {
    if a[0] == ESC {
      ScanStable(a, b);
      if Scan(a, false).Ascii? {
        var n := Scan(a, false).consumed;
        assert (a + b)[..n] == a[..n];
      }
    }
  }

  lemma KeysStable()
    ensures Stable(Keys(false))
  {
    forall a: seq<Byte>, b: seq<Byte> | First(a, false).Some?
      ensures First(a + b, false) == First(a, false)
    {
      FirstStable(a, b);
    }
  }

  /** Taking a plain run in one go is taking it byte by byte. */
  lemma PlainBytewise(buf: seq<Byte>, n: nat, capped: bool)
    requires n <= |buf| && forall i :: 0 <= i < n ==> buf[i] != ESC
    ensures Emit(Parse(Keys(capped), buf).segs) == buf[..n] + Emit(Parse(Keys(capped), buf[n..]).segs)
    ensures Parse(Keys(capped), buf).held == Parse(Keys(capped), buf[n..]).held
  {
    PlainRunBytewise(Keys(capped), buf, n);
  }

  function AsDrained(p: Parsed): (d: Drained) {
    Drained(Emit(p.segs), p.held)
  }

  lemma {:induction false} DrainIsParse(buf: seq<Byte>, capped: bool)
    ensures Drain(buf, capped) == AsDrained(Parse(Keys(capped), buf))
    decreases |buf|
  {
    if buf != [] {
      match Scan(buf, capped)
      case Forward(n) =>
        DrainIsParse(buf[n..], capped);
        if buf[0] != ESC {
          PlainBytewise(buf, n, capped);
        } else {
          ConsOut(Raw(ESC), Parse(Keys(capped), buf[1..]));
          assert buf[..1] == [ESC];
        }
      case Ascii(n, byte) =>
        DrainIsParse(buf[n..], capped);
        ConsOut(Key(buf[..n], byte), Parse(Keys(capped), buf[n..]));
      case NeedMore =>
    }
  }

  /** Draining a then b, the held bytes of a in front of b, is draining a + b. */
  lemma DrainSplit(a: seq<Byte>, b: seq<Byte>)
    ensures Drain(a + b, false) == Before(Drain(a, false).out, Drain(Drain(a, false).held + b, false))
  {
    var f := Keys(false);
    var p := Parse(f, a);
    DrainIsParse(a + b, false);
    DrainIsParse(a, false);
    DrainIsParse(p.held + b, false);
    KeysStable();
    ParseSplit(f, a, b);
    EmitAppend(p.segs, Parse(f, p.held + b).segs);
  }

  lemma DrainHeld(buf: seq<Byte>)
    ensures Drain(Drain(buf, false).held, false) == Drained([], Drain(buf, false).held)
  {
    DrainIsParse(buf, false);
    HeldIsFixed(Keys(false), buf);
    DrainIsParse(Drain(buf, false).held, false);
  }

  // Where the cap makes a difference.

  /** More than 48 bytes, and an escape sequence in front that is complete or unfinished. */
  predicate Bites(buf: seq<Byte>) {
    |buf| > CAP && buf[0] == ESC && !Scan(buf, false).Forward?
  }

  /** At none of the places where the drain looks does the cap cut a sequence short. */
  ghost predicate CapSilentOn(buf: seq<Byte>) {
    Never(Keys(false), b => Bites(b), buf)
  }

  lemma CapDiffersOnly()
    ensures DifferOnly(Keys(false), Keys(true), b => Bites(b))
  {
  }

  /** A read gives what the uncapped rule gives if and only if the cap stays silent on it. */
  lemma CapIff(buf: seq<Byte>)
    ensures Drain(buf, true) == Drain(buf, false) <==> CapSilentOn(buf)
  {
    DrainIsParse(buf, true);
    DrainIsParse(buf, false);
    CapDiffersOnly();
    var bites: seq<Byte> -> bool := b => Bites(b);
    if Never(Keys(false), bites, buf) {
      NeverMeansSame(Keys(false), Keys(true), bites, buf);
    } else {
      SomewhereMeansDifferent(Keys(false), Keys(true), bites, buf);
    }
  }

  /** Up to 48 bytes of held and new input together always qualify. */
  lemma ShortIsSilent(buf: seq<Byte>)
    requires |buf| <= CAP
    ensures CapSilentOn(buf)
  {
    ShortNever(Keys(false), b => Bites(b), buf);
  }

  lemma {:induction false} ShortNever(f: Lexer, bites: seq<Byte> -> bool, buf: seq<Byte>)
    requires Lawful(f) && (forall b: seq<Byte> :: |b| <= CAP ==> !bites(b)) && |buf| <= CAP
    ensures Never(f, bites, buf)
    decreases |buf|
  {
    if f(buf).Some? { ShortNever(f, bites, Rest(buf, f(buf).value)); }
  }

  function Concat(chunks: seq<seq<Byte>>): (s: seq<Byte>) {
    if chunks == [] then [] else chunks[0] + Concat(chunks[1..])
  }

  /** Push the chunks one after another, keeping what each push holds back. */
  function PushAll(held: seq<Byte>, chunks: seq<seq<Byte>>): (d: Drained)
    decreases |chunks|
  {
    if chunks == [] then Drained([], held)
    else
      var first := Drain(held + chunks[0], true);
      Before(first.out, PushAll(first.held, chunks[1..]))
  }

  /** No push of the run trips the cap. */
  ghost predicate SilentRun(held: seq<Byte>, chunks: seq<seq<Byte>>)
    decreases |chunks|
  {
    chunks == [] ||
    (CapSilentOn(held + chunks[0]) && SilentRun(Drain(held + chunks[0], true).held, chunks[1..]))
  }

  /** Every push finds at most 48 bytes, held ones included. */
  predicate ShortRun(held: seq<Byte>, chunks: seq<seq<Byte>>)
    decreases |chunks|
  {
    chunks == [] ||
    (|held + chunks[0]| <= CAP && ShortRun(Drain(held + chunks[0], true).held, chunks[1..]))
  }

  lemma {:induction false} ShortRunIsSilent(held: seq<Byte>, chunks: seq<seq<Byte>>)
    requires ShortRun(held, chunks)
    ensures SilentRun(held, chunks)
    decreases |chunks|
  {
    if chunks != [] {
      ShortIsSilent(held + chunks[0]);
      ShortRunIsSilent(Drain(held + chunks[0], true).held, chunks[1..]);
    }
  }

  lemma ChunkStep(held: seq<Byte>, chunk: seq<Byte>, more: seq<Byte>)
    requires CapSilentOn(held + chunk)
    ensures var d := Drain(held + chunk, true);
            && Drain(held + (chunk + more), false) == Before(d.out, Drain(d.held + more, false))
            && Drain(d.held, false) == Drained([], d.held)
  {
    CapIff(held + chunk);
    DrainHeld(held + chunk);
    Assoc(held, chunk, more);
    DrainSplit(held + chunk, more);
  }

  lemma {:induction false} ChunkIndependenceFrom(held: seq<Byte>, chunks: seq<seq<Byte>>)
    requires SilentRun(held, chunks) && Drain(held, false) == Drained([], held)
    ensures PushAll(held, chunks) == Drain(held + Concat(chunks), false)
    decreases |chunks|
  {
    if chunks == [] {
      assert held + Concat(chunks) == held;
    } else {
      ChunkStep(held, chunks[0], Concat(chunks[1..]));
      ChunkIndependenceFrom(Drain(held + chunks[0], true).held, chunks[1..]);
    }
  }

  /**
   Chunk independence: however a byte stream is cut into reads, the reads
   together give what the uncapped scanner gives on the whole stream at once,
   and hold the same bytes back.
   */
  lemma ChunkIndependence(chunks: seq<seq<Byte>>)
    requires SilentRun([], chunks)
    ensures PushAll([], chunks) == Drain(Concat(chunks), false)
  {
    ChunkIndependenceFrom([], chunks);
    assert [] + Concat(chunks) == Concat(chunks);
  }

  /** After k reads, outputs and held bytes are those of the uncapped scanner on what was read. */
  predicate SameAt(held: seq<Byte>, chunks: seq<seq<Byte>>, k: nat)
    requires k <= |chunks|
  {
    PushAll(held, chunks[..k]) == Drain(held + Concat(chunks[..k]), false)
  }

  lemma SameFirst(held: seq<Byte>, chunks: seq<seq<Byte>>)
    requires chunks != []
    ensures SameAt(held, chunks, 1) <==> CapSilentOn(held + chunks[0])
  {
    var one := chunks[..1];
    assert one[1..] == [] && one[0] == chunks[0];
    assert Concat(one) == chunks[0] + [] == chunks[0];
    var first := Drain(held + chunks[0], true);
    assert PushAll(held, one) == Before(first.out, PushAll(first.held, one[1..])) == first;
    CapIff(held + chunks[0]);
  }

  lemma SameNext(held: seq<Byte>, chunks: seq<seq<Byte>>, k: nat)
    requires k < |chunks| && CapSilentOn(held + chunks[0])
    ensures SameAt(held, chunks, k + 1) <==> SameAt(Drain(held + chunks[0], true).held, chunks[1..], k)
  {
    var some, first := chunks[..k + 1], Drain(held + chunks[0], true);
    assert some[0] == chunks[0] && some[1..] == chunks[1..][..k];
    ChunkStep(held, chunks[0], Concat(some[1..]));
    CancelBefore(first.out, PushAll(first.held, some[1..]), Drain(first.held + Concat(some[1..]), false));
  }

  lemma CancelBefore(front: seq<Byte>, a: Drained, b: Drained)
    ensures Before(front, a) == Before(front, b) <==> a == b
  {
    assert (front + a.out)[|front|..] == a.out && (front + b.out)[|front|..] == b.out;
  }

  lemma {:induction false} EveryMomentFrom(held: seq<Byte>, chunks: seq<seq<Byte>>)
    requires Drain(held, false) == Drained([], held)
    ensures SilentRun(held, chunks) <==> forall k :: 0 <= k <= |chunks| ==> SameAt(held, chunks, k)
    decreases |chunks|
  {
    assert SameAt(held, chunks, 0) by { assert chunks[..0] == [] && held + Concat([]) == held; }
    if chunks != [] {
      SameFirst(held, chunks);
      if CapSilentOn(held + chunks[0]) {
        var rest := Drain(held + chunks[0], true).held;
        ChunkStep(held, chunks[0], []);
        EveryMomentFrom(rest, chunks[1..]);
        forall k | 0 <= k < |chunks| ensures SameAt(held, chunks, k + 1) <==> SameAt(rest, chunks[1..], k) {
          SameNext(held, chunks, k);
        }
        assert forall k :: 0 < k <= |chunks| ==> (SameAt(held, chunks, k) <==> SameAt(rest, chunks[1..], k - 1));
      }
    }
  }

  /** The reads agree with the uncapped scanner at every moment if and only if the cap is silent on every one. */
  lemma EveryMomentIff(chunks: seq<seq<Byte>>)
    ensures SilentRun([], chunks) <==>
            forall k :: 0 <= k <= |chunks| ==> PushAll([], chunks[..k]) == Drain(Concat(chunks[..k]), false)
  {
    EveryMomentFrom([], chunks);
    forall k | 0 <= k <= |chunks|
      ensures SameAt([], chunks, k) <==> PushAll([], chunks[..k]) == Drain(Concat(chunks[..k]), false)
    {
      assert [] + Concat(chunks[..k]) == Concat(chunks[..k]);
    }
  }

  /** The same for every split in which held and new bytes stay within 48. */
  lemma ShortChunkIndependence(chunks: seq<seq<Byte>>)
    requires ShortRun([], chunks)
    ensures PushAll([], chunks) == Drain(Concat(chunks), false)
  {
    ShortRunIsSilent([], chunks);
    ChunkIndependence(chunks);
  }

  // Losslessness over any run of pushes and flushes, capped or not.

  datatype Event = Push(input: seq<Byte>) | Flush

  function After(held: seq<Byte>, e: Event): (d: Drained) {
    match e
    case Push(input) => Drain(held + input, true)
    case Flush => Released(Drain(held, true), true)
  }

  function Input(e: Event): (s: seq<Byte>) {
    if e.Push? then e.input else []
  }

  function Inputs(events: seq<Event>): (s: seq<Byte>)
    decreases |events|
  {
    if events == [] then [] else Inputs(events[..|events| - 1]) + Input(events[|events| - 1])
  }

  function Run(events: seq<Event>): (d: Drained)
    decreases |events|
  {
    if events == [] then Drained([], [])
    else
      var d := Run(events[..|events| - 1]);
      Before(d.out, After(d.held, events[|events| - 1]))
  }

  function RawAll(s: seq<Byte>): (gs: seq<Segment>)
  {
    if s == [] then [] else [Raw(s[0])] + RawAll(s[1..])
  }

  lemma {:induction false} RawAllIs(s: seq<Byte>)
    ensures Emit(RawAll(s)) == s && Source(RawAll(s)) == s
    ensures forall i :: 0 <= i < |RawAll(s)| ==> RawAll(s)[i].Raw?
  {
    if s != [] {
      RawAllIs(s[1..]);
      assert RawAll(s)[1..] == RawAll(s[1..]);
      assert s == [s[0]] + s[1..];
    }
  }

  ghost predicate Accounts(gs: seq<Segment>, input: seq<Byte>, d: Drained) {
    && Emit(gs) == d.out
    && Source(gs) + d.held == input
    && forall i :: 0 <= i < |gs| ==> SegmentOk(gs[i])
  }

  lemma DrainAccounts(buf: seq<Byte>) returns (gs: seq<Segment>)
    ensures Accounts(gs, buf, Drain(buf, true))
  {
    DrainIsParse(buf, true);
    ParseLossless(Keys(true), buf);
    KeysSound(true);
    ParseAll(Keys(true), buf, g => SegmentOk(g));
    gs := Parse(Keys(true), buf).segs;
  }

  lemma EventAccounts(held: seq<Byte>, e: Event) returns (gs: seq<Segment>)
    ensures Accounts(gs, held + Input(e), After(held, e))
    ensures |After(held, e).held| <= CAP && (e.Flush? ==> After(held, e).held == [])
  {
    var buf := held + Input(e);
    assert e.Flush? ==> buf == held;
    HeldIsShort(buf);
    gs := DrainAccounts(buf);
    if e.Flush? {
      var raw := RawAll(Drain(buf, true).held);
      RawAllIs(Drain(buf, true).held);
      EmitAppend(gs, raw);
      gs := gs + raw;
      assert Source(gs) + [] == Source(gs);
    }
  }

  /**
   Any run of pushes and flushes outputs its input with only complete encodings
   of printable keys collapsed to their byte, in order, and holds the rest.
   */
  lemma {:induction false} RunIsLossless(events: seq<Event>) returns (gs: seq<Segment>)
    ensures Accounts(gs, Inputs(events), Run(events))
    ensures |Run(events).held| <= CAP
    ensures events != [] && events[|events| - 1].Flush? ==> Run(events).held == []
    decreases |events|
  {
    if events == [] {
      gs := [];
    } else {
      var front, last := events[..|events| - 1], events[|events| - 1];
      var d := Run(front);
      var g1 := RunIsLossless(front);
      var g2 := EventAccounts(d.held, last);
      gs := g1 + g2;
      AccountsAppend(g1, Inputs(front), d, g2, Input(last), After(d.held, last));
    }
  }

  lemma AccountsAppend(g1: seq<Segment>, in1: seq<Byte>, d1: Drained, g2: seq<Segment>, in2: seq<Byte>, d2: Drained)
    requires Accounts(g1, in1, d1) && Accounts(g2, d1.held + in2, d2)
    ensures Accounts(g1 + g2, in1 + in2, Before(d1.out, d2))
  {
    EmitAppend(g1, g2);
    Assoc(Source(g1), Source(g2), d2.held);
    Assoc(Source(g1), d1.held, in2);
  }

  lemma {:induction false} SourceAtLeast(gs: seq<Segment>)
    requires forall i :: 0 <= i < |gs| ==> SegmentOk(gs[i])
    ensures |Emit(gs)| <= |Source(gs)|
    decreases |gs|
  {
    if gs != [] {
      if gs[0].Key? {
        var e :| EncodingOk(e) && Render(e) == gs[0].enc && Meaning(e) == Some(gs[0].byte);
        assert |gs[0].enc| >= 1;
      }
      SourceAtLeast(gs[1..]);
    }
  }

  /** The stream never grows. */
  lemma RunNeverGrows(events: seq<Event>)
    ensures |Run(events).out| + |Run(events).held| <= |Inputs(events)|
  {
    var gs := RunIsLossless(events);
    SourceAtLeast(gs);
  }

  // Keys pushed one at a time come back as themselves.

  ghost predicate KeyPush(chunk: seq<Byte>, b: Byte) {
    |chunk| <= CAP && Encodes(chunk, b)
  }

  lemma OneKey(chunk: seq<Byte>, b: Byte)
    requires KeyPush(chunk, b)
    ensures Drain(chunk, true) == Drained([b], [])
  {
    var e :| EncodingOk(e) && Render(e) == chunk && Meaning(e) == Some(b);
    assert chunk != [] && chunk[..|chunk|] == chunk;
    EncodedIsScanned(chunk, |chunk|, b);
    CapSilent(chunk);
    assert Drain(chunk[|chunk|..], true) == Drained([], []);
  }

  /** Any keys, in any encoding of the grammar that fits the cap, pushed key by key. */
  lemma {:induction false} KeyByKey(chunks: seq<seq<Byte>>, keys: seq<Byte>)
    requires |chunks| == |keys| && forall i :: 0 <= i < |keys| ==> KeyPush(chunks[i], keys[i])
    ensures PushAll([], chunks) == Drained(keys, [])
    decreases |keys|
  {
    if keys != [] {
      OneKey(chunks[0], keys[0]);
      assert [] + chunks[0] == chunks[0];
      KeyByKey(chunks[1..], keys[1..]);
      assert keys == [keys[0]] + keys[1..];
    }
  }

  /** `ESC[27;m;c~`, as a terminal in modifyOtherKeys mode writes it. */
  function ModifyOtherKey(mods: nat, code: nat): (s: seq<Byte>) {
    Render(ModifyOther(Print(mods), Print(code)))
  }

  /** Every printable key, plain or shifted, decodes back to itself. */
  lemma ModifyOtherKeyRoundTrip(mods: nat, code: Byte)
    requires PlainMod(mods) && Printable(code)
    ensures Drain(ModifyOtherKey(mods, code), true) == Drained([code], [])
  {
    PrintRoundTrip(mods);
    PrintRoundTrip(code);
    var e := ModifyOther(Print(mods), Print(code));
    assert EncodingOk(e) && Meaning(e) == Some(code);
    assert |Render(e)| <= CAP;
    OneKey(Render(e), code);
  }

  /** The same for kitty reports: a key by itself, a key with Shift, and a key that brings its text. */
  lemma KittyKeyRoundTrip(key: Byte, text: Byte, mods: nat)
    requires Printable(key) && Printable(text) && PlainMod(mods)
    ensures Drain(KittyReport(key, None, None), true) == Drained([key], [])
    ensures Drain(KittyReport(key, Some(1), None), true) == Drained([key], [])
    ensures Drain(KittyReport(key, Some(2), None), true) == Drained([ApplyShift(key)], [])
    ensures Drain(KittyReport(key, Some(mods), Some(text)), true) == Drained([text], [])
  {
    OneReport(key, None, None, key);
    OneReport(key, Some(1), None, key);
    OneReport(key, Some(2), None, ApplyShift(key));
    OneReport(key, Some(mods), Some(text), text);
  }

  lemma OneReport(key: nat, mods: Option<nat>, text: Option<nat>, b: Byte)
    requires key < 1000 && key != 27 && (mods.Some? ==> mods.value < 10) && (text.Some? ==> text.value < 1000)
    requires (match mods case None => Typed(key, 1, None) case Some(m) => Typed(key, m, text)) == Some(b)
    ensures Drain(KittyReport(key, mods, text), true) == Drained([b], [])
  {
    PrintRoundTrip(key);
    if mods.Some? { PrintRoundTrip(mods.value); }
    if text.Some? { PrintRoundTrip(text.value); }
    ReportMeans(key, mods, text);
    ReportIs(key, mods, text);
    OneKey(KittyReport(key, mods, text), b);
  }

  // The cap looks at the whole buffer, so a burst of short keys trips it.

  const SHIFT_TWO: seq<Byte> := [27, 91, 50, 55, 59, 50, 59, 54, 52, 126]   // ESC[27;2;64~

  lemma ShiftTwoIsKey()
    ensures SHIFT_TWO == ModifyOtherKey(2, 64) && KeyPush(SHIFT_TWO, 64)
  {
    assert Print(2) == [50] && Print(64) == [54, 52];
    var e := ModifyOther(Print(2), Print(64));
    PrintRoundTrip(2);
    PrintRoundTrip(64);
    assert EncodingOk(e) && Render(e) == SHIFT_TWO && Meaning(e) == Some(64);
  }

  lemma BurstTripsCap()
    ensures SHIFT_TWO == ModifyOtherKey(2, 64)
    ensures PushAll([], [SHIFT_TWO, SHIFT_TWO, SHIFT_TWO, SHIFT_TWO, SHIFT_TWO]) == Drained([64, 64, 64, 64, 64], [])
    ensures Drain(SHIFT_TWO + (SHIFT_TWO + SHIFT_TWO + SHIFT_TWO + SHIFT_TWO), true).out != [64, 64, 64, 64, 64]
    ensures !CapSilentOn(SHIFT_TWO + (SHIFT_TWO + SHIFT_TWO + SHIFT_TWO + SHIFT_TWO))
  {
    ShiftTwoIsKey();
    KeyByKey([SHIFT_TWO, SHIFT_TWO, SHIFT_TWO, SHIFT_TWO, SHIFT_TWO], [64, 64, 64, 64, 64]);
    var burst := SHIFT_TWO + (SHIFT_TWO + SHIFT_TWO + SHIFT_TWO + SHIFT_TWO);
    assert burst[..10] == SHIFT_TWO;
    EncodedIsScanned(burst, 10, 64);
    assert Bites(burst);
    assert Drain(burst, true).out[0] == ESC;
  }
}
