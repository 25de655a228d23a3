/**
 The ChaCha permutation over any kind of word that can be mixed and unmixed, so
 that what it does to sixteen words does not depend on arithmetic inside one.
 */
module ChaCha {
  import opened Bytes

  /**
   Operations on words. `arx(x, y, z, k)` is one add, xor and rotate: the new x is
   x + y, the new z is (z ^ new x) rotated left by k. Ten double rounds make twenty.
   */
  datatype Ops<!W> = Ops(
    doubleRounds: nat,
    arx: (W, W, W, nat) -> (W, W),
    unarx: (W, W, W, nat) -> (W, W),
    add: (W, W) -> W,
    word: nat -> W,
    load: seq<Byte> -> W,
    store: W -> seq<Byte>)

  predicate Rotation(k: nat) {
    k == 16 || k == 12 || k == 8 || k == 7
  }

  /** An arx step can be taken back, and a word is stored in four bytes. */
  ghost predicate Lawful<W(!new)>(ops: Ops<W>) {
    && (forall x: W, y: W, z: W, k: nat :: Rotation(k) ==>
          ops.unarx(ops.arx(x, y, z, k).0, y, ops.arx(x, y, z, k).1, k) == (x, z))
    && forall w: W :: |ops.store(w)| == 4
  }

  datatype Four<W> = Four(a: W, b: W, c: W, d: W)

  function Mix<W>(ops: Ops<W>, w: Four<W>): (r: Four<W>) {
    var (a1, d1) := ops.arx(w.a, w.b, w.d, 16);
    var (c1, b1) := ops.arx(w.c, d1, w.b, 12);
    var (a2, d2) := ops.arx(a1, b1, d1, 8);
    var (c2, b2) := ops.arx(c1, d2, b1, 7);
    Four(a2, b2, c2, d2)
  }

  function Unmix<W>(ops: Ops<W>, w: Four<W>): (r: Four<W>) {
    var (c1, b1) := ops.unarx(w.c, w.d, w.b, 7);
    var (a1, d1) := ops.unarx(w.a, b1, w.d, 8);
    var (c, b) := ops.unarx(c1, d1, b1, 12);
    var (a, d) := ops.unarx(a1, b, d1, 16);
    Four(a, b, c, d)
  }

  lemma UnmixMix<W(!new)>(ops: Ops<W>, w: Four<W>)
    requires Lawful(ops)
    ensures Unmix(ops, Mix(ops, w)) == w
  {
    var (a1, d1) := ops.arx(w.a, w.b, w.d, 16);
    var (c1, b1) := ops.arx(w.c, d1, w.b, 12);
    var (a2, d2) := ops.arx(a1, b1, d1, 8);
    assert Rotation(16) && Rotation(12) && Rotation(8) && Rotation(7);
    assert ops.unarx(ops.arx(c1, d2, b1, 7).0, d2, ops.arx(c1, d2, b1, 7).1, 7) == (c1, b1);
  }

  datatype Lanes = Lanes(a: nat, b: nat, c: nat, d: nat)

  predicate LanesOk(l: Lanes) {
    && l.a < 16 && l.b < 16 && l.c < 16 && l.d < 16
    && l.a != l.b && l.a != l.c && l.a != l.d && l.b != l.c && l.b != l.d && l.c != l.d
  }

  function Pick<W>(s: seq<W>, l: Lanes): (w: Four<W>)
    requires |s| == 16 && LanesOk(l)
  {
    Four(s[l.a], s[l.b], s[l.c], s[l.d])
  }

  function Place<W>(s: seq<W>, l: Lanes, w: Four<W>): (r: seq<W>)
    requires |s| == 16 && LanesOk(l)
    ensures |r| == 16
  {
    s[l.a := w.a][l.b := w.b][l.c := w.c][l.d := w.d]
  }

  function Quarter<W>(ops: Ops<W>, s: seq<W>, l: Lanes): (r: seq<W>)
    requires |s| == 16 && LanesOk(l)
    ensures |r| == 16
  {
    Place(s, l, Mix(ops, Pick(s, l)))
  }

  function Unquarter<W>(ops: Ops<W>, s: seq<W>, l: Lanes): (r: seq<W>)
    requires |s| == 16 && LanesOk(l)
    ensures |r| == 16
  {
    Place(s, l, Unmix(ops, Pick(s, l)))
  }

  lemma UnquarterQuarter<W(!new)>(ops: Ops<W>, s: seq<W>, l: Lanes)
    requires Lawful(ops) && |s| == 16 && LanesOk(l)
    ensures Unquarter(ops, Quarter(ops, s, l), l) == s
  {
    UnmixMix(ops, Pick(s, l));
    assert Pick(Quarter(ops, s, l), l) == Mix(ops, Pick(s, l));
  }

  /** Quarter-rounds down the columns and then along the diagonals. */
  const ROUND: seq<Lanes> := [
    Lanes(0, 4, 8, 12), Lanes(1, 5, 9, 13), Lanes(2, 6, 10, 14), Lanes(3, 7, 11, 15),
    Lanes(0, 5, 10, 15), Lanes(1, 6, 11, 12), Lanes(2, 7, 8, 13), Lanes(3, 4, 9, 14)]

  predicate AllOk(ls: seq<Lanes>) {
    forall i :: 0 <= i < |ls| ==> LanesOk(ls[i])
  }

  function Sweep<W>(ops: Ops<W>, s: seq<W>, ls: seq<Lanes>): (r: seq<W>)
    requires |s| == 16 && AllOk(ls)
    ensures |r| == 16
  {
    if ls == [] then s else Quarter(ops, Sweep(ops, s, ls[..|ls| - 1]), ls[|ls| - 1])
  }

  function Unsweep<W>(ops: Ops<W>, s: seq<W>, ls: seq<Lanes>): (r: seq<W>)
    requires |s| == 16 && AllOk(ls)
    ensures |r| == 16
    decreases |ls|
  {
    if ls == [] then s else Unsweep(ops, Unquarter(ops, s, ls[|ls| - 1]), ls[..|ls| - 1])
  }

  lemma {:induction false} UnsweepSweep<W(!new)>(ops: Ops<W>, s: seq<W>, ls: seq<Lanes>)
    requires Lawful(ops) && |s| == 16 && AllOk(ls)
    ensures Unsweep(ops, Sweep(ops, s, ls), ls) == s
  {
    if ls != [] {
      var k := |ls| - 1;
      UnquarterQuarter(ops, Sweep(ops, s, ls[..k]), ls[k]);
      UnsweepSweep(ops, s, ls[..k]);
    }
  }

  function Repeat<W>(ops: Ops<W>, s: seq<W>, ls: seq<Lanes>, n: nat): (r: seq<W>)
    requires |s| == 16 && AllOk(ls)
    ensures |r| == 16
  {
    if n == 0 then s else Sweep(ops, Repeat(ops, s, ls, n - 1), ls)
  }

  function Unrepeat<W>(ops: Ops<W>, s: seq<W>, ls: seq<Lanes>, n: nat): (r: seq<W>)
    requires |s| == 16 && AllOk(ls)
    ensures |r| == 16
    decreases n
  {
    if n == 0 then s else Unrepeat(ops, Unsweep(ops, s, ls), ls, n - 1)
  }

  lemma {:induction false} UnrepeatRepeat<W(!new)>(ops: Ops<W>, s: seq<W>, ls: seq<Lanes>, n: nat)
    requires Lawful(ops) && |s| == 16 && AllOk(ls)
    ensures Unrepeat(ops, Repeat(ops, s, ls, n), ls, n) == s
  {
    if n > 0 {
      UnsweepSweep(ops, Repeat(ops, s, ls, n - 1), ls);
      UnrepeatRepeat(ops, s, ls, n - 1);
    }
  }

  function Permuted<W>(ops: Ops<W>, s: seq<W>): (r: seq<W>)
    requires |s| == 16
    ensures |r| == 16
  {
    Repeat(ops, s, ROUND, ops.doubleRounds)
  }

  /** The rounds lose nothing: two states that end alike were alike. */
  lemma PermutedInjective<W(!new)>(ops: Ops<W>, s: seq<W>, t: seq<W>)
    requires Lawful(ops) && |s| == 16 && |t| == 16 && Permuted(ops, s) == Permuted(ops, t)
    ensures s == t
  {
    UnrepeatRepeat(ops, s, ROUND, ops.doubleRounds);
    UnrepeatRepeat(ops, t, ROUND, ops.doubleRounds);
  }

  // In place.

  method QuarterRound<W>(ops: Ops<W>, state: array<W>, l: Lanes)
    requires state.Length == 16 && LanesOk(l)
    modifies state
    ensures state[..] == Quarter(ops, old(state[..]), l)
  {
    ghost var s := state[..];
    var p := ops.arx(state[l.a], state[l.b], state[l.d], 16);
    state[l.a], state[l.d] := p.0, p.1;
    p := ops.arx(state[l.c], state[l.d], state[l.b], 12);
    state[l.c], state[l.b] := p.0, p.1;
    p := ops.arx(state[l.a], state[l.b], state[l.d], 8);
    state[l.a], state[l.d] := p.0, p.1;
    p := ops.arx(state[l.c], state[l.d], state[l.b], 7);
    state[l.c], state[l.b] := p.0, p.1;
    assert state[..] == Place(s, l, Mix(ops, Pick(s, l)));
  }

  method SweepRound<W>(ops: Ops<W>, state: array<W>, ls: seq<Lanes>)
    requires state.Length == 16 && AllOk(ls)
    modifies state
    ensures state[..] == Sweep(ops, old(state[..]), ls)
  {
    for i := 0 to |ls|
      invariant state[..] == Sweep(ops, old(state[..]), ls[..i])
    {
      QuarterRound(ops, state, ls[i]);
      assert ls[..i + 1][..i] == ls[..i];
    }
    assert ls[..|ls|] == ls;
  }

  method TwentyRounds<W>(ops: Ops<W>, state: array<W>)
    requires state.Length == 16
    modifies state
    ensures state[..] == Permuted(ops, old(state[..]))
  {
    for n := 0 to ops.doubleRounds
      invariant state[..] == Repeat(ops, old(state[..]), ROUND, n)
    {
      SweepRound(ops, state, ROUND);
    }
  }
}
