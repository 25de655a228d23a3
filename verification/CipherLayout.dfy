/**
 Where key, nonce and counter go in the cipher's states, word by word, and that nothing of
 them is lost on the way: stated of the words themselves, not of how the states are put together.
 */
module CipherLayout {
  import opened Bytes
  import opened ChaCha
  import opened XChaCha

  // Words and bytes.

  lemma ValueOfFour(a: Byte, b: Byte, c: Byte, d: Byte)
    ensures Value([a, b, c, d]) == ((a as int * 0x100 + b) * 0x100 + c) * 0x100 + d < U32
  {
    assert [a, b, c, d][..3] == [a, b, c] && [a, b, c][..2] == [a, b] && [a, b][..1] == [a] && [a][..0] == [];
    assert Value([a]) == a;
    assert Value([a, b]) == a as int * 0x100 + b;
    assert Value([a, b, c]) == (a as int * 0x100 + b) * 0x100 + c;
  }

  /** A loaded word is its four bytes, the first counting least. */
  lemma LoadIs(b: seq<Byte>)
    requires |b| >= 4
    ensures Load(b) == ((b[3] as int * 0x100 + b[2]) * 0x100 + b[1]) * 0x100 + b[0]
  {
    ValueOfFour(b[3], b[2], b[1], b[0]);
  }

  lemma SameLast(h: nat, l: Byte, h': nat, l': Byte)
    requires h * 0x100 + l == h' * 0x100 + l'
    ensures h == h' && l == l'
  {
  }

  lemma SameDigits(a: Byte, b: Byte, c: Byte, d: Byte, a': Byte, b': Byte, c': Byte, d': Byte)
    requires ((a as int * 0x100 + b) * 0x100 + c) * 0x100 + d == ((a' as int * 0x100 + b') * 0x100 + c') * 0x100 + d'
    ensures a == a' && b == b' && c == c' && d == d'
  {
    SameLast((a as int * 0x100 + b) * 0x100 + c, d, (a' as int * 0x100 + b') * 0x100 + c', d');
    SameLast(a as int * 0x100 + b, c, a' as int * 0x100 + b', c');
    SameLast(a, b, a', b');
  }

  /** Four bytes are told from the word they make. */
  lemma LoadInjective(a: seq<Byte>, b: seq<Byte>)
    requires |a| >= 4 && |b| >= 4 && Load(a) == Load(b)
    ensures a[..4] == b[..4]
  {
    LoadIs(a);
    LoadIs(b);
    SameDigits(a[3], a[2], a[1], a[0], b[3], b[2], b[1], b[0]);
  }

  /** The digits of a number in base 256. */
  lemma FourDigits(w: nat)
    requires w < U32
    ensures ((w / 0x100_0000 % 0x100 * 0x100 + w / 0x1_0000 % 0x100) * 0x100 + w / 0x100 % 0x100) * 0x100
            + w % 0x100 == w
  {
    assert w / 0x100 / 0x100 == w / 0x1_0000 && w / 0x1_0000 / 0x100 == w / 0x100_0000;
    assert w == w / 0x100 * 0x100 + w % 0x100;
    assert w / 0x100 == w / 0x1_0000 * 0x100 + w / 0x100 % 0x100;
    assert w / 0x1_0000 == w / 0x100_0000 * 0x100 + w / 0x1_0000 % 0x100;
  }

  /** A stored word is read back. */
  lemma StoreLoads(w: U32Word, b: seq<Byte>)
    requires |b| >= 4 && b[..4] == Store(w)
    ensures Load(b) == w
  {
    LoadIs(b);
    assert forall i :: 0 <= i < 4 ==> b[i] == b[..4][i];
    FourDigits(w);
  }

  lemma LoadPrefix(a: seq<Byte>, b: seq<Byte>)
    requires |a| >= 4 && |b| >= 4 && a[..4] == b[..4]
    ensures Load(a) == Load(b)
  {
    assert forall i :: 0 <= i < 4 ==> a[i] == a[..4][i] && b[i] == b[..4][i];
  }

  lemma ZeroLoads(tail: seq<Byte>)
    ensures Load([0, 0, 0, 0] + tail) == 0
  {
    LoadIs([0, 0, 0, 0] + tail);
  }

  /** Operations on 32-bit words as bytes hold them, with any lawful mixing and any number of rounds. */
  ghost predicate OnWords(ops: Ops<U32Word>) {
    Lawful(ops) && ops.load == Load && ops.store == Store && ops.word == Word && ops.add == Add
  }

  lemma WordsOnWords()
    ensures OnWords(WORDS)
  {
    WordsLawful();
  }

  lemma {:induction false} StoredAt<W(!new)>(ops: Ops<W>, words: seq<W>, i: nat)
    requires Lawful(ops) && i < |words|
    ensures |Stored(ops, words)| == 4 * |words|
    ensures Stored(ops, words)[4 * i..4 * i + 4] == ops.store(words[i])
    decreases |words|
  {
    var k := |words| - 1;
    StoredLength(ops, words);
    StoredLength(ops, words[..k]);
    if i < k {
      StoredAt(ops, words[..k], i);
      assert Stored(ops, words)[4 * i..4 * i + 4] == Stored(ops, words[..k])[4 * i..4 * i + 4];
    }
  }

  // The two states.

  predicate Constants16(s: seq<U32Word>) {
    |s| == 16 && s[0] == 0x6170_7865 && s[1] == 0x3320_646E && s[2] == 0x7962_2D32 && s[3] == 0x6B20_6574
  }

  /** Constants, the eight words of the key and the four of the nonce's first sixteen bytes. */
  predicate SubkeyState(key: seq<Byte>, nonce: seq<Byte>, s: seq<U32Word>)
    requires |key| == 32 && |nonce| == 24
  {
    && Constants16(s)
    && (forall j :: 4 <= j < 12 ==> s[j] == Load(key[4 * (j - 4)..]))
    && (forall j :: 12 <= j < 16 ==> s[j] == Load(nonce[4 * (j - 12)..]))
  }

  /** Constants, the outer words of the permuted first state, the counter, zero, the last eight bytes of the nonce. */
  predicate BlockState(permuted: seq<U32Word>, nonce: seq<Byte>, n: nat, s: seq<U32Word>)
    requires |permuted| == 16 && |nonce| == 24
  {
    && Constants16(s)
    && (forall j :: 4 <= j < 8 ==> s[j] == permuted[j - 4])
    && (forall j :: 8 <= j < 12 ==> s[j] == permuted[j + 4])
    && s[12] == n % U32 && s[13] == 0
    && s[14] == Load(nonce[16..]) && s[15] == Load(nonce[20..])
  }

  lemma LoadCut(b: seq<Byte>, i: nat, end: nat)
    requires i + 4 <= end <= |b|
    ensures Load(b[..end][i..]) == Load(b[i..])
  {
    assert b[..end][i..][..4] == b[i..][..4];
    LoadPrefix(b[..end][i..], b[i..]);
  }

  lemma SubkeyStateIs(ops: Ops<U32Word>, key: seq<Byte>, nonce: seq<Byte>, s: seq<U32Word>)
    requires OnWords(ops) && |key| == 32 && |nonce| == 24 && SubkeyState(key, nonce, s)
    ensures s == Constants(ops) + Loaded(ops, key) + Loaded(ops, nonce[..16])
  {
    var t := Constants(ops) + Loaded(ops, key) + Loaded(ops, nonce[..16]);
    forall j | 0 <= j < 16 ensures s[j] == t[j] {
      if j >= 12 { LoadCut(nonce, 4 * (j - 12), 16); }
    }
  }

  /** The derived key is the outer eight words, stored. */
  lemma SubkeyWord(ops: Ops<U32Word>, key: seq<Byte>, nonce: seq<Byte>, first: seq<U32Word>, i: nat)
    requires OnWords(ops) && |key| == 32 && |nonce| == 24 && SubkeyState(key, nonce, first) && i < 8
    ensures |Subkey(ops, key, nonce[..16])| == 32
    ensures var p := Permuted(ops, first);
            Load(Subkey(ops, key, nonce[..16])[4 * i..]) == if i < 4 then p[i] else p[8 + i]
  {
    var p := Permuted(ops, first);
    var words, sub := p[..4] + p[12..], Subkey(ops, key, nonce[..16]);
    SubkeyStateIs(ops, key, nonce, first);
    StoredAt(ops, words, i);
    assert sub[4 * i..][..4] == sub[4 * i..4 * i + 4];
    StoreLoads(words[i], sub[4 * i..]);
  }

  lemma TailWords(ops: Ops<U32Word>, nonce: seq<Byte>)
    requires OnWords(ops) && |nonce| == 24
    ensures var t := Loaded(ops, [0, 0, 0, 0] + nonce[16..]);
            t == [0, Load(nonce[16..]), Load(nonce[20..])]
  {
    var z := [0, 0, 0, 0] + nonce[16..];
    assert z[4 * 0..] == z && z[4 * 1..] == nonce[16..] && z[4 * 2..] == nonce[20..];
    ZeroLoads(nonce[16..]);
  }

  lemma BlockStateIs(ops: Ops<U32Word>, key: seq<Byte>, nonce: seq<Byte>, n: nat, first: seq<U32Word>, s: seq<U32Word>)
    requires OnWords(ops) && |key| == 32 && |nonce| == 24 && SubkeyState(key, nonce, first)
    requires BlockState(Permuted(ops, first), nonce, n, s)
    ensures s == Base(ops, key, nonce)[12 := Word(n)]
  {
    var sub := Subkey(ops, key, nonce[..16]);
    SubkeyWord(ops, key, nonce, first, 0);
    var loaded := Loaded(ops, sub);
    TailWords(ops, nonce);
    var t := Base(ops, key, nonce)[12 := Word(n)];
    forall j | 0 <= j < 16 ensures s[j] == t[j] {
      if 4 <= j < 12 {
        SubkeyWord(ops, key, nonce, first, j - 4);
        assert t[j] == loaded[j - 4];
      }
    }
  }

  /**
   The keystream, from the words up: block n is, word by word, the permuted block state
   plus the block state, where key and nonce went into the first state and its permuted
   outer words, the counter and the rest of the nonce into the second.
   */
  lemma KeystreamIs(ops: Ops<U32Word>, key: seq<Byte>, nonce: seq<Byte>, n: nat, first: seq<U32Word>,
                    s: seq<U32Word>, blocks: Supply, i: nat)
    requires OnWords(ops) && |key| == 32 && |nonce| == 24 && blocks == Keystream(ops, key, nonce) && i < 16
    requires SubkeyState(key, nonce, first) && BlockState(Permuted(ops, first), nonce, n, s)
    ensures blocks(n)[4 * i..4 * i + 4] == Store((Permuted(ops, s)[i] + s[i]) % U32)
  {
    BlockStateIs(ops, key, nonce, n, first, s);
    BlockWord(ops, Base(ops, key, nonce), n, s, i);
    assert blocks(n) == KeyBlock(ops, Base(ops, key, nonce), n);
  }

  lemma BlockWord(ops: Ops<U32Word>, base: seq<U32Word>, n: nat, s: seq<U32Word>, i: nat)
    requires OnWords(ops) && |base| == 16 && s == base[12 := Word(n)] && i < 16
    ensures |KeyBlock(ops, base, n)| == 64
    ensures KeyBlock(ops, base, n)[4 * i..4 * i + 4] == Store((Permuted(ops, s)[i] + s[i]) % U32)
  {
    var sums := Sums(ops, Permuted(ops, s), s);
    StoredAt(ops, sums, i);
    assert sums[i] == Add(Permuted(ops, s)[i], s[i]);
  }

  /** There are such states for every key, nonce and counter. */
  lemma StatesExist(ops: Ops<U32Word>, key: seq<Byte>, nonce: seq<Byte>, n: nat)
    returns (first: seq<U32Word>, s: seq<U32Word>)
    requires |key| == 32 && |nonce| == 24
    ensures SubkeyState(key, nonce, first) && BlockState(Permuted(ops, first), nonce, n, s)
  {
    var constants: seq<U32Word> := [0x6170_7865, 0x3320_646E, 0x7962_2D32, 0x6B20_6574];
    first := constants + seq(8, i requires 0 <= i < 8 => Load(key[4 * i..]))
             + seq(4, i requires 0 <= i < 4 => Load(nonce[4 * i..]));
    var p := Permuted(ops, first);
    s := constants + p[..4] + p[12..] + [n % U32, 0, Load(nonce[16..]), Load(nonce[20..])];
  }

  // Nothing is lost.

  /** Byte strings are told apart four bytes at a time. */
  lemma WordsTell(a: seq<Byte>, b: seq<Byte>)
    requires |a| == |b| && |a| % 4 == 0
    requires forall i :: 0 <= i < |a| / 4 ==> Load(a[4 * i..]) == Load(b[4 * i..])
    ensures a == b
  {
    forall j | 0 <= j < |a| ensures a[j] == b[j] {
      var i := j / 4;
      var x, y := a[4 * i..], b[4 * i..];
      LoadInjective(x, y);
      assert x[..4][j - 4 * i] == a[j] && y[..4][j - 4 * i] == b[j];
    }
  }

  /** Different keys, or different first halves of the nonce, are permuted into different states. */
  lemma KeysTellApart(ops: Ops<U32Word>, key: seq<Byte>, nonce: seq<Byte>, first: seq<U32Word>, key': seq<Byte>,
                               nonce': seq<Byte>, first': seq<U32Word>)
    requires OnWords(ops)
    requires |key| == 32 && |nonce| == 24 && SubkeyState(key, nonce, first)
    requires |key'| == 32 && |nonce'| == 24 && SubkeyState(key', nonce', first')
    ensures Permuted(ops, first) == Permuted(ops, first') <==> key == key' && nonce[..16] == nonce'[..16]
  {
    SubkeyStateIs(ops, key, nonce, first);
    SubkeyStateIs(ops, key', nonce', first');
    if Permuted(ops, first) == Permuted(ops, first') {
      PermutedInjective(ops, first, first');
      forall i | 0 <= i < 8 ensures Load(key[4 * i..]) == Load(key'[4 * i..]) {
        assert first[4 + i] == first'[4 + i];
      }
      WordsTell(key, key');
      forall i | 0 <= i < 4 ensures Load(nonce[..16][4 * i..]) == Load(nonce'[..16][4 * i..]) {
        assert first[12 + i] == first'[12 + i];
        LoadCut(nonce, 4 * i, 16);
        LoadCut(nonce', 4 * i, 16);
      }
      WordsTell(nonce[..16], nonce'[..16]);
    }
  }

  /** Blocks of different counters, second halves of the nonce or derived keys come from different permuted states. */
  lemma BlocksTellApart(ops: Ops<U32Word>, p: seq<U32Word>, nonce: seq<Byte>, n: nat, s: seq<U32Word>, p': seq<U32Word>,
                                 nonce': seq<Byte>, n': nat, s': seq<U32Word>)
    requires OnWords(ops)
    requires |p| == 16 && |nonce| == 24 && BlockState(p, nonce, n, s)
    requires |p'| == 16 && |nonce'| == 24 && BlockState(p', nonce', n', s')
    requires Permuted(ops, s) == Permuted(ops, s')
    ensures n % U32 == n' % U32 && nonce[16..] == nonce'[16..] && p[..4] == p'[..4] && p[12..] == p'[12..]
  {
    PermutedInjective(ops, s, s');
    forall i | 0 <= i < 4 ensures p[i] == p'[i] {
      assert s[4 + i] == s'[4 + i];
    }
    forall i | 12 <= i < 16 ensures p[i] == p'[i] {
      assert s[i - 4] == s'[i - 4];
    }
    var a, b := nonce[16..], nonce'[16..];
    forall i | 0 <= i < |a| / 4 ensures Load(a[4 * i..]) == Load(b[4 * i..]) {
      assert a[4..] == nonce[20..] && b[4..] == nonce'[20..] && a[0..] == a && b[0..] == b;
      if i == 0 { assert s[14] == s'[14]; } else { assert i == 1 && s[15] == s'[15]; }
    }
    WordsTell(a, b);
  }

  // The rounds.

  /** Ten times: each column of the four by four words, and then each diagonal. */
  lemma RoundIsColumnsAndDiagonals(i: nat)
    requires i < 4
    ensures |ROUND| == 8 && WORDS.doubleRounds == 10
    ensures ROUND[i] == Lanes(i, 4 + i, 8 + i, 12 + i)
    ensures ROUND[4 + i] == Lanes(i, 4 + (i + 1) % 4, 8 + (i + 2) % 4, 12 + (i + 3) % 4)
  {
  }

  /** A word times a power of two, with what falls off the top put back at the bottom. */
  lemma RotateIs(w: U32Word)
    ensures RotateLeft(w, 16) == w * 0x1_0000 % U32 + w / 0x1_0000
    ensures RotateLeft(w, 12) == w * 0x1000 % U32 + w / 0x10_0000
    ensures RotateLeft(w, 8) == w * 0x100 % U32 + w / 0x100_0000
    ensures RotateLeft(w, 7) == w * 0x80 % U32 + w / 0x200_0000
  {
    ShiftIs(w, 0x1_0000, 0x1_0000);
    ShiftIs(w, 0x1000, 0x10_0000);
    ShiftIs(w, 0x100, 0x100_0000);
    ShiftIs(w, 0x80, 0x200_0000);
  }

  lemma Spread(h: nat, l: nat, p: nat, q: nat)
    ensures (h * q + l) * p == h * (p * q) + l * p
  {
  }

  lemma ShiftIs(w: nat, p: nat, q: nat)
    requires p > 0 && q > 0
    ensures w % q * p == w * p % (p * q)
  {
    var h, l := w / q, w % q;
    Spread(h, l, p, q);
    Monotone(l, q, p);
    DivUnique(w * p, p * q, h, l * p);
  }

  /** One step is an addition, an exclusive or and a rotation. */
  ghost predicate AddXorRotate<W(!new)>(ops: Ops<W>, add: (W, W) -> W, xor: (W, W) -> W, rotate: (W, nat) -> W) {
    forall x: W, y: W, z: W, k: nat :: Rotation(k) ==>
      ops.arx(x, y, z, k) == (add(x, y), rotate(xor(z, add(x, y)), k))
  }

  function Rotate(w: U32Word, k: nat): (r: U32Word) {
    if Rotation(k) then RotateLeft(w, k) else w
  }

  lemma WordsAddXorRotate()
    ensures AddXorRotate(WORDS, Add, XorWord, Rotate)
  {
    forall x: U32Word, y: U32Word, z: U32Word, k: nat | Rotation(k)
      ensures Arx(x, y, z, k) == (Add(x, y), Rotate(XorWord(z, Add(x, y)), k))
    {
    }
  }

  /** Section 2.1 of RFC 8439: the eight assignments of a quarter round. */
  lemma QuarterIs<W(!new)>(ops: Ops<W>, add: (W, W) -> W, xor: (W, W) -> W, rotate: (W, nat) -> W, w: Four<W>)
    requires AddXorRotate(ops, add, xor, rotate)
    ensures var a := add(w.a, w.b);
            var d := rotate(xor(w.d, a), 16);
            var c := add(w.c, d);
            var b := rotate(xor(w.b, c), 12);
            var a' := add(a, b);
            var d' := rotate(xor(d, a'), 8);
            var c' := add(c, d');
            var b' := rotate(xor(b, c'), 7);
            Mix(ops, w) == Four(a', b', c', d')
  {
    assert Rotation(16) && Rotation(12) && Rotation(8) && Rotation(7);
  }
}
