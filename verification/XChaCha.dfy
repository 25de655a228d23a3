/** XChaCha20 as a raw stream: keystream bytes from key and nonce, xored onto the data. */
module XChaCha {
  import opened Bytes
  import opened ChaCha

  // Exclusive or, bit by bit.

  function Pow2(k: nat): (p: nat)
    ensures p >= 1
  {
    if k == 0 then 1 else 2 * Pow2(k - 1)
  }

  /** The k low bits of a and b, each bit one exactly where they differ. */
  function XorBits(a: nat, b: nat, k: nat): (r: nat)
    ensures r < Pow2(k)
  {
    if k == 0 then 0 else 2 * XorBits(a / 2, b / 2, k - 1) + (a + b) % 2
  }

  function Bit(n: nat, i: nat): (b: bool) {
    if i == 0 then n % 2 == 1 else Bit(n / 2, i - 1)
  }

  lemma LowBit(a: nat, b: nat, h: nat, x: nat)
    requires x == 2 * h + (a + b) % 2
    ensures x / 2 == h && x % 2 == (a + b) % 2 && (x + b) % 2 == a % 2
  {
  }

  lemma {:induction false} XorBitwise(a: nat, b: nat, k: nat, i: nat)
    requires i < k
    ensures Bit(XorBits(a, b, k), i) == (Bit(a, i) != Bit(b, i))
  {
    LowBit(a, b, XorBits(a / 2, b / 2, k - 1), XorBits(a, b, k));
    if i > 0 { XorBitwise(a / 2, b / 2, k - 1, i - 1); }
  }

  lemma {:induction false} XorTwice(a: nat, b: nat, k: nat)
    requires a < Pow2(k)
    ensures XorBits(XorBits(a, b, k), b, k) == a
  {
    if k > 0 {
      XorTwice(a / 2, b / 2, k - 1);
      LowBit(a, b, XorBits(a / 2, b / 2, k - 1), XorBits(a, b, k));
    }
  }

  lemma {:induction false} Pow2Sum(j: nat, k: nat)
    ensures Pow2(j + k) == Pow2(j) * Pow2(k)
  {
    if j > 0 { Pow2Sum(j - 1, k); }
  }

  lemma Pow2Values()
    ensures Pow2(8) == 0x100 && Pow2(32) == 0x1_0000_0000
  {
    assert Pow2(8) == 0x100;
    Pow2Sum(8, 8);
    Pow2Sum(16, 16);
  }

  function Xor(a: Byte, b: Byte): (r: Byte) {
    Pow2Values();
    XorBits(a, b, 8)
  }

  lemma XorUndone(a: Byte, b: Byte)
    ensures Xor(Xor(a, b), b) == a
  {
    Pow2Values();
    XorTwice(a, b, 8);
  }

  // 32-bit words.

  const U32: nat := 0x1_0000_0000

  type U32Word = w: int | 0 <= w < U32

  function Word(n: nat): (w: U32Word) {
    n % U32
  }

  function Add(x: U32Word, y: U32Word): (r: U32Word) {
    (x + y) % U32
  }

  function XorWord(x: U32Word, y: U32Word): (r: U32Word) {
    Pow2Values();
    XorBits(x, y, 32)
  }

  /** With w = h * q + l, the digits h and l change places. */
  function Swap(w: nat, p: nat, q: nat): (r: int)
    requires q > 0
  {
    w % q * p + w / q
  }

  lemma Monotone(a: nat, b: nat, c: nat)
    ensures a < b ==> (a + 1) * c <= b * c
  {
  }

  lemma DivUnique(n: nat, p: nat, l: nat, h: nat)
    requires p > 0 && h < p && n == l * p + h
    ensures n / p == l && n % p == h
  {
    var d := n / p;
    assert n == d * p + n % p;
    Monotone(d, l, p);
    Monotone(l, d, p);
  }

  lemma SwapUndone(w: nat, p: nat, q: nat)
    requires p > 0 && q > 0 && w < p * q
    ensures 0 <= Swap(w, p, q) < p * q && Swap(Swap(w, p, q), q, p) == w
  {
    var h, l := w / q, w % q;
    assert w == h * q + l;
    QuotientBelow(w, p, q);
    SwapBelow(h, l, p, q);
    DivUnique(l * p + h, p, l, h);
  }

  lemma QuotientBelow(w: nat, p: nat, q: nat)
    requires p > 0 && q > 0 && w < p * q
    ensures w / q < p
  {
    Monotone(p - 1, w / q, q);
  }

  lemma SwapBelow(h: nat, l: nat, p: nat, q: nat)
    requires h < p && l < q
    ensures 0 <= l * p + h < p * q
  {
    Monotone(l, q, p);
    assert (l + 1) * p == l * p + p;
  }

  /** The top k bits move below the others; the permutation uses these four amounts. */
  function RotateLeft(w: U32Word, k: nat): (r: U32Word)
    requires Rotation(k)
  {
    RotationsUndone(w);
    if k == 16 then Swap(w, 0x1_0000, 0x1_0000)
    else if k == 12 then Swap(w, 0x1000, 0x10_0000)
    else if k == 8 then Swap(w, 0x100, 0x100_0000)
    else Swap(w, 0x80, 0x200_0000)
  }

  function RotateRight(w: U32Word, k: nat): (r: U32Word)
    requires Rotation(k)
  {
    RotationsUndone(w);
    if k == 16 then Swap(w, 0x1_0000, 0x1_0000)
    else if k == 12 then Swap(w, 0x10_0000, 0x1000)
    else if k == 8 then Swap(w, 0x100_0000, 0x100)
    else Swap(w, 0x200_0000, 0x80)
  }

  lemma RotationsUndone(w: U32Word)
    ensures var r := Swap(w, 0x1_0000, 0x1_0000); 0 <= r < U32 && Swap(r, 0x1_0000, 0x1_0000) == w
    ensures var r := Swap(w, 0x1000, 0x10_0000); 0 <= r < U32 && Swap(r, 0x10_0000, 0x1000) == w
    ensures var r := Swap(w, 0x100, 0x100_0000); 0 <= r < U32 && Swap(r, 0x100_0000, 0x100) == w
    ensures var r := Swap(w, 0x80, 0x200_0000); 0 <= r < U32 && Swap(r, 0x200_0000, 0x80) == w
    ensures 0 <= Swap(w, 0x10_0000, 0x1000) < U32
    ensures 0 <= Swap(w, 0x100_0000, 0x100) < U32
    ensures 0 <= Swap(w, 0x200_0000, 0x80) < U32
  {
    SwapUndone(w, 0x1_0000, 0x1_0000);
    SwapUndone(w, 0x1000, 0x10_0000);
    SwapUndone(w, 0x100, 0x100_0000);
    SwapUndone(w, 0x80, 0x200_0000);
    SwapUndone(w, 0x10_0000, 0x1000);
    SwapUndone(w, 0x100_0000, 0x100);
    SwapUndone(w, 0x200_0000, 0x80);
  }

  lemma RotateUndone(w: U32Word, k: nat)
    requires Rotation(k)
    ensures RotateRight(RotateLeft(w, k), k) == w
  {
    RotationsUndone(w);
  }

  function Arx(x: U32Word, y: U32Word, z: U32Word, k: nat): (r: (U32Word, U32Word)) {
    if Rotation(k) then (Add(x, y), RotateLeft(XorWord(z, Add(x, y)), k)) else (x, z)
  }

  function Unarx(x: U32Word, y: U32Word, z: U32Word, k: nat): (r: (U32Word, U32Word)) {
    if Rotation(k) then ((x - y) % U32, XorWord(RotateRight(z, k), x)) else (x, z)
  }

  lemma AddUndone(x: U32Word, y: U32Word)
    ensures (Add(x, y) - y) % U32 == x
  {
  }

  lemma XorWordUndone(x: U32Word, y: U32Word)
    ensures XorWord(XorWord(x, y), y) == x
  {
    Pow2Values();
    XorTwice(x, y, 32);
  }

  lemma MixedUndone(z: U32Word, s: U32Word, k: nat)
    requires Rotation(k)
    ensures XorWord(RotateRight(RotateLeft(XorWord(z, s), k), k), s) == z
  {
    var m := XorWord(z, s);
    XorWordUndone(z, s);
    RotateUndone(m, k);
  }

  lemma ArxUndone(x: U32Word, y: U32Word, z: U32Word, k: nat)
    requires Rotation(k)
    ensures Unarx(Arx(x, y, z, k).0, y, Arx(x, y, z, k).1, k) == (x, z)
  {
    AddUndone(x, y);
    MixedUndone(z, Add(x, y), k);
  }

  /** Little-endian, from the first four bytes. */
  function Load(b: seq<Byte>): (w: U32Word) {
    if |b| < 4 then 0 else Value([b[3], b[2], b[1], b[0]]) % U32
  }

  function Store(w: U32Word): (b: seq<Byte>)
    ensures |b| == 4
  {
    [w % 0x100, w / 0x100 % 0x100, w / 0x1_0000 % 0x100, w / 0x100_0000 % 0x100]
  }

  const WORDS: Ops<U32Word> := Ops(10, Arx, Unarx, Add, Word, Load, Store)

  lemma WordsLawful()
    ensures Lawful(WORDS)
  {
    forall x: U32Word, y: U32Word, z: U32Word, k: nat | Rotation(k)
      ensures WORDS.unarx(WORDS.arx(x, y, z, k).0, y, WORDS.arx(x, y, z, k).1, k) == (x, z)
    {
      ArxUndone(x, y, z, k);
    }
  }

  // The keystream.

  function Constants<W>(ops: Ops<W>): (r: seq<W>)
    ensures |r| == 4
  {
    [ops.word(0x6170_7865), ops.word(0x3320_646E), ops.word(0x7962_2D32), ops.word(0x6B20_6574)]
  }

  /** Consecutive little-endian words. */
  function Loaded<W>(ops: Ops<W>, bytes: seq<Byte>): (r: seq<W>)
    ensures |r| == |bytes| / 4
  {
    seq(|bytes| / 4, i requires 0 <= i < |bytes| / 4 => ops.load(bytes[4 * i..]))
  }

  function Stored<W>(ops: Ops<W>, words: seq<W>): (r: seq<Byte>) {
    if words == [] then [] else Stored(ops, words[..|words| - 1]) + ops.store(words[|words| - 1])
  }

  /** HChaCha20: the rounds without the final addition, words 0 to 3 and 12 to 15. */
  function Subkey<W>(ops: Ops<W>, key: seq<Byte>, nonce: seq<Byte>): (r: seq<Byte>)
    requires |key| == 32 && |nonce| == 16
  {
    var s := Permuted(ops, Constants(ops) + Loaded(ops, key) + Loaded(ops, nonce));
    Stored(ops, s[..4] + s[12..])
  }

  lemma {:induction false} StoredLength<W(!new)>(ops: Ops<W>, words: seq<W>)
    requires Lawful(ops)
    ensures |Stored(ops, words)| == 4 * |words|
  {
    if words != [] { StoredLength(ops, words[..|words| - 1]); }
  }

  /** The block function's input, before the counter. */
  ghost function Base<W(!new)>(ops: Ops<W>, key: seq<Byte>, nonce: seq<Byte>): (r: seq<W>)
    requires Lawful(ops) && |key| == 32 && |nonce| == 24
    ensures |r| == 16
  {
    var subkey := Subkey(ops, key, nonce[..16]);
    var s := Permuted(ops, Constants(ops) + Loaded(ops, key) + Loaded(ops, nonce[..16]));
    StoredLength(ops, s[..4] + s[12..]);
    Constants(ops) + Loaded(ops, subkey) + [ops.word(0)] + Loaded(ops, [0, 0, 0, 0] + nonce[16..])
  }

  function Sums<W>(ops: Ops<W>, a: seq<W>, b: seq<W>): (r: seq<W>)
    requires |a| == 16 && |b| == 16
    ensures |r| == 16
  {
    seq(16, i requires 0 <= i < 16 => ops.add(a[i], b[i]))
  }

  /** Block n of the keystream; the counter is a 32-bit word. */
  function KeyBlock<W>(ops: Ops<W>, base: seq<W>, n: nat): (r: seq<Byte>)
    requires |base| == 16
  {
    var state := base[12 := ops.word(n)];
    Stored(ops, Sums(ops, Permuted(ops, state), state))
  }

  lemma KeyBlockLength<W(!new)>(ops: Ops<W>, base: seq<W>, n: nat)
    requires Lawful(ops) && |base| == 16
    ensures |KeyBlock(ops, base, n)| == 64
  {
    var state := base[12 := ops.word(n)];
    StoredLength(ops, Sums(ops, Permuted(ops, state), state));
  }

  // A stream cipher from any supply of 64-byte blocks.

  type Supply = f: nat -> seq<Byte> | forall n :: |f(n)| == 64 witness n => seq(64, i => 0)

  /** Byte i of the data meets byte i of the keystream. */
  function Streamed(blocks: Supply, data: seq<Byte>): (r: seq<Byte>)
    ensures |r| == |data|
  {
    seq(|data|, i requires 0 <= i < |data| => Xor(data[i], blocks(i / 64)[i % 64]))
  }

  /** Each bit is flipped where the keystream has a one. */
  lemma StreamedBit(blocks: Supply, data: seq<Byte>, i: nat, bit: nat)
    requires i < |data| && bit < 8
    ensures Bit(Streamed(blocks, data)[i], bit) == (Bit(data[i], bit) != Bit(blocks(i / 64)[i % 64], bit))
  {
    XorBitwise(data[i], blocks(i / 64)[i % 64], 8, bit);
  }

  /** Decryption is the same operation. */
  lemma StreamedTwice(blocks: Supply, data: seq<Byte>)
    ensures Streamed(blocks, Streamed(blocks, data)) == data
  {
    forall i | 0 <= i < |data| ensures Streamed(blocks, Streamed(blocks, data))[i] == data[i] {
      XorUndone(data[i], blocks(i / 64)[i % 64]);
    }
  }

  /** The start of the data is hidden alike whatever follows it. */
  lemma StreamedPrefix(blocks: Supply, data: seq<Byte>, more: seq<Byte>)
    ensures Streamed(blocks, data + more)[..|data|] == Streamed(blocks, data)
  {
  }

  lemma ChunkAligned(blocks: Supply, data: seq<Byte>, index: nat, end: nat, piece: seq<Byte>)
    requires 64 * index <= end <= |data| && end <= 64 * index + 64 && |piece| == end - 64 * index
    requires forall i :: 0 <= i < |piece| ==> piece[i] == Xor(data[64 * index + i], blocks(index)[i])
    ensures Streamed(blocks, data)[..64 * index] + piece == Streamed(blocks, data)[..end]
  {
    forall i | 64 * index <= i < end ensures Streamed(blocks, data)[i] == piece[i - 64 * index] {
      assert i / 64 == index && i % 64 == i - 64 * index;
    }
  }

  /** The blocks that a key and nonce supply. */
  ghost function Keystream<W(!new)>(ops: Ops<W>, key: seq<Byte>, nonce: seq<Byte>): (blocks: Supply)
    requires Lawful(ops) && |key| == 32 && |nonce| == 24
  {
    var base := Base(ops, key, nonce);
    assert forall n :: |KeyBlock(ops, base, n)| == 64 by {
      forall n ensures |KeyBlock(ops, base, n)| == 64 { KeyBlockLength(ops, base, n); }
    }
    n => KeyBlock(ops, base, n)
  }

  // The same, step by step.

  lemma StoredSnoc<W>(ops: Ops<W>, s: seq<W>, i: nat, j: nat)
    requires i <= j < |s|
    ensures Stored(ops, s[i..j + 1]) == Stored(ops, s[i..j]) + ops.store(s[j])
  {
    assert s[i..j + 1][..j - i] == s[i..j];
  }

  method Permute<W>(ops: Ops<W>, start: seq<W>) returns (s: seq<W>)
    requires |start| == 16
    ensures s == Permuted(ops, start)
  {
    var state := new W[16](i requires 0 <= i < 16 => start[i]);
    assert state[..] == start;
    TwentyRounds(ops, state);
    s := state[..];
  }

  method StoreAll<W>(ops: Ops<W>, words: seq<W>) returns (out: seq<Byte>)
    ensures out == Stored(ops, words)
  {
    out := [];
    for i := 0 to |words|
      invariant out == Stored(ops, words[0..i])
    {
      StoredSnoc(ops, words, 0, i);
      out := out + ops.store(words[i]);
    }
    assert words[0..|words|] == words;
  }

  method HChaCha20<W>(ops: Ops<W>, key: seq<Byte>, nonce: seq<Byte>) returns (out: seq<Byte>)
    requires |key| == 32 && |nonce| == 16
    ensures out == Subkey(ops, key, nonce)
  {
    var s := Permute(ops, Constants(ops) + Loaded(ops, key) + Loaded(ops, nonce));
    out := StoreAll(ops, s[..4] + s[12..]);
  }

  method Block<W>(ops: Ops<W>, base: seq<W>, n: nat) returns (keystream: seq<Byte>)
    requires |base| == 16
    ensures keystream == KeyBlock(ops, base, n)
  {
    var state := base[12 := ops.word(n)];
    var working := Permute(ops, state);
    keystream := StoreAll(ops, Sums(ops, working, state));
  }

  function End(index: nat, n: nat): (e: nat) {
    if 64 * index < n then 64 * index else n
  }

  /** One piece of the data under one block of the keystream. */
  function Piece(block: seq<Byte>, keystream: seq<Byte>): (r: seq<Byte>)
    requires |block| <= |keystream|
    ensures |r| == |block|
  {
    seq(|block|, i requires 0 <= i < |block| => Xor(block[i], keystream[i]))
  }

  lemma PieceFollows(blocks: Supply, data: seq<Byte>, index: nat)
    requires 64 * index < |data|
    ensures Streamed(blocks, data)[..End(index, |data|)]
            + Piece(data[64 * index..End(index + 1, |data|)], blocks(index))
            == Streamed(blocks, data)[..End(index + 1, |data|)]
  {
    var end := End(index + 1, |data|);
    ChunkAligned(blocks, data, index, end, Piece(data[64 * index..end], blocks(index)));
  }

  /** The loop over 64-byte pieces of the data, the last perhaps shorter. */
  method XorChunks<W(!new)>(ops: Ops<W>, base: seq<W>, ghost blocks: Supply, data: seq<Byte>) returns (out: seq<Byte>)
    requires |base| == 16 && forall n :: blocks(n) == KeyBlock(ops, base, n)
    ensures out == Streamed(blocks, data)
  {
    out := [];
    var index := 0;
    while 64 * index < |data|
      invariant out == Streamed(blocks, data)[..End(index, |data|)]
      decreases |data| - 64 * index
    {
      var keystream := Block(ops, base, index);
      PieceFollows(blocks, data, index);
      out := out + Piece(data[64 * index..End(index + 1, |data|)], keystream);
      index := index + 1;
    }
  }

  method XChaCha20Xor<W(!new)>(ops: Ops<W>, key: seq<Byte>, nonce: seq<Byte>, data: seq<Byte>) returns (out: seq<Byte>)
    requires Lawful(ops) && |key| == 32 && |nonce| == 24
    ensures out == Streamed(Keystream(ops, key, nonce), data)
  {
    var subkey := HChaCha20(ops, key, nonce[..16]);
    var base := Constants(ops) + Loaded(ops, subkey) + [ops.word(0)] + Loaded(ops, [0, 0, 0, 0] + nonce[16..]);
    assert base == Base(ops, key, nonce);
    out := XorChunks(ops, base, Keystream(ops, key, nonce), data);
  }
}
