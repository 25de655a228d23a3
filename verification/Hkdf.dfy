/** HKDF-SHA256 with an all-zero salt (section 2 of RFC 5869); HMAC is a parameter. */
module Hkdf {
  import opened Bytes
  import opened Options

  const HASH: nat := 32

  type Hmac = (seq<Byte>, seq<Byte>) -> seq<Byte>

  ghost predicate Digests(hmac: Hmac) {
    forall k: seq<Byte>, m: seq<Byte> :: |hmac(k, m)| == HASH
  }

  function Prk(hmac: Hmac, ikm: seq<Byte>): (k: seq<Byte>) {
    hmac(seq(HASH, i => 0), ikm)
  }

  /** T(i) of section 2.3, the counter being one byte. */
  function Block(hmac: Hmac, prk: seq<Byte>, info: seq<Byte>, i: nat): (t: seq<Byte>) {
    if i == 0 then [] else hmac(prk, Block(hmac, prk, info, i - 1) + info + [i % 256])
  }

  /** T(1) | ... | T(k) */
  function Blocks(hmac: Hmac, prk: seq<Byte>, info: seq<Byte>, k: nat): (t: seq<Byte>) {
    if k == 0 then [] else Blocks(hmac, prk, info, k - 1) + Block(hmac, prk, info, k)
  }

  lemma {:induction false} BlocksLength(hmac: Hmac, prk: seq<Byte>, info: seq<Byte>, k: nat)
    requires Digests(hmac)
    ensures |Blocks(hmac, prk, info, k)| == HASH * k
  {
    if k > 0 { BlocksLength(hmac, prk, info, k - 1); }
  }

  lemma {:induction false} BlocksPrefix(hmac: Hmac, prk: seq<Byte>, info: seq<Byte>, j: nat, k: nat)
    requires j <= k
    ensures Blocks(hmac, prk, info, j) <= Blocks(hmac, prk, info, k)
  {
    if j < k { BlocksPrefix(hmac, prk, info, j, k - 1); }
  }

  function BlocksFor(length: nat): (k: nat) {
    (length + HASH - 1) / HASH
  }

  ghost function Okm(hmac: Hmac, ikm: seq<Byte>, info: seq<Byte>, length: nat): (r: seq<Byte>)
    requires Digests(hmac)
    ensures |r| == length
  {
    BlocksLength(hmac, Prk(hmac, ikm), info, BlocksFor(length));
    Blocks(hmac, Prk(hmac, ikm), info, BlocksFor(length))[..length]
  }

  /** A shorter output is a prefix of a longer one. */
  lemma OkmPrefix(hmac: Hmac, ikm: seq<Byte>, info: seq<Byte>, m: nat, n: nat)
    requires Digests(hmac) && m <= n
    ensures Okm(hmac, ikm, info, m) == Okm(hmac, ikm, info, n)[..m]
  {
    var prk := Prk(hmac, ikm);
    var j, k := BlocksFor(m), BlocksFor(n);
    BlocksLength(hmac, prk, info, j);
    BlocksLength(hmac, prk, info, k);
    BlocksPrefix(hmac, prk, info, j, k);
    assert Blocks(hmac, prk, info, k)[..n][..m] == Blocks(hmac, prk, info, j)[..m];
  }

  /** Byte p of the output is byte p % 32 of T(p / 32 + 1), with the RFC's counter as long as it lasts. */
  lemma OkmIsBlocks(hmac: Hmac, ikm: seq<Byte>, info: seq<Byte>, length: nat, p: nat)
    requires Digests(hmac) && p < length
    ensures |Block(hmac, Prk(hmac, ikm), info, p / HASH + 1)| == HASH
    ensures Okm(hmac, ikm, info, length)[p] == Block(hmac, Prk(hmac, ikm), info, p / HASH + 1)[p % HASH]
  {
    var prk := Prk(hmac, ikm);
    var k := p / HASH + 1;
    BlocksLength(hmac, prk, info, k - 1);
    BlocksLength(hmac, prk, info, k);
    BlocksLength(hmac, prk, info, BlocksFor(length));
    BlocksPrefix(hmac, prk, info, k, BlocksFor(length));
    var all := Blocks(hmac, prk, info, BlocksFor(length));
    assert all[..HASH * k] == Blocks(hmac, prk, info, k-1) + Block(hmac, prk, info, k);
  }

  /** A 32-byte output is one HMAC over info and a single 1, keyed by an HMAC of the input under 32 zero bytes. */
  lemma OneBlock(hmac: Hmac, ikm: seq<Byte>, info: seq<Byte>, zeros: seq<Byte>)
    requires Digests(hmac) && |zeros| == 32 && forall i :: 0 <= i < 32 ==> zeros[i] == 0
    ensures Okm(hmac, ikm, info, 32) == hmac(hmac(zeros, ikm), info + [1])
  {
    assert zeros == seq(HASH, i => 0);
    var prk := Prk(hmac, ikm);
    assert [] + info + [1] == info + [1];
    assert Blocks(hmac, prk, info, 1) == Block(hmac, prk, info, 1);
    assert Block(hmac, prk, info, 1) == hmac(prk, info + [1]);
  }

  /** Output block i, of 32 bytes. */
  function Part(okm: seq<Byte>, i: nat): (r: seq<Byte>)
    requires HASH * (i + 1) <= |okm|
  {
    okm[HASH * i..HASH * (i + 1)]
  }

  lemma PartIsBlock(hmac: Hmac, ikm: seq<Byte>, info: seq<Byte>, length: nat, i: nat)
    requires Digests(hmac) && HASH * (i + 1) <= length
    ensures Part(Okm(hmac, ikm, info, length), i) == Block(hmac, Prk(hmac, ikm), info, i + 1)
  {
    var prk, n := Prk(hmac, ikm), BlocksFor(length);
    BlocksLength(hmac, prk, info, i);
    BlocksLength(hmac, prk, info, i + 1);
    BlocksLength(hmac, prk, info, n);
    BlocksPrefix(hmac, prk, info, i + 1, n);
    assert Blocks(hmac, prk, info, n)[..HASH * (i + 1)] == Blocks(hmac, prk, info, i) + Block(hmac, prk, info, i + 1);
  }

  /** Each block is an HMAC over the block before it, info, and its own number, up to the 255 the RFC allows. */
  lemma OkmChains(hmac: Hmac, ikm: seq<Byte>, info: seq<Byte>, length: nat, i: nat)
    requires Digests(hmac) && 0 < i < 255 && HASH * (i + 1) <= length
    ensures var okm := Okm(hmac, ikm, info, length);
            Part(okm, i) == hmac(Prk(hmac, ikm), Part(okm, i - 1) + info + [i + 1])
  {
    PartIsBlock(hmac, ikm, info, length, i);
    PartIsBlock(hmac, ikm, info, length, i - 1);
  }

  lemma MoreBlocks(length: nat, k: nat)
    requires HASH * k < length
    ensures k + 1 <= BlocksFor(length)
  {
  }

  lemma NextCounter(k: nat, counter: nat)
    requires counter == (k + 1) % 256
    ensures (counter + 1) % 256 == (k + 2) % 256
    ensures k <= 254 ==> (counter == 255 <==> k == 254)
  {
  }

  lemma LastBlock(length: nat, k: nat)
    requires HASH * k >= length && k <= BlocksFor(length)
    ensures k == BlocksFor(length)
  {
  }

  /** One more block: the next T, and all of them so far. */
  lemma NextBlock(hmac: Hmac, prk: seq<Byte>, info: seq<Byte>, k: nat, counter: Byte)
    requires Digests(hmac) && counter == (k + 1) % 256
    ensures hmac(prk, Block(hmac, prk, info, k) + info + [counter]) == Block(hmac, prk, info, k + 1)
    ensures Blocks(hmac, prk, info, k) + Block(hmac, prk, info, k + 1) == Blocks(hmac, prk, info, k + 1)
    ensures |Block(hmac, prk, info, k + 1)| == HASH
  {
  }

  /**
   The expand loop. A build with overflow checks panics when the counter leaves a
   byte (None here); one without wraps.
   */
  method HkdfSha256(hmac: Hmac, ikm: seq<Byte>, info: seq<Byte>, length: nat,
                    checked: bool) returns (r: Option<seq<Byte>>)
    requires Digests(hmac)
    ensures r.None? <==> checked && BlocksFor(length) > 254
    ensures r.Some? ==> r.value == Okm(hmac, ikm, info, length)
  {
    var prk := Prk(hmac, ikm);
    var out, previous: seq<Byte> := [], [];
    var counter: int := 1;
    ghost var k := 0;
    while |out| < length
      invariant counter == (k + 1) % 256 && (checked ==> k <= 254)
      invariant |out| == HASH * k && k <= BlocksFor(length)
      invariant previous == Block(hmac, prk, info, k) && out == Blocks(hmac, prk, info, k)
      decreases length + HASH - |out|
    {
      MoreBlocks(length, k);
      NextCounter(k, counter);
      NextBlock(hmac, prk, info, k, counter);
      previous := hmac(prk, previous + info + [counter]);
      out := out + previous;
      k := k + 1;
      if checked && counter == 255 {
        return None;
      }
      counter := (counter + 1) % 256;
    }
    LastBlock(length, k);
    return Some(out[..length]);
  }
}
