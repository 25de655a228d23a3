/** Decimal numerals as ASCII bytes. */
module Decimal {
  import opened Bytes

  predicate IsDigit(b: Byte) {
    48 <= b <= 57
  }

  predicate AllDigits(s: seq<Byte>) {
    forall i :: 0 <= i < |s| ==> IsDigit(s[i])
  }

  /** The number a digit string stands for. */
  function Number(s: seq<Byte>): (n: nat)
    requires AllDigits(s)
    decreases |s|
  {
    if s == [] then 0 else Number(s[..|s| - 1]) * 10 + (s[|s| - 1] - 48)
  }

  /** How `format!("{}", n)` writes an unsigned number. */
  function Print(n: nat): (s: seq<Byte>)
    ensures |s| >= 1 && AllDigits(s)
  {
    if n < 10 then [48 + n] else Print(n / 10) + [48 + n % 10]
  }

  /** Printing is undone by reading, and k digits hold every number below 10^k. */
  lemma {:induction false} PrintRoundTrip(n: nat)
    ensures Number(Print(n)) == n
    ensures n < 100000 ==> |Print(n)| <= 5
    ensures n < 1000 ==> |Print(n)| <= 3
    ensures n < 10 ==> |Print(n)| == 1
  {
    if n < 10 {
      assert [48 + n][..0] == [];
    } else {
      PrintRoundTrip(n / 10);
      PrintLength(n);
      assert Print(n)[..|Print(n)| - 1] == Print(n / 10);
    }
  }

  lemma PrintLength(n: nat)
    ensures n < 100 ==> |Print(n)| <= 2
    ensures n < 1000 ==> |Print(n)| <= 3
    ensures n < 10000 ==> |Print(n)| <= 4
    ensures n < 100000 ==> |Print(n)| <= 5
  {
    if n >= 10 {
      PrintLength(n / 10);
    }
  }

  function Pow10(k: nat): (p: nat)
    ensures p >= 1
  {
    if k == 0 then 1 else 10 * Pow10(k - 1)
  }

  /** A number below 10^k is printed in at most k digits. */
  lemma {:induction false} PrintFits(n: nat, k: nat)
    requires n < Pow10(k) && k > 0
    ensures |Print(n)| <= k
    decreases k
  {
    if n >= 10 { PrintFits(n / 10, k - 1); }
  }

  lemma {:induction false} NumberBound(s: seq<Byte>)
    requires AllDigits(s)
    ensures Number(s) < Pow10(|s|)
    decreases |s|
  {
    if s != [] {
      NumberBound(s[..|s| - 1]);
    }
  }
}
