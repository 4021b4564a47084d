/**
 * The 7-bit continuation scheme shared by the frame header's remaining-length
 * field and the decoder's general varint: each byte carries seven value bits,
 * least significant group first, and bit 7 says that another byte follows.
 */
module Varint {
  import opened Ints

  /** 128^k */
  function Pow128(k: nat): (r: nat)
    ensures 0 < r
  {
    if k == 0 then 1 else 128 * Pow128(k - 1)
  }

  /** 2^k, the factor of a left shift by k bits. */
  function Pow2(k: nat): (r: nat)
    ensures 0 < r
  {
    if k == 0 then 1 else 2 * Pow2(k - 1)
  }

  lemma {:induction false} Pow2Septets(k: nat)
    ensures Pow2(7 * k) == Pow128(k)
  {
    if k > 0 {
      Pow2Septets(k - 1);
      assert Pow2(7 * k) == 128 * Pow2(7 * (k - 1)) by {
        assert 7 * k == 7 * (k - 1) + 7;
        Pow2Add(7 * (k - 1), 7);
      }
    }
  }

  lemma {:induction false} Pow2Add(a: nat, b: nat)
    ensures Pow2(a + b) == Pow2(a) * Pow2(b)
  {
    if b > 0 {
      Pow2Add(a, b - 1);
    }
  }

  /** Σ (b_k & 0x7F)·128^k over the bytes, ignoring their continuation bits. */
  function VarintValue(bs: Bytes): (n: nat)
    ensures n < Pow128(|bs|)
  {
    if bs == [] then 0 else bs[0] % 0x80 + 0x80 * VarintValue(bs[1..])
  }

  /** A byte with bit 7 set announces another byte. */
  predicate Continues(b: uint8) { b >= 0x80 }

  /** Adding a byte at the end contributes its seven bits at the next weight up. */
  lemma {:induction false} VarintValueSnoc(bs: Bytes, b: uint8)
    ensures VarintValue(bs + [b]) == VarintValue(bs) + (b % 0x80) * Pow128(|bs|)
  {
    if bs != [] {
      var t := bs[1..];
      assert (bs + [b])[1..] == t + [b];
      assert (bs + [b])[0] == bs[0];
      VarintValueSnoc(t, b);
      Distribute(VarintValue(t), b % 0x80, Pow128(|t|));
    }
  }

  /** The one step of the induction above that multiplies. */
  lemma Distribute(a: nat, d: nat, w: nat)
    ensures 0x80 * (a + d * w) == 0x80 * a + d * (0x80 * w)
  {
  }

  /**
   * The digits the source's encoder emits for n: nothing for 0; otherwise
   * n % 128 with bit 7 set while a quotient remains.
   */
  function VarintBytes(n: nat): (r: Bytes)
    ensures n == 0 <==> r == []
    ensures VarintValue(r) == n
  {
    if n == 0 then []
    else
      var digit := n % 0x80 + (if n / 0x80 > 0 then 0x80 else 0);
      var r := [digit] + VarintBytes(n / 0x80);
      assert r[1..] == VarintBytes(n / 0x80);
      r
  }

  /** Every byte of the encoding but the last announces another; the last does not. */
  lemma {:induction false} VarintBytesShape(n: nat)
    ensures var r := VarintBytes(n);
      && (r != [] ==> !Continues(r[|r| - 1]))
      && (forall k :: 0 <= k < |r| - 1 ==> Continues(r[k]))
  {
    if n > 0 {
      VarintBytesShape(n / 0x80);
    }
  }

  /** The encoding of n has k bytes exactly when 128^(k-1) <= n < 128^k. */
  lemma {:induction false} VarintBytesLength(n: nat, k: nat)
    ensures |VarintBytes(n)| <= k <==> n < Pow128(k)
  {
    if n > 0 && k > 0 {
      VarintBytesLength(n / 0x80, k - 1);
    }
  }

  lemma Pow128Values()
    ensures Pow128(4) == 0x1000_0000
    ensures Pow128(5) == 0x8_0000_0000
  {
  }
}
