/**
 * Go's fixed-width integer types, their two's-complement reinterpretations,
 * and the big-endian byte layout the codec uses for every fixed-width field.
 */
module Ints {

  type uint8 = x: int | 0 <= x < 0x100
  type uint16 = x: int | 0 <= x < 0x1_0000
  type uint32 = x: int | 0 <= x < 0x1_0000_0000
  type uint64 = x: int | 0 <= x < 0x1_0000_0000_0000_0000
  type int16 = x: int | -0x8000 <= x < 0x8000
  type int32 = x: int | -0x8000_0000 <= x < 0x8000_0000
  type int64 = x: int | -0x8000_0000_0000_0000 <= x < 0x8000_0000_0000_0000

  /** A Go `[]byte`, and also a Go `string`, which is a sequence of bytes. */
  type Bytes = seq<uint8>

  /** 256^n, the number of values n bytes can hold. */
  function Pow256(n: nat): (r: nat)
    ensures 0 < r
  {
    if n == 0 then 1 else 256 * Pow256(n - 1)
  }

  /** The unsigned value of a big-endian byte string: the first byte is the most significant. */
  function BE(s: Bytes): (r: nat)
    ensures r < Pow256(|s|)
  {
    if s == [] then 0 else BE(s[..|s| - 1]) * 256 + s[|s| - 1]
  }

  /** The n-byte big-endian image of x; the inverse of BE. */
  function BigEndian(x: nat, n: nat): (r: Bytes)
    requires x < Pow256(n)
    ensures |r| == n && BE(r) == x
  {
    if n == 0 then []
    else
      var r := BigEndian(x / 256, n - 1) + [x % 256];
      assert r[..n - 1] == BigEndian(x / 256, n - 1);
      r
  }

  /** BE at the three widths the codec reads, typed as Go's unsigned integers. */
  function Uint16Of(b: Bytes): uint16
    requires |b| == 2
  {
    BE(b)
  }

  function Uint32Of(b: Bytes): uint32
    requires |b| == 4
  {
    BE(b)
  }

  function Uint64Of(b: Bytes): uint64
    requires |b| == 8
  {
    BE(b)
  }

  /** BE loses nothing: an n-byte string is the n-byte image of its value. */
  lemma {:induction false} BigEndianOfBE(s: Bytes)
    ensures BigEndian(BE(s), |s|) == s
  {
    if s != [] {
      var init := s[..|s| - 1];
      BigEndianOfBE(init);
      assert BE(s) / 256 == BE(init);
      assert BE(s) % 256 == s[|s| - 1];
      assert s == init + [s[|s| - 1]];
    }
  }

  /** The value of two bytes: the first counts 256 times. */
  lemma BETwoBytes(b: Bytes)
    requires |b| == 2
    ensures BE(b) == b[0] as int * 0x100 + b[1] as int
  {
    assert b[..1][..0] == [];
  }

  /** The value of four bytes is the weighted sum the source's shift-and-or expression computes. */
  lemma BEFourBytes(b: Bytes)
    requires |b| == 4
    ensures BE(b) == b[0] as int * 0x100_0000 + b[1] as int * 0x1_0000 + b[2] as int * 0x100 + b[3] as int
  {
    assert b[..3][..2] == b[..2];
    assert b[..2][..1] == b[..1];
    assert b[..1][..0] == [];
  }

  /*
   * Two's-complement reinterpretation between Go's signed and unsigned types of
   * one width: `intN(u)` for an unsigned u and `uintN(x)` for a signed x keep the
   * bit pattern, so the two values agree modulo 2^N.
   */

  function Int16FromBits(u: uint16): (x: int16)
    ensures x % 0x1_0000 == u
  {
    if u < 0x8000 then u else u - 0x1_0000
  }

  function Uint16FromInt(x: int16): (u: uint16)
    ensures u == x % 0x1_0000
  {
    if x < 0 then x + 0x1_0000 else x
  }

  function Int32FromBits(u: uint32): (x: int32)
    ensures x % 0x1_0000_0000 == u
  {
    if u < 0x8000_0000 then u else u - 0x1_0000_0000
  }

  function Uint32FromInt(x: int32): (u: uint32)
    ensures u == x % 0x1_0000_0000
  {
    if x < 0 then x + 0x1_0000_0000 else x
  }

  function Int64FromBits(u: uint64): (x: int64)
    ensures x % 0x1_0000_0000_0000_0000 == u
  {
    if u < 0x8000_0000_0000_0000 then u else u - 0x1_0000_0000_0000_0000
  }

  function Uint64FromInt(x: int64): (u: uint64)
    ensures u == x % 0x1_0000_0000_0000_0000
  {
    if x < 0 then x + 0x1_0000_0000_0000_0000 else x
  }

  /** `uint32(x)` for a uint64 x: the low 32 bits, which is x itself when x fits. */
  function Low32(x: uint64): (r: uint32)
    ensures x < 0x1_0000_0000 ==> r == x
    ensures (x - r) % 0x1_0000_0000 == 0
  {
    x % 0x1_0000_0000
  }
}
