/**
 * Base-10 text of an integer as strconv.AppendInt and strconv.AppendUint
 * append it: ASCII digits, most significant first, no leading zero, and a
 * '-' in front of a negative value.
 */
module Decimal {
  import opened Ints

  const Zero: uint8 := 0x30
  const Minus: uint8 := 0x2D

  predicate IsDigit(b: uint8) { Zero <= b < Zero + 10 }

  /** The digits of n. */
  function Digits(n: nat): (r: Bytes)
    ensures 1 <= |r|
    ensures forall i :: 0 <= i < |r| ==> IsDigit(r[i])
    ensures r[0] == Zero <==> n == 0
  {
    if n < 10 then [Zero + n as uint8]
    else
      var r := Digits(n / 10) + [Zero + (n % 10) as uint8];
      assert r[0] == Digits(n / 10)[0];
      r
  }

  /** The number a string of digits spells. */
  function DigitsValue(s: Bytes): nat
    requires forall i :: 0 <= i < |s| ==> IsDigit(s[i])
  {
    if s == [] then 0
    else
      assert IsDigit(s[|s| - 1]);
      DigitsValue(s[..|s| - 1]) * 10 + (s[|s| - 1] - Zero) as nat
  }

  /** The digits spell the number back. */
  lemma {:induction false} DigitsRoundTrip(n: nat)
    ensures DigitsValue(Digits(n)) == n
  {
    if n >= 10 {
      DigitsRoundTrip(n / 10);
      var r := Digits(n);
      assert r[..|r| - 1] == Digits(n / 10);
    }
  }

  /** The text of x: a minus sign for negative values, then the digits of |x|. */
  function Text(x: int): (r: Bytes)
    ensures 1 <= |r|
    ensures r[0] == Minus <==> x < 0
    ensures x < 0 ==> r[1..] == Digits(-x)
    ensures x >= 0 ==> r == Digits(x)
  {
    if x < 0 then [Minus] + Digits(-x) else Digits(x)
  }

  /** The text as a reader parses it: a sign, then digits. */
  function TextValue(s: Bytes): int
    requires 1 <= |s|
    requires s[0] == Minus ==> forall i :: 1 <= i < |s| ==> IsDigit(s[i])
    requires s[0] != Minus ==> forall i :: 0 <= i < |s| ==> IsDigit(s[i])
  {
    if s[0] == Minus then 0 - DigitsValue(s[1..]) as int else DigitsValue(s)
  }

  /** Reading the text gives back the number. */
  lemma TextRoundTrip(x: int)
    ensures TextValue(Text(x)) == x
  {
    if x < 0 {
      DigitsRoundTrip(-x);
    } else {
      DigitsRoundTrip(x);
    }
  }
}
