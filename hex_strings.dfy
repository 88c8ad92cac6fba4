/**
 * `Long.toHexString`: the unsigned 64-bit value of a Java `long` written in lower-case
 * hexadecimal, without leading zeros ("0" for zero). The token's timestamp field is this
 * rendering of the clock reading in milliseconds.
 */
module HexStrings {

  /** A Java `long`. */
  newtype int64 = x: int | -0x8000_0000_0000_0000 <= x < 0x8000_0000_0000_0000

  const TWO_TO_THE_64: int := 0x1_0000_0000_0000_0000

  predicate IsHexDigit(ch: char)
  {
    '0' <= ch <= '9' || 'a' <= ch <= 'f'
  }

  function Digit(d: nat): (ch: char)
    requires d < 16
    ensures IsHexDigit(ch)
  {
    if d < 10 then (48 + d) as char else (97 + d - 10) as char
  }

  function DigitValue(ch: char): (d: nat)
    requires IsHexDigit(ch)
    ensures d < 16 && Digit(d) == ch
  {
    if ch <= '9' then ch as int - 48 else ch as int - 97 + 10
  }

  /** The hexadecimal digits of `n`, most significant first, without leading zeros. */
  function HexDigits(n: nat): (s: string)
    ensures s != []
    ensures forall k :: 0 <= k < |s| ==> IsHexDigit(s[k])
    ensures n > 0 <==> s[0] != '0'
    ensures n == 0 <==> s == "0"
  {
    if n < 16 then [Digit(n)] else HexDigits(n / 16) + [Digit(n % 16)]
  }

  /** The number a string of hexadecimal digits denotes. */
  function HexValue(s: string): nat
    requires forall k :: 0 <= k < |s| ==> IsHexDigit(s[k])
  {
    if s == [] then 0 else 16 * HexValue(s[..|s| - 1]) + DigitValue(s[|s| - 1])
  }

  /** Reading the digits back gives the number that was written. */
  lemma {:induction false} HexValueOfDigits(n: nat)
    ensures HexValue(HexDigits(n)) == n
  {
    var s := HexDigits(n);
    if n >= 16 {
      HexValueOfDigits(n / 16);
      assert s[..|s| - 1] == HexDigits(n / 16);
    }
  }

  /**
   * The unsigned value of a `long`, as `Long.toHexString` reads it: the one number below
   * 2^64 with the same 64 bits.
   */
  function Unsigned(i: int64): (u: nat)
    ensures u < TWO_TO_THE_64
    ensures u % TWO_TO_THE_64 == i as int % TWO_TO_THE_64
  {
    if i < 0 then i as int + TWO_TO_THE_64 else i as int
  }

  /** `Long.toHexString(i)`. */
  function ToHexString(i: int64): (s: string)
    ensures 1 <= |s| <= 16
    ensures forall k :: 0 <= k < |s| ==> IsHexDigit(s[k])
    ensures HexValue(s) == Unsigned(i)
    ensures |s| > 1 ==> s[0] != '0'
  {
    var u := Unsigned(i);
    HexValueOfDigits(u);
    Power16Of16();
    HexDigitsLength(u, 16);
    HexDigits(u)
  }

  /** A number below 16^w needs at most w digits. */
  lemma {:induction false} HexDigitsLength(n: nat, w: nat)
    requires w >= 1 && n < Power16(w)
    ensures |HexDigits(n)| <= w
  {
    if n >= 16 {
      HexDigitsLength(n / 16, w - 1);
    }
  }

  function Power16(w: nat): (p: nat)
    ensures p >= 1
  {
    if w == 0 then 1 else 16 * Power16(w - 1)
  }

  lemma {:induction false} Power16Add(a: nat, b: nat)
    ensures Power16(a + b) == Power16(a) * Power16(b)
  {
    if a > 0 {
      Power16Add(a - 1, b);
    }
  }

  lemma Power16Of16()
    ensures Power16(16) == TWO_TO_THE_64
  {
    assert Power16(1) == 16;
    Power16Add(1, 1);
    Power16Add(2, 2);
    Power16Add(4, 4);
    Power16Add(8, 8);
  }
}
