/** Integer widths and decimal text used by the filter graph: the `uint32` node ids,
    their `(int)` casts when they are written to a document, and the decimal rendering
    of integers that JUCE's `String (int)` produces. */
module Numeric {

  const TWO_32: int := 0x1_0000_0000
  const TWO_31: int := 0x8000_0000

  predicate IsUint32(u: int) { 0 <= u < TWO_32 }

  /** The implicit conversion of a signed value to `uint32` (two's complement wrap). */
  function ToUint32(i: int): (r: int)
    ensures IsUint32(r)
    ensures (r - i) % TWO_32 == 0
    ensures IsUint32(i) ==> r == i
  {
    i % TWO_32
  }

  /** The `(int)` cast of a 32-bit unsigned value to a signed 32-bit one (taken modulo
      2^32 first, as the value is held in a `uint32`). */
  function ToInt32(u: int): (r: int)
    ensures -TWO_31 <= r < TWO_31
    ensures IsUint32(u) ==> ToUint32(r) == u
    ensures 0 <= u < TWO_31 ==> r == u
    ensures IsUint32(u) ==> (r == -1 <==> u == TWO_32 - 1)
  {
    var m := u % TWO_32;
    if m < TWO_31 then m else m - TWO_32
  }

  /** `++x` on a `uint32`. */
  function Increment32(u: int): (r: int)
    requires IsUint32(u)
    ensures IsUint32(r)
    ensures u < TWO_32 - 1 ==> r == u + 1
    ensures u == TWO_32 - 1 ==> r == 0
  {
    (u + 1) % TWO_32
  }

  // ---------------------------------------------------------------------------
  // Decimal text

  predicate IsDigit(c: char) { '0' <= c <= '9' }

  predicate AllDigits(s: string) { forall i :: 0 <= i < |s| ==> IsDigit(s[i]) }

  function DigitChar(d: nat): (c: char)
    requires d < 10
    ensures IsDigit(c) && c as int - '0' as int == d
  {
    (d + '0' as int) as char
  }

  function DigitValue(c: char): nat
    requires IsDigit(c)
  {
    c as int - '0' as int
  }

  /** Decimal digits of a natural number, most significant first, without leading zeros. */
  function NatToString(n: nat): (s: string)
    ensures |s| > 0 && AllDigits(s)
    ensures |s| > 1 ==> s[0] != '0'
    decreases n
  {
    if n < 10 then [DigitChar(n)] else NatToString(n / 10) + [DigitChar(n % 10)]
  }

  /** The value of a string of decimal digits. */
  function ParseNat(s: string): nat
    requires AllDigits(s)
  {
    if s == [] then 0 else ParseNat(s[..|s| - 1]) * 10 + DigitValue(s[|s| - 1])
  }

  lemma {:induction false} ParseNatToString(n: nat)
    ensures ParseNat(NatToString(n)) == n
    decreases n
  {
    if n >= 10 {
      var s := NatToString(n / 10);
      ParseNatToString(n / 10);
      assert (s + [DigitChar(n % 10)])[..|s|] == s;
    }
  }

  /** JUCE's `String (int)`: an optional minus sign followed by the digits. */
  function IntToString(i: int): (s: string)
    ensures |s| > 0 && ' ' !in s
  {
    if i < 0 then "-" + NatToString(-i) else NatToString(i)
  }

  predicate IsNumeral(s: string) {
    (|s| > 1 && s[0] == '-' && AllDigits(s[1..])) || (|s| > 0 && AllDigits(s))
  }

  function ParseInt(s: string): int
    requires IsNumeral(s)
  {
    if s[0] == '-' then -(ParseNat(s[1..]) as int) else ParseNat(s)
  }

  /** Rendering an integer loses nothing: the text reads back as the same value. */
  lemma IntToStringRoundTrip(i: int)
    ensures IsNumeral(IntToString(i))
    ensures ParseInt(IntToString(i)) == i
  {
    if i < 0 {
      var d := NatToString(-i);
      assert ("-" + d)[1..] == d;
      ParseNatToString(-i);
    } else {
      ParseNatToString(i);
    }
  }
}
