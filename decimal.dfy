/** Decimal rendering of numbers as JavaScript's String(n) produces it
    for integers, with the parse that inverts it. */
module Decimal {

  function Digit(n: nat): (c: char)
    requires n < 10
    ensures '0' <= c <= '9'
  {
    (('0' as int) + n) as char
  }

  function DigitValue(c: char): int
  {
    (c as int) - ('0' as int)
  }

  predicate AllDigits(s: string)
  {
    forall i :: 0 <= i < |s| ==> '0' <= s[i] <= '9'
  }

  function NumDigits(n: nat): (k: nat)
    ensures k >= 1
  {
    if n < 10 then 1 else 1 + NumDigits(n / 10)
  }

  /** String(n) for a non-negative integer: no leading zeros. */
  function NatToDecimal(n: nat): (s: string)
    ensures |s| == NumDigits(n) && AllDigits(s)
    ensures |s| > 1 ==> s[0] != '0'
  {
    if n < 10 then [Digit(n)] else NatToDecimal(n / 10) + [Digit(n % 10)]
  }

  /** String(i) for any integer: a minus sign before negative values. */
  function IntToDecimal(i: int): (s: string)
    ensures |s| >= 1
    ensures i >= 0 <==> s[0] != '-'
  {
    if i < 0 then "-" + NatToDecimal(-i) else NatToDecimal(i)
  }

  /** The value of a string of decimal digits. */
  function DecimalValue(s: string): int
  {
    if s == [] then 0 else DecimalValue(s[..|s| - 1]) * 10 + DigitValue(s[|s| - 1])
  }

  /** Reading back the rendering of a number gives the number. */
  lemma {:induction false} DecimalRoundTrip(n: nat)
    ensures DecimalValue(NatToDecimal(n)) == n
  {
    if n >= 10 {
      DecimalRoundTrip(n / 10);
      var s := NatToDecimal(n);
      assert s[..|s| - 1] == NatToDecimal(n / 10);
    }
  }

  /** A leading zero does not change the value. */
  lemma {:induction false} LeadingZero(s: string)
    ensures DecimalValue("0" + s) == DecimalValue(s)
  {
    if s != [] {
      assert ("0" + s)[..|"0" + s| - 1] == "0" + s[..|s| - 1];
      LeadingZero(s[..|s| - 1]);
    }
  }

  /** String.prototype.padStart(2, '0'). */
  function PadStart2(s: string): (r: string)
    ensures |r| == if |s| >= 2 then |s| else 2
  {
    if |s| >= 2 then s else if |s| == 1 then "0" + s else "00"
  }

  /** A one- or two-digit number padded to two places reads back as itself. */
  lemma Pad2RoundTrip(n: nat)
    requires n < 100
    ensures |PadStart2(NatToDecimal(n))| == 2
    ensures AllDigits(PadStart2(NatToDecimal(n)))
    ensures DecimalValue(PadStart2(NatToDecimal(n))) == n
  {
    var s := NatToDecimal(n);
    DecimalRoundTrip(n);
    if n < 10 {
      assert s == [Digit(n)];
      LeadingZero(s);
      assert PadStart2(s) == "0" + s;
    } else {
      assert NumDigits(n / 10) == 1;
      assert PadStart2(s) == s;
    }
  }

  lemma FourDigits(n: nat)
    requires 1000 <= n < 10000
    ensures |NatToDecimal(n)| == 4
  {
    assert NumDigits(n / 1000) == 1;
    assert NumDigits(n / 100) == 1 + NumDigits(n / 100 / 10);
    assert NumDigits(n / 10) == 1 + NumDigits(n / 10 / 10);
  }
}
