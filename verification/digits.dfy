/**
 Digit rendering used by the text-sensor formatter: upper-case hexadecimal
 digits (what `std::hex << std::uppercase` prints) and unsigned decimal
 numerals (what `std::dec` prints for an unsigned integer), together with the
 readings that take them back to numbers.
 */
module Digits {

  /** The upper-case hexadecimal digit for `n`: `0`-`9`, then `A`-`F`. */
  function HexDigit(n: nat): (c: char)
    requires n < 16
    ensures IsHexDigit(c)
    ensures HexValue(c) == n
  {
    if n < 10 then ('0' as int + n) as char else ('A' as int + n - 10) as char
  }

  predicate IsHexDigit(c: char) {
    '0' <= c <= '9' || 'A' <= c <= 'F'
  }

  /** The number an upper-case hexadecimal digit stands for. */
  function HexValue(c: char): (n: nat)
    requires IsHexDigit(c)
    ensures n < 16
  {
    if c <= '9' then c as int - '0' as int else c as int - 'A' as int + 10
  }

  /** Reading a hexadecimal digit back and rendering it again gives the same digit. */
  lemma HexDigitOfValue(c: char)
    requires IsHexDigit(c)
    ensures HexDigit(HexValue(c)) == c
  {
  }

  predicate IsDecimalDigit(c: char) {
    '0' <= c <= '9'
  }

  function DecimalDigit(n: nat): (c: char)
    requires n < 10
    ensures IsDecimalDigit(c)
  {
    ('0' as int + n) as char
  }

  /** A decimal numeral as printed by a stream: at least one digit, and no
      leading zero unless the numeral is the single digit `0`. */
  predicate IsCanonicalDecimal(s: string) {
    && |s| >= 1
    && AllDecimalDigits(s)
    && (|s| > 1 ==> s[0] != '0')
  }

  predicate AllDecimalDigits(s: string) {
    forall i :: 0 <= i < |s| ==> IsDecimalDigit(s[i])
  }

  /** The value of a string of decimal digits, most significant digit first. */
  function DecimalValue(s: string): (n: nat)
    requires AllDecimalDigits(s)
  {
    if |s| == 0 then 0
    else DecimalValue(s[..|s| - 1]) * 10 + (s[|s| - 1] as int - '0' as int)
  }

  /** The decimal numeral of `n`, as `std::dec` prints an unsigned integer. */
  function Decimal(n: nat): (s: string)
    ensures IsCanonicalDecimal(s)
    ensures DecimalValue(s) == n
    ensures n < 10 <==> |s| == 1
    ensures n < 100 ==> |s| <= 2
    ensures n < 1000 ==> |s| <= 3
    ensures n < 10000 ==> |s| <= 4
  {
    if n < 10 then [DecimalDigit(n)]
    else
      var prefix := Decimal(n / 10);
      var s := prefix + [DecimalDigit(n % 10)];
      assert s[..|s| - 1] == prefix;
      s
  }

  /** Every canonical numeral is the rendering of its own value, so `Decimal`
      and `DecimalValue` are inverse bijections between naturals and
      canonical numerals. */
  lemma {:induction false} DecimalOfValue(s: string)
    requires IsCanonicalDecimal(s)
    ensures Decimal(DecimalValue(s)) == s
    decreases |s|
  {
    var n := DecimalValue(s);
    var last := s[|s| - 1] as int - '0' as int;
    if |s| == 1 {
      assert s[..|s| - 1] == [];
    } else {
      var prefix := s[..|s| - 1];
      assert IsCanonicalDecimal(prefix) by {
        assert prefix[0] == s[0];
      }
      DecimalOfValue(prefix);
      LeadingDigitPositive(prefix);
      assert n / 10 == DecimalValue(prefix);
      assert n % 10 == last;
      assert s == prefix + [s[|s| - 1]];
    }
  }

  /** A canonical numeral of two or more digits has a value of at least 10. */
  lemma {:induction false} LeadingDigitPositive(s: string)
    requires IsCanonicalDecimal(s)
    ensures DecimalValue(s) >= 1 || |s| == 1
    ensures |s| >= 2 ==> DecimalValue(s) >= 10
    decreases |s|
  {
    if |s| >= 2 {
      var prefix := s[..|s| - 1];
      assert IsCanonicalDecimal(prefix) by {
        assert prefix[0] == s[0];
      }
      LeadingDigitPositive(prefix);
      if |prefix| == 1 {
        assert prefix[0] == s[0];
        assert DecimalValue(prefix) >= 1;
      }
    }
  }

  /** Worked examples of the decimal rendering: no padding, no leading zeros. */
  lemma DecimalExamples()
    ensures Decimal(0) == "0"
    ensures Decimal(12) == "12"
    ensures Decimal(1500) == "1500"
  {
    assert Decimal(1) == "1";
    assert Decimal(15) == "15";
    assert Decimal(150) == "150";
  }
}
