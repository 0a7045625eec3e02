/**
 The text-sensor string of one POST code (`BPC::format_post_code_text_sensor`):
 the code as two zero-padded upper-case hexadecimal digits followed by `h`,
 then ` | <delta> ms` only when the delta to the previous code is under five
 seconds.  `ParsePostCodeText` reads such a string back; the two are proved
 inverse on every input.
 */
module Formatter {
  import opened U32
  import opened Digits
  import opened Optional

  /** Deltas of this many milliseconds or more are not shown. */
  const DeltaLimit: u32 := 5000

  const Separator: string := " | "
  const MillisSuffix: string := " ms"

  /** What a text-sensor string tells its reader: the code, and the delta when shown. */
  datatype PostCodeText = PostCodeText(code: byte, delta: Option<u32>)

  /** The three-character code field, e.g. `00h` or `2Bh`. */
  function CodeField(code: byte): (s: string)
    ensures |s| == 3 && IsHexDigit(s[0]) && IsHexDigit(s[1]) && s[2] == 'h'
    ensures HexValue(s[0]) * 16 + HexValue(s[1]) == code
  {
    [HexDigit(code / 16), HexDigit(code % 16), 'h']
  }

  /** The text-sensor string for `code`.  The capture `timestamp` is accepted
      but plays no part in the result. */
  function FormatPostCode(code: byte, timestamp: u32, delta: u32): (s: string)
    ensures |s| >= 3 && s[..3] == CodeField(code)
    ensures delta >= DeltaLimit <==> |s| == 3
    ensures delta < DeltaLimit ==>
              && 10 <= |s| <= 13
              && s[3..6] == Separator
              && s[|s| - 3..] == MillisSuffix
              && IsCanonicalDecimal(s[6..|s| - 3])
              && DecimalValue(s[6..|s| - 3]) == delta
  {
    var field := CodeField(code);
    if delta < DeltaLimit then
      var numeral := Decimal(delta);
      var s := field + Separator + numeral + MillisSuffix;
      assert s[6..|s| - 3] == numeral;
      s
    else
      field
  }

  /** What a reader of `FormatPostCode(code, _, delta)` learns. */
  function Shown(code: byte, delta: u32): PostCodeText {
    PostCodeText(code, if delta < DeltaLimit then Some(delta) else None)
  }

  /** Reads a text-sensor string back; `None` for any string the formatter cannot produce. */
  function ParsePostCodeText(s: string): (r: Option<PostCodeText>)
    ensures r.Some? ==> |s| >= 3 && s[2] == 'h'
    ensures r.Some? && r.value.delta.Some? ==> r.value.delta.value < DeltaLimit
  {
    if |s| < 3 || !IsHexDigit(s[0]) || !IsHexDigit(s[1]) || s[2] != 'h' then None
    else
      var code := HexValue(s[0]) * 16 + HexValue(s[1]);
      if |s| == 3 then Some(PostCodeText(code, None))
      else if
        && |s| >= 10
        && s[3..6] == Separator
        && s[|s| - 3..] == MillisSuffix
        && IsCanonicalDecimal(s[6..|s| - 3])
        && DecimalValue(s[6..|s| - 3]) < DeltaLimit
      then Some(PostCodeText(code, Some(DecimalValue(s[6..|s| - 3]))))
      else None
  }

  /** Reading a formatted string gives back the code, and the delta exactly when it is under the limit. */
  lemma ParseFormat(code: byte, timestamp: u32, delta: u32)
    ensures ParsePostCodeText(FormatPostCode(code, timestamp, delta)) == Some(Shown(code, delta))
  {
    var s := FormatPostCode(code, timestamp, delta);
    assert s[0] == CodeField(code)[0] && s[1] == CodeField(code)[1];
  }

  /** Every string that reads back is the formatter's output for what it reads as:
      the formatter's outputs are exactly the parseable strings. */
  lemma FormatParse(s: string, p: PostCodeText)
    requires ParsePostCodeText(s) == Some(p)
    ensures s == FormatPostCode(p.code, 0, if p.delta.Some? then p.delta.value else DeltaLimit)
  {
    ParsedCodeField(s);
    if |s| == 3 {
      assert p.delta == None;
      assert s == s[..3];
    } else {
      ParsedWithDelta(s, p);
    }
  }

  /** A parseable string starts with the code field of the code it reads as. */
  lemma ParsedCodeField(s: string)
    requires ParsePostCodeText(s).Some?
    ensures s[..3] == CodeField(ParsePostCodeText(s).value.code)
  {
    CodeFieldOfDigits(HexValue(s[0]), HexValue(s[1]));
    HexDigitOfValue(s[0]);
    HexDigitOfValue(s[1]);
  }

  /** A parseable string longer than its code field is the formatter's
      output for the delta it shows. */
  lemma ParsedWithDelta(s: string, p: PostCodeText)
    requires ParsePostCodeText(s) == Some(p)
    requires |s| != 3
    ensures p.delta.Some?
    ensures s == FormatPostCode(p.code, 0, p.delta.value)
  {
    ParsedCodeField(s);
    var numeral := s[6..|s| - 3];
    var delta := DecimalValue(numeral);
    assert p.delta == Some(delta);
    DecimalOfValue(numeral);
    SplitFormatted(s);
    FormatShownDelta(p.code, delta);
  }

  /** With a delta under the limit the string is the code field, the
      separator, the delta's numeral and the suffix. */
  lemma FormatShownDelta(code: byte, delta: u32)
    requires delta < DeltaLimit
    ensures FormatPostCode(code, 0, delta) == CodeField(code) + Separator + Decimal(delta) + MillisSuffix
  {
  }

  /** The code field of `hi * 16 + lo` shows the digits `hi` and `lo`. */
  lemma CodeFieldOfDigits(hi: nat, lo: nat)
    requires hi < 16 && lo < 16
    ensures CodeField(hi * 16 + lo) == [HexDigit(hi), HexDigit(lo), 'h']
  {
    var code := hi * 16 + lo;
    assert code / 16 == hi && code % 16 == lo;
  }

  /** A string of ten or more characters is its code field, separator, numeral and suffix. */
  lemma SplitFormatted(s: string)
    requires |s| >= 10
    ensures s == s[..3] + s[3..6] + s[6..|s| - 3] + s[|s| - 3..]
  {
  }

  /** The formatted string is a function of the code and the delta alone. */
  lemma FormatIgnoresTimestamp(code: byte, t1: u32, t2: u32, delta: u32)
    ensures FormatPostCode(code, t1, delta) == FormatPostCode(code, t2, delta)
  {
  }

  /** Two different codes, or two different shown deltas, never produce the same string. */
  lemma FormatInjective(c1: byte, t1: u32, d1: u32, c2: byte, t2: u32, d2: u32)
    requires FormatPostCode(c1, t1, d1) == FormatPostCode(c2, t2, d2)
    ensures c1 == c2
    ensures d1 < DeltaLimit ==> d1 == d2
    ensures d1 >= DeltaLimit <==> d2 >= DeltaLimit
  {
    ParseFormat(c1, t1, d1);
    ParseFormat(c2, t2, d2);
  }

  /** Worked example: zero padding of the code and a short delta shown. */
  lemma FormatExampleZeroPadded()
    ensures FormatPostCode(0x00, 7, 12) == "00h | 12 ms"
  {
    DecimalExamples();
    assert CodeField(0x00) == "00h";
  }

  /** Worked example: upper-case hexadecimal digits and a four-digit delta. */
  lemma FormatExampleUpperCase()
    ensures FormatPostCode(0x2B, 7, 1500) == "2Bh | 1500 ms"
  {
    DecimalExamples();
    assert CodeField(0x2B) == "2Bh";
  }

  /** Worked example: a delta of five seconds is left out. */
  lemma FormatExampleLongDelta()
    ensures FormatPostCode(0x2B, 7, 5000) == "2Bh"
  {
    assert CodeField(0x2B) == "2Bh";
  }
}
