/**
 * Plain decimal numerals and the rational number each one denotes. A numeral is an
 * optional sign (`-` or `+`), a run of digits, and optionally a `.` followed by a second
 * run of digits; a missing or empty digit run reads as zero, so `""`, `"-"` and `"."` all
 * denote 0, `".5"` denotes one half and `"5."` five.
 */
module DecimalText {
  import opened JsText

  predicate HasSign(s: string)
  {
    |s| > 0 && (s[0] == '-' || s[0] == '+')
  }

  /** The numeral without its sign. */
  function Unsigned(s: string): string
  {
    if HasSign(s) then s[1..] else s
  }

  predicate IsDecimal(s: string)
  {
    var parts := Split(Unsigned(s), '.');
    |parts| <= 2 && forall k :: 0 <= k < |parts| ==> AllDigits(parts[k])
  }

  /** The digits before the point. */
  function Whole(s: string): (w: string)
    requires IsDecimal(s)
    ensures AllDigits(w)
  {
    Split(Unsigned(s), '.')[0]
  }

  /** The digits after the point; empty when there is no point. */
  function Fraction(s: string): (f: string)
    requires IsDecimal(s)
    ensures AllDigits(f)
  {
    var parts := Split(Unsigned(s), '.');
    if |parts| == 2 then parts[1] else ""
  }

  /** All the digits of the numeral, the point removed. */
  function Digits(s: string): (d: string)
    requires IsDecimal(s)
    ensures AllDigits(d) && |d| == |Whole(s)| + |Fraction(s)|
  {
    Whole(s) + Fraction(s)
  }

  predicate IsNegative(s: string)
  {
    |s| > 0 && s[0] == '-'
  }

  /** The numeral read as an integer once its point is removed: `"-12.5"` gives -125. */
  function Numerator(s: string): int
    requires IsDecimal(s)
  {
    if IsNegative(s) then -(DigitsValue(Digits(s)) as int) else DigitsValue(Digits(s))
  }

  /** The number the numeral denotes: its numerator over ten to the number of
    * fractional digits. */
  function Value(s: string): real
    requires IsDecimal(s)
  {
    Numerator(s) as real / Pow10(|Fraction(s)|) as real
  }

  /** The sign of a real number as -1, 0 or 1. */
  function Sign(x: real): (r: int)
    ensures -1 <= r <= 1
    ensures r < 0 <==> x < 0.0
    ensures r == 0 <==> x == 0.0
  {
    if x < 0.0 then -1 else if x > 0.0 then 1 else 0
  }
}
