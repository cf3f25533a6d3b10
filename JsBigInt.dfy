/**
 * `BigInt(text)`: the conversion from a string to an arbitrary-precision integer
 * (StringToBigInt, section 7.1.14 of ECMA-262). Surrounding white space and line
 * terminators are ignored, an empty or blank text is 0, a decimal literal may carry one
 * `+` or `-`, and `0x`/`0o`/`0b` literals (upper or lower case, never signed) are read in
 * base 16, 8 and 2. Anything else makes `BigInt` throw a SyntaxError, here `None`.
 */
module JsBigInt {
  import opened Wrappers
  import opened JsText

  /** WhiteSpace and LineTerminator code points of ECMA-262 (sections 12.2 and 12.3). */
  predicate IsSpace(c: char)
  {
    var k := c as int;
    k == 0x09 || k == 0x0A || k == 0x0B || k == 0x0C || k == 0x0D || k == 0x20 || k == 0xA0
    || k == 0x1680 || (0x2000 <= k <= 0x200A) || k == 0x2028 || k == 0x2029 || k == 0x202F
    || k == 0x205F || k == 0x3000 || k == 0xFEFF
  }

  function TrimStart(s: string): (r: string)
    ensures |r| <= |s| && r == s[|s| - |r|..]
    ensures |r| > 0 ==> !IsSpace(r[0])
  {
    if |s| > 0 && IsSpace(s[0]) then TrimStart(s[1..]) else s
  }

  function TrimEnd(s: string): (r: string)
    ensures |r| <= |s| && r == s[..|r|]
    ensures |r| > 0 ==> !IsSpace(r[|r| - 1])
  {
    if |s| > 0 && IsSpace(s[|s| - 1]) then TrimEnd(s[..|s| - 1]) else s
  }

  function Trim(s: string): string
  {
    TrimEnd(TrimStart(s))
  }

  /** The value of a digit in base `radix` (2, 8 or 16), if `c` is one. */
  function RadixDigit(c: char, radix: nat): Option<nat>
  {
    var d :=
      if '0' <= c <= '9' then c as int - '0' as int
      else if 'a' <= c <= 'f' then c as int - 'a' as int + 10
      else if 'A' <= c <= 'F' then c as int - 'A' as int + 10
      else 16;
    if d < radix then Some(d) else None
  }

  /** The value of a non-empty string of base-`radix` digits. */
  function RadixValue(s: string, radix: nat): Option<nat>
  {
    if |s| == 0 then None
    else
      var last := RadixDigit(s[|s| - 1], radix);
      var front := if |s| == 1 then Some(0) else RadixValue(s[..|s| - 1], radix);
      if last.Some? && front.Some? then Some(front.value * radix + last.value) else None
  }

  predicate IsRadixPrefix(c: char)
  {
    c == 'x' || c == 'X' || c == 'o' || c == 'O' || c == 'b' || c == 'B'
  }

  function Radix(c: char): nat
  {
    if c == 'x' || c == 'X' then 16 else if c == 'o' || c == 'O' then 8 else 2
  }

  /** `BigInt(s)` for a string `s`; `None` where `BigInt` throws. */
  function ParseBigInt(s: string): Option<int>
  {
    var t := Trim(s);
    if |t| == 0 then Some(0)
    else if |t| >= 2 && t[0] == '0' && IsRadixPrefix(t[1]) then
      match RadixValue(t[2..], Radix(t[1]))
      case Some(v) => Some(v)
      case None => None
    else if t[0] == '-' || t[0] == '+' then
      if |t| > 1 && AllDigits(t[1..]) then
        Some(if t[0] == '-' then -(DigitsValue(t[1..]) as int) else DigitsValue(t[1..]))
      else None
    else if AllDigits(t) then Some(DigitsValue(t))
    else None
  }

  lemma TrimNoop(s: string)
    requires |s| > 0 && !IsSpace(s[0]) && !IsSpace(s[|s| - 1])
    ensures Trim(s) == s
  {
  }

  /** An unsigned decimal digit string converts to its own value. */
  lemma ParseDigits(s: string)
    requires |s| > 0 && AllDigits(s)
    ensures ParseBigInt(s).Some? && ParseBigInt(s).value == DigitsValue(s)
  {
    TrimNoop(s);
    if |s| >= 2 && s[0] == '0' {
      assert IsDigit(s[1]);
    }
  }

  /** A `+` or `-` followed by a non-empty decimal digit string converts to the signed value. */
  lemma ParseSignedDigits(t: string)
    requires |t| > 1 && (t[0] == '-' || t[0] == '+') && AllDigits(t[1..])
    ensures ParseBigInt(t).Some?
    ensures ParseBigInt(t).value == if t[0] == '-' then -(DigitsValue(t[1..]) as int) else DigitsValue(t[1..])
  {
    assert IsDigit(t[1..][|t| - 2]) && t[|t| - 1] == t[1..][|t| - 2];
    TrimNoop(t);
  }

  /** The same, for a sign put in front of the digits. */
  lemma ParseSignThenDigits(c: char, d: string)
    requires (c == '-' || c == '+') && |d| > 0 && AllDigits(d)
    ensures ParseBigInt([c] + d).Some?
    ensures ParseBigInt([c] + d).value == if c == '-' then -(DigitsValue(d) as int) else DigitsValue(d)
  {
    var t := [c] + d;
    assert t[0] == c && t[1..] == d;
    ParseSignedDigits(t);
  }

  /** A `-` followed by a non-empty decimal digit string converts to minus its value. */
  lemma ParseNegativeDigits(s: string)
    requires |s| > 0 && AllDigits(s)
    ensures ParseBigInt("-" + s).Some? && ParseBigInt("-" + s).value == -(DigitsValue(s) as int)
  {
    var t := "-" + s;
    assert t[1..] == s;
    assert t[0] == '-' && t[|t| - 1] == s[|s| - 1];
    assert IsDigit(s[|s| - 1]);
    TrimNoop(t);
    assert Trim(t) == t;
    assert !(t[0] == '0');
    assert ParseBigInt(t).value == -(DigitsValue(t[1..]) as int);
  }
}
