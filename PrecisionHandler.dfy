/**
 * PrecisionHandler: exact comparison of decimal strings, the balance check built on it,
 * and the MAX-amount test. `compareDecimals` reads a numeral as one big integer, its
 * digits before the point followed by its digits after the point padded to 18 places,
 * so that each side becomes its value times 10^18; when that text is not an integer
 * literal `BigInt` throws, here `None`.
 */
module PrecisionHandler {
  import opened Wrappers
  import opened JsText
  import opened JsBigInt
  import opened JsNumber
  import opened DecimalText

  /** DEFAULT_DECIMALS: the places every fraction is padded to. */
  const DefaultDecimals: nat := 18

  /** TOLERANCE of the numeric fallback, 1e-10. */
  const Tolerance: real := 1.0 / 10000000000.0

  /** `parseNumber`: the empty string is 0, anything else goes to `parseFloat`. */
  function ParseNumber(ops: FloatOps, value: string): (n: Num)
    ensures value == "" ==> n == Finite(0.0)
    ensures value != "" ==> n == ops.parseFloat(value)
  {
    if value == "" then Finite(0.0) else ops.parseFloat(value)
  }

  /** `parts[0] || '0'`. */
  function IntegerPart(s: string): string
  {
    var parts := Split(s, '.');
    if parts[0] == "" then "0" else parts[0]
  }

  /** `(parts[1] || '').padEnd(n, '0')`; the source pads to `n = 18`. */
  function DecimalPartAt(s: string, n: nat): string
  {
    var parts := Split(s, '.');
    PadEnd(if |parts| > 1 then parts[1] else "", n, '0')
  }

  function DecimalPart(s: string): string
  {
    DecimalPartAt(s, DefaultDecimals)
  }

  /** `integer + decimal` with the fraction padded to `n` places. */
  function ScaledText(s: string, n: nat): string
  {
    IntegerPart(s) + DecimalPartAt(s, n)
  }

  /** `BigInt(integer + decimal)` with the fraction padded to `n` places. */
  function ScaledAt(s: string, n: nat): Option<int>
  {
    ParseBigInt(ScaledText(s, n))
  }

  /** `BigInt(integer + decimal)` for one side of the comparison. */
  function ScaledValue(s: string): Option<int>
  {
    ScaledAt(s, DefaultDecimals)
  }

  /** `compareDecimals(a, b)`; `None` where one of the two `BigInt` conversions throws.
    * What the result means for the numerals' values is `CompareIsSign`. */
  function CompareDecimals(a: string, b: string): (r: Option<int>)
    ensures r.Some? <==> ScaledValue(a).Some? && ScaledValue(b).Some?
    ensures r.Some? ==> -1 <= r.value <= 1
    ensures r.Some? ==> (r.value < 0 <==> ScaledValue(a).value < ScaledValue(b).value)
    ensures r.Some? ==> (r.value == 0 <==> ScaledValue(a).value == ScaledValue(b).value)
  {
    match (ScaledValue(a), ScaledValue(b))
    case (Some(x), Some(y)) => Some(if x < y then -1 else if x > y then 1 else 0)
    case _ => None
  }

  /** The numeric fallback of `isAmountValid`: a difference below the tolerance counts
    * as equal, otherwise `amount <= balance`; NaN on either side is invalid. */
  function WithinTolerance(amount: Num, balance: Num): (ok: bool)
    ensures ok <==> amount.Finite? && balance.Finite? && amount.value < balance.value + Tolerance
  {
    if amount.NaN? || balance.NaN? then false
    else
      var diff := amount.value - balance.value;
      if (if diff < 0.0 then -diff else diff) < Tolerance then true
      else amount.value <= balance.value
  }

  /** `isAmountValid(amount, balance, tokenDecimals)` for a string amount. What the verdict
    * means for exact numerals is `AmountValidIsExact`. */
  function IsAmountValid(ops: FloatOps, amount: string, balance: Num, tokenDecimals: int): (ok: bool)
    ensures CompareDecimals(amount, ToText(ops, balance)).Some? ==>
              (ok <==> CompareDecimals(amount, ToText(ops, balance)).value <= 0)
    ensures CompareDecimals(amount, ToText(ops, balance)).None? ==>
              (ok <==> balance.Finite? && Less(ParseNumber(ops, amount), Finite(balance.value + Tolerance)))
  {
    match CompareDecimals(amount, ToText(ops, balance))
    case Some(c) => c <= 0
    case None => WithinTolerance(ParseNumber(ops, amount), balance)
  }

  /** `isMaxAmount(amount, balance)`: exact text equality with the MAX rendering or with
    * the balance's own `toString`. */
  function IsMaxAmount(ops: FloatOps, amount: string, balance: Num): (b: bool)
    ensures b <==> amount in {ops.formatMaxAmount(balance, DefaultDecimals), ToText(ops, balance)}
  {
    amount == ops.formatMaxAmount(balance, DefaultDecimals) || amount == ToText(ops, balance)
  }

  // ---------------------------------------------------------------------------
  // Exactness

  /** A numeral with at most 18 fractional digits: the inputs on which the comparison is exact. */
  predicate IsExactDecimal(s: string)
  {
    IsDecimal(s) && |Fraction(s)| <= DefaultDecimals
  }

  /** The two texts `compareDecimals` builds from a numeral: the sign and whole digits
    * (`"0"` when both are absent) and the fraction padded to `n` places. */
  lemma ExactParts(s: string, n: nat)
    requires IsDecimal(s)
    ensures IntegerPart(s) == if HasSign(s) then [s[0]] + Whole(s) else if Whole(s) == "" then "0" else Whole(s)
    ensures DecimalPartAt(s, n) == PadEnd(Fraction(s), n, '0')
  {
    var u := Unsigned(s);
    if HasSign(s) {
      assert s == [s[0]] + u;
      SplitConsOther(s[0], u, '.');
    }
  }

  /** The digits of a numeral followed by its fraction padded to `n` places. */
  function ScaledDigits(s: string, n: nat): (d: string)
    requires IsDecimal(s)
    ensures AllDigits(d) && |d| >= n
  {
    var p := PadEnd(Fraction(s), n, '0');
    assert AllDigits(p) by {
      forall i | 0 <= i < |p| ensures IsDigit(p[i]) {
        if i < |Fraction(s)| { assert p[i] == p[..|Fraction(s)|][i]; }
      }
    }
    Whole(s) + p
  }

  lemma SignedText(s: string, n: nat)
    requires IsDecimal(s) && HasSign(s)
    ensures ScaledText(s, n) == [s[0]] + ScaledDigits(s, n)
  {
    ExactParts(s, n);
    var c, w, p := s[0], Whole(s), PadEnd(Fraction(s), n, '0');
    calc {
      ScaledText(s, n);
      IntegerPart(s) + DecimalPartAt(s, n);
      ([c] + w) + p;
      { ConsAssoc(c, w, p); }
      [c] + (w + p);
      [c] + ScaledDigits(s, n);
    }
  }

  lemma ConsAssoc(c: char, w: string, p: string)
    ensures ([c] + w) + p == [c] + (w + p)
  {
  }

  lemma ScaledAtSigned(s: string, n: nat)
    requires IsDecimal(s) && HasSign(s) && n >= 1
    ensures ScaledAt(s, n).Some?
    ensures ScaledAt(s, n).value == if s[0] == '-' then -(DigitsValue(ScaledDigits(s, n)) as int) else DigitsValue(ScaledDigits(s, n))
  {
    SignedText(s, n);
    ParseSignThenDigits(s[0], ScaledDigits(s, n));
  }

  lemma UnsignedText(s: string, n: nat)
    requires IsDecimal(s) && !HasSign(s)
    ensures ScaledText(s, n) == (if Whole(s) == "" then "0" else "") + ScaledDigits(s, n)
  {
    ExactParts(s, n);
  }

  lemma ScaledAtUnsigned(s: string, n: nat)
    requires IsDecimal(s) && !HasSign(s) && n >= 1
    ensures ScaledAt(s, n).Some? && ScaledAt(s, n).value == DigitsValue(ScaledDigits(s, n))
  {
    var t, d := ScaledText(s, n), ScaledDigits(s, n);
    UnsignedText(s, n);
    var z := if Whole(s) == "" then "0" else "";
    assert AllDigits(z) && DigitsValue(z) == 0 by { if z == "0" { assert z[..0] == ""; } }
    DigitsValueConcat(z, d);
    ParseDigits(t);
  }

  lemma ScaledAtDigits(s: string, n: nat)
    requires IsDecimal(s) && n >= 1
    ensures ScaledAt(s, n).Some?
    ensures ScaledAt(s, n).value == if HasSign(s) && s[0] == '-' then -(DigitsValue(ScaledDigits(s, n)) as int) else DigitsValue(ScaledDigits(s, n))
  {
    if HasSign(s) {
      ScaledAtSigned(s, n);
    } else {
      ScaledAtUnsigned(s, n);
    }
  }

  /** The padded digits are the numeral's digits followed by `n - |Fraction(s)|` zeros,
    * so they read as its numerator's magnitude times `10^(n - |Fraction(s)|)`. */
  lemma ScaledDigitsValue(s: string, n: nat)
    requires IsDecimal(s) && |Fraction(s)| <= n
    ensures DigitsValue(ScaledDigits(s, n)) == DigitsValue(Digits(s)) * Pow10(n - |Fraction(s)|)
  {
    var w, f := Whole(s), Fraction(s);
    var z := Repeat('0', n - |f|);
    assert ScaledDigits(s, n) == Digits(s) + z;
    ZerosValue(n - |f|);
    DigitsValueConcat(Digits(s), z);
  }

  /** On a numeral with at most `n` fractional digits, the conversion succeeds and yields
    * its numerator times `10^(n - |Fraction(s)|)`, that is its value times `10^n`; the
    * sign applies to the whole digit string. */
  lemma ScaledAtExact(s: string, n: nat)
    requires IsDecimal(s) && |Fraction(s)| <= n && n >= 1
    ensures ScaledAt(s, n).Some?
    ensures ScaledAt(s, n).value == Numerator(s) * Pow10(n - |Fraction(s)|)
  {
    ScaledAtDigits(s, n);
    ScaledDigitsValue(s, n);
    var neg := HasSign(s) && s[0] == '-';
    assert neg == IsNegative(s);
    SignedProduct(neg, ScaledAt(s, n).value, DigitsValue(ScaledDigits(s, n)),
                  DigitsValue(Digits(s)), Pow10(n - |Fraction(s)|), Numerator(s));
  }

  lemma SignedProduct(neg: bool, x: int, d: nat, m: nat, p: nat, num: int)
    requires x == (if neg then -(d as int) else d) && d == m * p
    requires num == if neg then -(m as int) else m
    ensures x == num * p
  {
    if neg {
      assert (-(m as int)) * p == -(m * p);
    }
  }

  /** On a numeral with at most 18 fractional digits, the conversion succeeds and yields
    * exactly its value times 10^18. */
  lemma ScaledValueExact(s: string)
    requires IsExactDecimal(s)
    ensures ScaledValue(s).Some?
    ensures ScaledValue(s).value == Numerator(s) * Pow10(DefaultDecimals - |Fraction(s)|)
  {
    ScaledAtExact(s, DefaultDecimals);
  }

  /** Two integers that are two reals scaled by the same positive factor compare as the reals do. */
  lemma ScaleOrder(x: int, y: int, va: real, vb: real, p: real)
    requires p > 0.0 && x as real == va * p && y as real == vb * p
    ensures x < y <==> va < vb
    ensures x == y <==> va == vb
  {
    assert (x - y) as real == (va - vb) * p;
    if va < vb {
      assert (va - vb) * p < 0.0;
    } else if va > vb {
      assert (va - vb) * p > 0.0;
    }
  }

  /** Two fractions `x / a` and `y / b` over positive denominators compare as `x * c`
    * and `y * d` do when `a * c == b * d`. */
  lemma RationalOrder(x: int, y: int, a: nat, b: nat, c: nat, d: nat)
    requires a >= 1 && b >= 1 && c >= 1 && d >= 1 && a * c == b * d
    ensures x * c < y * d <==> x as real / a as real < y as real / b as real
    ensures x * c == y * d <==> x as real / a as real == y as real / b as real
  {
    var p := (a * c) as real;
    assert p > 0.0 by { assert a * c >= 1; }
    var u, v := x as real / a as real, y as real / b as real;
    assert (x * c) as real == u * p by {
      assert u * a as real == x as real;
      assert (x * c) as real == x as real * c as real;
      assert p == a as real * c as real;
    }
    assert (y * d) as real == v * p by {
      assert v * b as real == y as real;
      assert (y * d) as real == y as real * d as real;
      assert p == b as real * d as real;
    }
    ScaleOrder(x * c, y * d, u, v, p);
  }

  /** `x / 10^ka` and `y / 10^kb` compare as `x` and `y` brought to `n` places do. */
  lemma FractionOrder(x: int, y: int, ka: nat, kb: nat, n: nat)
    requires ka <= n && kb <= n
    ensures x * Pow10(n - ka) < y * Pow10(n - kb) <==> x as real / Pow10(ka) as real < y as real / Pow10(kb) as real
    ensures x * Pow10(n - ka) == y * Pow10(n - kb) <==> x as real / Pow10(ka) as real == y as real / Pow10(kb) as real
  {
    Pow10Add(ka, n - ka);
    Pow10Add(kb, n - kb);
    RationalOrder(x, y, Pow10(ka), Pow10(kb), Pow10(n - ka), Pow10(n - kb));
  }

  /** Two numerals' numerators brought to `n` places compare as their values do. */
  lemma NumeratorOrder(a: string, b: string, n: nat, x: int, y: int)
    requires IsDecimal(a) && |Fraction(a)| <= n && IsDecimal(b) && |Fraction(b)| <= n
    requires x == Numerator(a) * Pow10(n - |Fraction(a)|)
    requires y == Numerator(b) * Pow10(n - |Fraction(b)|)
    ensures x < y <==> Value(a) < Value(b)
    ensures x == y <==> Value(a) == Value(b)
  {
    ScaledFractionOrder(Numerator(a), Numerator(b), |Fraction(a)|, |Fraction(b)|, n, x, y, Value(a), Value(b));
  }

  /** Two fractions over powers of ten, given as reals, compare as their numerators
    * brought to `n` places do. */
  lemma ScaledFractionOrder(na: int, nb: int, ka: nat, kb: nat, n: nat, x: int, y: int, va: real, vb: real)
    requires ka <= n && kb <= n
    requires x == na * Pow10(n - ka) && y == nb * Pow10(n - kb)
    requires va == na as real / Pow10(ka) as real && vb == nb as real / Pow10(kb) as real
    ensures x < y <==> va < vb
    ensures x == y <==> va == vb
  {
    FractionOrder(na, nb, ka, kb, n);
  }

  /** With at most `n` fractional digits on both sides, the scaled integers are ordered as
    * the values are. */
  lemma ScaledAtOrder(a: string, b: string, n: nat)
    requires IsDecimal(a) && |Fraction(a)| <= n && IsDecimal(b) && |Fraction(b)| <= n && n >= 1
    ensures ScaledAt(a, n).Some? && ScaledAt(b, n).Some?
    ensures ScaledAt(a, n).value < ScaledAt(b, n).value <==> Value(a) < Value(b)
    ensures ScaledAt(a, n).value == ScaledAt(b, n).value <==> Value(a) == Value(b)
  {
    ScaledAtExact(a, n);
    ScaledAtExact(b, n);
    NumeratorOrder(a, b, n, ScaledAt(a, n).value, ScaledAt(b, n).value);
  }

  /** Exactness: on numerals with at most 18 fractional digits, `compareDecimals` returns the
    * sign of the difference of the two values, negative numerals included. */
  lemma CompareIsSign(a: string, b: string)
    requires IsExactDecimal(a) && IsExactDecimal(b)
    ensures CompareDecimals(a, b).Some?
    ensures CompareDecimals(a, b).value == Sign(Value(a) - Value(b))
  {
    ScaledAtOrder(a, b, DefaultDecimals);
  }

  /** A numeral compares equal to itself whenever it converts at all. */
  lemma CompareReflexive(a: string)
    ensures CompareDecimals(a, a) == None || CompareDecimals(a, a) == Some(0)
  {
  }

  /** Swapping the arguments negates the result, for every pair of strings. */
  lemma CompareAntisymmetric(a: string, b: string)
    ensures CompareDecimals(a, b).Some? <==> CompareDecimals(b, a).Some?
    ensures CompareDecimals(a, b).Some? ==> CompareDecimals(b, a).value == -CompareDecimals(a, b).value
  {
  }

  /** A missing fraction reads as `.0`: `"123"` is `"123.0"` to the comparison, whatever
    * the rest of the text. */
  lemma MissingFractionIsZero(s: string)
    requires '.' !in s
    ensures ScaledValue(s + ".0") == ScaledValue(s)
  {
    SplitNoSep(s, '.');
    SplitAtFirst(s, "0", '.');
    assert s + ".0" == s + ['.'] + "0";
    SplitNoSep("0", '.');
    assert "" + "0" == "0";
    PadEndZero("", DefaultDecimals);
    assert ScaledText(s + ".0", DefaultDecimals) == ScaledText(s, DefaultDecimals);
  }

  /** Padding `f + "0"` or `f` to more than `|f|` places gives the same text. */
  lemma PadEndZero(f: string, n: nat)
    requires |f| < n
    ensures PadEnd(f + "0", n, '0') == PadEnd(f, n, '0')
  {
    assert Repeat('0', n - |f|) == "0" + Repeat('0', n - |f| - 1);
    assert f + "0" + Repeat('0', n - |f| - 1) == f + ("0" + Repeat('0', n - |f| - 1));
  }

  /** A trailing fractional zero changes nothing while the fraction is shorter than 18
    * places: `"0.1"` is `"0.10"` to the comparison. */
  lemma TrailingZeroIgnored(x: string, f: string)
    requires '.' !in x && '.' !in f && |f| < DefaultDecimals
    ensures ScaledValue(x + "." + f + "0") == ScaledValue(x + "." + f)
  {
    assert x + "." + f + "0" == x + "." + (f + "0");
    assert '.' !in f + "0";
    SplitOneDot(x, f + "0");
    SplitOneDot(x, f);
    ScaledTextOfParts(x + "." + f + "0", DefaultDecimals, x, f + "0", []);
    ScaledTextOfParts(x + "." + f, DefaultDecimals, x, f, []);
    PadEndZero(f, DefaultDecimals);
  }

  /** An empty integer part reads as `0`: `".5"` is `"0.5"` to the comparison. */
  lemma EmptyIntegerIsZero(f: string)
    ensures ScaledValue("." + f) == ScaledValue("0." + f)
  {
    assert "." + f == "" + ['.'] + f;
    assert "0." + f == "0" + ['.'] + f;
    SplitAtFirst("", f, '.');
    SplitAtFirst("0", f, '.');
  }

  // ---------------------------------------------------------------------------
  // The balance check

  /** With both texts exact numerals, the check is exactly `amount <= balance`. */
  lemma AmountValidIsExact(ops: FloatOps, amount: string, balance: Num, tokenDecimals: int)
    requires IsExactDecimal(amount) && IsExactDecimal(ToText(ops, balance))
    ensures IsAmountValid(ops, amount, balance, tokenDecimals) <==> Value(amount) <= Value(ToText(ops, balance))
  {
    CompareIsSign(amount, ToText(ops, balance));
  }

  /** The token's decimals play no part in the verdict. */
  lemma AmountValidIgnoresDecimals(ops: FloatOps, amount: string, balance: Num, d1: int, d2: int)
    ensures IsAmountValid(ops, amount, balance, d1) == IsAmountValid(ops, amount, balance, d2)
  {
  }

  /** An amount equal to the balance's own text is valid whenever that text converts. */
  lemma WholeBalanceIsValid(ops: FloatOps, balance: Num, tokenDecimals: int)
    requires ScaledValue(ToText(ops, balance)).Some?
    ensures IsAmountValid(ops, ToText(ops, balance), balance, tokenDecimals)
  {
  }

  /** `BigInt` throws on a text that starts with a character that begins no literal. */
  lemma ParseRejectsLeading(t: string)
    requires |t| > 0 && !IsSpace(t[0]) && !IsSpace(t[|t| - 1])
    requires !IsDigit(t[0]) && t[0] != '-' && t[0] != '+'
    ensures ParseBigInt(t) == None
  {
    TrimNoop(t);
  }

  /** Neither a radix prefix nor a sign comes first, and a later character is not a digit:
    * `BigInt` throws. */
  lemma ParseRejectsInner(t: string, k: nat)
    requires k < |t| && !IsSpace(t[0]) && !IsSpace(t[|t| - 1])
    requires t[0] != '0' && t[0] != '-' && t[0] != '+' && !IsDigit(t[k])
    ensures ParseBigInt(t) == None
  {
    TrimNoop(t);
  }

  /** The text `"NaN"` does not convert. */
  lemma NaNDoesNotConvert()
    ensures ScaledValue("NaN") == None
  {
    SplitNoSep("NaN", '.');
    var d := DecimalPart("NaN");
    assert |d| == DefaultDecimals && d[|d| - 1] == '0';
    var t := "NaN" + d;
    assert t[0] == 'N' && t[|t| - 1] == d[|d| - 1];
    ParseRejectsLeading(t);
  }

  /** A NaN balance makes every amount invalid: `"NaN"` does not convert and the fallback
    * rejects NaN. */
  lemma NaNBalanceRejects(ops: FloatOps, amount: string, tokenDecimals: int)
    ensures !IsAmountValid(ops, amount, NaN, tokenDecimals)
  {
    NaNDoesNotConvert();
  }

  // ---------------------------------------------------------------------------
  // Reading numerals, and the behaviour the tests pin down

  lemma DigitsHaveNoPoint(s: string)
    requires AllDigits(s)
    ensures '.' !in s
  {
    forall i | 0 <= i < |s| ensures s[i] != '.' { assert IsDigit(s[i]); }
  }

  /** A run of digits is an exact numeral with no fraction. */
  lemma WholeNumeral(w: string)
    requires AllDigits(w)
    ensures IsExactDecimal(w) && Whole(w) == w && Fraction(w) == ""
  {
    DigitsHaveNoPoint(w);
    if |w| > 0 { assert !IsDigit('-') && !IsDigit('+') && IsDigit(w[0]); }
    SplitNoSep(w, '.');
  }

  /** Digits, a point and digits make a numeral. */
  lemma PointNumeral(w: string, f: string)
    requires AllDigits(w) && AllDigits(f)
    ensures IsDecimal(w + "." + f) && Whole(w + "." + f) == w && Fraction(w + "." + f) == f
  {
    var s := w + "." + f;
    assert s == w + ['.'] + f;
    DigitsHaveNoPoint(w);
    DigitsHaveNoPoint(f);
    if |w| > 0 { assert s[0] == w[0]; } else { assert s[0] == '.'; }
    assert !HasSign(s);
    SplitAtFirst(w, f, '.');
    SplitNoSep(f, '.');
  }

  /** On exact numerals the comparison is reflexive. */
  lemma CompareReflexiveExact(a: string)
    requires IsExactDecimal(a)
    ensures CompareDecimals(a, a).Some? && CompareDecimals(a, a).value == 0
  {
    ScaledValueExact(a);
  }

  /** Only the first two `.`-separated parts are read: `"1.2.3"` is `"1.2"` to the
    * comparison. */
  lemma ExtraPartsIgnored(x: string, f: string, rest: string)
    requires '.' !in x && '.' !in f
    ensures ScaledValue(x + "." + f + "." + rest) == ScaledValue(x + "." + f)
  {
    SplitTwoDots(x, f, rest);
    SplitOneDot(x, f);
    ScaledTextOfParts(x + "." + f + "." + rest, DefaultDecimals, x, f, Split(rest, '.'));
    ScaledTextOfParts(x + "." + f, DefaultDecimals, x, f, []);
  }

  /** Text with one dot splits into the text before it and the text after it. */
  lemma SplitOneDot(x: string, f: string)
    requires '.' !in x && '.' !in f
    ensures Split(x + "." + f, '.') == [x, f] + []
  {
    assert x + "." + f == x + ['.'] + f;
    SplitAtFirst(x, f, '.');
    SplitNoSep(f, '.');
  }

  /** Text with two leading dot-free pieces splits into them, then the pieces of the rest. */
  lemma SplitTwoDots(x: string, f: string, rest: string)
    requires '.' !in x && '.' !in f
    ensures Split(x + "." + f + "." + rest, '.') == [x, f] + Split(rest, '.')
  {
    assert x + "." + f + "." + rest == x + ['.'] + (f + ['.'] + rest);
    SplitAtFirst(x, f + ['.'] + rest, '.');
    SplitAtFirst(f, rest, '.');
  }

  /** The text to convert depends only on the first two `.`-separated pieces. */
  lemma ScaledTextOfParts(s: string, n: nat, w: string, f: string, rest: seq<string>)
    requires Split(s, '.') == [w, f] + rest
    ensures ScaledText(s, n) == (if w == "" then "0" else w) + PadEnd(f, n, '0')
  {
  }

    /** Exponent notation does not convert: `BigInt` throws on the `e`. */
  lemma ExponentDoesNotConvert()
    ensures ScaledValue("1e3") == None
  {
    SplitNoSep("1e3", '.');
    var d := DecimalPart("1e3");
    assert |d| == DefaultDecimals && d[|d| - 1] == '0';
    var t := ScaledText("1e3", DefaultDecimals);
    assert t == "1e3" + d;
    assert t[0] == '1' && t[1] == 'e' && t[|t| - 1] == d[|d| - 1];
    ParseRejectsInner(t, 1);
  }

  /** An amount in exponent notation is judged by the numeric fallback. */
  lemma ExponentFallsBack(ops: FloatOps, balance: Num, tokenDecimals: int)
    ensures IsAmountValid(ops, "1e3", balance, tokenDecimals) ==
              WithinTolerance(ops.parseFloat("1e3"), balance)
  {
    ExponentDoesNotConvert();
  }

  /** A word, a text without a point that starts with a lower-case letter, does not
    * convert either: `BigInt` throws on its first character. */
  lemma WordDoesNotConvert(w: string)
    requires |w| > 0 && 'a' <= w[0] <= 'z' && '.' !in w
    ensures ScaledValue(w) == None
  {
    SplitNoSep(w, '.');
    var d := DecimalPart(w);
    assert |d| == DefaultDecimals && d[|d| - 1] == '0';
    var t := ScaledText(w, DefaultDecimals);
    assert t == w + d;
    assert t[0] == w[0] && t[|t| - 1] == d[|d| - 1];
    ParseRejectsLeading(t);
  }

  /** A fraction of at least `n` digits is not padded, so the conversion yields the bare
    * numerator, not scaled to `n` places. */
  lemma LongFractionUnscaled(s: string, n: nat)
    requires IsDecimal(s) && |Fraction(s)| >= n && n >= 1
    ensures ScaledAt(s, n).Some? && ScaledAt(s, n).value == Numerator(s)
  {
    ScaledAtDigits(s, n);
    var p := PadEnd(Fraction(s), n, '0');
    assert p == p[..|Fraction(s)|];
    assert ScaledDigits(s, n) == Digits(s);
  }

  /** `"0."`, zeros, then digits `d`: a numeral whose numerator is the value of `d`. */
  lemma SmallNumeral(k: nat, d: string)
    requires |d| > 0 && AllDigits(d)
    ensures var s := "0." + Repeat('0', k) + d;
            IsDecimal(s) && |Fraction(s)| == k + |d| && Numerator(s) == DigitsValue(d)
  {
    var z := Repeat('0', k);
    var f := z + d;
    assert AllDigits(f) && DigitsValue(f) == DigitsValue(d) by {
      ZerosValue(k);
      DigitsValueConcat(z, d);
      var zv, p := DigitsValue(z), Pow10(|d|);
      assert zv * p == 0;
    }
    var s := "0" + "." + f;
    assert "0." + z + d == s;
    PointNumeral("0", f);
    assert Numerator(s) == DigitsValue(d) by {
      assert !IsNegative(s) && Digits(s) == "0" + f;
      LeadingZero(f);
    }
  }

  lemma LeadingZero(f: string)
    requires AllDigits(f)
    ensures AllDigits("0" + f) && DigitsValue("0" + f) == DigitsValue(f)
  {
    assert DigitsValue("0") == 0 by { assert "0"[..0] == ""; }
    DigitsValueConcat("0", f);
    var z, p := DigitsValue("0"), Pow10(|f|);
    assert z * p == 0;
  }

  /** `p / 10^n` and `q / 10^(n+1)` compare as `10 * p` and `q` do. */
  lemma ShiftedOrder(p: int, q: int, n: nat)
    ensures p as real / Pow10(n) as real > q as real / Pow10(n + 1) as real <==> 10 * p > q
  {
    Pow10Add(n, 1);
    RationalOrder(q, p, Pow10(n + 1), Pow10(n), 1, 10);
  }

  /** 2e-18 written with 18 fractional digits: its scaled value is 2. */
  lemma TinyTwo()
    ensures var a := "0." + Repeat('0', 17) + "2";
            IsDecimal(a) && |Fraction(a)| == 18 && Numerator(a) == 2 && ScaledValue(a) == Some(2)
  {
    SmallNumeral(17, "2");
    FullWidthFraction(17, "2");
    assert DigitsValue("2") == 2 by { assert "2"[..0] == ""; }
  }

  /** A fraction of exactly 18 digits after `0.` is scaled to its own digits' value. */
  lemma FullWidthFraction(k: nat, d: string)
    requires |d| > 0 && AllDigits(d) && k + |d| == DefaultDecimals
    ensures ScaledValue("0." + Repeat('0', k) + d) == Some(DigitsValue(d))
  {
    var s := "0." + Repeat('0', k) + d;
    SmallNumeral(k, d);
    ScaledValueExact(s);
    assert DefaultDecimals - |Fraction(s)| == 0;
    assert Pow10(0) == 1;
  }

  /** 1.1e-18 written with 19 fractional digits: the fraction is not cut, so its scaled
    * value is 11. */
  lemma TinyEleven()
    ensures var b := "0." + Repeat('0', 17) + "11";
            IsDecimal(b) && |Fraction(b)| == 19 && Numerator(b) == 11 && ScaledValue(b) == Some(11)
  {
    var b := "0." + Repeat('0', 17) + "11";
    assert DigitsValue("11") == 11 by { assert "11"[..1] == "1"; }
    SmallNumeral(17, "11");
    LongFractionUnscaled(b, DefaultDecimals);
  }

  /** Beyond 18 fractional digits the comparison is no longer exact: 2e-18 is larger than
    * 1.1e-18, written with 19 fractional digits, yet compares as smaller. */
  lemma LongFractionMisorders()
    ensures var a, b := "0." + Repeat('0', 17) + "2", "0." + Repeat('0', 17) + "11";
            IsDecimal(a) && IsDecimal(b) && Value(a) > Value(b)
            && CompareDecimals(a, b).Some? && CompareDecimals(a, b).value == -1
  {
    var a, b := "0." + Repeat('0', 17) + "2", "0." + Repeat('0', 17) + "11";
    TinyTwo();
    TinyEleven();
    assert Value(a) == 2 as real / Pow10(18) as real;
    assert Value(b) == 11 as real / Pow10(18 + 1) as real;
    ShiftedOrder(2, 11, 18);
  }

  /** The MAX test is textual: a whole balance `w` followed by `".0"` is not the MAX amount,
    * although the two texts compare equal. */
  lemma MaxAmountIsTextual(ops: FloatOps, w: string, balance: Num)
    requires |w| > 0 && AllDigits(w)
    requires ToText(ops, balance) == w && ops.formatMaxAmount(balance, DefaultDecimals) == w
    ensures !IsMaxAmount(ops, w + ".0", balance)
    ensures CompareDecimals(w + ".0", w).Some? && CompareDecimals(w + ".0", w).value == 0
  {
    assert |w + ".0"| != |w|;
    WholeNumeral(w);
    ScaledValueExact(w);
    MissingFractionIsZero(w);
  }
}
