/**
 * The string and scaled-integer formatters: cleaning up what the user types into the
 * amount field, converting between human decimal text and raw token units (the amount
 * times `10^decimals`), and abbreviating addresses and transaction hashes.
 */
module Formatters {
  import opened Wrappers
  import opened JsText
  import opened JsBigInt
  import opened Seqs

  // ---------------------------------------------------------------------------
  // sanitizeNumericInput

  predicate IsNumericChar(c: char)
  {
    IsDigit(c) || c == '.'
  }

  predicate NotDot(c: char)
  {
    c != '.'
  }

  /** The text with every `.` deleted. */
  function RemoveDots(s: string): (r: string)
    ensures '.' !in r
  {
    var r := Filter(s, NotDot);
    assert forall i :: 0 <= i < |r| ==> r[i] != '.';
    r
  }

  /** First stage, `value.replace(/[^0-9.]/g, '')`: only digits and dots are kept. */
  function KeepNumeric(s: string): string
  {
    Filter(s, IsNumericChar)
  }

  /** Second stage: with two dots or more, the pieces after the first dot are joined
    * behind it. */
  function CollapseDots(s: string): string
  {
    var parts := Split(s, '.');
    if |parts| > 2 then parts[0] + "." + Concat(parts[1..]) else s
  }

  /** Third stage: a leading `0` is dropped when something other than `.` follows it. */
  function StripLeadingZero(s: string): string
  {
    if |s| > 1 && s[0] == '0' && s[1] != '.' then s[1..] else s
  }

  /** `sanitizeNumericInput(value)`: digits and at most one dot, in their original order. */
  function SanitizeNumericInput(value: string): (r: string)
    ensures forall i :: 0 <= i < |r| ==> IsNumericChar(r[i])
    ensures Count(r, '.') <= 1
    ensures IsSubseq(r, value) && |r| <= |value|
  {
    var k := KeepNumeric(value);
    var c := CollapseDots(k);
    CollapseDotsShape(k);
    FilterIsSubseq(value, IsNumericChar);
    var r := StripLeadingZero(c);
    StripIsSubseq(c);
    SubseqTrans(r, c, k);
    SubseqTrans(r, k, value);
    SubseqLength(r, value);
    assert forall i :: 0 <= i < |r| ==> IsNumericChar(r[i]) by {
      if r != c {
        forall i | 0 <= i < |r| ensures IsNumericChar(r[i]) { assert r[i] == c[i + 1]; }
      }
    }
    assert Count(r, '.') <= 1 by {
      if r != c {
        assert c == [c[0]] + r;
        CountConcat([c[0]], r, '.');
      }
    }
    r
  }

  /** Joining the pieces of a split deletes the separators. */
  lemma {:induction false} ConcatSplitDots(y: string)
    ensures Concat(Split(y, '.')) == RemoveDots(y)
  {
    if |y| > 0 {
      ConcatSplitDots(y[1..]);
      var rest := Split(y[1..], '.');
      if y[0] != '.' {
        assert Concat(rest) == rest[0] + Concat(rest[1..]);
        var parts := [[y[0]] + rest[0]] + rest[1..];
        assert parts[1..] == rest[1..];
        assert Concat(parts) == [y[0]] + rest[0] + Concat(rest[1..]);
      } else {
        assert ([""] + rest)[1..] == rest;
      }
    }
  }

  /** With a first dot after `x`, the second stage keeps `x`, that dot, and the rest
    * without its dots. */
  lemma CollapseAtFirstDot(x: string, y: string)
    requires '.' !in x
    ensures CollapseDots(x + "." + y) == x + "." + RemoveDots(y)
  {
    assert x + "." + y == x + ['.'] + y;
    SplitAtFirst(x, y, '.');
    if '.' in y {
      assert Count(y, '.') > 0;
      ConcatSplitDots(y);
      assert ([x] + Split(y, '.'))[1..] == Split(y, '.');
    } else {
      SplitNoSep(y, '.');
      FilterAll(y, NotDot);
    }
  }

  /** The second stage leaves at most one dot, keeps the text before the first dot and
    * every other character in order, and deletes only dots. */
  lemma CollapseDotsShape(s: string)
    ensures Count(CollapseDots(s), '.') <= 1
    ensures IsSubseq(CollapseDots(s), s)
    ensures RemoveDots(CollapseDots(s)) == RemoveDots(s)
    ensures (forall i :: 0 <= i < |s| ==> IsNumericChar(s[i])) ==>
              forall i :: 0 <= i < |CollapseDots(s)| ==> IsNumericChar(CollapseDots(s)[i])
  {
    if '.' !in s {
      SplitNoSep(s, '.');
      SubseqRefl(s);
    } else {
      var i := FirstIndex(s, '.');
      var x, y := s[..i], s[i + 1..];
      assert s == x + "." + y;
      CollapseAtFirstDot(x, y);
      CollapsedCount(x, y);
      CollapsedSubseq(x, y);
      CollapsedDots(x, y);
      if forall i :: 0 <= i < |s| ==> IsNumericChar(s[i]) {
        CollapsedNumeric(x, y);
      }
    }
  }

  /** `x`, one dot and the rest without dots hold exactly one dot. */
  lemma CollapsedCount(x: string, y: string)
    requires '.' !in x
    ensures Count(x + "." + RemoveDots(y), '.') == 1
  {
    var ry := RemoveDots(y);
    CountConcat(x + ".", ry, '.');
    CountConcat(x, ".", '.');
  }

  /** `x`, one dot and the rest without dots is a subsequence of `x`, the dot and the rest. */
  lemma CollapsedSubseq(x: string, y: string)
    ensures IsSubseq(x + "." + RemoveDots(y), x + "." + y)
  {
    SubseqRefl(x + ".");
    FilterIsSubseq(y, NotDot);
    SubseqConcat(x + ".", x + ".", RemoveDots(y), y);
  }

  /** Deleting the rest's dots first changes nothing about deleting all dots. */
  lemma CollapsedDots(x: string, y: string)
    ensures RemoveDots(x + "." + RemoveDots(y)) == RemoveDots(x + "." + y)
  {
    var ry := RemoveDots(y);
    FilterConcat(x + ".", y, NotDot);
    FilterConcat(x + ".", ry, NotDot);
    FilterAll(ry, NotDot);
  }

  /** Keeping some of the rest's characters keeps every character numeric. */
  lemma CollapsedNumeric(x: string, y: string)
    requires forall i :: 0 <= i < |x + "." + y| ==> IsNumericChar((x + "." + y)[i])
    ensures forall i :: 0 <= i < |x + "." + RemoveDots(y)| ==> IsNumericChar((x + "." + RemoveDots(y))[i])
  {
    var s, c := x + "." + y, x + "." + RemoveDots(y);
    forall k | 0 <= k < |c| ensures IsNumericChar(c[k]) {
      if k > |x| {
        FilterMember(y, NotDot, c[k]);
        var j :| 0 <= j < |y| && y[j] == c[k];
        assert s[|x| + 1 + j] == y[j];
      } else {
        assert c[k] == s[k];
      }
    }
  }

  lemma StripIsSubseq(s: string)
    ensures IsSubseq(StripLeadingZero(s), s)
  {
    SubseqRefl(s);
    if StripLeadingZero(s) != s {
      SubseqRefl(s[1..]);
    }
  }

  /** Apart from dots, sanitizing keeps the digits in order, perhaps without the
    * first one when that is a `0`. */
  lemma SanitizeKeepsDigits(value: string)
    ensures var d := RemoveDots(KeepNumeric(value));
            var r := RemoveDots(SanitizeNumericInput(value));
            r == d || (|d| > 0 && d[0] == '0' && r == d[1..])
  {
    var k := KeepNumeric(value);
    var c := CollapseDots(k);
    CollapseDotsShape(k);
    if StripLeadingZero(c) != c {
      assert c == "0" + c[1..];
      FilterConcat("0", c[1..], NotDot);
    }
  }

  /** A well-formed numeral is left alone when it has no superfluous leading zero:
    * `"0.123"` and `"123.45"` come back unchanged. */
  lemma SanitizeKeepsNumeral(w: string, f: string)
    requires AllDigits(w) && AllDigits(f)
    requires |w| <= 1 || w[0] != '0'
    ensures SanitizeNumericInput(w + "." + f) == w + "." + f
  {
    var s := w + "." + f;
    FilterAll(s, IsNumericChar);
    DigitsHaveNoDot(w);
    DigitsHaveNoDot(f);
    CollapseAtFirstDot(w, f);
    FilterAll(f, NotDot);
    if |w| == 1 {
      assert s[1] == '.';
    } else if |w| == 0 {
      assert s[0] == '.';
    } else {
      assert s[0] == w[0];
    }
  }

  /** Sanitizing is not idempotent: `"00" + w` becomes `"0" + w`, which becomes `w`. */
  lemma SanitizeNotIdempotent(w: string)
    requires |w| > 0 && AllDigits(w)
    ensures SanitizeNumericInput("00" + w) == "0" + w
    ensures SanitizeNumericInput("0" + w) == w
  {
    DigitsHaveNoDot(w);
    assert AllDigits("0" + w) && AllDigits("00" + w) by {
      assert forall i :: 1 <= i < |"0" + w| ==> ("0" + w)[i] == w[i - 1];
      assert forall i :: 2 <= i < |"00" + w| ==> ("00" + w)[i] == w[i - 2];
    }
    FilterAll("00" + w, IsNumericChar);
    FilterAll("0" + w, IsNumericChar);
    DigitsHaveNoDot("00" + w);
    DigitsHaveNoDot("0" + w);
    SplitNoSep("00" + w, '.');
    SplitNoSep("0" + w, '.');
    assert ("00" + w)[1..] == "0" + w;
    assert ("0" + w)[1..] == w;
    assert IsDigit(w[0]);
  }

  lemma DigitsHaveNoDot(s: string)
    requires AllDigits(s)
    ensures '.' !in s
  {
    forall i | 0 <= i < |s| ensures s[i] != '.' { assert IsDigit(s[i]); }
  }

  // ---------------------------------------------------------------------------
  // parseTokenAmount / formatTokenAmount

  /** `parseTokenAmount(amount, decimals)`: the text before the first dot followed by exactly
    * `decimals` fractional characters, the text after it cut or padded with zeros. */
  function ParseTokenAmount(amount: string, decimals: nat): (r: string)
    ensures var parts := Split(amount, '.');
            var f := if |parts| > 1 then parts[1] else "";
            |r| == |parts[0]| + decimals && r[..|parts[0]|] == parts[0]
            && forall i :: 0 <= i < decimals ==> r[|parts[0]| + i] == if i < |f| then f[i] else '0'
  {
    var parts := Split(amount, '.');
    var fractional := if |parts| > 1 then parts[1] else "";
    var padded := PadEnd(fractional, decimals, '0');
    var cut := Slice(padded, 0, decimals);
    assert cut == padded[..decimals];
    assert forall i :: 0 <= i < |fractional| && i < decimals ==> cut[i] == padded[..|fractional|][i];
    parts[0] + cut
  }

  /** `a / b` on BigInt: the quotient truncated toward zero. */
  function TruncDiv(a: int, b: nat): int
    requires b > 0
  {
    if a >= 0 then a / b else -((-a) / b)
  }

  /** `a % b` on BigInt: the remainder takes the sign of `a`. */
  function TruncRem(a: int, b: nat): int
    requires b > 0
  {
    a - b * TruncDiv(a, b)
  }

  /** `formatTokenAmount(amount, decimals)`; `None` where `BigInt(amount)` throws.
    * `10 ** decimals` is exact up to 22 places. */
  function FormatTokenAmount(amount: string, decimals: nat): (r: Option<string>)
    requires decimals <= 22
    ensures r.Some? <==> ParseBigInt(amount).Some?
    ensures r.Some? ==> r.value == FormatUnits(ParseBigInt(amount).value, decimals)
  {
    match ParseBigInt(amount)
    case None => None
    case Some(value) => Some(FormatUnits(value, decimals))
  }

  /** The text `formatTokenAmount` prints for the raw value `value`. */
  function FormatUnits(value: int, decimals: nat): string
  {
    var divisor := Pow10(decimals);
    var wholePart := TruncDiv(value, divisor);
    var fractionalPart := TruncRem(value, divisor);
    if fractionalPart == 0 then IntToString(wholePart)
    else IntToString(wholePart) + "." + FractionalText(fractionalPart, decimals)
  }

  /** The remainder padded to `decimals` places with leading zeros, trailing zeros cut. */
  function FractionalText(fractionalPart: int, decimals: nat): string
  {
    TrimTrailingZeros(PadStart(IntToString(fractionalPart), decimals, '0'))
  }

  /** `t` prints the remainder `rem` as `decimals` fractional places: non-empty, at most
    * `decimals` digits, no trailing zero. */
  predicate IsFractionText(t: string, decimals: nat, rem: nat)
  {
    0 < |t| <= decimals && AllDigits(t) && t[|t| - 1] != '0'
    && DigitsValue(t) * Pow10(decimals - |t|) == rem
  }

  /** For a non-negative raw value `v`, the text is `v / 10^decimals`: the quotient alone
    * when the remainder is 0, otherwise the quotient, a dot and the remainder's digits. */
  lemma FormatUnitsValue(v: nat, decimals: nat)
    ensures v / Pow10(decimals) >= 0 && v % Pow10(decimals) >= 0
    ensures var q, m := v / Pow10(decimals), v % Pow10(decimals);
            FormatUnits(v, decimals) ==
              if m == 0 then NatToString(q) else NatToString(q) + "." + FractionalText(m, decimals)
    ensures v % Pow10(decimals) != 0 ==>
              IsFractionText(FractionalText(v % Pow10(decimals), decimals), decimals, v % Pow10(decimals))
  {
    var p := Pow10(decimals);
    DivMod(v, p);
    assert TruncDiv(v, p) == v / p;
    if v % p != 0 {
      RemainderText(v % p, decimals);
    }
  }

  lemma DivMod(v: nat, p: nat)
    requires p > 0
    ensures v / p >= 0 && 0 <= v % p < p && v == p * (v / p) + v % p
  {
  }

  /** A positive remainder below `10^decimals`, padded to `decimals` places and stripped of
    * trailing zeros, is a fraction text for itself. */
  lemma RemainderText(rem: nat, decimals: nat)
    requires 0 < rem < Pow10(decimals)
    ensures IsFractionText(FractionalText(rem, decimals), decimals, rem)
  {
    assert decimals >= 1;
    var padded := PadStart(NatToString(rem), decimals, '0');
    PaddedRemainder(rem, decimals);
    TrimmedFraction(TrimTrailingZeros(padded), padded, rem);
  }

  /** Cutting the trailing zeros off `padded`, a positive value's digits, leaves a
    * fraction text for that value. */
  lemma TrimmedFraction(t: string, padded: string, rem: nat)
    requires AllDigits(padded) && DigitsValue(padded) == rem > 0
    requires t == TrimTrailingZeros(padded)
    ensures IsFractionText(t, |padded|, rem)
  {
    TrimmedValue(padded);
    PositiveFactor(DigitsValue(t), Pow10(|padded| - |t|));
  }

  lemma PositiveFactor(d: nat, e: nat)
    requires d * e > 0
    ensures d > 0
  {
  }

  /** Padding a remainder below `10^decimals` with leading zeros to `decimals` places
    * keeps its value. */
  lemma PaddedRemainder(rem: nat, decimals: nat)
    requires rem < Pow10(decimals) && decimals >= 1
    ensures var padded := PadStart(NatToString(rem), decimals, '0');
            |padded| == decimals && AllDigits(padded) && DigitsValue(padded) == rem
  {
    NatToStringLength(rem, decimals);
    PadZerosValue(NatToString(rem), decimals);
  }

  /** Leading zeros do not change the value of a digit string. */
  lemma PadZerosValue(n: string, k: nat)
    requires AllDigits(n) && |n| <= k
    ensures var padded := PadStart(n, k, '0');
            |padded| == k && AllDigits(padded) && DigitsValue(padded) == DigitsValue(n)
  {
    if |n| < k {
      var z := Repeat('0', k - |n|);
      assert PadStart(n, k, '0') == z + n;
      ZerosValue(k - |n|);
      DigitsValueConcat(z, n);
      ZeroProduct(DigitsValue(z), Pow10(|n|));
    }
  }

  lemma ZeroProduct(a: nat, b: nat)
    requires a == 0
    ensures a * b == 0
  {
  }

  /** Deleting trailing zeros divides the value by ten for each zero removed. */
  lemma TrimmedValue(s: string)
    requires AllDigits(s)
    ensures var t := TrimTrailingZeros(s);
            AllDigits(t) && DigitsValue(s) == DigitsValue(t) * Pow10(|s| - |t|)
  {
    var t := TrimTrailingZeros(s);
    var tail := s[|t|..];
    assert s == t + tail;
    assert tail == Repeat('0', |tail|);
    ZerosValue(|tail|);
    assert AllDigits(t) by { assert forall i :: 0 <= i < |t| ==> t[i] == s[i]; }
    DigitsValueConcat(t, tail);
  }

  /** Reading the raw units back: `w + "." + t` with at most `decimals` digits in `t`
    * gives `w`, `t` and zeros up to `decimals` places. */
  lemma ParseTokenAmountPoint(w: string, t: string, decimals: nat)
    requires AllDigits(w) && AllDigits(t) && |t| <= decimals
    ensures ParseTokenAmount(w + "." + t, decimals) == w + t + Repeat('0', decimals - |t|)
  {
    DigitsHaveNoDot(w);
    DigitsHaveNoDot(t);
    assert w + "." + t == w + ['.'] + t;
    SplitAtFirst(w, t, '.');
    SplitNoSep(t, '.');
    var r := ParseTokenAmount(w + "." + t, decimals);
    var q := w + t + Repeat('0', decimals - |t|);
    assert |r| == |q|;
    forall i | 0 <= i < |r| ensures r[i] == q[i] {
      if i < |w| {
        assert r[i] == r[..|w|][i];
      }
    }
  }

  /** Round trip: for a digit string `s`, reading back what `formatTokenAmount` prints
    * gives a digit string denoting the same integer. */
  lemma TokenAmountRoundTrip(s: string, decimals: nat)
    requires |s| > 0 && AllDigits(s) && decimals <= 22
    ensures FormatTokenAmount(s, decimals).Some?
    ensures var r := ParseTokenAmount(FormatTokenAmount(s, decimals).value, decimals);
            AllDigits(r) && DigitsValue(r) == DigitsValue(s)
  {
    ParseDigits(s);
    UnitsRoundTrip(DigitsValue(s), decimals);
  }

  /** Round trip on the raw value: the printed text reads back as the same integer. */
  lemma UnitsRoundTrip(v: nat, decimals: nat)
    ensures AllDigits(ParseTokenAmount(FormatUnits(v, decimals), decimals))
    ensures DigitsValue(ParseTokenAmount(FormatUnits(v, decimals), decimals)) == v
  {
    FormatUnitsValue(v, decimals);
    var p := Pow10(decimals);
    var q: nat, m: nat := v / p, v % p;
    var w := NatToString(q);
    DivMod(v, p);
    if m == 0 {
      WholeUnitsBack(w, decimals);
    } else {
      FractionUnitsBack(w, FractionalText(m, decimals), decimals, m);
    }
    Recombine(v, p, q, m);
  }

  /** Reading back the quotient, a dot and a fraction text for `m` gives the quotient
    * followed by `decimals` digits worth `m`. */
  lemma FractionUnitsBack(w: string, t: string, decimals: nat, m: nat)
    requires AllDigits(w) && IsFractionText(t, decimals, m)
    ensures AllDigits(ParseTokenAmount(w + "." + t, decimals))
    ensures DigitsValue(ParseTokenAmount(w + "." + t, decimals)) == DigitsValue(w) * Pow10(decimals) + m
  {
    ParseTokenAmountPoint(w, t, decimals);
    FractionDigitsValue(w, t, decimals, m);
  }

  /** The quotient's digits, a fraction text for `m`, and zeros up to `decimals` places:
    * the quotient shifted by `decimals` places plus `m`. */
  lemma FractionDigitsValue(w: string, t: string, decimals: nat, m: nat)
    requires AllDigits(w) && IsFractionText(t, decimals, m)
    ensures AllDigits(w + t + Repeat('0', decimals - |t|))
    ensures DigitsValue(w + t + Repeat('0', decimals - |t|)) == DigitsValue(w) * Pow10(decimals) + m
  {
    ThreePartValue(w, t, decimals);
  }

  /** Digits `w`, then `t`, then zeros up to `n` places after `w`: the value of `w`
    * shifted by `n` places, plus the value of `t` shifted past the zeros. */
  lemma ThreePartValue(w: string, t: string, n: nat)
    requires AllDigits(w) && AllDigits(t) && |t| <= n
    ensures AllDigits(w + t + Repeat('0', n - |t|))
    ensures DigitsValue(w + t + Repeat('0', n - |t|)) == DigitsValue(w) * Pow10(n) + DigitsValue(t) * Pow10(n - |t|)
  {
    var k := n - |t|;
    DigitsValueConcat(w, t);
    var wt := w + t;
    ConcatZeros(wt, k);
    Pow10Add(|t|, k);
    var x, y, a, b := DigitsValue(w), DigitsValue(t), Pow10(|t|), Pow10(k);
    calc {
      DigitsValue(wt + Repeat('0', k));
      DigitsValue(wt) * b;
      (x * a + y) * b;
      { ShiftParts(x, a, y, b); }
      x * (a * b) + y * b;
      x * Pow10(|t| + k) + y * b;
      { assert |t| + k == n; }
      x * Pow10(n) + y * b;
    }
  }

  lemma ShiftParts(x: int, a: int, y: int, b: int)
    ensures (x * a + y) * b == x * (a * b) + y * b
  {
  }

  /** Appending `k` zeros to a digit string multiplies its value by `10^k`. */
  lemma ConcatZeros(u: string, k: nat)
    requires AllDigits(u)
    ensures AllDigits(u + Repeat('0', k))
    ensures DigitsValue(u + Repeat('0', k)) == DigitsValue(u) * Pow10(k)
  {
    var z := Repeat('0', k);
    ZerosValue(k);
    DigitsValueConcat(u, z);
  }

  /** Reading back a whole number appends `decimals` zeros. */
  lemma WholeUnitsBack(w: string, decimals: nat)
    requires AllDigits(w)
    ensures AllDigits(ParseTokenAmount(w, decimals))
    ensures DigitsValue(ParseTokenAmount(w, decimals)) == DigitsValue(w) * Pow10(decimals)
  {
    DigitsHaveNoDot(w);
    SplitNoSep(w, '.');
    var z := Repeat('0', decimals);
    var r := ParseTokenAmount(w, decimals);
    assert r == w + z by {
      forall i | 0 <= i < |r| ensures r[i] == (w + z)[i] {
        if i < |w| {
          assert r[i] == r[..|w|][i];
        }
      }
    }
    ConcatZeros(w, decimals);
  }

  /** `q * p + m == v` for the quotient and remainder of `v` by `p`. */
  lemma Recombine(v: nat, p: nat, q: nat, m: nat)
    requires p > 0 && q == v / p && m == v % p
    ensures q * p + m == v
  {
  }

  // ---------------------------------------------------------------------------
  // shortenAddress / formatTxHash

  /** `shortenAddress(address, chars)`; `slice(-chars)` with `chars == 0` is the whole text. */
  function ShortenAddress(address: string, chars: int): (r: string)
    ensures |address| == 0 || |address| < chars * 2 + 2 ==> r == address
    ensures chars >= 1 && |address| >= chars * 2 + 2 ==>
              r == address[..chars + 2] + "..." + address[|address| - chars..] && |r| == 2 * chars + 5
  {
    if |address| == 0 || |address| < chars * 2 + 2 then address
    else Slice(address, 0, chars + 2) + "..." + SliceFrom(address, -chars)
  }

  /** With no characters asked for at the end, the whole address follows the dots. */
  lemma ShortenAddressZero(address: string)
    requires |address| >= 2
    ensures ShortenAddress(address, 0) == address[..2] + "..." + address
  {
  }

  /** `formatTxHash(hash)`: the first eight and last six characters of a hash of at least
    * fourteen, any shorter hash unchanged. */
  function FormatTxHash(hash: string): (r: string)
    ensures |hash| < 14 ==> r == hash
    ensures |hash| >= 14 ==> r == hash[..8] + "..." + hash[|hash| - 6..] && |r| == 17
  {
    ShortenAddress(hash, 6)
  }
}
