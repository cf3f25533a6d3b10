/**
 * JavaScript numbers where the core only stores, compares or prints them. A number is a
 * finite value or NaN (infinities and the sign of zero play no part in the core). The
 * built-ins whose results depend on IEEE-754 rounding are not defined here: they are the
 * fields of `FloatOps`, which every operation that calls one of them takes as a parameter.
 */
module JsNumber {
  import opened Wrappers

  datatype Num = Finite(value: real) | NaN

  /** The number is truthy: `!!n`. */
  predicate Truthy(n: Num)
  {
    n.Finite? && n.value != 0.0
  }

  /** `a < b`; false whenever either side is NaN. */
  predicate Less(a: Num, b: Num)
  {
    a.Finite? && b.Finite? && a.value < b.value
  }

  /** `a <= b`; false whenever either side is NaN. */
  predicate AtMost(a: Num, b: Num)
  {
    a.Finite? && b.Finite? && a.value <= b.value
  }

  /** The built-ins that depend on IEEE-754 doubles, supplied from outside:
    * `parseFloat(s)`, `Number(s)`, `x.toString()` for a finite `x`,
    * `PrecisionHandler.formatMaxAmount(balance, decimals)` and `x.toFixed(2)`. */
  datatype FloatOps = FloatOps(
    parseFloat: string -> Num,
    toNumber: string -> Num,
    finiteText: real -> string,
    formatMaxAmount: (Num, int) -> string,
    toFixed2: real -> string)

  /** `n.toString()`. */
  function ToText(ops: FloatOps, n: Num): string
  {
    if n.NaN? then "NaN" else ops.finiteText(n.value)
  }

  /** `record[key]` on a `Record<string, number>`: `None` stands for `undefined`. */
  function Lookup(m: map<string, Num>, key: string): Option<Num>
  {
    if key in m then Some(m[key]) else None
  }

  /** `record[key] || 0`: undefined, NaN and 0 all become 0. */
  function LookupOrZero(m: map<string, Num>, key: string): (n: Num)
    ensures n.Finite?
    ensures key in m && m[key].Finite? ==> n == m[key]
    ensures key !in m || m[key].NaN? ==> n == Finite(0.0)
  {
    var v := Lookup(m, key);
    if v.Some? && Truthy(v.value) then v.value else Finite(0.0)
  }
}
