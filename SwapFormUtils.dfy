/**
 * The swap form's own validity test and the handlers the form wires to its inputs. Each
 * handler is created with the values it needs (the tokens, the balances) and, when
 * called, asks the form to do things in a fixed order: write a field (with or without
 * validating it), validate a field, or pass a value to the amount field's change
 * callback. The form is a record of three strings together with the log of what it was
 * asked to do; the timers that delay validation are left out, their order kept.
 */
module SwapFormUtils {
  import opened JsText
  import opened Seqs
  import opened JsNumber
  import opened DecimalText
  import opened PrecisionHandler
  import opened Formatters
  import opened SwapFormSchema

  // ---------------------------------------------------------------------------
  // isFormValid

  /** `isFormValid(fromToken, toToken, fromAmount, tokenBalances)` as written: the amount
    * test is `amount <= 0`, which is false for NaN, so an amount that does not parse as a
    * number is not rejected there. */
  function IsFormValid(ops: FloatOps, fromToken: string, toToken: string, fromAmount: string, balances: map<string, Num>): (ok: bool)
    ensures ok ==> fromToken != "" && toToken != "" && fromAmount != "" && fromToken != toToken
    ensures ok ==> !AtMost(ParseNumber(ops, fromAmount), Finite(0.0))
    ensures fromToken != "" && toToken != "" && fromAmount != "" && fromToken != toToken
            && !AtMost(ParseNumber(ops, fromAmount), Finite(0.0)) ==>
              (ok <==> IsAmountValid(ops, fromAmount, LookupOrZero(balances, fromToken), DefaultDecimals))
  {
    if fromToken == "" || toToken == "" || fromAmount == "" then false
    else if fromToken == toToken then false
    else if AtMost(ParseNumber(ops, fromAmount), Finite(0.0)) then false
    else IsAmountValid(ops, fromAmount, LookupOrZero(balances, fromToken), DefaultDecimals)
  }

  /** `isFormValid` with the amount test the schema uses: anything that is not a number
    * above zero is rejected. */
  function IsFormValidFixed(ops: FloatOps, fromToken: string, toToken: string, fromAmount: string, balances: map<string, Num>): (ok: bool)
    ensures ok ==> fromToken != "" && toToken != "" && fromAmount != "" && fromToken != toToken
    ensures ok ==> AmountIsPositive(ops, fromAmount)
  {
    if fromToken == "" || toToken == "" || fromAmount == "" then false
    else if fromToken == toToken then false
    else if !AmountIsPositive(ops, fromAmount) then false
    else IsAmountValid(ops, fromAmount, LookupOrZero(balances, fromToken), DefaultDecimals)
  }

  /** The corrected test accepts exactly the forms the schema accepts, whatever the
    * decimals table. */
  lemma FixedMatchesSchema(ops: FloatOps, balances: map<string, Num>, decimals: map<string, int>, data: SwapFormData)
    ensures IsFormValidFixed(ops, data.fromToken, data.toToken, data.fromAmount, balances) <==>
              SafeParse(ops, balances, decimals, data).Success?
  {
    if data.fromToken != "" && data.fromAmount != "" {
      BalanceRuleIsAmountValid(ops, balances, decimals, data);
    }
  }

  /** Where the amount parses as a number, the test as written agrees with the schema. */
  lemma FormValidMatchesSchemaOnNumbers(ops: FloatOps, balances: map<string, Num>, decimals: map<string, int>, data: SwapFormData)
    requires ParseNumber(ops, data.fromAmount).Finite?
    ensures IsFormValid(ops, data.fromToken, data.toToken, data.fromAmount, balances) <==>
              SafeParse(ops, balances, decimals, data).Success?
  {
    FixedMatchesSchema(ops, balances, decimals, data);
  }

  /** The lone point `"."`: `parseFloat` gives NaN, yet its digits read as zero, so the
    * test as written passes it against any balance that prints as a non-negative numeral,
    * while the schema rejects it as not a positive number. */
  lemma LonePointPassesFormCheck(ops: FloatOps, fromToken: string, toToken: string, balances: map<string, Num>, decimals: map<string, int>)
    requires fromToken != "" && toToken != "" && fromToken != toToken
    requires ops.parseFloat(".").NaN?
    requires IsExactDecimal(ToText(ops, LookupOrZero(balances, fromToken)))
    requires Value(ToText(ops, LookupOrZero(balances, fromToken))) >= 0.0
    ensures IsFormValid(ops, fromToken, toToken, ".", balances)
    ensures !IsFormValidFixed(ops, fromToken, toToken, ".", balances)
    ensures SafeParse(ops, balances, decimals, SwapFormData(fromToken, toToken, ".")).Failure?
    ensures Issue(FromAmount, Positive) in SafeParse(ops, balances, decimals, SwapFormData(fromToken, toToken, ".")).error
  {
    LonePointIsZero();
    AmountValidIsExact(ops, ".", LookupOrZero(balances, fromToken), DefaultDecimals);
  }

  /** The lone point is an exact numeral worth zero: no whole digits, no fraction digits. */
  lemma LonePointIsZero()
    ensures IsExactDecimal(".") && Value(".") == 0.0
  {
    PointNumeral("", "");
    assert "" + "." + "" == ".";
  }

  // ---------------------------------------------------------------------------
  // The handlers

  /** What a handler asks of the form: `setValue(field, value, { shouldValidate })`,
    * `trigger(field)`, or `onChange(value)` on the amount field. */
  datatype Effect =
    | Write(field: Field, value: string, shouldValidate: bool)
    | Validate(field: Field)
    | Change(value: string)

  /** The record with one field replaced. */
  function WithField(data: SwapFormData, field: Field, value: string): (d: SwapFormData)
    ensures field == FromToken ==> d == data.(fromToken := value)
    ensures field == ToToken ==> d == data.(toToken := value)
    ensures field == FromAmount ==> d == data.(fromAmount := value)
  {
    match field
    case FromToken => data.(fromToken := value)
    case ToToken => data.(toToken := value)
    case FromAmount => data.(fromAmount := value)
  }

  /** The form's values after one effect; the change callback of the amount input writes
    * `fromAmount`, and validating changes no value. */
  function Step(data: SwapFormData, e: Effect): SwapFormData
  {
    match e
    case Write(f, v, _) => WithField(data, f, v)
    case Validate(_) => data
    case Change(v) => data.(fromAmount := v)
  }

  /** The form's values after a run of effects, applied in order. */
  function Apply(data: SwapFormData, effects: seq<Effect>): SwapFormData
    decreases |effects|
  {
    if |effects| == 0 then data
    else Step(Apply(data, effects[..|effects| - 1]), effects[|effects| - 1])
  }

  lemma ApplyOne(data: SwapFormData, a: Effect)
    ensures Apply(data, [a]) == Step(data, a)
  {
    assert [a][..0] == [];
  }

  lemma ApplyTwo(data: SwapFormData, a: Effect, b: Effect)
    ensures Apply(data, [a, b]) == Step(Step(data, a), b)
  {
    assert [a, b][..1] == [a];
    ApplyOne(data, a);
  }

  lemma ApplyThree(data: SwapFormData, a: Effect, b: Effect, c: Effect)
    ensures Apply(data, [a, b, c]) == Step(Step(Step(data, a), b), c)
  {
    assert [a, b, c][..2] == [a, b];
    ApplyTwo(data, a, b);
  }

  /** The effects of the swap handler created with `fromToken` and `toToken` and called
    * with `toAmount`. */
  function SwapEffects(fromToken: string, toToken: string, toAmount: string): (e: seq<Effect>)
    ensures e == [] <==> fromToken == "" || toToken == ""
    ensures forall i :: 0 <= i < |e| ==> e[i].Write? && (e[i].shouldValidate <==> e[i].field == FromAmount)
  {
    if fromToken == "" || toToken == "" then []
    else [Write(FromToken, toToken, false), Write(ToToken, fromToken, false), Write(FromAmount, toAmount, true)]
  }

  /** The effects of the MAX handler created with `fromToken` and `tokenBalances`. */
  function MaxEffects(ops: FloatOps, fromToken: string, balances: map<string, Num>): (e: seq<Effect>)
    ensures e == [] <==> !(fromToken != "" && fromToken in balances && Truthy(balances[fromToken]))
    ensures e != [] ==> e[|e| - 1] == Validate(FromAmount)
    ensures forall i :: 0 <= i < |e| ==> !e[i].Change? && e[i].field == FromAmount
  {
    if fromToken != "" && fromToken in balances && Truthy(balances[fromToken]) then
      [Write(FromAmount, ops.formatMaxAmount(balances[fromToken], DefaultDecimals), false), Validate(FromAmount)]
    else []
  }

  /** The effects of the amount handler called with `value`. */
  function AmountEffects(value: string): (e: seq<Effect>)
    ensures |e| == 2 && e[0].Change? && e[1] == Validate(FromAmount)
    ensures IsSubseq(e[0].value, value) && Count(e[0].value, '.') <= 1
    ensures forall i :: 0 <= i < |e[0].value| ==> IsNumericChar(e[0].value[i])
  {
    [Change(SanitizeNumericInput(value)), Validate(FromAmount)]
  }

  /** Swapping exchanges the two tokens and takes the other side's amount, once both tokens
    * are chosen; with either one missing nothing changes. */
  lemma SwapResult(data: SwapFormData, toAmount: string)
    ensures data.fromToken == "" || data.toToken == "" ==>
              Apply(data, SwapEffects(data.fromToken, data.toToken, toAmount)) == data
    ensures data.fromToken != "" && data.toToken != "" ==>
              Apply(data, SwapEffects(data.fromToken, data.toToken, toAmount)) ==
              SwapFormData(data.toToken, data.fromToken, toAmount)
  {
    if data.fromToken != "" && data.toToken != "" {
      ApplyThree(data, Write(FromToken, data.toToken, false), Write(ToToken, data.fromToken, false),
                 Write(FromAmount, toAmount, true));
    }
  }

  /** Swapping twice, each handler created from the form's values at the time, restores
    * the token pair; the amount is the one passed last. */
  lemma SwapTwiceRestoresTokens(data: SwapFormData, amount1: string, amount2: string)
    ensures var once := Apply(data, SwapEffects(data.fromToken, data.toToken, amount1));
            var twice := Apply(once, SwapEffects(once.fromToken, once.toToken, amount2));
            twice.fromToken == data.fromToken && twice.toToken == data.toToken
            && (data.fromToken != "" && data.toToken != "" ==> twice.fromAmount == amount2)
  {
    SwapResult(data, amount1);
    var once := Apply(data, SwapEffects(data.fromToken, data.toToken, amount1));
    SwapResult(once, amount2);
  }

  /** MAX writes the rendered balance into the amount only, for a chosen token with a
    * non-zero balance, and then asks for the amount to be validated. */
  lemma MaxResult(ops: FloatOps, data: SwapFormData, balances: map<string, Num>)
    ensures var e := MaxEffects(ops, data.fromToken, balances);
            var after := Apply(data, e);
            after.fromToken == data.fromToken && after.toToken == data.toToken
            && (|e| > 0 <==> data.fromToken != "" && Truthy(LookupOrZero(balances, data.fromToken)))
            && (|e| > 0 ==> after.fromAmount == ops.formatMaxAmount(LookupOrZero(balances, data.fromToken), DefaultDecimals)
                            && e[|e| - 1] == Validate(FromAmount))
            && (|e| == 0 ==> after == data)
  {
    var e := MaxEffects(ops, data.fromToken, balances);
    if |e| > 0 {
      ApplyTwo(data, e[0], e[1]);
    }
  }

  /** Typing into the amount leaves it holding the sanitized text, which has only digits and
    * at most one point, and then asks for it to be validated. */
  lemma AmountChangeResult(data: SwapFormData, value: string)
    ensures var after := Apply(data, AmountEffects(value));
            after == data.(fromAmount := SanitizeNumericInput(value))
            && (forall i :: 0 <= i < |after.fromAmount| ==> IsNumericChar(after.fromAmount[i]))
            && Count(after.fromAmount, '.') <= 1
  {
    ApplyTwo(data, Change(SanitizeNumericInput(value)), Validate(FromAmount));
  }

  /** The form the handlers act on, together with the log of what they asked of it. */
  class SwapFormState {
    var data: SwapFormData
    var effects: seq<Effect>

    constructor(initial: SwapFormData)
      ensures data == initial && effects == []
    {
      data := initial;
      effects := [];
    }

    /** `setValue(field, value, { shouldValidate })`. */
    method SetValue(field: Field, value: string, shouldValidate: bool)
      modifies this
      ensures data == WithField(old(data), field, value)
      ensures effects == old(effects) + [Write(field, value, shouldValidate)]
    {
      data := WithField(data, field, value);
      effects := effects + [Write(field, value, shouldValidate)];
    }

    /** `trigger(field)`. */
    method Trigger(field: Field)
      modifies this
      ensures data == old(data)
      ensures effects == old(effects) + [Validate(field)]
    {
      effects := effects + [Validate(field)];
    }

    /** The amount field's `onChange(value)`. */
    method OnAmountChange(value: string)
      modifies this
      ensures data == old(data).(fromAmount := value)
      ensures effects == old(effects) + [Change(value)]
    {
      data := data.(fromAmount := value);
      effects := effects + [Change(value)];
    }

    /** The handler from `createSwapTokensHandler(fromToken, toToken, setValue)`, called
      * with `toAmount`. */
    method SwapTokens(fromToken: string, toToken: string, toAmount: string)
      modifies this
      ensures effects == old(effects) + SwapEffects(fromToken, toToken, toAmount)
      ensures data == Apply(old(data), SwapEffects(fromToken, toToken, toAmount))
    {
      if fromToken == "" || toToken == "" {
        return;
      }
      ApplyThree(data, Write(FromToken, toToken, false), Write(ToToken, fromToken, false),
                 Write(FromAmount, toAmount, true));
      SetValue(FromToken, toToken, false);
      SetValue(ToToken, fromToken, false);
      SetValue(FromAmount, toAmount, true);
    }

    /** The handler from `createMaxClickHandler(fromToken, tokenBalances, setValue, trigger)`. */
    method MaxClick(ops: FloatOps, fromToken: string, balances: map<string, Num>)
      modifies this
      ensures effects == old(effects) + MaxEffects(ops, fromToken, balances)
      ensures data == Apply(old(data), MaxEffects(ops, fromToken, balances))
    {
      if fromToken != "" && fromToken in balances && Truthy(balances[fromToken]) {
        var balance := balances[fromToken];
        var maxAmount := ops.formatMaxAmount(balance, DefaultDecimals);
        ApplyTwo(data, Write(FromAmount, maxAmount, false), Validate(FromAmount));
        SetValue(FromAmount, maxAmount, false);
        Trigger(FromAmount);
      }
    }

    /** The handler from `createAmountChangeHandler(trigger)`, called with `value` and the
      * amount field's change callback. */
    method AmountChange(value: string)
      modifies this
      ensures effects == old(effects) + AmountEffects(value)
      ensures data == Apply(old(data), AmountEffects(value))
    {
      var sanitizedValue := SanitizeNumericInput(value);
      ApplyTwo(data, Change(sanitizedValue), Validate(FromAmount));
      OnAmountChange(sanitizedValue);
      Trigger(FromAmount);
    }
  }
}
