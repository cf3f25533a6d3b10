/**
 * The swap form's validation schema: three string fields, each with its own rules, then
 * two rules over the whole record. Parsing the record either succeeds with the record
 * or fails with the list of issues raised, each attached to a field. A failing field rule
 * does not stop the rules after it: every rule runs and every failure is reported, in the
 * order the schema declares them.
 */
module SwapFormSchema {
  import opened Wrappers
  import opened JsNumber
  import opened DecimalText
  import opened PrecisionHandler

  datatype SwapFormData = SwapFormData(fromToken: string, toToken: string, fromAmount: string)

  datatype Field = FromToken | ToToken | FromAmount

  /** The messages the schema attaches to its rules. */
  datatype Message = SelectFrom | SelectTo | EnterAmount | Positive | SameToken | Insufficient

  datatype Issue = Issue(path: Field, message: Message)

  /** The text shown for each message. */
  function MessageText(m: Message): string
  {
    match m
    case SelectFrom => "Please select a token to swap from"
    case SelectTo => "Please select a token to swap to"
    case EnterAmount => "Please enter an amount"
    case Positive => "Amount must be a positive number"
    case SameToken => "Cannot swap to the same token"
    case Insufficient => "Insufficient balance"
  }

  /** `tokenDecimals[token] || 18`: a missing entry and a recorded 0 both become 18. */
  function DecimalsOrDefault(decimals: map<string, int>, token: string): (d: int)
    ensures token in decimals && decimals[token] != 0 ==> d == decimals[token]
    ensures token !in decimals || decimals[token] == 0 ==> d == DefaultDecimals
  {
    if token in decimals && decimals[token] != 0 then decimals[token] else DefaultDecimals
  }

  /** The amount's own refinement: `!isNaN(parseNumber(val)) && parseNumber(val) > 0`. */
  predicate AmountIsPositive(ops: FloatOps, amount: string)
  {
    var n := ParseNumber(ops, amount);
    n.Finite? && n.value > 0.0
  }

  /** The balance refinement: skipped (passes) without a token or an amount, otherwise
    * `isAmountValid(amount, balances[from] || 0, decimals[from] || 18)`. */
  predicate BalanceRule(ops: FloatOps, balances: map<string, Num>, decimals: map<string, int>, data: SwapFormData)
  {
    data.fromToken == "" || data.fromAmount == "" ||
    IsAmountValid(ops, data.fromAmount, LookupOrZero(balances, data.fromToken),
                  DecimalsOrDefault(decimals, data.fromToken))
  }

  /** One issue when the rule fails, none when it holds. */
  function Check(holds: bool, issue: Issue): seq<Issue>
  {
    if holds then [] else [issue]
  }

  /** The issues raised by six rule outcomes, in the order the schema declares the rules. */
  function Raised(fromOk: bool, toOk: bool, amountOk: bool, positiveOk: bool, distinctOk: bool, balanceOk: bool): seq<Issue>
  {
    Check(fromOk, Issue(FromToken, SelectFrom)) + Check(toOk, Issue(ToToken, SelectTo))
    + Check(amountOk, Issue(FromAmount, EnterAmount)) + Check(positiveOk, Issue(FromAmount, Positive))
    + Check(distinctOk, Issue(ToToken, SameToken)) + Check(balanceOk, Issue(FromAmount, Insufficient))
  }

  /** Each rule that fails raises its own issue, each rule that holds raises none, and an
    * issue about the same token is always on `toToken`. */
  lemma RaisedIssues(fromOk: bool, toOk: bool, amountOk: bool, positiveOk: bool, distinctOk: bool, balanceOk: bool)
    ensures Issue(FromToken, SelectFrom) in Raised(fromOk, toOk, amountOk, positiveOk, distinctOk, balanceOk) <==> !fromOk
    ensures Issue(ToToken, SelectTo) in Raised(fromOk, toOk, amountOk, positiveOk, distinctOk, balanceOk) <==> !toOk
    ensures Issue(FromAmount, EnterAmount) in Raised(fromOk, toOk, amountOk, positiveOk, distinctOk, balanceOk) <==> !amountOk
    ensures Issue(FromAmount, Positive) in Raised(fromOk, toOk, amountOk, positiveOk, distinctOk, balanceOk) <==> !positiveOk
    ensures Issue(ToToken, SameToken) in Raised(fromOk, toOk, amountOk, positiveOk, distinctOk, balanceOk) <==> !distinctOk
    ensures Issue(FromAmount, Insufficient) in Raised(fromOk, toOk, amountOk, positiveOk, distinctOk, balanceOk) <==> !balanceOk
    ensures var r := Raised(fromOk, toOk, amountOk, positiveOk, distinctOk, balanceOk);
            forall i :: 0 <= i < |r| ==> (r[i].message == SameToken ==> r[i].path == ToToken)
    ensures |Raised(fromOk, toOk, amountOk, positiveOk, distinctOk, balanceOk)| == 0 <==>
              fromOk && toOk && amountOk && positiveOk && distinctOk && balanceOk
  {
    var r := Raised(fromOk, toOk, amountOk, positiveOk, distinctOk, balanceOk);
    RaisedHas(fromOk, toOk, amountOk, positiveOk, distinctOk, balanceOk, Issue(FromToken, SelectFrom));
    RaisedHas(fromOk, toOk, amountOk, positiveOk, distinctOk, balanceOk, Issue(ToToken, SelectTo));
    RaisedHas(fromOk, toOk, amountOk, positiveOk, distinctOk, balanceOk, Issue(FromAmount, EnterAmount));
    RaisedHas(fromOk, toOk, amountOk, positiveOk, distinctOk, balanceOk, Issue(FromAmount, Positive));
    RaisedHas(fromOk, toOk, amountOk, positiveOk, distinctOk, balanceOk, Issue(ToToken, SameToken));
    RaisedHas(fromOk, toOk, amountOk, positiveOk, distinctOk, balanceOk, Issue(FromAmount, Insufficient));
    forall i | 0 <= i < |r| ensures r[i].message == SameToken ==> r[i].path == ToToken {
      RaisedHas(fromOk, toOk, amountOk, positiveOk, distinctOk, balanceOk, r[i]);
    }
  }

  /** An issue is raised exactly when it is the issue of a rule that fails. */
  lemma RaisedHas(fromOk: bool, toOk: bool, amountOk: bool, positiveOk: bool, distinctOk: bool, balanceOk: bool, x: Issue)
    ensures x in Raised(fromOk, toOk, amountOk, positiveOk, distinctOk, balanceOk) <==>
              (!fromOk && x == Issue(FromToken, SelectFrom)) || (!toOk && x == Issue(ToToken, SelectTo))
              || (!amountOk && x == Issue(FromAmount, EnterAmount)) || (!positiveOk && x == Issue(FromAmount, Positive))
              || (!distinctOk && x == Issue(ToToken, SameToken)) || (!balanceOk && x == Issue(FromAmount, Insufficient))
  {
    var c1, c2, c3 := Check(fromOk, Issue(FromToken, SelectFrom)), Check(toOk, Issue(ToToken, SelectTo)),
                      Check(amountOk, Issue(FromAmount, EnterAmount));
    var c4, c5, c6 := Check(positiveOk, Issue(FromAmount, Positive)), Check(distinctOk, Issue(ToToken, SameToken)),
                      Check(balanceOk, Issue(FromAmount, Insufficient));
    assert Raised(fromOk, toOk, amountOk, positiveOk, distinctOk, balanceOk) == c1 + c2 + c3 + c4 + c5 + c6;
    InSix(c1, c2, c3, c4, c5, c6, x);
  }

  /** A member of six joined lists is a member of one of them. */
  lemma InSix(c1: seq<Issue>, c2: seq<Issue>, c3: seq<Issue>, c4: seq<Issue>, c5: seq<Issue>, c6: seq<Issue>, x: Issue)
    ensures x in c1 + c2 + c3 + c4 + c5 + c6 <==> x in c1 || x in c2 || x in c3 || x in c4 || x in c5 || x in c6
  {
  }

  /** Every issue the schema raises on `data`, in declaration order. */
  function Issues(ops: FloatOps, balances: map<string, Num>, decimals: map<string, int>, data: SwapFormData): (r: seq<Issue>)
    ensures Issue(FromToken, SelectFrom) in r <==> data.fromToken == ""
    ensures Issue(ToToken, SelectTo) in r <==> data.toToken == ""
    ensures Issue(FromAmount, EnterAmount) in r <==> data.fromAmount == ""
    ensures Issue(FromAmount, Positive) in r <==> !AmountIsPositive(ops, data.fromAmount)
    ensures Issue(ToToken, SameToken) in r <==> data.fromToken == data.toToken
    ensures Issue(FromAmount, Insufficient) in r <==> !BalanceRule(ops, balances, decimals, data)
    ensures forall i :: 0 <= i < |r| ==> (r[i].message == SameToken ==> r[i].path == ToToken)
  {
    RaisedIssues(data.fromToken != "", data.toToken != "", data.fromAmount != "",
                 AmountIsPositive(ops, data.fromAmount), data.fromToken != data.toToken,
                 BalanceRule(ops, balances, decimals, data));
    Raised(data.fromToken != "", data.toToken != "", data.fromAmount != "",
           AmountIsPositive(ops, data.fromAmount), data.fromToken != data.toToken,
           BalanceRule(ops, balances, decimals, data))
  }

  /** All rules of the schema hold. */
  predicate AllRulesHold(ops: FloatOps, balances: map<string, Num>, decimals: map<string, int>, data: SwapFormData)
  {
    data.fromToken != "" && data.toToken != "" && data.fromAmount != ""
    && AmountIsPositive(ops, data.fromAmount) && data.fromToken != data.toToken
    && BalanceRule(ops, balances, decimals, data)
  }

  /** `createSwapSchema(tokenBalances, tokenDecimals).safeParse(data)`. */
  function SafeParse(ops: FloatOps, balances: map<string, Num>, decimals: map<string, int>, data: SwapFormData): (r: Result<SwapFormData, seq<Issue>>)
    ensures r.Success? <==> AllRulesHold(ops, balances, decimals, data)
    ensures r.Success? ==> r.value == data
    ensures r.Failure? ==> |r.error| > 0 && r.error == Issues(ops, balances, decimals, data)
  {
    var issues := Issues(ops, balances, decimals, data);
    if |issues| == 0 then Success(data) else Failure(issues)
  }

  // ---------------------------------------------------------------------------
  // What the schema promises

  /** An empty token on either side fails, with the issue on that side's field. */
  lemma EmptyTokenFails(ops: FloatOps, balances: map<string, Num>, decimals: map<string, int>, data: SwapFormData)
    requires data.fromToken == "" || data.toToken == ""
    ensures SafeParse(ops, balances, decimals, data).Failure?
    ensures data.fromToken == "" ==> Issue(FromToken, SelectFrom) in SafeParse(ops, balances, decimals, data).error
    ensures data.toToken == "" ==> Issue(ToToken, SelectTo) in SafeParse(ops, balances, decimals, data).error
  {
  }

  /** An amount that is empty, does not parse, or is not above zero fails on `fromAmount`. */
  lemma BadAmountFails(ops: FloatOps, balances: map<string, Num>, decimals: map<string, int>, data: SwapFormData)
    requires data.fromAmount == "" || ParseNumber(ops, data.fromAmount).NaN? || AtMost(ParseNumber(ops, data.fromAmount), Finite(0.0))
    ensures SafeParse(ops, balances, decimals, data).Failure?
    ensures Issue(FromAmount, Positive) in SafeParse(ops, balances, decimals, data).error
  {
  }

  /** The same token on both sides fails, and the issue is reported on `toToken`. */
  lemma SameTokenFails(ops: FloatOps, balances: map<string, Num>, decimals: map<string, int>, data: SwapFormData)
    requires data.fromToken == data.toToken
    ensures SafeParse(ops, balances, decimals, data).Failure?
    ensures Issue(ToToken, SameToken) in SafeParse(ops, balances, decimals, data).error
    ensures forall i :: 0 <= i < |SafeParse(ops, balances, decimals, data).error| ==>
              (SafeParse(ops, balances, decimals, data).error[i].message == SameToken ==>
               SafeParse(ops, balances, decimals, data).error[i].path == ToToken)
  {
  }

  /** With a token and an amount present, the balance rule is exactly `isAmountValid` on
    * the looked-up balance: a missing (or NaN or zero) balance reads as 0. */
  lemma BalanceRuleIsAmountValid(ops: FloatOps, balances: map<string, Num>, decimals: map<string, int>, data: SwapFormData)
    requires data.fromToken != "" && data.fromAmount != ""
    ensures BalanceRule(ops, balances, decimals, data) <==>
              IsAmountValid(ops, data.fromAmount, LookupOrZero(balances, data.fromToken), DefaultDecimals)
    ensures data.fromToken !in balances ==>
              (BalanceRule(ops, balances, decimals, data) <==> IsAmountValid(ops, data.fromAmount, Finite(0.0), DefaultDecimals))
  {
    AmountValidIgnoresDecimals(ops, data.fromAmount, LookupOrZero(balances, data.fromToken),
                               DecimalsOrDefault(decimals, data.fromToken), DefaultDecimals);
  }

  /** The verdict does not depend on the decimals table. */
  lemma DecimalsDoNotMatter(ops: FloatOps, balances: map<string, Num>, d1: map<string, int>, d2: map<string, int>, data: SwapFormData)
    ensures SafeParse(ops, balances, d1, data).Success? == SafeParse(ops, balances, d2, data).Success?
  {
    AmountValidIgnoresDecimals(ops, data.fromAmount, LookupOrZero(balances, data.fromToken),
                               DecimalsOrDefault(d1, data.fromToken), DecimalsOrDefault(d2, data.fromToken));
  }

  /** Distinct non-empty tokens and a positive amount that is an exact numeral no greater
    * than the balance's text: the form passes. In particular an amount written exactly as
    * the balance prints passes. */
  lemma ValidFormPasses(ops: FloatOps, balances: map<string, Num>, decimals: map<string, int>, data: SwapFormData)
    requires data.fromToken != "" && data.toToken != "" && data.fromToken != data.toToken
    requires data.fromAmount != "" && AmountIsPositive(ops, data.fromAmount)
    requires IsExactDecimal(data.fromAmount) && IsExactDecimal(ToText(ops, LookupOrZero(balances, data.fromToken)))
    requires Value(data.fromAmount) <= Value(ToText(ops, LookupOrZero(balances, data.fromToken)))
    ensures SafeParse(ops, balances, decimals, data).Success?
    ensures SafeParse(ops, balances, decimals, data).value == data
  {
    AmountValidIsExact(ops, data.fromAmount, LookupOrZero(balances, data.fromToken),
                       DecimalsOrDefault(decimals, data.fromToken));
  }

  /** An amount equal to the balance's text passes the balance rule. */
  lemma AmountEqualToBalancePasses(ops: FloatOps, balances: map<string, Num>, decimals: map<string, int>, data: SwapFormData)
    requires data.fromToken != "" && data.toToken != "" && data.fromToken != data.toToken
    requires AmountIsPositive(ops, data.fromAmount)
    requires IsExactDecimal(data.fromAmount) && data.fromAmount == ToText(ops, LookupOrZero(balances, data.fromToken))
    ensures SafeParse(ops, balances, decimals, data).Success?
  {
    CompareReflexiveExact(data.fromAmount);
  }

  /** An exact amount above the balance's exact text fails with "Insufficient balance". */
  lemma ExcessAmountFails(ops: FloatOps, balances: map<string, Num>, decimals: map<string, int>, data: SwapFormData)
    requires data.fromToken != "" && data.fromAmount != ""
    requires IsExactDecimal(data.fromAmount) && IsExactDecimal(ToText(ops, LookupOrZero(balances, data.fromToken)))
    requires Value(data.fromAmount) > Value(ToText(ops, LookupOrZero(balances, data.fromToken)))
    ensures SafeParse(ops, balances, decimals, data).Failure?
    ensures Issue(FromAmount, Insufficient) in SafeParse(ops, balances, decimals, data).error
  {
    AmountValidIsExact(ops, data.fromAmount, LookupOrZero(balances, data.fromToken),
                       DecimalsOrDefault(decimals, data.fromToken));
  }
}
