/**
 * The swap form's submit button: a label chosen by a cascade of tests, and a disabled
 * flag. The button is given the form's verdict, whether a swap is in flight, the three
 * field values and the balances.
 */
module SubmitButton {
  import opened Wrappers
  import opened JsNumber

  /** What the button shows: the spinner, or one of five texts. */
  datatype Label = Loader | SwapTokens | SelectTokens | EnterAmount | EnterValidAmount | InsufficientBalance

  /** The text of a label other than the spinner. */
  function LabelText(l: Label): string
    requires l != Loader
  {
    match l
    case SwapTokens => "Swap Tokens"
    case SelectTokens => "Select tokens"
    case EnterAmount => "Enter an amount"
    case EnterValidAmount => "Enter valid amount"
    case InsufficientBalance => "Insufficient balance"
  }

  /** `tokenBalances[fromToken] < Number(fromAmount)`: an unknown balance is `undefined`,
    * which compares false with everything. */
  predicate BalanceBelow(balances: map<string, Num>, token: string, amount: Num)
  {
    token in balances && Less(balances[token], amount)
  }

  /** `getButtonText()`. */
  function ButtonText(ops: FloatOps, isFormValid: bool, isSwapping: bool, fromToken: string, toToken: string,
                      fromAmount: string, balances: map<string, Num>): (l: Label)
    ensures l == Loader <==> isSwapping
    ensures l == SwapTokens <==> !isSwapping && isFormValid
    ensures l == SelectTokens <==> !isSwapping && !isFormValid && (fromToken == "" || toToken == "")
    ensures l == EnterValidAmount <==>
              !isSwapping && !isFormValid && fromToken != "" && toToken != "" && fromAmount != ""
              && AtMost(ops.toNumber(fromAmount), Finite(0.0))
    ensures l == InsufficientBalance <==>
              !isSwapping && !isFormValid && fromToken != "" && toToken != "" && fromAmount != ""
              && !AtMost(ops.toNumber(fromAmount), Finite(0.0)) && BalanceBelow(balances, fromToken, ops.toNumber(fromAmount))
    ensures l == EnterAmount <==>
              !isSwapping && !isFormValid && fromToken != "" && toToken != ""
              && (fromAmount == "" || (!AtMost(ops.toNumber(fromAmount), Finite(0.0))
                                       && !BalanceBelow(balances, fromToken, ops.toNumber(fromAmount))))
  {
    if isSwapping then Loader
    else if isFormValid then SwapTokens
    else if fromToken == "" || toToken == "" then SelectTokens
    else if fromAmount == "" then EnterAmount
    else if AtMost(ops.toNumber(fromAmount), Finite(0.0)) then EnterValidAmount
    else if BalanceBelow(balances, fromToken, ops.toNumber(fromAmount)) then InsufficientBalance
    else EnterAmount
  }

  /** `disabled={!isFormValid || isSwapping}`. */
  function Disabled(isFormValid: bool, isSwapping: bool): (d: bool)
    ensures !d <==> isFormValid && !isSwapping
  {
    !isFormValid || isSwapping
  }

  /** The button can be pressed exactly when it reads "Swap Tokens". */
  lemma EnabledExactlyWhenSwapLabel(ops: FloatOps, isFormValid: bool, isSwapping: bool, fromToken: string,
                                    toToken: string, fromAmount: string, balances: map<string, Num>)
    ensures !Disabled(isFormValid, isSwapping) <==>
              ButtonText(ops, isFormValid, isSwapping, fromToken, toToken, fromAmount, balances) == SwapTokens
  {
  }

  /** While a swap is in flight the spinner shows, whatever else holds, and the button is
    * disabled. */
  lemma SwappingShowsLoader(ops: FloatOps, isFormValid: bool, fromToken: string, toToken: string,
                            fromAmount: string, balances: map<string, Num>)
    ensures ButtonText(ops, isFormValid, true, fromToken, toToken, fromAmount, balances) == Loader
    ensures Disabled(isFormValid, true)
  {
  }

  /** A missing token outranks every message about the amount. */
  lemma MissingTokenFirst(ops: FloatOps, fromToken: string, toToken: string, a1: string, a2: string,
                          b1: map<string, Num>, b2: map<string, Num>)
    requires fromToken == "" || toToken == ""
    ensures ButtonText(ops, false, false, fromToken, toToken, a1, b1) == ButtonText(ops, false, false, fromToken, toToken, a2, b2)
    ensures ButtonText(ops, false, false, fromToken, toToken, a1, b1) == SelectTokens
  {
  }

  /** An amount that is not a number, or a positive amount against an unknown balance, is
    * neither invalid nor insufficient: the cascade falls through to "Enter an amount". */
  lemma UnknownFallsThrough(ops: FloatOps, fromToken: string, toToken: string, fromAmount: string, balances: map<string, Num>)
    requires fromToken != "" && toToken != "" && fromAmount != ""
    requires (fromToken !in balances && !AtMost(ops.toNumber(fromAmount), Finite(0.0))) || ops.toNumber(fromAmount).NaN?
    ensures ButtonText(ops, false, false, fromToken, toToken, fromAmount, balances) == EnterAmount
  {
  }
}
