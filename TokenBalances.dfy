/**
 * The balances of the swap form, one number per token symbol. They are filled once, when
 * the token list first arrives non-empty and no balance is known yet, with a draw of
 * `Math.random() * 1000 + 100` per token; a completed swap then takes the amount sold
 * from one balance and adds the amount bought to the other.
 */
module TokenBalances {
  import opened Wrappers
  import opened JsNumber
  import opened Tokens

  /** The opening balance of the token at position `i`, from the `i`-th random draw `u`
    * in [0, 1). */
  function Opening(draw: nat -> real, i: nat): Num
  {
    Finite(draw(i) * 1000.0 + 100.0)
  }

  /** The map the initialisation builds from the first tokens of the list: each token's
    * symbol gets the draw at its position, a later token overwriting an earlier one with
    * the same symbol. */
  function InitialBalances(tokens: seq<Token>, draw: nat -> real): (m: map<string, Num>)
    ensures m.Keys == Symbols(tokens)
  {
    if |tokens| == 0 then map[]
    else InitialBalances(tokens[..|tokens| - 1], draw)[tokens[|tokens| - 1].symbol := Opening(draw, |tokens| - 1)]
  }

  /** One more token of the list: its symbol gets the draw at its position. */
  lemma InitialStep(list: seq<Token>, i: nat, draw: nat -> real)
    requires i < |list|
    ensures InitialBalances(list[..i + 1], draw) == InitialBalances(list[..i], draw)[list[i].symbol := Opening(draw, i)]
  {
    assert list[..i + 1][..i] == list[..i];
  }

  /** Each opening balance is a draw for a token with that symbol, so it lies in
    * [100, 1100) when the draws lie in [0, 1). */
  lemma {:induction false} InitialBalancesRange(tokens: seq<Token>, draw: nat -> real, k: string)
    requires forall i :: 0 <= i < |tokens| ==> 0.0 <= draw(i) < 1.0
    requires k in InitialBalances(tokens, draw)
    ensures InitialBalances(tokens, draw)[k].Finite?
    ensures 100.0 <= InitialBalances(tokens, draw)[k].value < 1100.0
  {
    var n := |tokens|;
    var front, c := tokens[..n - 1], tokens[n - 1].symbol;
    var m := InitialBalances(front, draw);
    assert InitialBalances(tokens, draw) == m[c := Opening(draw, n - 1)];
    if c != k {
      assert k in m;
      InitialBalancesRange(front, draw, k);
    } else {
      OpeningRange(draw(n - 1));
    }
  }

  /** A draw in [0, 1) opens a balance in [100, 1100). */
  lemma OpeningRange(u: real)
    requires 0.0 <= u < 1.0
    ensures 100.0 <= u * 1000.0 + 100.0 < 1100.0
  {
  }

  /** The effect's guard: a token list that has arrived and is non-empty, and no balance
    * known yet. */
  predicate ShouldInitialise(tokens: Option<seq<Token>>, balances: map<string, Num>)
  {
    tokens.Some? && |tokens.value| > 0 && |balances| == 0
  }

  /** `updateBalances` on the previous map: `{...prev, [from]: prev[from] - fromAmount,
    * [to]: prev[to] + toAmount}`. A token without a balance reads as `undefined`, which
    * makes the arithmetic NaN. */
  function Updated(prev: map<string, Num>, fromToken: string, toToken: string, fromAmount: real, toAmount: real): (m: map<string, Num>)
    ensures m.Keys == prev.Keys + {fromToken, toToken}
    ensures m[toToken] == Plus(Lookup(prev, toToken), toAmount)
    ensures fromToken != toToken ==> m[fromToken] == Minus(Lookup(prev, fromToken), fromAmount)
    ensures forall k :: k in prev && k != fromToken && k != toToken ==> m[k] == prev[k]
  {
    prev[fromToken := Minus(Lookup(prev, fromToken), fromAmount)][toToken := Plus(Lookup(prev, toToken), toAmount)]
  }

  /** `value + x` for a looked-up value; `undefined + x` and `NaN + x` are NaN. */
  function Plus(v: Option<Num>, x: real): (r: Num)
    ensures v.Some? && v.value.Finite? ==> r == Finite(v.value.value + x)
    ensures v.None? || v.value.NaN? ==> r == NaN
  {
    if v.Some? && v.value.Finite? then Finite(v.value.value + x) else NaN
  }

  /** `value - x` for a looked-up value; `undefined - x` and `NaN - x` are NaN. */
  function Minus(v: Option<Num>, x: real): (r: Num)
    ensures v.Some? && v.value.Finite? ==> r == Finite(v.value.value - x)
    ensures v.None? || v.value.NaN? ==> r == NaN
  {
    if v.Some? && v.value.Finite? then Finite(v.value.value - x) else NaN
  }

  /** Selling and buying the same token leaves it credited with the amount bought only. */
  lemma SameTokenSwap(prev: map<string, Num>, token: string, fromAmount: real, toAmount: real)
    requires token in prev && prev[token].Finite?
    ensures Updated(prev, token, token, fromAmount, toAmount)[token] == Finite(prev[token].value + toAmount)
  {
  }

  /** A swap between two known tokens moves the two amounts and nothing else. */
  lemma SwapMovesAmounts(prev: map<string, Num>, fromToken: string, toToken: string, fromAmount: real, toAmount: real)
    requires fromToken != toToken
    requires fromToken in prev && prev[fromToken].Finite? && toToken in prev && prev[toToken].Finite?
    ensures var m := Updated(prev, fromToken, toToken, fromAmount, toAmount);
            m.Keys == prev.Keys
            && m[fromToken] == Finite(prev[fromToken].value - fromAmount)
            && m[toToken] == Finite(prev[toToken].value + toAmount)
  {
  }

  /** The hook's state: the balance map. */
  class TokenBalanceState {
    var balances: map<string, Num>

    constructor()
      ensures balances == map[]
    {
      balances := map[];
    }

    /** The initialisation effect, run with the current token list; `draw(i)` stands for the
      * `i`-th call of `Math.random()`. */
    method Initialise(tokens: Option<seq<Token>>, draw: nat -> real)
      modifies this
      ensures ShouldInitialise(tokens, old(balances)) ==> balances == InitialBalances(tokens.value, draw)
      ensures !ShouldInitialise(tokens, old(balances)) ==> balances == old(balances)
    {
      if tokens.Some? && |tokens.value| > 0 && |balances| == 0 {
        var list := tokens.value;
        var built: map<string, Num> := map[];
        var i := 0;
        while i < |list|
          invariant 0 <= i <= |list|
          invariant built == InitialBalances(list[..i], draw)
        {
          InitialStep(list, i, draw);
          built := built[list[i].symbol := Opening(draw, i)];
          i := i + 1;
        }
        assert list[..|list|] == list;
        balances := built;
      }
    }

    /** `updateBalances(fromToken, toToken, fromAmount, toAmount)`. */
    method UpdateBalances(fromToken: string, toToken: string, fromAmount: real, toAmount: real)
      modifies this
      ensures balances == Updated(old(balances), fromToken, toToken, fromAmount, toAmount)
    {
      balances := Updated(balances, fromToken, toToken, fromAmount, toAmount);
    }
  }

  /** Once the map holds a balance, the initialisation never runs again; after it ran, the
    * map's keys are exactly the symbols of the list. */
  lemma InitialiseOnce(tokens: Option<seq<Token>>, balances: map<string, Num>, draw: nat -> real)
    ensures |balances| > 0 ==> !ShouldInitialise(tokens, balances)
    ensures ShouldInitialise(tokens, balances) ==>
              InitialBalances(tokens.value, draw).Keys == Symbols(tokens.value)
              && |InitialBalances(tokens.value, draw)| > 0
              && !ShouldInitialise(tokens, InitialBalances(tokens.value, draw))
  {
    if ShouldInitialise(tokens, balances) {
      var t := tokens.value;
      assert t[|t| - 1].symbol in InitialBalances(t, draw);
    }
  }
}
