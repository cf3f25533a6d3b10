# Token swap form, wallet balance list and sum-to-n: a Dafny model

This project models three parts of a front-end code challenge.

- **The token swap form** (`problem2/fancy-form`). It has five parts:
  - precision handling: decimal comparison on scaled big integers, the amount-within-balance test and the MAX amount;
  - the input formatters;
  - the form's validation schema, its validity test and its input handlers;
  - the submit button's label cascade, the token selector's search and icon fallback, and the hook that holds the wallet balances;
  - the token service, which derives the token list, the latest prices and token metadata from a price feed and keeps a metadata cache.
- **The corrected wallet balance list** (`problem3`): filter by blockchain priority and a positive amount, sort by priority then amount, format, and build row keys.
- **The three sum-to-n functions** (`problem1`): closed form, loop, and memoised recursion.

## How the model handles the JavaScript runtime

**Numbers.** A JavaScript number is `JsNumber.Num`: either `Finite(value: real)` or `NaN`.

**Floating-point built-ins.** The built-ins whose results depend on IEEE-754 formatting are fields of the datatype `JsNumber.FloatOps`, a parameter the model never fixes:
- `parseFloat`;
- `Number(..)`;
- `String(n)` for finite numbers;
- `toFixed(2)`;
- `PrecisionHandler.formatMaxAmount`.

Every statement about them holds whichever such functions are supplied.

**String built-ins.** The string operations used (`split`, `join`, `padEnd`, `padStart`, `replace` with the regular expressions used, `slice`, `includes`, `toLowerCase`) and `BigInt(..)` of a string live in `JsText` and `JsBigInt`. They are exact on ASCII text. A Dafny string counts Unicode scalar values, not UTF-16 code units, and `toLowerCase` lowers ASCII letters only (see Left out). `DecimalText` gives a decimal numeral its exact rational value.

**Order and dates.** `localeCompare` is a given total preorder `le` on symbols. `new Date(s).getTime()` is a given function from text to `Num` (`NaN` for an invalid date).

**Stateful objects as classes.** Where the source keeps state, the model has a class:
- `TokenService.TokenServiceState`: the module-level metadata cache.
- `TokenSelector.TokenSelectorState`: the search query and the set of failed icons.
- `TokenBalances.TokenBalanceState`: the balances hook.
- `SwapFormUtils.SwapFormState`: the form record and the log of calls the handlers made on it.
- `SumToN.SumMemo`: the memo cache of `sum_to_n_c`.

**Validation issues.** The schema reports every rule that fails. In zod 3, a failed `min` makes the parse dirty rather than aborting it, so the refinements still run and add their issues.

**Behaviour of the code worth knowing:**
- `compareDecimals` orders negative numerals exactly, because `BigInt` takes the sign.
- A numeral with several points is compared on its first two parts; the rest is ignored.
- `sanitizeNumericInput` removes at most one leading zero, so it is not idempotent.
- `isFormValid` diverges from the schema on an amount that is not a number (see Findings).

## Model

| member | source | states |
|---|---|---|
| PrecisionHandler.ParseNumber | src/problem2/fancy-form/src/utils/precisionHandler.ts:13-23 | the empty text is 0; any other text is its `parseFloat` value, `NaN` included |
| PrecisionHandler.CompareDecimals | src/problem2/fancy-form/src/utils/precisionHandler.ts:29-47 | defined exactly when both texts scale to big integers; the result is in -1..1; it is negative exactly when the first scaled value is smaller, and zero exactly when the two are equal |
| PrecisionHandler.CompareIsSign | src/problem2/fancy-form/src/utils/precisionHandler.ts:29-47 | for numerals with at most 18 fraction digits, the comparison is the sign of the difference of their exact rational values |
| PrecisionHandler.CompareReflexive | src/problem2/fancy-form/src/utils/precisionHandler.ts:29-47 | a text compared with itself is equal or not comparable |
| PrecisionHandler.CompareReflexiveExact | src/problem2/fancy-form/src/utils/precisionHandler.ts:29-47 | an exact numeral compared with itself gives 0 |
| PrecisionHandler.CompareAntisymmetric | src/problem2/fancy-form/src/utils/precisionHandler.ts:29-47 | swapping the arguments negates the result, and both orders are comparable or neither is |
| PrecisionHandler.MissingFractionIsZero | src/problem2/fancy-form/src/utils/precisionHandler.ts:34-38 | a missing fraction scales like ".0" |
| PrecisionHandler.TrailingZeroIgnored | src/problem2/fancy-form/src/utils/precisionHandler.ts:37-38 | a trailing zero in a short fraction does not change the scaled value |
| PrecisionHandler.EmptyIntegerIsZero | src/problem2/fancy-form/src/utils/precisionHandler.ts:34 | ".f" scales like "0.f" |
| PrecisionHandler.ExtraPartsIgnored | src/problem2/fancy-form/src/utils/precisionHandler.ts:31-32 | everything after a second point is ignored |
| PrecisionHandler.NaNDoesNotConvert | src/problem2/fancy-form/src/utils/precisionHandler.ts:41-42 | the text "NaN" has no scaled value, because `BigInt` throws on it |
| PrecisionHandler.WordDoesNotConvert | src/problem2/fancy-form/src/utils/precisionHandler.ts:41-42 | a text without a point that starts with a lower-case letter has no scaled value, because `BigInt` throws on its first character |
| PrecisionHandler.LongFractionUnscaled | src/problem2/fancy-form/src/utils/precisionHandler.ts:37-38 | a fraction already longer than the scale is kept whole, so the scaled value is the bare numerator |
| PrecisionHandler.LongFractionMisorders | src/problem2/fancy-form/src/utils/precisionHandler.ts:37-46 | with 19 fraction digits, 0.0…02 compares below 0.0…011 although it is larger |
| PrecisionHandler.WithinTolerance | src/problem2/fancy-form/src/utils/precisionHandler.ts:64-72 | the fallback holds exactly when both numbers are finite and the amount is below the balance plus 1e-10 |
| PrecisionHandler.IsAmountValid | src/problem2/fancy-form/src/utils/precisionHandler.ts:52-73 | when both texts convert, valid exactly when the amount compares at most the balance; otherwise the tolerance fallback on the parsed numbers |
| PrecisionHandler.AmountValidIsExact | src/problem2/fancy-form/src/utils/precisionHandler.ts:52-61 | on exact numerals, valid exactly when the amount's value is at most the balance's |
| PrecisionHandler.AmountValidIgnoresDecimals | src/problem2/fancy-form/src/utils/precisionHandler.ts:52-73 | the token-decimals argument never changes the verdict |
| PrecisionHandler.WholeBalanceIsValid | src/problem2/fancy-form/src/utils/precisionHandler.ts:52-61 | the balance's own text is always a valid amount when it converts |
| PrecisionHandler.NaNBalanceRejects | src/problem2/fancy-form/src/utils/precisionHandler.ts:52-73 | against a `NaN` balance no amount is valid |
| PrecisionHandler.ExponentDoesNotConvert | src/problem2/fancy-form/src/utils/precisionHandler.ts:41-42 | "1e3" has no scaled value, because `BigInt` throws on the `e` |
| PrecisionHandler.ExponentFallsBack | src/problem2/fancy-form/src/utils/precisionHandler.ts:57-72 | the amount "1e3" is judged by the tolerance fallback on its parsed value |
| PrecisionHandler.IsMaxAmount | src/problem2/fancy-form/src/utils/precisionHandler.ts:117-120 | true exactly when the amount is the MAX text or the balance's `String` text |
| PrecisionHandler.MaxAmountIsTextual | src/problem2/fancy-form/src/utils/precisionHandler.ts:117-120 | "w.0" is not the MAX amount of balance w, though it compares equal to w |
| JsBigInt.ParseDigits | src/problem2/fancy-form/src/utils/formatters.ts:215 | `BigInt` of a digit string is its decimal value |
| JsBigInt.ParseSignedDigits | src/problem2/fancy-form/src/utils/formatters.ts:215 | `BigInt` of a signed digit string is its signed value |
| Formatters.SanitizeNumericInput | src/problem2/fancy-form/src/utils/formatters.ts:101-117 | the result has only digits and points, at most one point, and is a subsequence of the input |
| Formatters.CollapseAtFirstDot | src/problem2/fancy-form/src/utils/formatters.ts:106-109 | several points collapse to the first, with the later points deleted |
| Formatters.SanitizeKeepsDigits | src/problem2/fancy-form/src/utils/formatters.ts:101-117 | the digits kept are the input's digits, less at most one leading zero |
| Formatters.SanitizeKeepsNumeral | src/problem2/fancy-form/src/utils/formatters.ts:101-117 | a numeral without a leading zero passes unchanged |
| Formatters.SanitizeNotIdempotent | src/problem2/fancy-form/src/utils/formatters.ts:112-114 | "00w" becomes "0w", which sanitizes again to "w" |
| Formatters.ShortenAddress | src/problem2/fancy-form/src/utils/formatters.ts:146-149 | short or empty addresses are returned unchanged; otherwise the first chars+2 characters, "...", and the last chars characters |
| Formatters.ShortenAddressZero | src/problem2/fancy-form/src/utils/formatters.ts:148 | with chars 0, `slice(-0)` keeps the whole address after the ellipsis |
| Formatters.FormatTxHash | src/problem2/fancy-form/src/utils/formatters.ts:156-158 | hashes of 14 characters or more show 8 leading characters, "...", and 6 trailing ones |
| Formatters.FormatTokenAmount | src/problem2/fancy-form/src/utils/formatters.ts:214-228 | defined exactly when `BigInt` accepts the text, and then the units text of that integer |
| Formatters.FormatUnitsValue | src/problem2/fancy-form/src/utils/formatters.ts:217-227 | the whole part, then the fraction padded to the decimals with trailing zeros trimmed (none when the remainder is 0) |
| Formatters.ParseTokenAmount | src/problem2/fancy-form/src/utils/formatters.ts:236-240 | the whole part, then exactly `decimals` fraction characters, missing ones filled with '0' |
| Formatters.ParseTokenAmountPoint | src/problem2/fancy-form/src/utils/formatters.ts:236-240 | "w.t" with a short t becomes w, t and zero padding |
| Formatters.UnitsRoundTrip | src/problem2/fancy-form/src/utils/formatters.ts:214-240 | parsing the formatted units of v gives back digits whose value is v |
| Formatters.TokenAmountRoundTrip | src/problem2/fancy-form/src/utils/formatters.ts:214-240 | a raw digit amount, formatted and parsed back, keeps its value |
| SwapFormSchema.DecimalsOrDefault | src/problem2/fancy-form/src/validations/swapFormSchema.ts:32 | a listed non-zero decimals value is used; otherwise 18 |
| SwapFormSchema.RaisedIssues | src/problem2/fancy-form/src/validations/swapFormSchema.ts:14-41 | each issue is raised exactly when its rule fails; the same-token issue sits on the toToken path; no issue exactly when all rules hold |
| SwapFormSchema.Issues | src/problem2/fancy-form/src/validations/swapFormSchema.ts:14-41 | each of the six messages is raised exactly when its rule fails |
| SwapFormSchema.SafeParse | src/problem2/fancy-form/src/validations/swapFormSchema.ts:7-43 | success exactly when all rules hold, returning the data unchanged; otherwise a non-empty list of the failing rules' issues |
| SwapFormSchema.EmptyTokenFails | src/problem2/fancy-form/src/validations/swapFormSchema.ts:14-15 | an empty token field fails with its own message |
| SwapFormSchema.BadAmountFails | src/problem2/fancy-form/src/validations/swapFormSchema.ts:16-21 | an empty, non-numeric or non-positive amount fails with "Amount must be a positive number" |
| SwapFormSchema.SameTokenFails | src/problem2/fancy-form/src/validations/swapFormSchema.ts:23-26 | equal tokens fail with the same-token issue, on the toToken path |
| SwapFormSchema.BalanceRuleIsAmountValid | src/problem2/fancy-form/src/validations/swapFormSchema.ts:27-36 | the balance rule is `isAmountValid` against the balance, or 0 for an unknown token |
| SwapFormSchema.DecimalsDoNotMatter | src/problem2/fancy-form/src/validations/swapFormSchema.ts:32-35 | the decimals table never changes whether the parse succeeds |
| SwapFormSchema.ValidFormPasses | src/problem2/fancy-form/src/validations/swapFormSchema.ts:7-43 | distinct tokens and a positive exact amount at most the balance pass, returning the data |
| SwapFormSchema.AmountEqualToBalancePasses | src/problem2/fancy-form/src/validations/swapFormSchema.ts:27-41 | an amount equal to the balance's text passes |
| SwapFormSchema.ExcessAmountFails | src/problem2/fancy-form/src/validations/swapFormSchema.ts:27-41 | an exact amount above the balance fails with "Insufficient balance" |
| SwapFormUtils.IsFormValid | src/problem2/fancy-form/src/hooks/swapFormUtils.ts:67-81 | true only for distinct non-empty tokens and an amount not at most 0; past those tests, exactly `isAmountValid` with the default decimals |
| SwapFormUtils.IsFormValidFixed | src/problem2/fancy-form/src/hooks/swapFormUtils.ts:67-81 | as above, with the amount required to be a positive number |
| SwapFormUtils.FixedMatchesSchema | src/problem2/fancy-form/src/hooks/swapFormUtils.ts:67-81 | the corrected test accepts exactly the forms the schema accepts |
| SwapFormUtils.FormValidMatchesSchemaOnNumbers | src/problem2/fancy-form/src/hooks/swapFormUtils.ts:76-77 | where the amount parses as a number, the test as written agrees with the schema |
| SwapFormUtils.LonePointPassesFormCheck | src/problem2/fancy-form/src/hooks/swapFormUtils.ts:76-77 | the amount "." passes the test as written but fails the corrected test and the schema |
| SwapFormUtils.WithField | src/problem2/fancy-form/src/hooks/swapFormUtils.ts:31-33 | writing a field changes that field only |
| SwapFormUtils.SwapEffects | src/problem2/fancy-form/src/hooks/swapFormUtils.ts:28-34 | no effect exactly when a token is missing; otherwise only writes, and only the write of the amount validates |
| SwapFormUtils.MaxEffects | src/problem2/fancy-form/src/hooks/swapFormUtils.ts:46-61 | no effect exactly when no token is chosen or its balance is missing or falsy; otherwise the effects touch only the amount, never call the change callback, and end by validating it |
| SwapFormUtils.AmountEffects | src/problem2/fancy-form/src/hooks/swapFormUtils.ts:12-17 | the change callback gets a numeric text with at most one point that is a subsequence of the input, and then the amount is validated |
| SwapFormUtils.SwapResult | src/problem2/fancy-form/src/hooks/swapFormUtils.ts:23-35 | with a token missing nothing changes; otherwise the tokens trade places and the amount becomes the to-amount |
| SwapFormUtils.SwapTwiceRestoresTokens | src/problem2/fancy-form/src/hooks/swapFormUtils.ts:23-35 | swapping twice restores both tokens |
| SwapFormUtils.MaxResult | src/problem2/fancy-form/src/hooks/swapFormUtils.ts:40-62 | effects happen exactly when a token is chosen and has a truthy balance; then the amount becomes the MAX text and the last effect validates the amount; the tokens never change |
| SwapFormUtils.AmountChangeResult | src/problem2/fancy-form/src/hooks/swapFormUtils.ts:9-18 | the amount becomes the sanitized input, numeric with at most one point |
| SwapFormUtils.SwapFormState.SwapTokens | src/problem2/fancy-form/src/hooks/swapFormUtils.ts:23-35 | appends the swap handler's three writes, in order, and applies them to the form |
| SwapFormUtils.SwapFormState.MaxClick | src/problem2/fancy-form/src/hooks/swapFormUtils.ts:40-62 | appends the write of the MAX text and then the validation, and applies them |
| SwapFormUtils.SwapFormState.AmountChange | src/problem2/fancy-form/src/hooks/swapFormUtils.ts:9-18 | passes the sanitized value to the change callback, then validates the amount |
| SubmitButton.ButtonText | src/problem2/fancy-form/src/components/SubmitButton.tsx:23-49 | each of the six labels shows exactly under its branch's conditions of the cascade |
| SubmitButton.Disabled | src/problem2/fancy-form/src/components/SubmitButton.tsx:56 | enabled exactly when the form is valid and no swap is in flight |
| SubmitButton.EnabledExactlyWhenSwapLabel | src/problem2/fancy-form/src/components/SubmitButton.tsx:23-56 | the button is enabled exactly when it reads "Swap Tokens" |
| SubmitButton.SwappingShowsLoader | src/problem2/fancy-form/src/components/SubmitButton.tsx:23-56 | during a swap the spinner shows and the button is disabled |
| SubmitButton.MissingTokenFirst | src/problem2/fancy-form/src/components/SubmitButton.tsx:23-49 | a missing token gives "Select tokens" whatever the amount and balances |
| SubmitButton.UnknownFallsThrough | src/problem2/fancy-form/src/components/SubmitButton.tsx:23-49 | a non-numeric amount, or a positive one against an unknown balance, falls through to "Enter an amount" |
| TokenSelector.Matches | src/problem2/fancy-form/src/components/TokenSelector.tsx:33-37 | the search test holds exactly when the lower-cased query occurs as a contiguous piece of the lower-cased symbol or of the lower-cased name; the empty query matches every token |
| TokenSelector.Shown | src/problem2/fancy-form/src/components/TokenSelector.tsx:29-38 | a token passes the filter exactly when it is not the excluded one and passes the search test, so the early return for an empty query changes nothing |
| TokenSelector.FilteredTokens | src/problem2/fancy-form/src/components/TokenSelector.tsx:28-39 | the result is a subsequence of the tokens and never contains the excluded symbol |
| TokenSelector.FilteredMembership | src/problem2/fancy-form/src/components/TokenSelector.tsx:28-39 | a token is offered exactly when it is listed, is not excluded, and the query is empty or matches its symbol or name ignoring case |
| TokenSelector.EmptyQueryOffersAll | src/problem2/fancy-form/src/components/TokenSelector.tsx:28-39 | with no exclusion and no query, every token is offered in order |
| TokenSelector.SearchIgnoresCase | src/problem2/fancy-form/src/components/TokenSelector.tsx:33-38 | queries equal up to case give the same list |
| TokenSelector.FindIndex | src/problem2/fancy-form/src/components/TokenSelector.tsx:42 | the index of the first token with the symbol, or none when absent |
| TokenSelector.SelectedToken | src/problem2/fancy-form/src/components/TokenSelector.tsx:42 | the first token with the chosen symbol, or none exactly when no token has it |
| TokenSelector.TokenIcon | src/problem2/fancy-form/src/components/TokenSelector.tsx:51-56 | no icon exactly when the symbol's image failed; otherwise the icon URL of the symbol |
| TokenSelector.IconAfterError | src/problem2/fancy-form/src/components/TokenSelector.tsx:45-56 | a failure removes that symbol's icon and no other |
| TokenSelector.TokenSelectorState.GetTokenIcon | src/problem2/fancy-form/src/components/TokenSelector.tsx:51-56 | no icon exactly when the symbol's image failed in the current state; otherwise the icon URL of the symbol |
| TokenSelector.TokenSelectorState.HandleImageError | src/problem2/fancy-form/src/components/TokenSelector.tsx:45-48 | records the failed symbol and leaves the query alone |
| TokenSelector.TokenSelectorState.SetSearchQuery | src/problem2/fancy-form/src/components/TokenSelector.tsx:24 | sets the query and leaves the failures alone |
| TokenBalances.InitialBalances | src/problem2/fancy-form/src/hooks/useTokenBalances.ts:13-21 | one balance per token symbol |
| TokenBalances.InitialBalancesRange | src/problem2/fancy-form/src/hooks/useTokenBalances.ts:16-18 | each opening balance is finite, in [100, 1100), when the draws are in [0, 1) |
| TokenBalances.InitialiseOnce | src/problem2/fancy-form/src/hooks/useTokenBalances.ts:13-21 | balances are set only while empty, and once set are not set again |
| TokenBalances.Updated | src/problem2/fancy-form/src/hooks/useTokenBalances.ts:24-30 | the from-balance loses the from-amount, the to-balance gains the to-amount (written last), others are unchanged; a missing balance becomes `NaN` |
| TokenBalances.SameTokenSwap | src/problem2/fancy-form/src/hooks/useTokenBalances.ts:26-28 | swapping a token with itself only adds the to-amount |
| TokenBalances.SwapMovesAmounts | src/problem2/fancy-form/src/hooks/useTokenBalances.ts:26-28 | with two known tokens, the key set stays and the two balances move by the amounts |
| TokenBalances.TokenBalanceState.Initialise | src/problem2/fancy-form/src/hooks/useTokenBalances.ts:13-21 | sets the opening balances when tokens arrived and none are held; otherwise changes nothing |
| TokenBalances.TokenBalanceState.UpdateBalances | src/problem2/fancy-form/src/hooks/useTokenBalances.ts:24-30 | replaces the balances by the updated map |
| Tokens.Symbols | src/problem2/fancy-form/src/services/tokenService.ts:23-33 | the set of the tokens' symbols, both directions |
| Tokens.IconUrlShape | src/problem2/fancy-form/src/services/tokenService.ts:5 | the icon URL is the base, "/", the symbol and ".svg" |
| Tokens.IconUrlInjective | src/problem2/fancy-form/src/services/tokenService.ts:28 | distinct symbols have distinct icon URLs |
| TokenService.FirstNameNone | src/problem2/fancy-form/src/services/tokenService.ts:125-156 | a lookup from an entry on finds nothing exactly when no entry from there on has the symbol |
| TokenService.FirstNameFound | src/problem2/fancy-form/src/services/tokenService.ts:125-156 | a lookup finds the name of the first entry with the symbol |
| TokenService.NamesNonEmpty | src/problem2/fancy-form/src/services/tokenService.ts:125-156 | every listed name is non-empty, so `||` never falls back on a listed symbol |
| TokenService.TokenName | src/problem2/fancy-form/src/services/tokenService.ts:124-159 | the name is the symbol itself or a name the table lists for that symbol, and is non-empty for a non-empty symbol |
| TokenService.FirstNameEntry | src/problem2/fancy-form/src/services/tokenService.ts:125-158 | a name the lookup finds belongs to a table entry with that symbol |
| TokenService.ListedSymbolName | src/problem2/fancy-form/src/services/tokenService.ts:124-159 | a listed symbol gets the first name listed for it |
| TokenService.UnknownSymbolName | src/problem2/fancy-form/src/services/tokenService.ts:158 | an unlisted symbol is its own name |
| TokenService.DefaultTokens | src/problem2/fancy-form/src/services/tokenService.ts:164-171 | five tokens, one per default symbol in order, with name and icon and nothing else |
| TokenService.DefaultTokenNames | src/problem2/fancy-form/src/services/tokenService.ts:164-171 | the five fallback tokens are ETH, USDC, WBTC, DAI and USDT with their names |
| TokenService.CurrenciesMembers | src/problem2/fancy-form/src/services/tokenService.ts:23-24 | a currency is one of the feed's exactly when some entry of the feed has it |
| TokenService.TokenServiceState.CollectTokens | src/problem2/fancy-form/src/services/tokenService.ts:21-33 | the loop yields the first token of each currency in feed order, and the cache becomes the old cache with each currency set to its token |
| TokenService.TokenCache | src/problem2/fancy-form/src/services/tokenService.ts:30-31 | one entry per currency of the feed, each the token built for that currency |
| TokenService.DistinctProperties | src/problem2/fancy-form/src/services/tokenService.ts:23-33 | the first-seen tokens cover exactly the feed's currencies, once each, each the list token of its symbol |
| TokenService.TokenList | src/problem2/fancy-form/src/services/tokenService.ts:36-38 | a permutation of the first-seen tokens, ordered by symbol |
| TokenService.TokenListOnePerCurrency | src/problem2/fancy-form/src/services/tokenService.ts:14-40 | the list has exactly one token per currency of the feed |
| TokenService.Keep | src/problem2/fancy-form/src/services/tokenService.ts:61-65 | the step adds the entry's currency and leaves other currencies alone; that currency then holds the new entry when it had none or the new date is strictly later, and otherwise keeps its old entry |
| TokenService.LatestPrices | src/problem2/fancy-form/src/services/tokenService.ts:60-66 | every entry kept is filed under its own currency |
| TokenService.LatestPricesKeys | src/problem2/fancy-form/src/services/tokenService.ts:60-66 | the reduce keeps one entry per currency |
| TokenService.LatestPricesFromFeed | src/problem2/fancy-form/src/services/tokenService.ts:60-66 | each kept entry is an entry of its currency in the feed |
| TokenService.NoLaterEntry | src/problem2/fancy-form/src/services/tokenService.ts:60-66 | no entry of the currency is dated later than the kept one |
| TokenService.FirstOfLatest | src/problem2/fancy-form/src/services/tokenService.ts:60-66 | among entries with the same valid latest date, the first one wins |
| TokenService.PriceMap | src/problem2/fancy-form/src/services/tokenService.ts:51-72 | one price per currency of the feed |
| TokenService.PriceMapIsLatest | src/problem2/fancy-form/src/services/tokenService.ts:51-72 | each currency's price is the price of one of its entries that no entry of it postdates |
| TokenService.EntriesToPrices | src/problem2/fancy-form/src/services/tokenService.ts:69-71 | copies each kept entry's price under its currency |
| TokenService.Metadata | src/problem2/fancy-form/src/services/tokenService.ts:84-101 | a hit returns the cached token and leaves the cache; a miss builds the 18-decimals token and caches it |
| TokenService.MetadataRepeatable | src/problem2/fancy-form/src/services/tokenService.ts:84-101 | asking again returns the same token and cache |
| TokenService.ListCache | src/problem2/fancy-form/src/services/tokenService.ts:31 | the feed's currencies, each mapped to its list token |
| TokenService.TokenServiceState.FetchTokenList | src/problem2/fancy-form/src/services/tokenService.ts:14-46 | a failed request gives the default tokens and leaves the cache; a feed gives its token list and caches a list token for each currency |
| TokenService.TokenServiceState.FetchTokenPrices | src/problem2/fancy-form/src/services/tokenService.ts:51-78 | a failed request gives the error message; a feed gives its latest-price map |
| TokenService.TokenServiceState.FetchTokenMetadata | src/problem2/fancy-form/src/services/tokenService.ts:84-106 | updates the cache and returns the token as the cache lookup says |
| WalletBalance.GetPriority | src/problem3/SOLVED_WalletBalance.tsx:20-30 | the table's priority for a listed blockchain, otherwise -99 |
| WalletBalance.PriorityTable | src/problem3/SOLVED_WalletBalance.tsx:20-30 | the five priorities, and priority above -99 exactly for listed blockchains |
| WalletBalance.BeforeIsTotalPreorder | src/problem3/SOLVED_WalletBalance.tsx:45-54 | the comparator is a total preorder |
| WalletBalance.Keep | src/problem3/SOLVED_WalletBalance.tsx:40-44 | a balance is kept exactly when its blockchain is in the priority table and its amount is positive |
| WalletBalance.Compare | src/problem3/SOLVED_WalletBalance.tsx:45-54 | negative exactly when the left balance has higher priority, or equal priority and a larger amount; zero exactly when both priority and amount are equal |
| WalletBalance.SortedBalances | src/problem3/SOLVED_WalletBalance.tsx:38-55 | a permutation of the kept balances, sorted by the comparator |
| WalletBalance.SortedBalancesContents | src/problem3/SOLVED_WalletBalance.tsx:40-44 | a balance is listed exactly when it is in the input and kept, as many times as it occurs |
| WalletBalance.SortedBalancesOrder | src/problem3/SOLVED_WalletBalance.tsx:45-54 | higher priority first; within equal priority, larger amount first |
| WalletBalance.SortedBalancesKept | src/problem3/SOLVED_WalletBalance.tsx:40-44 | every listed balance has a known blockchain and a positive amount |
| WalletBalance.FormattedBalances | src/problem3/SOLVED_WalletBalance.tsx:58-63 | same length and fields, plus the amount's `toFixed(2)` text |
| WalletBalance.FormattingKeepsOrder | src/problem3/SOLVED_WalletBalance.tsx:58-63 | dropping the text gives back the sorted list |
| WalletBalance.RowKey | src/problem3/SOLVED_WalletBalance.tsx:71 | the blockchain, '-', then the currency |
| WalletBalance.RowKeyInjective | src/problem3/SOLVED_WalletBalance.tsx:71 | for blockchains without '-', equal keys mean equal blockchain and currency |
| SumToN.TriangleClosedForm | src/problem1/try.js:15-24 | twice the k-th triangular number is k(k+1) |
| SumToN.SumToNA | src/problem1/try.js:15-24 | the closed form equals the sum from 1 to n, negated for negative n |
| SumToN.SumToIsOdd | src/problem1/try.js:15-24 | the sum of -n is minus the sum of n |
| SumToN.SumToExamples | src/problem1/try.js:70-97 | 5 gives 15, 0 gives 0, -3 gives -6, 100 gives 5050 |
| SumToN.SumToNB | src/problem1/try.js:28-40 | the loop computes the sum |
| SumToN.SumMemo.SumToNC | src/problem1/try.js:44-67 | the memoised recursion computes the sum, keeps earlier entries, and afterwards the cache keys are exactly the old keys plus 1..abs(n) |
| SumToN.SumMemo.DownwardClosed | src/problem1/try.js:54-63 | a cached k implies every smaller positive number is cached |
| SumToN.AllAgree | src/problem1/try.js:70-84 | the three implementations agree on every n |

## Left out

- The IEEE-754 built-ins are parameters (`JsNumber.FloatOps`), not models of double arithmetic. So the model makes no claim about rounding, about `formatMaxAmount`'s output text, or about `toFixed(2)`.
- Infinity is not represented: `parseFloat("Infinity")` or an overflowing numeral would be a finite value or `NaN` of the supplied operations.
- Tolerance arithmetic `balance + 1e-10` is done on exact reals, not doubles.
- `Formatters.FormatTokenAmount`: covers decimals up to 22. Above that, `10 ** decimals` is a double no longer exactly a power of ten. It also takes `decimals` as a natural number with no default of 18. A negative or fractional `decimals`, on which `BigInt(10 ** decimals)` throws, is not modelled.
- `TokenBalances.Updated`: adds and subtracts on exact reals, with no double rounding.
- `TokenBalances.InitialBalances`: `Math.random` is replaced by a draw parameter, one draw per token position, computed on exact reals.
- Balances in `WalletBalance` are reals: a `NaN` wallet amount is not modelled.
- `JsText.ToLower` lowers the ASCII letters only, while `toLowerCase` lowers all of Unicode. So `TokenSelector.Matches` can differ from the source on a symbol, name or query with non-ASCII letters.
- JavaScript's `length`, `slice`, `padEnd` and `padStart` count UTF-16 code units, while a Dafny string counts Unicode scalar values. So `Formatters.ShortenAddress`, `Formatters.FormatTxHash` and the padding in `PrecisionHandler` and `Formatters` can differ on characters outside the Basic Multilingual Plane.
- `PrecisionHandler.IsAmountValid`: takes the amount as text only. The `amount.toString()` branch for a number argument is not modelled; both callers modelled here (`isFormValid` and the schema's balance rule) pass the form's amount text.
- `Formatters.ShortenAddress`: the default `chars = 4` is not modelled, so callers pass `chars` explicitly (`formatTxHash` passes 6).
- `Formatters.ParseTokenAmount`: takes `decimals` as a natural number, with no default of 18. A negative or fractional `decimals` is not modelled.
- Object prototype keys ("constructor", "toString") looked up in the source's plain-object tables are not modelled. Every table is a map.
- `setTimeout` and `requestAnimationFrame` are not modelled. Each handler records its calls in order, as if every timer fired.
- `localeCompare` is a given total preorder, and `Date` parsing is a given function.
- Sorting: the model proves the sorted order and the permutation, not that the browser's sort is stable (ties may be listed in any order).
- Literal test vectors in `try.js` are stated generally: `SumToN.AllAgree` covers every n.
- The order of zod's issues within one parse is not stated. Only which issues are present is.
- `PrecisionHandler.CompareIsSign` and `PrecisionHandler.AmountValidIsExact`: stated only for numerals with at most 18 fraction digits. Longer fractions misorder; `PrecisionHandler.LongFractionMisorders` shows how.
- Network calls (axios), `validateTokenIcon` and `console.error` are not modelled. A response is an `Option`, `None` standing for a failed request.
- `calculatePriceImpact` in tokenService.ts is not modelled. It is mock double arithmetic (a `Math.min` capped fee), and no modelled operation uses it.
- The other helpers in formatters.ts are not modelled: `formatNumber`, `formatLargeNumber`, `formatUSD`, `calculateExchangeAmount`, `calculatePriceImpact`, `parseNumericString`, `formatPercentage`, `timeAgo`, `debounce` and `sleep`. They produce display text through `Intl` and floating point, or deal with clocks and timers.
- `Object.entries` order in `fetchTokenPrices` is not modelled: the result is a map.
- `TokenService.TokenServiceState.FetchTokenMetadata`: its `catch` branch returns `null` only when an exception is thrown, and nothing in its `try` throws, so that branch is not modelled.
- The React rendering of the components (markup, styling, the modal and its open state) is not modelled. Only the values the components compute are.

## Findings

| source | as written | input that shows it | evidently intended | confidence | as-written member | corrected member |
|---|---|---|---|---|---|---|
| src/problem2/fancy-form/src/hooks/swapFormUtils.ts:76-77 | `amount <= 0` rejects non-positive amounts, but `NaN <= 0` is false, so an amount that does not parse passes this test | fromAmount "." with two distinct chosen tokens and a non-negative exact balance: the form is valid, but the schema raises "Amount must be a positive number" | reject any amount that is not a number above zero, as the schema does | not executed | SwapFormUtils.LonePointPassesFormCheck | SwapFormUtils.FixedMatchesSchema |
