/**
 * The token picker: the list it offers (the tokens minus the one chosen on the other side,
 * narrowed by a case-insensitive search on symbol and name), the token it shows as chosen,
 * and the icons, with a set of symbols whose icon failed to load and so are drawn without
 * one. The search text and that set are the picker's state.
 */
module TokenSelector {
  import opened Wrappers
  import opened JsText
  import opened Seqs
  import opened Tokens

  /** The search test: the lower-cased symbol, or the lower-cased name when there is one,
    * contains the lower-cased query. The empty query is contained in every text. */
  predicate Matches(t: Token, searchQuery: string): (m: bool)
    ensures searchQuery == "" ==> m
    ensures m <==> (exists i :: OccursAt(ToLower(t.symbol), ToLower(searchQuery), i))
                   || (t.name.Some? && exists i :: OccursAt(ToLower(t.name.value), ToLower(searchQuery), i))
  {
    var query := ToLower(searchQuery);
    var inSymbol := Includes(ToLower(t.symbol), query);
    var inName := t.name.Some? && Includes(ToLower(t.name.value), query);
    if inSymbol then
      assert exists i :: OccursAt(ToLower(t.symbol), ToLower(searchQuery), i);
      true
    else if inName then
      assert exists i :: OccursAt(ToLower(t.name.value), ToLower(searchQuery), i);
      true
    else false
  }

  /** The filter's test: the excluded symbol never, every other token on an empty query,
    * and otherwise the search test; since the empty query passes the search test, the
    * early return for it changes nothing. */
  predicate Shown(t: Token, excludeToken: Option<string>, searchQuery: string): (s: bool)
    ensures s <==> excludeToken != Some(t.symbol) && Matches(t, searchQuery)
  {
    if excludeToken == Some(t.symbol) then false
    else if searchQuery == "" then true
    else Matches(t, searchQuery)
  }

  /** `filteredTokens`. */
  function FilteredTokens(tokens: seq<Token>, excludeToken: Option<string>, searchQuery: string): (r: seq<Token>)
    ensures IsSubseq(r, tokens)
    ensures forall i :: 0 <= i < |r| ==> excludeToken != Some(r[i].symbol)
  {
    var r := Filter(tokens, t => Shown(t, excludeToken, searchQuery));
    FilterIsSubseq(tokens, t => Shown(t, excludeToken, searchQuery));
    r
  }

  /** A token is offered exactly when it is in the list, is not the excluded one, and the
    * query is empty or found in its symbol or name. */
  lemma FilteredMembership(tokens: seq<Token>, excludeToken: Option<string>, searchQuery: string, t: Token)
    ensures t in FilteredTokens(tokens, excludeToken, searchQuery) <==>
              t in tokens && excludeToken != Some(t.symbol) && (searchQuery == "" || Matches(t, searchQuery))
  {
    FilterMember(tokens, t => Shown(t, excludeToken, searchQuery), t);
  }

  /** With nothing excluded and an empty query, every token is offered, in order. */
  lemma EmptyQueryOffersAll(tokens: seq<Token>)
    ensures FilteredTokens(tokens, None, "") == tokens
  {
    FilterAll(tokens, t => Shown(t, None, ""));
  }

  /** The search ignores the case of the query. */
  lemma SearchIgnoresCase(tokens: seq<Token>, excludeToken: Option<string>, q1: string, q2: string)
    requires q1 != "" && q2 != "" && ToLower(q1) == ToLower(q2)
    ensures FilteredTokens(tokens, excludeToken, q1) == FilteredTokens(tokens, excludeToken, q2)
  {
    assert forall t :: Shown(t, excludeToken, q1) == Shown(t, excludeToken, q2);
    FilterSame(tokens, t => Shown(t, excludeToken, q1), t => Shown(t, excludeToken, q2));
  }

  lemma {:induction false} FilterSame(s: seq<Token>, p: Token -> bool, q: Token -> bool)
    requires forall t :: p(t) == q(t)
    ensures Filter(s, p) == Filter(s, q)
  {
    if |s| > 0 {
      FilterSame(s[1..], p, q);
    }
  }

  /** The index of the first token with the given symbol. */
  function FindIndex(tokens: seq<Token>, value: string): (r: Option<nat>)
    ensures r.Some? ==> r.value < |tokens| && tokens[r.value].symbol == value
    ensures r.Some? ==> forall j :: 0 <= j < r.value ==> tokens[j].symbol != value
    ensures r.None? ==> forall j :: 0 <= j < |tokens| ==> tokens[j].symbol != value
  {
    if |tokens| == 0 then None
    else if tokens[0].symbol == value then Some(0)
    else
      match FindIndex(tokens[1..], value)
      case Some(i) => Some(i + 1)
      case None => None
  }

  /** `selectedToken`: `tokens.find(t => t.symbol === value)`. */
  function SelectedToken(tokens: seq<Token>, value: string): (r: Option<Token>)
    ensures r.None? <==> forall j :: 0 <= j < |tokens| ==> tokens[j].symbol != value
    ensures r.Some? ==> exists i :: 0 <= i < |tokens| && tokens[i] == r.value && r.value.symbol == value
                                    && forall j :: 0 <= j < i ==> tokens[j].symbol != value
  {
    match FindIndex(tokens, value)
    case Some(i) => Some(tokens[i])
    case None => None
  }

  /** `getTokenIcon(symbol)` against the set of failed icons: none for a symbol whose icon
    * failed, the icon URL otherwise. */
  function TokenIcon(imageErrors: set<string>, symbol: string): (r: Option<string>)
    ensures r.None? <==> symbol in imageErrors
    ensures r.Some? ==> r.value == IconUrl(symbol)
  {
    if symbol in imageErrors then None else Some(IconUrl(symbol))
  }

  /** After an icon fails, that symbol loses its icon and every other keeps what it had. */
  lemma IconAfterError(imageErrors: set<string>, failed: string, symbol: string)
    ensures TokenIcon(imageErrors + {failed}, symbol) ==
              if symbol == failed then None else TokenIcon(imageErrors, symbol)
  {
  }

  /** The picker's state: the search text and the symbols whose icon failed to load. */
  class TokenSelectorState {
    var searchQuery: string
    var imageErrors: set<string>

    constructor()
      ensures searchQuery == "" && imageErrors == {}
    {
      searchQuery := "";
      imageErrors := {};
    }

    /** The search input's change handler. */
    method SetSearchQuery(query: string)
      modifies this
      ensures searchQuery == query && imageErrors == old(imageErrors)
    {
      searchQuery := query;
    }

    /** `handleImageError(symbol)`: remember the symbol, keep every earlier one, and report
      * the error handled. */
    method HandleImageError(symbol: string) returns (handled: bool)
      modifies this
      ensures imageErrors == old(imageErrors) + {symbol}
      ensures searchQuery == old(searchQuery)
      ensures handled
    {
      imageErrors := imageErrors + {symbol};
      handled := true;
    }

    /** `getTokenIcon(symbol)`. */
    function GetTokenIcon(symbol: string): (r: Option<string>)
      reads this
      ensures r.None? <==> symbol in imageErrors
      ensures r.Some? ==> r.value == IconUrl(symbol)
    {
      TokenIcon(imageErrors, symbol)
    }

    /** `filteredTokens` under the current search text. */
    function Filtered(tokens: seq<Token>, excludeToken: Option<string>): seq<Token>
      reads this
    {
      FilteredTokens(tokens, excludeToken, searchQuery)
    }
  }
}
