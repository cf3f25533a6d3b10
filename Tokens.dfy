/**
 * The records the token code passes around: a token with its optional metadata, and one
 * entry of the price feed.
 */
module Tokens {
  import opened Wrappers

  datatype Token = Token(
    symbol: string,
    name: Option<string>,
    address: Option<string>,
    decimals: Option<int>,
    logoURI: Option<string>)

  /** One entry of the price feed: a currency, its price, and the date as written. */
  datatype TokenPrice = TokenPrice(currency: string, price: real, date: string)

  /** The symbols of a token list. */
  function Symbols(tokens: seq<Token>): (s: set<string>)
    ensures forall i :: 0 <= i < |tokens| ==> tokens[i].symbol in s
    ensures forall k :: k in s ==> exists i :: 0 <= i < |tokens| && tokens[i].symbol == k
  {
    if |tokens| == 0 then {}
    else
      var front := tokens[..|tokens| - 1];
      assert forall i :: 0 <= i < |front| ==> front[i] == tokens[i];
      Symbols(front) + {tokens[|tokens| - 1].symbol}
  }

  /** ICONS_BASE_URL. */
  const IconsBaseUrl: string := "https://raw.githubusercontent.com/Switcheo/token-icons/main/tokens"

  /** The icon of a symbol: `${ICONS_BASE_URL}/${symbol}.svg`. */
  function IconUrl(symbol: string): string
  {
    IconsBaseUrl + "/" + symbol + ".svg"
  }

  /** The icon URL is the base, a slash, the symbol and the `.svg` suffix, in that order. */
  lemma IconUrlShape(symbol: string)
    ensures var url := IconUrl(symbol);
            |url| == |IconsBaseUrl| + |symbol| + 5
            && url[..|IconsBaseUrl| + 1] == IconsBaseUrl + "/"
            && url[|IconsBaseUrl| + 1..|IconsBaseUrl| + 1 + |symbol|] == symbol
            && url[|url| - 4..] == ".svg"
  {
    var url := IconUrl(symbol);
    assert url == (IconsBaseUrl + "/") + symbol + ".svg";
  }

  /** Different symbols have different icons. */
  lemma IconUrlInjective(a: string, b: string)
    requires IconUrl(a) == IconUrl(b)
    ensures a == b
  {
    IconUrlShape(a);
    IconUrlShape(b);
    var n := |IconsBaseUrl| + 1;
    assert a == IconUrl(a)[n..n + |a|];
    assert b == IconUrl(b)[n..n + |b|];
  }
}
