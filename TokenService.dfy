/**
 * The token service's shaping of the price feed, once fetched: the token list (one token
 * per currency, sorted by symbol, with the five defaults when the fetch fails), the latest
 * price of each currency, and the metadata cache that the list fills and single lookups
 * read. The fetch itself is an input: `None` where the request fails. `localeCompare` is
 * a given consistent order on symbols, and `new Date(text)` a given map from text to a
 * timestamp (NaN for an invalid date).
 */
module TokenService {
  import opened Wrappers
  import opened JsNumber
  import opened Sorting
  import opened Tokens

  /** The number of entries in the name table of `getTokenName`. */
  const NameCount: nat := 30

  /** Entry `i` of the name table, as a (symbol, name) pair, in the source's order; an
    * empty pair past the end. */
  function NameEntry(i: nat): (string, string)
  {
    match i
    case 0 => ("ETH", "Ethereum")
    case 1 => ("WBTC", "Wrapped Bitcoin")
    case 2 => ("USDC", "USD Coin")
    case 3 => ("USDT", "Tether USD")
    case 4 => ("DAI", "Dai Stablecoin")
    case 5 => ("BUSD", "Binance USD")
    case 6 => ("ATOM", "Cosmos Hub")
    case 7 => ("OSMO", "Osmosis")
    case 8 => ("LUNA", "Terra Luna")
    case 9 => ("SWTH", "Switcheo Token")
    case 10 => ("BLUR", "Blur")
    case 11 => ("bNEO", "Binance NEO")
    case 12 => ("GMX", "GMX")
    case 13 => ("STEVMOS", "Staked EVMOS")
    case 14 => ("RATOM", "Staked ATOM")
    case 15 => ("STRD", "Stride")
    case 16 => ("EVMOS", "Evmos")
    case 17 => ("IRIS", "IRISnet")
    case 18 => ("IBCX", "IBC Index")
    case 19 => ("KUJI", "Kujira")
    case 20 => ("STOSMO", "Staked OSMO")
    case 21 => ("STATOM", "Staked ATOM")
    case 22 => ("STLUNA", "Staked LUNA")
    case 23 => ("LSI", "LSI Token")
    case 24 => ("OKB", "OKB")
    case 25 => ("OKT", "OKT")
    case 26 => ("USC", "USC Stablecoin")
    case 27 => ("wstETH", "Wrapped stETH")
    case 28 => ("YieldUSD", "Yield USD")
    case 29 => ("ZIL", "Zilliqa")
    case _ => ("", "")
  }

  /** The name a table of `n` (symbol, name) entries gives a symbol, looking from entry
    * `i` on: that of the first entry with the symbol. */
  function FirstName(table: nat -> (string, string), n: nat, i: nat, symbol: string): Option<string>
    decreases n - i
  {
    if i >= n then None
    else if table(i).0 == symbol then Some(table(i).1)
    else FirstName(table, n, i + 1, symbol)
  }

  /** A name found from entry `i` on is the name of an entry from `i` on with the symbol. */
  lemma {:induction false} FirstNameEntry(table: nat -> (string, string), n: nat, i: nat, symbol: string)
    ensures FirstName(table, n, i, symbol).Some? ==>
              exists k :: i <= k < n && table(k) == (symbol, FirstName(table, n, i, symbol).value)
    decreases n - i
  {
    if i < n && table(i).0 != symbol {
      FirstNameEntry(table, n, i + 1, symbol);
    }
  }

  /** Looking from entry `i` on finds nothing exactly when no entry from `i` on has the symbol. */
  lemma {:induction false} FirstNameNone(table: nat -> (string, string), n: nat, i: nat, symbol: string)
    ensures FirstName(table, n, i, symbol).None? <==> forall k :: i <= k < n ==> table(k).0 != symbol
    decreases n - i
  {
    if i < n {
      FirstNameNone(table, n, i + 1, symbol);
    }
  }

  /** Looking from entry `i` on finds the name of the first entry with the symbol. */
  lemma {:induction false} FirstNameFound(table: nat -> (string, string), n: nat, i: nat, k: nat, symbol: string)
    requires i <= k < n && table(k).0 == symbol
    requires forall j :: i <= j < k ==> table(j).0 != symbol
    ensures FirstName(table, n, i, symbol) == Some(table(k).1)
    decreases k - i
  {
    if i < k {
      FirstNameFound(table, n, i + 1, k, symbol);
    }
  }

  /** Every name in the table is non-empty, so `||` never falls back on a listed symbol. */
  lemma NamesNonEmpty(k: nat)
    requires k < NameCount
    ensures NameEntry(k).1 != ""
  {
  }

  /** `getTokenName(symbol)`: `nameMap[symbol] || symbol`. */
  function TokenName(symbol: string): (name: string)
    ensures name == symbol || exists k :: 0 <= k < NameCount && NameEntry(k) == (symbol, name)
    ensures symbol != "" ==> name != ""
  {
    FirstNameEntry(NameEntry, NameCount, 0, symbol);
    match FirstName(NameEntry, NameCount, 0, symbol)
    case Some(name) => if name != "" then name else symbol
    case None => symbol
  }

  /** A symbol in the table gets the name of its (first) entry. */
  lemma ListedSymbolName(k: nat, symbol: string)
    requires k < NameCount && NameEntry(k).0 == symbol
    requires forall j :: 0 <= j < k ==> NameEntry(j).0 != symbol
    ensures TokenName(symbol) == NameEntry(k).1
  {
    FirstNameFound(NameEntry, NameCount, 0, k, symbol);
    NamesNonEmpty(k);
  }

  /** A symbol not in the table is its own name. */
  lemma UnknownSymbolName(symbol: string)
    requires forall k :: 0 <= k < NameCount ==> NameEntry(k).0 != symbol
    ensures TokenName(symbol) == symbol
  {
    FirstNameNone(NameEntry, NameCount, 0, symbol);
  }

  /** The token the list builds for a currency of the feed. */
  function ListToken(currency: string): Token
  {
    Token(currency, Some(TokenName(currency)), None, None, Some(IconUrl(currency)))
  }

  /** The token a metadata lookup builds for a symbol not in the cache. */
  function MetadataToken(symbol: string): Token
  {
    Token(symbol, Some(TokenName(symbol)), None, Some(18), Some(IconUrl(symbol)))
  }

  const DefaultSymbols: seq<string> := ["ETH", "USDC", "WBTC", "DAI", "USDT"]

  /** `getDefaultTokens()`. */
  function DefaultTokens(): (r: seq<Token>)
    ensures |r| == |DefaultSymbols| == 5
    ensures forall i :: 0 <= i < |r| ==> r[i] == ListToken(DefaultSymbols[i])
  {
    seq(|DefaultSymbols|, i requires 0 <= i < |DefaultSymbols| => ListToken(DefaultSymbols[i]))
  }

  /** The five defaults and their names. */
  lemma DefaultTokenNames()
    ensures var r := DefaultTokens();
            r[0].symbol == "ETH" && r[0].name == Some("Ethereum")
            && r[1].symbol == "USDC" && r[1].name == Some("USD Coin")
            && r[2].symbol == "WBTC" && r[2].name == Some("Wrapped Bitcoin")
            && r[3].symbol == "DAI" && r[3].name == Some("Dai Stablecoin")
            && r[4].symbol == "USDT" && r[4].name == Some("Tether USD")
  {
    EthAndWbtcNames();
    UsdcAndUsdtNames();
    DaiName();
  }

  lemma EthAndWbtcNames()
    ensures TokenName("ETH") == "Ethereum" && TokenName("WBTC") == "Wrapped Bitcoin"
  {
  }

  lemma UsdcAndUsdtNames()
    ensures TokenName("USDC") == "USD Coin" && TokenName("USDT") == "Tether USD"
  {
  }

  lemma DaiName()
    ensures TokenName("DAI") == "Dai Stablecoin"
  {
  }

  // ---------------------------------------------------------------------------
  // The token list

  /** The currencies of a feed. */
  function Currencies(prices: seq<TokenPrice>): set<string>
  {
    if |prices| == 0 then {} else Currencies(prices[..|prices| - 1]) + {prices[|prices| - 1].currency}
  }

  /** A currency is one of the feed's exactly when some entry of the feed has it. */
  lemma {:induction false} CurrenciesMembers(prices: seq<TokenPrice>, c: string)
    ensures c in Currencies(prices) <==> exists i :: 0 <= i < |prices| && prices[i].currency == c
  {
    if |prices| > 0 {
      var front := prices[..|prices| - 1];
      CurrenciesMembers(front, c);
      if c in Currencies(front) {
        var i :| 0 <= i < |front| && front[i].currency == c;
        assert prices[i] == front[i];
      } else if exists i :: 0 <= i < |prices| && prices[i].currency == c {
        var i :| 0 <= i < |prices| && prices[i].currency == c;
        if i < |front| {
          assert front[i] == prices[i];
        }
      }
    }
  }

  /** The tokens, in first-seen order, that the `forEach` over the feed puts in `tokenMap`,
    * each built from its currency by `make`: a currency already seen is skipped. */
  function FirstTokens(prices: seq<TokenPrice>, make: string -> Token): seq<Token>
  {
    if |prices| == 0 then []
    else
      var before := prices[..|prices| - 1];
      var c := prices[|prices| - 1].currency;
      if c in Currencies(before) then FirstTokens(before, make) else FirstTokens(before, make) + [make(c)]
  }

  /** The list tokens of the feed's currencies, in first-seen order. */
  function Distinct(prices: seq<TokenPrice>): seq<Token>
  {
    FirstTokens(prices, ListToken)
  }

  /** No symbol is listed twice. */
  predicate UniqueSymbols(r: seq<Token>)
  {
    forall i, j :: 0 <= i < j < |r| ==> r[i].symbol != r[j].symbol
  }

  /** The distinct tokens' symbols are the feed's currencies. */
  lemma {:induction false} DistinctSymbols(prices: seq<TokenPrice>)
    ensures Symbols(Distinct(prices)) == Currencies(prices)
  {
    if |prices| > 0 {
      var before := prices[..|prices| - 1];
      var front := Distinct(before);
      DistinctSymbols(before);
      var c := prices[|prices| - 1].currency;
      if c !in Currencies(before) {
        var r := front + [ListToken(c)];
        assert r[..|r| - 1] == front;
        assert Symbols(r) == Symbols(front) + {c};
      }
    }
  }

  /** Each distinct token is the list token of its symbol. */
  lemma {:induction false} DistinctShape(prices: seq<TokenPrice>)
    ensures forall i :: 0 <= i < |Distinct(prices)| ==> Distinct(prices)[i] == ListToken(Distinct(prices)[i].symbol)
  {
    if |prices| > 0 {
      var before := prices[..|prices| - 1];
      var c := prices[|prices| - 1].currency;
      DistinctShape(before);
      if c !in Currencies(before) {
        var r := Distinct(before) + [ListToken(c)];
        assert Distinct(prices) == r;
        forall i | 0 <= i < |r| ensures r[i] == ListToken(r[i].symbol) {
          if i < |r| - 1 {
            assert r[i] == Distinct(before)[i];
          }
        }
      } else {
        assert Distinct(prices) == Distinct(before);
      }
    }
  }

  /** No symbol occurs twice among the distinct tokens. */
  lemma {:induction false} DistinctUnique(prices: seq<TokenPrice>)
    ensures UniqueSymbols(Distinct(prices))
  {
    if |prices| > 0 {
      var before := prices[..|prices| - 1];
      var front := Distinct(before);
      DistinctUnique(before);
      DistinctSymbols(before);
      var c := prices[|prices| - 1].currency;
      if c !in Currencies(before) {
        var r := front + [ListToken(c)];
        forall i, j | 0 <= i < j < |r| ensures r[i].symbol != r[j].symbol {
          if j < |front| {
            assert r[i] == front[i] && r[j] == front[j];
            assert front[i].symbol != front[j].symbol;
          } else {
            assert r[i] == front[i] && r[j].symbol == c;
            assert front[i].symbol in Symbols(front);
            assert front[i].symbol != c;
          }
        }
        assert Distinct(prices) == r;
      }
    }
  }

  /** The distinct tokens are one list token per currency of the feed. */
  lemma DistinctProperties(prices: seq<TokenPrice>)
    ensures var r := Distinct(prices);
            Symbols(r) == Currencies(prices)
            && UniqueSymbols(r)
            && (forall i :: 0 <= i < |r| ==> r[i] == ListToken(r[i].symbol))
  {
    DistinctSymbols(prices);
    DistinctShape(prices);
    DistinctUnique(prices);
  }

  /** The order on tokens by symbol. */
  function BySymbol(le: (string, string) -> bool): (T: (Token, Token) -> bool)
  {
    (a: Token, b: Token) => le(a.symbol, b.symbol)
  }

  lemma BySymbolIsTotalPreorder(le: (string, string) -> bool)
    requires TotalPreorder(le)
    ensures TotalPreorder(BySymbol(le))
  {
    var T := BySymbol(le);
    forall a, b ensures T(a, b) || T(b, a) {
      assert le(a.symbol, b.symbol) || le(b.symbol, a.symbol);
    }
    forall a, b, c | T(a, b) && T(b, c) ensures T(a, c) {
      assert le(a.symbol, b.symbol) && le(b.symbol, c.symbol);
    }
  }

  /** `fetchTokenList()` on a feed that arrived: the distinct tokens sorted by symbol. */
  function TokenList(prices: seq<TokenPrice>, le: (string, string) -> bool): (r: seq<Token>)
    requires TotalPreorder(le)
    ensures multiset(r) == multiset(Distinct(prices))
    ensures forall i, j :: 0 <= i < j < |r| ==> le(r[i].symbol, r[j].symbol)
  {
    BySymbolIsTotalPreorder(le);
    var r := SortBy(Distinct(prices), BySymbol(le));
    assert forall i, j :: 0 <= i < j < |r| ==> BySymbol(le)(r[i], r[j]);
    r
  }

  /** One token per currency of the feed: every currency has a token, every token is a
    * currency's, and no symbol is listed twice. */
  lemma TokenListOnePerCurrency(prices: seq<TokenPrice>, le: (string, string) -> bool)
    requires TotalPreorder(le)
    ensures var r := TokenList(prices, le);
            Symbols(r) == Currencies(prices)
            && UniqueSymbols(r)
            && (forall i :: 0 <= i < |r| ==> r[i] == ListToken(r[i].symbol))
  {
    var r, d := TokenList(prices, le), Distinct(prices);
    DistinctProperties(prices);
    SameMembers(r, d);
    SymbolsByMembership(r, d);
    DistinctKept(r, d);
  }

  /** Lists with the same multiset have the same members. */
  lemma SameMembers(r: seq<Token>, d: seq<Token>)
    requires multiset(r) == multiset(d)
    ensures forall t :: t in r <==> t in d
  {
    forall t ensures t in r <==> t in d {
      assert t in r <==> t in multiset(r);
      assert t in d <==> t in multiset(d);
    }
  }

  /** Two lists with the same members have the same symbols. */
  lemma SymbolsByMembership(r: seq<Token>, d: seq<Token>)
    requires forall t :: t in r <==> t in d
    ensures Symbols(r) == Symbols(d)
  {
    forall k | k in Symbols(r) ensures k in Symbols(d) {
      var i :| 0 <= i < |r| && r[i].symbol == k;
      assert r[i] in r;
      var j :| 0 <= j < |d| && d[j] == r[i];
    }
    forall k | k in Symbols(d) ensures k in Symbols(r) {
      var i :| 0 <= i < |d| && d[i].symbol == k;
      assert d[i] in d;
      var j :| 0 <= j < |r| && r[j] == d[i];
    }
  }

  /** A reordering of a list of list tokens with distinct symbols is one too. */
  lemma DistinctKept(r: seq<Token>, d: seq<Token>)
    requires multiset(r) == multiset(d)
    requires forall t :: t in r <==> t in d
    requires UniqueSymbols(d)
    requires forall i :: 0 <= i < |d| ==> d[i] == ListToken(d[i].symbol)
    ensures forall i :: 0 <= i < |r| ==> r[i] == ListToken(r[i].symbol)
    ensures UniqueSymbols(r)
  {
    forall i | 0 <= i < |r| ensures r[i] == ListToken(r[i].symbol) {
      assert r[i] in r;
      var k :| 0 <= k < |d| && d[k] == r[i];
    }
    forall i, j | 0 <= i < j < |r| ensures r[i].symbol != r[j].symbol {
      if r[i].symbol == r[j].symbol {
        assert r[i] in r && r[j] in r;
        var k :| 0 <= k < |d| && d[k] == r[i];
        var l :| 0 <= l < |d| && d[l] == r[j];
        assert r[i] == r[j];
        TwiceCounted(r, i, j);
        OnceCounted(d, k);
        assert false;
      }
    }
  }

  /** An element at two positions occurs at least twice. */
  lemma TwiceCounted(r: seq<Token>, i: nat, j: nat)
    requires i < j < |r| && r[i] == r[j]
    ensures multiset(r)[r[i]] >= 2
  {
    assert r == r[..i] + [r[i]] + r[i + 1..j] + [r[j]] + r[j + 1..];
  }

  /** In a list with distinct symbols every element occurs once. */
  lemma OnceCounted(d: seq<Token>, k: nat)
    requires k < |d| && UniqueSymbols(d)
    ensures multiset(d)[d[k]] == 1
  {
    assert d == d[..k] + [d[k]] + d[k + 1..];
    assert d[k] !in d[..k] by {
      forall i | 0 <= i < k ensures d[..k][i] != d[k] { assert d[i].symbol != d[k].symbol; }
    }
    var rest := d[k + 1..];
    assert d[k] !in rest by {
      forall i | 0 <= i < |rest| ensures rest[i] != d[k] { assert rest[i] == d[k + 1 + i]; }
    }
    assert multiset(d)[d[k]] == multiset(d[..k])[d[k]] + multiset([d[k]])[d[k]] + multiset(rest)[d[k]];
  }

  // ---------------------------------------------------------------------------
  // The latest prices

  /** The `reduce` step: keep the entry already held for the currency unless the new one's
    * date is strictly later. An entry is an object, so one that exists is truthy. */
  function Keep(acc: map<string, TokenPrice>, price: TokenPrice, date: string -> Num): (r: map<string, TokenPrice>)
    ensures r.Keys == acc.Keys + {price.currency}
    ensures forall c :: c in acc && c != price.currency ==> r[c] == acc[c]
    ensures r[price.currency] == price
            || (price.currency in acc && r[price.currency] == acc[price.currency]
                && !Less(date(acc[price.currency].date), date(price.date)))
    ensures price.currency in acc && !Less(date(acc[price.currency].date), date(price.date)) ==>
              r[price.currency] == acc[price.currency]
  {
    if price.currency !in acc || Less(date(acc[price.currency].date), date(price.date)) then acc[price.currency := price]
    else acc
  }

  /** The `reduce` over the whole feed: for each currency, the entry kept. */
  function LatestPrices(prices: seq<TokenPrice>, date: string -> Num): (r: map<string, TokenPrice>)
    ensures forall c :: c in r ==> r[c].currency == c
  {
    if |prices| == 0 then map[]
    else Keep(LatestPrices(prices[..|prices| - 1], date), prices[|prices| - 1], date)
  }

  /** Every currency of the feed has an entry kept, and nothing else has. */
  lemma {:induction false} LatestPricesKeys(prices: seq<TokenPrice>, date: string -> Num)
    ensures LatestPrices(prices, date).Keys == Currencies(prices)
  {
    if |prices| > 0 {
      var front := prices[..|prices| - 1];
      LatestPricesKeys(front, date);
    }
  }

  /** The entry kept for a currency is an entry of the feed, of that currency. */
  lemma {:induction false} LatestPricesFromFeed(prices: seq<TokenPrice>, date: string -> Num, c: string)
    requires c in LatestPrices(prices, date)
    ensures LatestPrices(prices, date)[c] in prices && LatestPrices(prices, date)[c].currency == c
  {
    var n := |prices| - 1;
    var front := prices[..n];
    var acc := LatestPrices(front, date);
    var p := prices[n];
    if c == p.currency && (c !in acc || Less(date(acc[c].date), date(p.date))) {
      assert prices[n] in prices;
    } else {
      assert c in acc && LatestPrices(prices, date)[c] == acc[c];
      LatestPricesFromFeed(front, date, c);
      assert acc[c] in front;
    }
  }

  /** If `a < b` and not `a < c`, then not `b < c`; and `c < b` if `c` is a number. */
  lemma BeyondLater(a: Num, b: Num, c: Num)
    requires Less(a, b) && !Less(a, c)
    ensures !Less(b, c) && (c.Finite? ==> Less(c, b))
  {
  }

  /** No entry of a currency has a later date than the entry kept for it. */
  lemma {:induction false} NoLaterEntry(prices: seq<TokenPrice>, date: string -> Num, c: string, j: nat)
    requires c in LatestPrices(prices, date) && j < |prices| && prices[j].currency == c
    ensures !Less(date(LatestPrices(prices, date)[c].date), date(prices[j].date))
  {
    var n := |prices| - 1;
    var front := prices[..n];
    var acc := LatestPrices(front, date);
    var p := prices[n];
    var kept := LatestPrices(prices, date)[c];
    if j < n {
      assert front[j] == prices[j];
      LatestPricesKeys(front, date);
      CurrenciesMembers(front, c);
      assert c in acc;
      NoLaterEntry(front, date, c, j);
      if kept != acc[c] {
        assert kept == p && Less(date(acc[c].date), date(p.date));
        BeyondLater(date(acc[c].date), date(p.date), date(prices[j].date));
      }
    }
  }

  /** Among entries of equal date the first one wins: an entry with a valid date as late as
    * the kept one's is the kept one or comes after it. */
  lemma {:induction false} FirstOfLatest(prices: seq<TokenPrice>, date: string -> Num, c: string, j: nat)
    requires c in LatestPrices(prices, date) && j < |prices| && prices[j].currency == c
    requires date(prices[j].date).Finite? && !Less(date(prices[j].date), date(LatestPrices(prices, date)[c].date))
    ensures LatestPrices(prices, date)[c] in prices[..j + 1]
  {
    var n := |prices| - 1;
    var front := prices[..n];
    var acc := LatestPrices(front, date);
    var p := prices[n];
    var kept := LatestPrices(prices, date)[c];
    if j == n {
      assert prices[..j + 1] == prices;
      LatestPricesFromFeed(prices, date, c);
    } else {
      assert front[j] == prices[j];
      assert front[..j + 1] == prices[..j + 1];
      LatestPricesKeys(front, date);
      CurrenciesMembers(front, c);
      assert c in acc;
      NoLaterEntry(front, date, c, j);
      if kept == acc[c] {
        FirstOfLatest(front, date, c, j);
      }
    }
  }

  /** The price of each entry kept. */
  function Prices(latest: map<string, TokenPrice>): (r: map<string, real>)
    ensures r.Keys == latest.Keys
  {
    map c | c in latest :: latest[c].price
  }

  /** The `Object.entries(latestPrices).forEach` that copies each kept entry's price. */
  method EntriesToPrices(latest: map<string, TokenPrice>) returns (priceMap: map<string, real>)
    ensures priceMap == Prices(latest)
  {
    priceMap := map[];
    var remaining := latest.Keys;
    while remaining != {}
      invariant remaining <= latest.Keys
      invariant priceMap.Keys == latest.Keys - remaining
      invariant forall c :: c in priceMap ==> priceMap[c] == latest[c].price
      decreases |remaining|
    {
      var symbol :| symbol in remaining;
      priceMap := priceMap[symbol := latest[symbol].price];
      remaining := remaining - {symbol};
    }
  }

  /** `fetchTokenPrices()` on a feed that arrived: each currency's latest price. */
  function PriceMap(prices: seq<TokenPrice>, date: string -> Num): (r: map<string, real>)
    ensures r.Keys == Currencies(prices)
  {
    LatestPricesKeys(prices, date);
    Prices(LatestPrices(prices, date))
  }

  /** Each currency maps to the price of an entry of that currency with no later entry. */
  lemma PriceMapIsLatest(prices: seq<TokenPrice>, date: string -> Num, c: string)
    requires c in Currencies(prices)
    ensures exists k :: 0 <= k < |prices| && prices[k].currency == c && PriceMap(prices, date)[c] == prices[k].price
              && forall j :: 0 <= j < |prices| && prices[j].currency == c ==> !Less(date(prices[k].date), date(prices[j].date))
  {
    LatestPricesKeys(prices, date);
    LatestPricesFromFeed(prices, date, c);
    var kept := LatestPrices(prices, date)[c];
    var k :| 0 <= k < |prices| && prices[k] == kept;
    forall j | 0 <= j < |prices| && prices[j].currency == c
      ensures !Less(date(prices[k].date), date(prices[j].date))
    {
      NoLaterEntry(prices, date, c, j);
    }
  }

  // ---------------------------------------------------------------------------
  // The metadata cache

  /** A metadata lookup: the cached token, or a new 18-decimal token that is then cached.
    * That a second lookup is then a hit with the same answer is `MetadataRepeatable`. */
  function Metadata(cache: map<string, Token>, symbol: string): (r: (Token, map<string, Token>))
    ensures symbol in cache ==> r == (cache[symbol], cache)
    ensures symbol !in cache ==> r.0 == MetadataToken(symbol) && r.1 == cache[symbol := MetadataToken(symbol)]
    ensures r.0.symbol == symbol || symbol in cache
  {
    if symbol in cache then (cache[symbol], cache) else (MetadataToken(symbol), cache[symbol := MetadataToken(symbol)])
  }

  /** Looking the same symbol up twice gives the same token, and the second lookup leaves
    * the cache as the first left it. */
  lemma MetadataRepeatable(cache: map<string, Token>, symbol: string)
    ensures var first := Metadata(cache, symbol);
            Metadata(first.1, symbol) == first
  {
  }

  /** The cache entries the `forEach` adds: every currency's token, built by `make`. */
  function TokenCache(prices: seq<TokenPrice>, make: string -> Token): (m: map<string, Token>)
    ensures m.Keys == Currencies(prices)
    ensures forall c :: c in m ==> m[c] == make(c)
  {
    map c | c in Currencies(prices) :: make(c)
  }

  /** What the token list adds to the cache: every currency's list token. */
  function ListCache(prices: seq<TokenPrice>): (m: map<string, Token>)
    ensures m.Keys == Currencies(prices)
    ensures forall c :: c in m ==> m[c] == ListToken(c)
  {
    TokenCache(prices, ListToken)
  }

  /** What one more price does to the currencies, the first-seen tokens and the cache entries. */
  lemma ListStep(prices: seq<TokenPrice>, i: nat, make: string -> Token)
    requires i < |prices|
    ensures var before, after, c := prices[..i], prices[..i + 1], prices[i].currency;
            Currencies(after) == Currencies(before) + {c}
            && FirstTokens(after, make) == (if c in Currencies(before) then FirstTokens(before, make) else FirstTokens(before, make) + [make(c)])
            && TokenCache(after, make) == TokenCache(before, make)[c := make(c)]
  {
    var before, after, c := prices[..i], prices[..i + 1], prices[i].currency;
    assert after[..i] == before && after[i] == prices[i];
    CacheStep(Currencies(before), c, make);
  }

  /** Adding a currency adds its token to the cache entries. */
  lemma CacheStep(cs: set<string>, c: string, make: string -> Token)
    ensures (map k | k in cs + {c} :: make(k)) == (map k | k in cs :: make(k))[c := make(c)]
  {
  }

  /** Updating a merge of two maps is updating its right-hand side. */
  lemma MergeUpdate(o: map<string, Token>, m: map<string, Token>, k: string, t: Token)
    ensures (o + m)[k := t] == o + m[k := t]
    ensures k in m && m[k] == t ==> o + m[k := t] == o + m
  {
    if k in m && m[k] == t {
      assert m[k := t] == m;
    }
  }

  /** One turn of the `forEach` in `fetchTokenList()`: a new currency appends its token and
    * maps it; a currency seen before changes nothing. */
  lemma ListLoopStep(prices: seq<TokenPrice>, i: nat, make: string -> Token, inOrder: seq<Token>, tokenMap: map<string, Token>)
    requires i < |prices|
    requires inOrder == FirstTokens(prices[..i], make) && tokenMap == TokenCache(prices[..i], make)
    ensures var c, after := prices[i].currency, prices[..i + 1];
            (c !in tokenMap ==> inOrder + [make(c)] == FirstTokens(after, make) && tokenMap[c := make(c)] == TokenCache(after, make))
            && (c in tokenMap ==> inOrder == FirstTokens(after, make) && tokenMap == TokenCache(after, make))
  {
    var c := prices[i].currency;
    ListStep(prices, i, make);
    if c in tokenMap {
      assert tokenMap[c := make(c)] == tokenMap;
    }
  }

  /** The service's state: the module-level metadata cache. */
  class TokenServiceState {
    var metadataCache: map<string, Token>

    constructor()
      ensures metadataCache == map[]
    {
      metadataCache := map[];
    }

    /** `fetchTokenList()`, given the fetched feed or `None` for a failed request. */
    method FetchTokenList(response: Option<seq<TokenPrice>>, le: (string, string) -> bool) returns (tokens: seq<Token>)
      requires TotalPreorder(le)
      modifies this
      ensures response.None? ==> tokens == DefaultTokens() && metadataCache == old(metadataCache)
      ensures response.Some? ==> tokens == TokenList(response.value, le)
      ensures response.Some? ==> metadataCache == old(metadataCache) + ListCache(response.value)
    {
      if response.None? {
        return DefaultTokens();
      }
      var inOrder := CollectTokens(response.value, ListToken);
      BySymbolIsTotalPreorder(le);
      tokens := SortBy(inOrder, BySymbol(le));
    }

    /** The `forEach` of `fetchTokenList()`, with `make` building a currency's token: the
      * first token of each currency, in the order of the feed, each also put in the cache. */
    method CollectTokens(prices: seq<TokenPrice>, make: string -> Token) returns (inOrder: seq<Token>)
      modifies this
      ensures inOrder == FirstTokens(prices, make)
      ensures metadataCache == old(metadataCache) + TokenCache(prices, make)
    {
      ghost var cache0 := metadataCache;
      var tokenMap: map<string, Token> := map[];
      inOrder := [];
      var i := 0;
      while i < |prices|
        invariant 0 <= i <= |prices|
        invariant inOrder == FirstTokens(prices[..i], make)
        invariant tokenMap == TokenCache(prices[..i], make)
        invariant metadataCache == cache0 + tokenMap
      {
        var priceData := prices[i];
        ListLoopStep(prices, i, make, inOrder, tokenMap);
        if priceData.currency !in tokenMap {
          var token := make(priceData.currency);
          MergeUpdate(cache0, tokenMap, priceData.currency, token);
          tokenMap := tokenMap[priceData.currency := token];
          inOrder := inOrder + [token];
          metadataCache := metadataCache[priceData.currency := token];
        }
        i := i + 1;
      }
      assert prices[..|prices|] == prices;
    }

    /** `fetchTokenPrices()`, given the fetched feed or `None` for a failed request, which
      * is reported as an error. */
    method FetchTokenPrices(response: Option<seq<TokenPrice>>, date: string -> Num) returns (r: Result<map<string, real>, string>)
      ensures response.None? ==> r == Failure("Unable to fetch current prices. Please try again.")
      ensures response.Some? ==> r == Success(PriceMap(response.value, date))
    {
      if response.None? {
        return Failure("Unable to fetch current prices. Please try again.");
      }
      var prices := response.value;
      var latestPrices: map<string, TokenPrice> := map[];
      var i := 0;
      while i < |prices|
        invariant 0 <= i <= |prices|
        invariant latestPrices == LatestPrices(prices[..i], date)
      {
        assert prices[..i + 1][..i] == prices[..i];
        latestPrices := Keep(latestPrices, prices[i], date);
        i := i + 1;
      }
      assert prices[..|prices|] == prices;
      var priceMap := EntriesToPrices(latestPrices);
      return Success(priceMap);
    }

    /** `fetchTokenMetadata(symbol)`. */
    method FetchTokenMetadata(symbol: string) returns (token: Token)
      modifies this
      ensures (token, metadataCache) == Metadata(old(metadataCache), symbol)
    {
      if symbol in metadataCache {
        return metadataCache[symbol];
      }
      token := MetadataToken(symbol);
      metadataCache := metadataCache[symbol := token];
    }
  }
}
