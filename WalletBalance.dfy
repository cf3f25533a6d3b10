/**
 * The wallet page's balance list: balances on a chain with a known priority and with a
 * positive amount are kept, sorted by the chain's priority and then by amount, both in
 * descending order, then given a two-place rendering of the amount; each row is keyed by
 * chain and currency.
 */
module WalletBalance {
  import opened JsNumber
  import opened Seqs
  import opened Sorting

  datatype WalletBalance = WalletBalance(currency: string, amount: real, blockchain: string)

  datatype FormattedWalletBalance = FormattedWalletBalance(currency: string, amount: real, blockchain: string, formatted: string)

  /** BLOCKCHAIN_PRIORITIES. */
  const BlockchainPriorities: map<string, int> :=
    map["Osmosis" := 100, "Ethereum" := 50, "Arbitrum" := 30, "Zilliqa" := 20, "Neo" := 20]

  /** The priority that marks a chain as unknown. */
  const UnknownPriority: int := -99

  /** `getPriority(blockchain)`: the table's value, or -99 for a chain not in it. */
  function GetPriority(blockchain: string): (p: int)
    ensures blockchain in BlockchainPriorities ==> p == BlockchainPriorities[blockchain]
    ensures blockchain !in BlockchainPriorities ==> p == UnknownPriority
  {
    if blockchain in BlockchainPriorities then BlockchainPriorities[blockchain] else UnknownPriority
  }

  /** The table's entries, and that every listed chain ranks above an unknown one. */
  lemma PriorityTable()
    ensures GetPriority("Osmosis") == 100 && GetPriority("Ethereum") == 50 && GetPriority("Arbitrum") == 30
    ensures GetPriority("Zilliqa") == 20 && GetPriority("Neo") == 20
    ensures forall b :: GetPriority(b) > UnknownPriority <==> b in BlockchainPriorities
  {
  }

  /** The filter's test: a known chain and a positive amount. */
  predicate Keep(b: WalletBalance): (k: bool)
    ensures k <==> b.blockchain in BlockchainPriorities && b.amount > 0.0
  {
    GetPriority(b.blockchain) > UnknownPriority && b.amount > 0.0
  }

  /** The sort's comparator, `rightPriority - leftPriority` when the priorities differ,
    * else `rhs.amount - lhs.amount`. */
  function Compare(lhs: WalletBalance, rhs: WalletBalance): (r: real)
    ensures r < 0.0 <==> GetPriority(lhs.blockchain) > GetPriority(rhs.blockchain)
                         || (GetPriority(lhs.blockchain) == GetPriority(rhs.blockchain) && lhs.amount > rhs.amount)
    ensures r == 0.0 <==> GetPriority(lhs.blockchain) == GetPriority(rhs.blockchain) && lhs.amount == rhs.amount
  {
    var lp, rp := GetPriority(lhs.blockchain), GetPriority(rhs.blockchain);
    if lp != rp then (rp - lp) as real else rhs.amount - lhs.amount
  }

  /** `lhs` may come before `rhs`: the comparator is not positive. */
  predicate Before(lhs: WalletBalance, rhs: WalletBalance)
  {
    Compare(lhs, rhs) <= 0.0
  }

  /** The comparator is consistent, so the sort is well defined. */
  lemma BeforeIsTotalPreorder()
    ensures TotalPreorder(Before)
  {
    forall a, b ensures Before(a, b) || Before(b, a) {
    }
    forall a, b, c | Before(a, b) && Before(b, c) ensures Before(a, c) {
    }
  }

  /** `sortedBalances`. */
  function SortedBalances(balances: seq<WalletBalance>): (r: seq<WalletBalance>)
    ensures multiset(r) == multiset(Filter(balances, Keep))
    ensures SortedBy(r, Before)
  {
    BeforeIsTotalPreorder();
    SortBy(Filter(balances, Keep), Before)
  }

  /** Only balances on a known chain with a positive amount remain, and nothing is dropped
    * or repeated: each of them remains exactly as often as it occurs. */
  lemma SortedBalancesContents(balances: seq<WalletBalance>, x: WalletBalance)
    ensures x in SortedBalances(balances) <==> x in balances && Keep(x)
    ensures multiset(SortedBalances(balances))[x] == if Keep(x) then multiset(balances)[x] else 0
  {
    FilterMultiset(balances, Keep, x);
    FilterMember(balances, Keep, x);
    assert x in SortedBalances(balances) <==> x in multiset(SortedBalances(balances));
    assert x in Filter(balances, Keep) <==> x in multiset(Filter(balances, Keep));
  }

  /** The order: priority descending, and amount descending among equal priorities. */
  lemma SortedBalancesOrder(balances: seq<WalletBalance>)
    ensures var r := SortedBalances(balances);
            forall i, j :: 0 <= i < j < |r| ==>
              GetPriority(r[i].blockchain) > GetPriority(r[j].blockchain)
              || (GetPriority(r[i].blockchain) == GetPriority(r[j].blockchain) && r[i].amount >= r[j].amount)
  {
    var r := SortedBalances(balances);
    forall i, j | 0 <= i < j < |r|
      ensures GetPriority(r[i].blockchain) > GetPriority(r[j].blockchain)
              || (GetPriority(r[i].blockchain) == GetPriority(r[j].blockchain) && r[i].amount >= r[j].amount)
    {
      assert Before(r[i], r[j]);
    }
  }

  /** Every balance kept is on a known chain and has a positive amount. */
  lemma SortedBalancesKept(balances: seq<WalletBalance>)
    ensures var r := SortedBalances(balances);
            forall i :: 0 <= i < |r| ==> GetPriority(r[i].blockchain) > UnknownPriority && r[i].amount > 0.0
  {
    var r := SortedBalances(balances);
    forall i | 0 <= i < |r| ensures Keep(r[i]) {
      SortedBalancesContents(balances, r[i]);
    }
  }

  /** `formattedBalances`: each balance with `formatted = amount.toFixed(2)`. */
  function FormattedBalances(ops: FloatOps, sorted: seq<WalletBalance>): (r: seq<FormattedWalletBalance>)
    ensures |r| == |sorted|
    ensures forall i :: 0 <= i < |r| ==>
              r[i].currency == sorted[i].currency && r[i].amount == sorted[i].amount
              && r[i].blockchain == sorted[i].blockchain && r[i].formatted == ops.toFixed2(sorted[i].amount)
  {
    seq(|sorted|, i requires 0 <= i < |sorted| =>
      FormattedWalletBalance(sorted[i].currency, sorted[i].amount, sorted[i].blockchain, ops.toFixed2(sorted[i].amount)))
  }

  /** The balance a formatted row was made from. */
  function Unformatted(f: FormattedWalletBalance): WalletBalance
  {
    WalletBalance(f.currency, f.amount, f.blockchain)
  }

  /** Formatting keeps the balances and their order: dropping the rendering gives back the
    * sorted list. */
  lemma FormattingKeepsOrder(ops: FloatOps, sorted: seq<WalletBalance>)
    ensures var r := FormattedBalances(ops, sorted);
            seq(|r|, i requires 0 <= i < |r| => Unformatted(r[i])) == sorted
  {
  }

  /** The row key, `${blockchain}-${currency}`. */
  function RowKey(b: FormattedWalletBalance): (key: string)
    ensures |key| == |b.blockchain| + 1 + |b.currency|
    ensures key[..|b.blockchain|] == b.blockchain && key[|b.blockchain|] == '-'
    ensures key[|b.blockchain| + 1..] == b.currency
  {
    b.blockchain + "-" + b.currency
  }

  /** On chains whose names have no `-`, the key tells the chain and the currency apart. */
  lemma RowKeyInjective(a: FormattedWalletBalance, b: FormattedWalletBalance)
    requires '-' !in a.blockchain && '-' !in b.blockchain
    requires RowKey(a) == RowKey(b)
    ensures a.blockchain == b.blockchain && a.currency == b.currency
  {
    var k := RowKey(a);
    assert forall i :: 0 <= i < |a.blockchain| ==> k[i] != '-';
    assert forall i :: 0 <= i < |b.blockchain| ==> k[i] != '-';
  }
}
