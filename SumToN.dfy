/**
 * Three ways to sum the integers from 1 to n, for any integer n: the result is
 * 1 + 2 + ... + |n|, negated when n is negative, and 0 for n = 0. The closed form, a
 * counting loop, and a recursion whose results are kept in a cache shared by all calls.
 */
module SumToN {

  /** 1 + 2 + ... + k, the reference the three implementations are held to. */
  function Triangle(k: nat): nat
  {
    if k == 0 then 0 else k + Triangle(k - 1)
  }

  function Abs(n: int): nat
  {
    if n < 0 then -n else n
  }

  /** The keys 1 to m. */
  function UpTo(m: nat): (s: set<nat>)
    ensures forall k :: k in s <==> 1 <= k <= m
  {
    if m == 0 then {} else UpTo(m - 1) + {m}
  }

  /** The sum to n: the triangle of |n|, with the sign of n. */
  function SumTo(n: int): int
  {
    if n < 0 then -(Triangle(Abs(n)) as int) else Triangle(Abs(n))
  }

  /** The closed form of the triangle. */
  lemma {:induction false} TriangleClosedForm(k: nat)
    ensures 2 * Triangle(k) == k * (k + 1)
  {
    if k > 0 {
      TriangleClosedForm(k - 1);
    }
  }

  /** `sum_to_n_a(n)`: `|n| * (|n| + 1) / 2`, negated for negative n. */
  function SumToNA(n: int): (r: int)
    ensures r == SumTo(n)
  {
    if n == 0 then 0
    else
      var absN := Abs(n);
      var result := (absN * (absN + 1)) / 2;
      TriangleClosedForm(absN);
      if n < 0 then -result else result
  }

  /** Every implementation is odd. */
  lemma SumToIsOdd(n: int)
    ensures SumTo(-n) == -SumTo(n)
    ensures SumToNA(-n) == -SumToNA(n)
  {
  }

  /** The values the program prints: 15 for 5, 0 for 0, -6 for -3, 5050 for 100. */
  lemma SumToExamples()
    ensures SumToNA(5) == 15 && SumToNA(0) == 0 && SumToNA(-3) == -6 && SumToNA(100) == 5050
  {
  }

  /** `sum_to_n_b(n)`: add 1, 2, ..., |n| in a loop. */
  method SumToNB(n: int) returns (r: int)
    ensures r == SumTo(n)
  {
    if n == 0 {
      return 0;
    }
    var sum: int := 0;
    var absN := Abs(n);
    var i := 1;
    while i <= absN
      invariant 1 <= i <= absN + 1
      invariant sum == Triangle(i - 1)
    {
      sum := sum + i;
      i := i + 1;
    }
    r := if n < 0 then -sum else sum;
  }

  /** `sum_to_n_c` together with its cache, keyed by `|n|` (the source keys it by
    * `|n|.toString()`, which is one-to-one on naturals). */
  class SumMemo {
    var cache: map<nat, int>

    /** Each entry k holds the triangle of k, no entry is 0, and the keys below an entry
      * are down to 1 all present. */
    predicate Valid()
      reads this
    {
      (forall k :: k in cache ==> k >= 1 && cache[k] == Triangle(k))
      && (forall k :: k in cache && k > 1 ==> k - 1 in cache)
    }

    constructor()
      ensures Valid() && cache == map[]
    {
      cache := map[];
    }

    /** `sum_to_n_c(n)`: the result is the sum to n; the cache keeps its entries and
      * afterwards holds exactly its old keys and every key from 1 to |n|. */
    method SumToNC(n: int) returns (r: int)
      requires Valid()
      modifies this
      ensures Valid()
      ensures r == SumTo(n)
      ensures forall k :: k in old(cache) ==> k in cache && cache[k] == old(cache)[k]
      ensures forall k :: 1 <= k <= Abs(n) ==> k in cache
      ensures cache.Keys == old(cache).Keys + UpTo(Abs(n))
      decreases Abs(n)
    {
      if n == 0 {
        return 0;
      }
      var absN := Abs(n);
      var cacheKey := absN;
      if cacheKey in cache {
        r := if n < 0 then -cache[cacheKey] else cache[cacheKey];
        DownwardClosed(absN);
        return;
      }
      if absN == 1 {
        cache := cache[cacheKey := 1];
      } else {
        var below := SumToNC(absN - 1);
        cache := cache[cacheKey := absN + below];
      }
      r := if n < 0 then -cache[cacheKey] else cache[cacheKey];
    }

    /** With the cache valid, an entry brings every smaller positive key with it. */
    lemma {:induction false} DownwardClosed(m: nat)
      requires Valid() && m in cache
      ensures forall k :: 1 <= k <= m ==> k in cache
      decreases m
    {
      if m > 1 {
        DownwardClosed(m - 1);
      }
    }
  }

  /** The three implementations agree on every call, whatever the cache held. */
  method AllAgree(memo: SumMemo, n: int) returns (a: int, b: int, c: int)
    requires memo.Valid()
    modifies memo
    ensures a == b == c == SumTo(n)
  {
    a := SumToNA(n);
    b := SumToNB(n);
    c := memo.SumToNC(n);
  }
}
