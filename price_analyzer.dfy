/** The analyzer: ranks every (market, product, price) entry of the current
    snapshot by ascending price, and reports the (fixed) price trends. */
module Analyzer {
  import opened Prices
  import opened StableSort
  import opened Market

  /** The deals of one market, one per quote, in quote order. */
  function MarketDeals(market: string, quotes: seq<Quote>): (r: seq<Deal>)
    ensures |r| == |quotes|
    ensures forall j :: 0 <= j < |quotes| ==> r[j] == DealOf(market, quotes[j])
  {
    if quotes == [] then []
    else MarketDeals(market, quotes[..|quotes| - 1]) + [DealOf(market, quotes[|quotes| - 1])]
  }

  /** The deals of a snapshot, market after market and product after product:
      the order in which the nested loops visit them. */
  function Flatten(s: Snapshot): (r: seq<Deal>)
    ensures |r| == TotalProducts(s)
  {
    if s == [] then []
    else Flatten(s[..|s| - 1]) + MarketDeals(s[|s| - 1].market, s[|s| - 1].quotes)
  }

  /** Every quote of the snapshot is flattened into its deal. */
  lemma {:induction false} FlattenHas(s: Snapshot, i: nat, j: nat)
    requires i < |s| && j < |s[i].quotes|
    ensures DealOf(s[i].market, s[i].quotes[j]) in Flatten(s)
  {
    var n := |s| - 1;
    var init := s[..n];
    var last := MarketDeals(s[n].market, s[n].quotes);
    assert Flatten(s) == Flatten(init) + last;
    if i < n {
      assert init[i] == s[i];
      FlattenHas(init, i, j);
    } else {
      assert last[j] == DealOf(s[i].market, s[i].quotes[j]);
    }
  }

  /** Every flattened deal comes from some quote of the snapshot. */
  lemma {:induction false} FlattenOrigin(s: Snapshot, d: Deal) returns (i: nat, j: nat)
    requires d in Flatten(s)
    ensures i < |s| && j < |s[i].quotes|
    ensures d == DealOf(s[i].market, s[i].quotes[j])
  {
    var n := |s| - 1;
    var init := s[..n];
    var last := MarketDeals(s[n].market, s[n].quotes);
    assert Flatten(s) == Flatten(init) + last;
    if d in Flatten(init) {
      i, j := FlattenOrigin(init, d);
      assert init[i] == s[i];
    } else {
      var k :| 0 <= k < |last| && last[k] == d;
      i, j := n, k;
    }
  }

  /** A deal is flattened exactly when some market of the snapshot quotes it. */
  lemma FlattenMember(s: Snapshot, d: Deal)
    ensures d in Flatten(s) <==>
      exists i, j :: 0 <= i < |s| && 0 <= j < |s[i].quotes| && d == DealOf(s[i].market, s[i].quotes[j])
  {
    if d in Flatten(s) {
      var i, j := FlattenOrigin(s, d);
    }
    if exists i, j :: 0 <= i < |s| && 0 <= j < |s[i].quotes| && d == DealOf(s[i].market, s[i].quotes[j]) {
      var i, j :| 0 <= i < |s| && 0 <= j < |s[i].quotes| && d == DealOf(s[i].market, s[i].quotes[j]);
      FlattenHas(s, i, j);
    }
  }

  /** The deal of product `j` of market `i` comes right after the entries of the
      markets before `i`: markets in order, and products in order within each. */
  lemma {:induction false} FlattenAt(s: Snapshot, i: nat, j: nat)
    requires i < |s| && j < |s[i].quotes|
    ensures TotalProducts(s[..i]) + j < |Flatten(s)|
    ensures Flatten(s)[TotalProducts(s[..i]) + j] == DealOf(s[i].market, s[i].quotes[j])
  {
    var n := |s| - 1;
    var init := s[..n];
    var last := MarketDeals(s[n].market, s[n].quotes);
    assert Flatten(s) == Flatten(init) + last;
    if i < n {
      assert init[i] == s[i];
      assert init[..i] == s[..i];
      FlattenAt(init, i, j);
    } else {
      assert s[..i] == init;
      assert last[j] == DealOf(s[i].market, s[i].quotes[j]);
    }
  }

  /** With `m` products per market, the deal of product `j` of market `i` sits at
      index `i * m + j`. */
  lemma FlattenIndex(s: Snapshot, m: nat, i: nat, j: nat)
    requires Uniform(s, m)
    requires i < |s| && j < m
    ensures i * m + j < |Flatten(s)|
    ensures Flatten(s)[i * m + j] == DealOf(s[i].market, s[i].quotes[j])
  {
    assert Uniform(s[..i], m);
    TotalProductsUniform(s[..i], m);
    FlattenAt(s, i, j);
  }

  /** The (market, product) key of a deal. */
  function Key(d: Deal): (string, string)
  {
    (d.market, d.product)
  }

  /** When the snapshot's keys are distinct (as a nested dictionary's are), every
      (market, product) entry gives exactly one deal. */
  lemma {:induction false} FlattenDistinct(s: Snapshot)
    requires DistinctKeys(s)
    ensures forall a, b :: 0 <= a < b < |Flatten(s)| ==> Key(Flatten(s)[a]) != Key(Flatten(s)[b])
  {
    if s != [] {
      var n := |s| - 1;
      var init := s[..n];
      var f := Flatten(init);
      var last := MarketDeals(s[n].market, s[n].quotes);
      assert DistinctKeys(init);
      FlattenDistinct(init);
      assert Flatten(s) == f + last;
      assert DistinctProducts(s[n].quotes);
      forall a, b | 0 <= a < b < |f + last|
        ensures Key((f + last)[a]) != Key((f + last)[b])
      {
        if b >= |f| {
          if a >= |f| {
            assert (f + last)[a] == last[a - |f|] && (f + last)[b] == last[b - |f|];
          } else {
            assert (f + last)[a] == f[a] && f[a] in f;
            var i, j := FlattenOrigin(init, f[a]);
            assert (f + last)[b] == last[b - |f|];
          }
        } else {
          assert (f + last)[a] == f[a] && (f + last)[b] == f[b];
        }
      }
    }
  }

  /** The ranking `find_best_deals` returns: every deal of the snapshot, sorted
      ascending by price, ties in market-then-product order. */
  function BestDeals(s: Snapshot): (r: seq<Deal>)
    ensures |r| == TotalProducts(s)
    ensures SortedByPrice(r)
    ensures multiset(r) == multiset(Flatten(s))
    ensures forall p :: WithPrice(r, p) == WithPrice(Flatten(s), p)
  {
    SortByPriceCorrect(Flatten(s));
    SortByPricePermutation(Flatten(s));
    SortByPrice(Flatten(s))
  }

  /** Any ascending, stable ordering of the snapshot's deals is this ranking. */
  lemma BestDealsUnique(s: Snapshot, r: seq<Deal>)
    requires SortedByPrice(r)
    requires forall p :: WithPrice(r, p) == WithPrice(Flatten(s), p)
    ensures r == BestDeals(s)
  {
    StableSortUnique(r, BestDeals(s));
  }

  /** Collects every (market, product, price) entry of a snapshot with two nested
      loops, market by market and product by product. */
  method CollectDeals(prices: Snapshot) returns (found: seq<Deal>)
    ensures found == Flatten(prices)
  {
    found := [];
    for i := 0 to |prices|
      invariant found == Flatten(prices[..i])
    {
      var entry := prices[i];
      for j := 0 to |entry.quotes|
        invariant found == Flatten(prices[..i]) + MarketDeals(entry.market, entry.quotes[..j])
      {
        found := found + [DealOf(entry.market, entry.quotes[j])];
        assert entry.quotes[..j + 1][..j] == entry.quotes[..j];
      }
      assert entry.quotes[..|entry.quotes|] == entry.quotes;
      assert prices[..i + 1][..i] == prices[..i];
    }
    assert prices[..|prices|] == prices;
  }

  /** Collects the deals of the current prices, then sorts them ascending by price
      (stably). */
  method FindBestDeals(md: MarketData) returns (deals: seq<Deal>)
    requires md.Valid()
    ensures deals == BestDeals(md.prices)
    ensures |deals| == TotalProducts(md.prices)
    ensures SortedByPrice(deals)
    ensures multiset(deals) == multiset(Flatten(md.prices))
    ensures forall p :: WithPrice(deals, p) == WithPrice(Flatten(md.prices), p)
  {
    var prices := md.GetCurrentPrices();
    var found := CollectDeals(prices);
    deals := SortByPrice(found);
  }

  /** The trend values `analyze_price_trends` reports: three fixed constants for
      Res, Cerdo and Pollo, whatever the store holds. */
  function AnalyzePriceTrends(md: MarketData): (r: seq<TrendValue>)
    ensures |r| == 3
    ensures r[0].product == "Res" && r[1].product == "Cerdo" && r[2].product == "Pollo"
    ensures r[0].value > 0.0 && r[1].value < 0.0 && r[2].value == 0.0
  {
    [TrendValue("Res", 0.5), TrendValue("Cerdo", -0.2), TrendValue("Pollo", 0.0)]
  }

  /** The trends do not depend on the store: neither its prices nor its history. */
  lemma TrendsIgnoreStore(md1: MarketData, md2: MarketData)
    ensures AnalyzePriceTrends(md1) == AnalyzePriceTrends(md2)
  {
  }
}
