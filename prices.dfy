/** The values the price tool passes around: a snapshot of prices per market and
    product, the history entries the store keeps, the deals the analyzer ranks and
    the trend values it reports. */
module Prices {

  /** A price per kilogram. Prices are only ever compared, so an exact real stands
      for the floating-point value. */
  type Price = real

  /** The moment a snapshot was recorded; the wall clock is an input of the model. */
  type Timestamp = int

  /** One product of a market with its price. */
  datatype Quote = Quote(product: string, price: Price)

  /** One market with its products, in the order they were inserted. */
  datatype MarketPrices = MarketPrices(market: string, quotes: seq<Quote>)

  /** market -> product -> price, as an insertion-ordered association list
      (the iteration order of the nested dictionaries). */
  type Snapshot = seq<MarketPrices>

  /** One recorded snapshot. */
  datatype HistoryEntry = HistoryEntry(time: Timestamp, snapshot: Snapshot)

  /** One (market, product, price) observation. */
  datatype Deal = Deal(market: string, product: string, price: Price)

  /** A signed trend value for one product: positive rising, negative falling. */
  datatype TrendValue = TrendValue(product: string, value: real)

  /** The deal a market's quote stands for. */
  function DealOf(market: string, q: Quote): Deal
  {
    Deal(market, q.product, q.price)
  }

  /** The products of one market are pairwise distinct (a dictionary's keys). */
  predicate DistinctProducts(quotes: seq<Quote>)
  {
    forall j, k :: 0 <= j < k < |quotes| ==> quotes[j].product != quotes[k].product
  }

  /** Market names are pairwise distinct and so are the products of each market:
      what a snapshot built from nested dictionaries always satisfies. */
  predicate DistinctKeys(s: Snapshot)
  {
    (forall i, j :: 0 <= i < j < |s| ==> s[i].market != s[j].market) &&
    (forall i :: 0 <= i < |s| ==> DistinctProducts(s[i].quotes))
  }

  /** The number of (market, product) entries of a snapshot. */
  function TotalProducts(s: Snapshot): nat
  {
    if s == [] then 0 else TotalProducts(s[..|s| - 1]) + |s[|s| - 1].quotes|
  }

  /** Every market has the same number `m` of products. */
  predicate Uniform(s: Snapshot, m: nat)
  {
    forall i :: 0 <= i < |s| ==> |s[i].quotes| == m
  }

  /** A snapshot of `n` markets with `m` products each has `n * m` entries. */
  lemma {:induction false} TotalProductsUniform(s: Snapshot, m: nat)
    requires Uniform(s, m)
    ensures TotalProducts(s) == |s| * m
  {
    if s != [] {
      var init := s[..|s| - 1];
      assert Uniform(init, m);
      TotalProductsUniform(init, m);
      assert |s[|s| - 1].quotes| == m;
    }
  }
}
