/** One pass of the poll loop, without the console output and the sleep: collect,
    rank the deals, classify the trends. */
module Session {
  import opened Prices
  import opened StableSort
  import opened Market
  import opened Analyzer
  import opened Collector
  import opened Trends

  /** The sample snapshot's deals, ranked by ascending price. */
  function SampleRanking(): seq<Deal>
  {
    [ Deal("Soriana", "Pollo", 85.50), Deal("Walmart", "Pollo", 88.70), Deal("HEB", "Pollo", 89.90),
      Deal("Soriana", "Cerdo", 118.50), Deal("HEB", "Cerdo", 120.30), Deal("Walmart", "Cerdo", 122.40),
      Deal("Soriana", "Res", 175.90), Deal("Walmart", "Res", 178.30), Deal("HEB", "Res", 180.50) ]
  }

  /** A snapshot of three markets with three products each flattens into its nine
      deals, market by market. */
  lemma FlattenThreeByThree(s: Snapshot)
    requires |s| == 3 && Uniform(s, 3)
    ensures var f := Flatten(s);
      |f| == 9 &&
      f[0] == DealOf(s[0].market, s[0].quotes[0]) && f[1] == DealOf(s[0].market, s[0].quotes[1]) &&
      f[2] == DealOf(s[0].market, s[0].quotes[2]) && f[3] == DealOf(s[1].market, s[1].quotes[0]) &&
      f[4] == DealOf(s[1].market, s[1].quotes[1]) && f[5] == DealOf(s[1].market, s[1].quotes[2]) &&
      f[6] == DealOf(s[2].market, s[2].quotes[0]) && f[7] == DealOf(s[2].market, s[2].quotes[1]) &&
      f[8] == DealOf(s[2].market, s[2].quotes[2])
  {
    TotalProductsUniform(s, 3);
    FlattenIndex(s, 3, 0, 0);
    FlattenIndex(s, 3, 0, 1);
    FlattenIndex(s, 3, 0, 2);
    FlattenIndex(s, 3, 1, 0);
    FlattenIndex(s, 3, 1, 1);
    FlattenIndex(s, 3, 1, 2);
    FlattenIndex(s, 3, 2, 0);
    FlattenIndex(s, 3, 2, 1);
    FlattenIndex(s, 3, 2, 2);
  }

  /** The nine sample deals, in market-then-product order. */
  lemma SampleFlatten()
    ensures var f := Flatten(SampleSnapshot());
      |f| == 9 &&
      f[0] == Deal("HEB", "Res", 180.50) && f[1] == Deal("HEB", "Cerdo", 120.30) && f[2] == Deal("HEB", "Pollo", 89.90) &&
      f[3] == Deal("Soriana", "Res", 175.90) && f[4] == Deal("Soriana", "Cerdo", 118.50) && f[5] == Deal("Soriana", "Pollo", 85.50) &&
      f[6] == Deal("Walmart", "Res", 178.30) && f[7] == Deal("Walmart", "Cerdo", 122.40) && f[8] == Deal("Walmart", "Pollo", 88.70)
  {
    var s := SampleSnapshot();
    FlattenThreeByThree(s);
    assert s[0].market == "HEB" && s[1].market == "Soriana" && s[2].market == "Walmart";
    assert s[0].quotes == [Quote("Res", 180.50), Quote("Cerdo", 120.30), Quote("Pollo", 89.90)];
    assert s[1].quotes == [Quote("Res", 175.90), Quote("Cerdo", 118.50), Quote("Pollo", 85.50)];
    assert s[2].quotes == [Quote("Res", 178.30), Quote("Cerdo", 122.40), Quote("Pollo", 88.70)];
  }

  /** Nine deals priced as the sample's, in market-then-product order. */
  predicate SamplePriced(f: seq<Deal>)
  {
    |f| == 9 &&
    f[0].price == 180.50 && f[1].price == 120.30 && f[2].price == 89.90 &&
    f[3].price == 175.90 && f[4].price == 118.50 && f[5].price == 85.50 &&
    f[6].price == 178.30 && f[7].price == 122.40 && f[8].price == 88.70
  }

  /** The sample's deals carry the sample's prices. */
  lemma SamplePrices()
    ensures SamplePriced(Flatten(SampleSnapshot()))
  {
    SampleFlatten();
  }

  /** One insertion step of the sort on the suffix of `s` from `k`: `s[k]` goes in
      at `pos` of the already sorted rest, giving `next`. */
  lemma SortStep(s: seq<Deal>, k: nat, rest: seq<Deal>, pos: nat, next: seq<Deal>)
    requires k < |s|
    requires SortByPrice(s[k + 1..]) == rest
    requires pos <= |rest|
    requires forall i :: 0 <= i < pos ==> rest[i].price < s[k].price
    requires pos < |rest| ==> s[k].price <= rest[pos].price
    requires |next| == |rest| + 1 && next[pos] == s[k]
    requires forall i :: 0 <= i < pos ==> next[i] == rest[i]
    requires forall i :: pos < i < |next| ==> next[i] == rest[i - 1]
    ensures SortByPrice(s[k..]) == next
  {
    var t := s[k..];
    assert t[0] == s[k] && t[1..] == s[k + 1..];
    var u := Insert(s[k], rest);
    assert SortByPrice(t) == u;
    InsertAt(s[k], rest, pos);
    assert |u| == |next|;
    forall i | 0 <= i < |u|
      ensures u[i] == next[i]
    {
    }
    assert u == next;
  }

  /** Prices as the sample's: its last three deals, sorted. */
  lemma SortedFrom6(f: seq<Deal>)
    requires SamplePriced(f)
    ensures SortByPrice(f[6..]) == [f[8], f[7], f[6]]
  {
    var wr, wc, wp := f[6], f[7], f[8];
    assert f[9..] == [];
    SortStep(f, 8, [], 0, [wp]);
    SortStep(f, 7, [wp], 1, [wp, wc]);
    SortStep(f, 6, [wp, wc], 2, [wp, wc, wr]);
  }

  /** Soriana's Pollo goes first. */
  lemma SortedFrom5(f: seq<Deal>)
    requires SamplePriced(f)
    ensures SortByPrice(f[5..]) == [f[5], f[8], f[7], f[6]]
  {
    SortedFrom6(f);
    SortStep(f, 5, [f[8], f[7], f[6]], 0, [f[5], f[8], f[7], f[6]]);
  }

  /** Soriana's Cerdo goes after the two Pollo deals. */
  lemma SortedFrom4(f: seq<Deal>)
    requires SamplePriced(f)
    ensures SortByPrice(f[4..]) == [f[5], f[8], f[4], f[7], f[6]]
  {
    SortedFrom5(f);
    SortStep(f, 4, [f[5], f[8], f[7], f[6]], 2, [f[5], f[8], f[4], f[7], f[6]]);
  }

  /** Prices as the sample's: its last six deals, sorted. */
  lemma SortedFrom3(f: seq<Deal>)
    requires SamplePriced(f)
    ensures SortByPrice(f[3..]) == [f[5], f[8], f[4], f[7], f[3], f[6]]
  {
    SortedFrom4(f);
    SortStep(f, 3, [f[5], f[8], f[4], f[7], f[6]], 4, [f[5], f[8], f[4], f[7], f[3], f[6]]);
  }

  /** HEB's Pollo goes after the other two Pollo deals. */
  lemma SortedFrom2(f: seq<Deal>)
    requires SamplePriced(f)
    ensures SortByPrice(f[2..]) == [f[5], f[8], f[2], f[4], f[7], f[3], f[6]]
  {
    SortedFrom3(f);
    SortStep(f, 2, [f[5], f[8], f[4], f[7], f[3], f[6]], 2, [f[5], f[8], f[2], f[4], f[7], f[3], f[6]]);
  }

  /** Prices as the sample's: all deals but the first, sorted. */
  lemma SortedFrom1(f: seq<Deal>)
    requires SamplePriced(f)
    ensures SortByPrice(f[1..]) == [f[5], f[8], f[2], f[4], f[1], f[7], f[3], f[6]]
  {
    SortedFrom2(f);
    SortStep(f, 1, [f[5], f[8], f[2], f[4], f[7], f[3], f[6]], 4, [f[5], f[8], f[2], f[4], f[1], f[7], f[3], f[6]]);
  }

  /** Nine deals priced as the sample's sort into this order of positions. */
  lemma SortedSample(f: seq<Deal>)
    requires SamplePriced(f)
    ensures SortByPrice(f) == [f[5], f[8], f[2], f[4], f[1], f[7], f[3], f[6], f[0]]
  {
    SortedFrom1(f);
    SortStep(f, 0, [f[5], f[8], f[2], f[4], f[1], f[7], f[3], f[6]], 8, [f[5], f[8], f[2], f[4], f[1], f[7], f[3], f[6], f[0]]);
    assert f[0..] == f;
  }

  /** Ranking the sample snapshot gives the nine deals from Soriana's Pollo up to
      HEB's Res. */
  lemma SampleBestDeals()
    ensures BestDeals(SampleSnapshot()) == SampleRanking()
  {
    var f := Flatten(SampleSnapshot());
    SamplePrices();
    SortedSample(f);
    SampleFlatten();
  }

  /** The fixed trends read as Res rising, Cerdo falling and Pollo stable. */
  lemma StubTrendReport(md: MarketData)
    ensures TrendReport(AnalyzePriceTrends(md)) == [("Res", Rising), ("Cerdo", Falling), ("Pollo", Stable)]
  {
  }

  /** Runs the body of the poll loop once at time `now`: on a successful
      collection, the ranked deals and the direction of every trend. */
  method PollOnce(collector: DataCollector, md: MarketData, now: Timestamp)
    returns (ok: bool, deals: seq<Deal>, report: seq<(string, Trend)>)
    requires md.Valid()
    modifies md
    ensures md.Valid()
    ensures ok
    ensures md.prices == SampleSnapshot()
    ensures md.history == old(md.history) + [HistoryEntry(now, SampleSnapshot())]
    ensures deals == SampleRanking()
    ensures report == [("Res", Rising), ("Cerdo", Falling), ("Pollo", Stable)]
  {
    deals, report := [], [];
    ok := collector.CollectPrices(md, now);
    if ok {
      deals := FindBestDeals(md);
      SampleBestDeals();
      var trends := AnalyzePriceTrends(md);
      report := TrendReport(trends);
      StubTrendReport(md);
    }
  }

  /** A fresh store after one collection holds the sample snapshot and a single
      history entry; ranking the deals leaves the store as it was, and ranking
      again gives the same deals. */
  method FreshStoreScenario(now: Timestamp)
    returns (history: seq<HistoryEntry>, deals: seq<Deal>, again: seq<Deal>)
    ensures history == [HistoryEntry(now, SampleSnapshot())]
    ensures deals == SampleRanking()
    ensures again == deals
  {
    var collector := new DataCollector();
    var md := new MarketData();
    var ok := collector.CollectPrices(md, now);
    var current := md.GetCurrentPrices();
    assert current == SampleSnapshot();
    deals := FindBestDeals(md);
    SampleBestDeals();
    again := FindBestDeals(md);
    history := md.history;
  }
}
