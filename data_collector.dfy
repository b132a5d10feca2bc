/** The collector: its configuration (data sources and poll interval) and the
    collection step, which writes one fixed sample snapshot into the store. */
module Collector {
  import opened Prices
  import opened Market

  /** The poll interval a new collector starts with, in seconds. */
  const DefaultUpdateInterval: int := 300

  /** The snapshot every collection writes: HEB, Soriana and Walmart, each with
      Res, Cerdo and Pollo in that order. */
  function SampleSnapshot(): (s: Snapshot)
    ensures |s| == 3
    ensures DistinctKeys(s)
    ensures Uniform(s, 3)
  {
    [ MarketPrices("HEB", [Quote("Res", 180.50), Quote("Cerdo", 120.30), Quote("Pollo", 89.90)]),
      MarketPrices("Soriana", [Quote("Res", 175.90), Quote("Cerdo", 118.50), Quote("Pollo", 85.50)]),
      MarketPrices("Walmart", [Quote("Res", 178.30), Quote("Cerdo", 122.40), Quote("Pollo", 88.70)]) ]
  }

  class DataCollector {
    var dataSources: seq<string>
    var updateInterval: int

    /** A new collector has no sources and the default interval. */
    constructor ()
      ensures dataSources == [] && updateInterval == DefaultUpdateInterval
    {
      dataSources := [];
      updateInterval := DefaultUpdateInterval;
    }

    /** Appends `source` to the sources, without validation or deduplication. */
    method AddDataSource(source: string)
      modifies this`dataSources
      ensures dataSources == old(dataSources) + [source]
      ensures updateInterval == old(updateInterval)
    {
      dataSources := dataSources + [source];
    }

    /** Overwrites the poll interval with any integer, zero and negative included. */
    method SetUpdateInterval(seconds: int)
      modifies this`updateInterval
      ensures updateInterval == seconds
      ensures dataSources == old(dataSources)
    {
      updateInterval := seconds;
    }

    /** Simulated collection: ignores the configured sources, records the sample
      snapshot in the store at time `now`, and reports success. */
    method CollectPrices(md: MarketData, now: Timestamp) returns (ok: bool)
      requires md.Valid()
      modifies md
      ensures md.Valid()
      ensures ok
      ensures md.prices == SampleSnapshot()
      ensures md.history == old(md.history) + [HistoryEntry(now, SampleSnapshot())]
    {
      md.UpdatePrices(SampleSnapshot(), now);
      ok := true;
    }
  }
}
