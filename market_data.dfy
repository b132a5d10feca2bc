/** The in-memory price store: the current snapshot and the append-only history
    of every snapshot ever recorded. */
module Market {
  import opened Prices

  class MarketData {
    var prices: Snapshot
    var history: seq<HistoryEntry>

    /** The current prices are those of the most recent update, and there are
        none before the first update. */
    ghost predicate Valid()
      reads this
    {
      if history == [] then prices == [] else prices == history[|history| - 1].snapshot
    }

    /** A fresh store holds no prices and no history. */
    constructor ()
      ensures Valid()
      ensures prices == [] && history == []
    {
      prices := [];
      history := [];
    }

    /** Replaces the current prices and records them, stamped with `now`. */
    method UpdatePrices(newPrices: Snapshot, now: Timestamp)
      requires Valid()
      modifies this
      ensures Valid()
      ensures prices == newPrices
      ensures history == old(history) + [HistoryEntry(now, newPrices)]
    {
      prices := newPrices;
      history := history + [HistoryEntry(now, newPrices)];
    }

    /** The snapshot of the most recent update (empty before any update). */
    method GetCurrentPrices() returns (p: Snapshot)
      requires Valid()
      ensures p == prices
      ensures history == [] ==> p == []
      ensures history != [] ==> p == history[|history| - 1].snapshot
    {
      p := prices;
    }
  }
}
