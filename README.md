# Meat-price comparison core, in Dafny

This project models the core of `carnes.py`, a small console tool. The tool compares
the price per kilogram of beef (Res), pork (Cerdo) and chicken (Pollo) across
supermarkets in Nuevo León (HEB, Soriana, Walmart). It has three parts:

- **`MarketData`** is the in-memory store. It holds the current snapshot of prices
  (market → product → price) and an append-only history of `(timestamp, snapshot)`
  pairs. It is a Dafny class (`Market.MarketData`). The object invariant `Valid()`
  says that the current prices are those of the last history entry, and that they
  are empty before the first update.
- **`DataCollector`** keeps a list of data-source URLs and a poll interval (default
  300 seconds). Its `collect_prices` writes a fixed sample snapshot into the store
  and reports success. It is a class too (`Collector.DataCollector`), with
  field-level frames: each setter changes its own field and nothing else.
- **`PriceAnalyzer`** has no state, so it is modelled at module level (`Analyzer`):
  - `find_best_deals` walks the snapshot with two nested loops, one deal per
    (market, product) entry. It then sorts the deals ascending by price with
    Python's stable `sorted`. `Analyzer.FindBestDeals` keeps the loops and is proved
    against the function `Analyzer.BestDeals`.
  - `analyze_price_trends` returns three fixed trend values.
  - The main loop classifies each trend value by its sign (`Trends.Classify`).

The snapshot is an insertion-ordered association list (`Prices.Snapshot`), because
the order of the dictionaries decides the order of equally priced deals. Python's
`sorted` is modelled by a stable insertion sort (`StableSort.SortByPrice`). Its
contract has three parts:

- the output is non-decreasing in price;
- for every price, the deals of that price keep their input order;
- the output is a permutation of the input.

`StableSort.StableSortUnique` proves that the first two properties, taken over the
same deals, determine the output uniquely. So the contract pins down exactly what
`sorted` returns.

Module layout: `prices.dfy` (values), `market_data.dfy` (store), `stable_sort.dfy`
(the sort), `price_analyzer.dfy` (analyzer), `trends.dfy` (trend directions),
`data_collector.dfy` (collector), `session.dfy` (one pass of the poll loop and the
sample ranking).

## Model

| member | source | states |
|---|---|---|
| Prices.TotalProductsUniform | carnes.py:38-39 | n markets with m products each give n·m (market, product) entries |
| Market.MarketData.constructor | carnes.py:57-59 | a fresh store has no prices and an empty history, and satisfies the invariant |
| Market.MarketData.UpdatePrices | carnes.py:61-63 | the current prices become the new snapshot; exactly one entry (now, snapshot) is appended to the history; the invariant is kept |
| Market.MarketData.GetCurrentPrices | carnes.py:65-66 | returns the snapshot of the most recent update, or the empty snapshot before any update |
| Collector.DataCollector.constructor | carnes.py:8-10 | a new collector has no data sources and an interval of 300 seconds |
| Collector.DataCollector.AddDataSource | carnes.py:12-13 | the source is appended, with no validation or deduplication; the interval is unchanged |
| Collector.DataCollector.SetUpdateInterval | carnes.py:15-16 | the interval is overwritten by any integer; the sources are unchanged |
| Collector.DataCollector.CollectPrices | carnes.py:18-28 | returns true; the store's prices become the sample snapshot and the history grows by exactly that one entry |
| Collector.SampleSnapshot | carnes.py:23-27 | three markets with three products each, keys pairwise distinct (a nested dictionary) |
| Analyzer.MarketDeals | carnes.py:39-44 | one deal per product of a market, carrying that market, product and price, in product order |
| Analyzer.Flatten | carnes.py:38-44 | the collected deals number exactly the (market, product) entries of the snapshot |
| Analyzer.FlattenMember | carnes.py:38-44 | a deal is collected if and only if some market of the snapshot quotes that product at that price |
| Analyzer.FlattenAt | carnes.py:38-44 | for any snapshot, product j of market i is the deal right after the entries of the markets before i: market order, then product order |
| Analyzer.FlattenIndex | carnes.py:38-44 | the special case of m products per market: product j of market i is the deal at index i·m+j |
| Analyzer.FlattenDistinct | carnes.py:38-44 | on a snapshot with distinct keys, no two collected deals share a (market, product) key |
| Analyzer.BestDeals | carnes.py:34-46 | the ranking has one deal per entry, is non-decreasing in price, is a permutation of the collected deals, and keeps each price's deals in collection order |
| Analyzer.BestDealsUnique | carnes.py:46 | any ordering of the collected deals that is sorted by price and stable equals the ranking |
| Analyzer.CollectDeals | carnes.py:35-44 | the two nested loops collect exactly the flattened deals of the snapshot, market by market and product by product |
| Analyzer.FindBestDeals | carnes.py:34-46 | the nested loops then the sort return exactly the ranking of the current prices: its length, order, permutation and stability; the store is only read |
| StableSort.SortByPrice | carnes.py:46 | the stable sort by price keeps the number of deals; its order, stability and permutation properties are stated by SortByPriceCorrect and SortByPricePermutation |
| StableSort.SortByPriceCorrect | carnes.py:46 | the sort keeps the length, orders by ascending price and keeps the deals of each price in input order |
| StableSort.SortByPricePermutation | carnes.py:46 | the sort's output is a permutation of its input |
| StableSort.StableSortUnique | carnes.py:46 | two sorted sequences with the same deals at every price, in the same order, are equal |
| StableSort.InsertWithPrice | carnes.py:46 | insertion puts the new deal ahead of the deals of its own price and leaves the others in order |
| StableSort.InsertSorted | carnes.py:46 | insertion into a sorted sequence keeps it sorted |
| Analyzer.AnalyzePriceTrends | carnes.py:48-54 | three values, for Res, Cerdo and Pollo in that order: positive, negative and zero |
| Analyzer.TrendsIgnoreStore | carnes.py:48-54 | the trends are the same whatever the store holds |
| Trends.Classify | carnes.py:103-108 | rising if and only if the value is positive, falling if and only if negative, stable if and only if zero |
| Trends.TrendReport | carnes.py:101-108 | one line per trend, in order, carrying the product and the direction of its value |
| Session.SampleFlatten | carnes.py:23-44 | the sample snapshot collects into nine deals in HEB, Soriana, Walmart order, each in Res, Cerdo, Pollo order |
| Session.SampleBestDeals | carnes.py:23-46 | the sample ranks from Soriana's Pollo at 85.50 up to HEB's Res at 180.50 (no two sample prices are equal) |
| Session.StubTrendReport | carnes.py:99-108 | the fixed trends read as Res rising, Cerdo falling and Pollo stable |
| Session.PollOnce | carnes.py:87-108 | one pass of the poll loop succeeds, records one history entry, ranks the nine sample deals and reports the three directions |
| Session.FreshStoreScenario | carnes.py:18-66 | on a fresh store, one collection leaves exactly one history entry with the sample; ranking leaves the store unchanged, gives the sample ranking, and ranking again gives the same deals |

## Left out

- The endless `while True` loop, `time.sleep`, all console output and the banner (carnes.py:68-121). One pass of the loop body is `Session.PollOnce`.
- `datetime.now()` (carnes.py:63): the timestamp is a parameter, so nothing is said about timestamps increasing.
- Floating point: prices and trend values are exact reals. Prices are only compared. Rounding each decimal literal to the nearest double is monotone, so the order of the sample prices is the same. The `:.2f` formatting is not modelled.
- The exception handlers (carnes.py:29-31, 114-118). Nothing in the modelled code raises, so `CollectPrices` always returns true, as the source does.
- `KeyboardInterrupt` handling: interrupting between passes leaves the history with one entry per completed pass, which follows from `PollOnce`; interruption inside a pass is not modelled.
- Aliasing: the store keeps a reference to the caller's dictionary and returns that same reference (carnes.py:62-63, 66). Snapshots are values here, so later mutation through an alias is not modelled.
- Dictionary key uniqueness is not part of the `Snapshot` type; it is the predicate `Prices.DistinctKeys`, assumed only where needed (`Analyzer.FlattenDistinct`).
- The unused imports of pandas and BeautifulSoup (carnes.py:2-3), and the URLs registered in `main` (carnes.py:78-80): they are only stored, which `AddDataSource` models.
- The setup in `main` (carnes.py:73-81), which builds the three components, registers the three URLs and sets the interval to 300. `Session.PollOnce` takes any collector, since collection ignores the sources and the interval.
- The deals are records with the keys `market_name`, `meat_type` and `price_per_kg`; here they are the datatype `Prices.Deal`.
