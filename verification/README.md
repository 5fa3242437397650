# Triangular arbitrage engine — a Dafny model

This project models the detection and simulation engine of the Triangular-Arbitrage
library (`DynamicLib`). The engine works on a list of exchange tickers and proceeds in four steps:

1. It builds an undirected graph of tradable coins.
2. It enumerates every closed walk A → B → C → A through the graph, called a triangular scheme.
3. It resolves each scheme against a ticker snapshot, giving a `TriangularCycle`. The cycle
   fixes the exchange cohort (Binance or Poloniex), and for each leg:
   - the symbol spelling;
   - the trading direction;
   - the bid/ask rates.
4. It threads a starting amount through the three legs with the cohort's fee rule, giving a
   `TriangularTrade`. The trade has a final amount, a profit and a profitability verdict.

The service then keeps the profitable trades, sorted by final amount, largest first.

Everything is pure: immutable datatypes and functions over exact `real` arithmetic.

| file | module | models |
|---|---|---|
| `basics.dfy` | `Basics` | `Option`, distinctness of sequences |
| `asset.dfy` | `Asset` | `Coin`, `Pair` and their spellings, plus `string.Split` as the Poloniex client uses it |
| `market.dfy` | `Market` | the behaviour-free records `Ticker`, `TradingRates`, `TradingDirection` and `TradingRecord` |
| `graph.dfy` | `MarketGraph` | `Graph`: an adjacency map plus the key insertion order |
| `detector.dfy` | `Detector` | `TriangularArbitrageDetector.GetTriangularSchemes` |
| `cycle.dfy` | `Cycle` | `TriangularCycle` |
| `trade.dfy` | `Trade` | `TriangularTrade` |
| `service.dfy` | `Service` | the pure steps of `TriangularArbitrageService` |

Notes on how the model reads the code:

- **Dictionary order.** A `Dictionary` enumerates its keys in insertion order when nothing is
  removed, and the graph never removes a key. The model therefore keeps the key order as a
  sequence beside the map, and enumeration follows it.
- **Division by zero.** A leg that runs right to left divides by a price: the ask for Binance,
  the bid for Poloniex. The (0, 0) fallback for a symbol no ticker carries makes that division
  throw. In the model:
  - the leg and trade functions require a nonzero divisor (`Simulable`);
  - the service step returns `None` when any cycle would throw. In the source the exception
    escapes `Parallel.ForEach` and aborts the whole pass.
- **Leg handlers and leg indices.** Both leg handlers find their leg by searching
  `TradingSymbols` for the pair's own cohort spelling. They do not use the leg's index. The
  model does the same: `Trade.LookupLeg` uses `IndexOf` and falls back to recomputing when the
  spelling is not found. For a cycle through three distinct coins the search always lands on
  the leg's own entry or on an identical one (`Trade.LookupIsStoredLeg`). Another leg listed
  under the same spelling stores the same symbol, rates and direction. A reversed leg's swapped
  spelling would have to equal the own spelling of another leg, which forces two of the three
  coins to be equal. Only a scheme with a repeated coin can pick up another leg's entry. Such a
  scheme needs a ticker that trades a coin against itself (`Service.DetectedCyclesDistinct`).
- **Fee ordering.** Over exact arithmetic, charging the fee before the conversion (Binance)
  and after it (Poloniex) gives the same ending amount at one price and one fee rate
  (`Trade.FeeOrderIrrelevant`). The two cohorts differ through:
  - their fee rates (0.1 % and 0.2 %);
  - the side of the book each direction reads. Binance sells at the bid and buys at the ask;
    Poloniex multiplies by the ask or divides by the bid.

  Any difference at equal rates and fees would come from `decimal` rounding, which is not
  modelled.
- **Spelling.** The source spells the direction `LeftToRigth`. The model calls it `LeftToRight`.

## Model

| member | source | states |
|---|---|---|
| `Asset.CoinToString` | Dynamic/DynamicLib/Models/Asset/Coin.cs:20-23 | the text is the coin's name: same length, and the only coin with that name is the coin itself |
| `Asset.CoinEquals` | Dynamic/DynamicLib/Models/Asset/Coin.cs:32-39 | a coin equals an object iff the object is a coin with the same name; null and non-coins are never equal |
| `Asset.CoinEqualsIsEquivalence` | Dynamic/DynamicLib/Models/Asset/Coin.cs:36 | coin equality is reflexive, symmetric and transitive |
| `Asset.CoinHash` | Dynamic/DynamicLib/Models/Asset/Coin.cs:40-43 | the hash of the coin's name; its contract is `Asset.EqualCoinsHashEqually` |
| `Asset.EqualCoinsHashEqually` | Dynamic/DynamicLib/Models/Asset/Coin.cs:40-43 | equal coins hash equally, whatever the string hash is |
| `Asset.NewPair` | Dynamic/DynamicLib/Models/Asset/Pair.cs:21-25 | the pair stores base and quote unchanged |
| `Asset.PairToString` | Dynamic/DynamicLib/Models/Asset/Pair.cs:31-34 | the text is the base name, then '_', then the quote name; it is one character longer than the Binance spelling |
| `Asset.PairToBinanceString` | Dynamic/DynamicLib/Models/Asset/Pair.cs:35-38 | the text is the base name directly followed by the quote name |
| `Asset.Split` | Dynamic/DynamicLib/Exchanges/Poloniex/PoloniexClient.cs:18-19 | splitting returns at least one piece, no piece holds the separator, and joining the pieces with the separator gives back the input |
| `Asset.PairToStringSplits` | Dynamic/DynamicLib/Models/Asset/Pair.cs:31-34 | if neither coin name contains '_', splitting the Poloniex spelling on '_' gives back [base, quote] |
| `Asset.PairToStringInjective` | Dynamic/DynamicLib/Models/Asset/Pair.cs:31-34 | if no name contains '_', pairs with equal Poloniex spellings are equal |
| `Asset.BinanceStringNotInjective` | Dynamic/DynamicLib/Models/Asset/Pair.cs:35-38 | two different pairs can share the Binance spelling ("A"+"BC" and "AB"+"C") |
| `MarketGraph.Empty` | Dynamic/DynamicLib/Models/TradeModels/Graph.cs:9-12 | a new graph has no keys and satisfies every graph invariant |
| `MarketGraph.GetQuotes` | Dynamic/DynamicLib/Models/TradeModels/Graph.cs:40-43 | an unknown coin has no neighbours; a known coin has its stored list |
| `MarketGraph.GetKeys` | Dynamic/DynamicLib/Models/TradeModels/Graph.cs:48-51 | on a valid graph the keys are listed each once and are exactly the coins with a list |
| `MarketGraph.EnsureKey` | Dynamic/DynamicLib/Models/TradeModels/Graph.cs:20-27 | the coin becomes a key with an empty list unless it already was one; no other list changes |
| `MarketGraph.AddCoin` | Dynamic/DynamicLib/Models/TradeModels/Graph.cs:18-34 | both coins become keys and none is lost; other lists are untouched; an existing edge changes nothing; a new edge appends each coin at the end of the other's list; a new self-loop appends the coin to its own list twice |
| `MarketGraph.AddCoinKeyOrder` | Dynamic/DynamicLib/Models/TradeModels/Graph.cs:20-27 | the key order grows by the new coins only, base before quote |
| `MarketGraph.AddCoinLinks` | Dynamic/DynamicLib/Models/TradeModels/Graph.cs:28-33 | afterwards each coin is in the other's list |
| `MarketGraph.AddCoinPreservesValid` | Dynamic/DynamicLib/Models/TradeModels/Graph.cs:18-34 | `AddCoin` keeps the invariant: distinct keys, every neighbour a key, and edges in both directions |
| `MarketGraph.SymmetricQuotes` | Dynamic/DynamicLib/Models/TradeModels/Graph.cs:32-33 | on a valid graph, q is in the list of b iff b is in the list of q |
| `MarketGraph.AddCoinNeighbours` | Dynamic/DynamicLib/Models/TradeModels/Graph.cs:28-33 | after `AddCoin(b, q)`, c neighbours a iff it did before or {a, c} is the new edge in either orientation |
| `MarketGraph.AddCoinExistingEdge` | Dynamic/DynamicLib/Models/TradeModels/Graph.cs:28-31 | adding an edge already present in either orientation leaves the whole graph unchanged |
| `MarketGraph.AddCoinIdempotent` | Dynamic/DynamicLib/Models/TradeModels/Graph.cs:28-31 | `AddCoin(q, b)` or `AddCoin(b, q)` after `AddCoin(b, q)` changes nothing |
| `MarketGraph.AddCoinKeepsListsDistinct` | Dynamic/DynamicLib/Models/TradeModels/Graph.cs:28-33 | for b ≠ q, duplicate-free lists stay duplicate-free |
| `MarketGraph.AddCoinKeepsLoopFree` | Dynamic/DynamicLib/Models/TradeModels/Graph.cs:28-33 | for b ≠ q, a graph with no self-loop still has none |
| `Detector.Tri` | Dynamic/DynamicLib/Models/TradeModels/TriangularArbitrageDetector.cs:24-31 | the scheme (A,B), (B,C), (C,A) is closed: each leg starts where the previous one ends, and the last returns to A |
| `Detector.Schemes` | Dynamic/DynamicLib/Models/TradeModels/TriangularArbitrageDetector.cs:17-37 | every emitted scheme is closed, starts at a key, and B neighbours A, C neighbours B, A neighbours C |
| `Detector.FromSecondSound` | Dynamic/DynamicLib/Models/TradeModels/TriangularArbitrageDetector.cs:25-31 | the inner loop emits only (a, b, c) for c in its list with a a neighbour of c |
| `Detector.FromFirstSound` | Dynamic/DynamicLib/Models/TradeModels/TriangularArbitrageDetector.cs:22-31 | the middle loop emits only triangles through some b of its list |
| `Detector.FromKeysSound` | Dynamic/DynamicLib/Models/TradeModels/TriangularArbitrageDetector.cs:20-32 | the outer loop emits only triangles that start at one of its keys |
| `Detector.FromSecondCount` | Dynamic/DynamicLib/Models/TradeModels/TriangularArbitrageDetector.cs:25-31 | the inner loop emits Tri(x, y, z) once per occurrence of z in its list, and only when it closes at x |
| `Detector.FromFirstCount` | Dynamic/DynamicLib/Models/TradeModels/TriangularArbitrageDetector.cs:22-31 | the middle loop emits Tri(x, y, z) as often as y occurs in its list times z in the list of y |
| `Detector.FromKeysCount` | Dynamic/DynamicLib/Models/TradeModels/TriangularArbitrageDetector.cs:20-32 | the outer loop emits Tri(x, y, z) as often as x occurs among its keys times the walks x → y → z |
| `Detector.SchemesExactlyOnce` | Dynamic/DynamicLib/Models/TradeModels/TriangularArbitrageDetector.cs:20-32 | with duplicate-free lists, each triangle starting at a key is emitted exactly once and nothing else is emitted |
| `Detector.SchemesComplete` | Dynamic/DynamicLib/Models/TradeModels/TriangularArbitrageDetector.cs:20-32 | every triangle starting at a key is emitted |
| `Detector.SchemesCharacterised` | Dynamic/DynamicLib/Models/TradeModels/TriangularArbitrageDetector.cs:17-37 | a scheme is emitted iff it walks A → B → C → A, A is a key, and the three edges exist |
| `Detector.RotationsAndMirrorEmitted` | Dynamic/DynamicLib/Models/TradeModels/TriangularArbitrageDetector.cs:20-32 | with symmetric adjacency, both other rotations and the mirror of an emitted triangle are emitted too |
| `Detector.SchemeCoinsDistinct` | Dynamic/DynamicLib/Models/TradeModels/TriangularArbitrageDetector.cs:22-28 | without self-loops, the three coins of a scheme are pairwise distinct |
| `Cycle.IsBinanceSnapshot` | Dynamic/DynamicLib/Models/TradeModels/TriangularCycle.cs:52 | the cycle is in the Binance cohort iff some ticker is a Binance ticker |
| `Cycle.HasSymbol` | Dynamic/DynamicLib/Models/TradeModels/TriangularCycle.cs:99 | true iff some ticker carries exactly the symbol |
| `Cycle.IsPairExists` | Dynamic/DynamicLib/Models/TradeModels/TriangularCycle.cs:92-100 | true iff some ticker's symbol is the pair's cohort spelling: Binance style in the Binance cohort, "BASE_QUOTE" otherwise |
| `Cycle.SetTradingDirection` | Dynamic/DynamicLib/Models/TradeModels/TriangularCycle.cs:66-69 | left to right iff some ticker carries the pair's own cohort spelling, otherwise right to left (the agreement with the symbol is `Cycle.DirectionSymbolAgree`) |
| `Cycle.GetTradingSymbol` | Dynamic/DynamicLib/Models/TradeModels/TriangularCycle.cs:75-86 | the pair's own cohort spelling when some ticker carries it, otherwise the swapped pair's spelling, whether listed or not |
| `Cycle.ReversePair` | Dynamic/DynamicLib/Models/TradeModels/TriangularCycle.cs:106-109 | the cohort's spelling of the pair with base and quote exchanged |
| `Cycle.DirectionSymbolAgree` | Dynamic/DynamicLib/Models/TradeModels/TriangularCycle.cs:66-86 | left to right iff the own spelling is listed, and then the symbol is that spelling; right to left goes with the swapped pair's spelling, listed or not |
| `Cycle.GetRate` | Dynamic/DynamicLib/Models/TradeModels/TriangularCycle.cs:115-125 | the rates are the bid/ask of the first ticker carrying the symbol, or (0, 0) when none does |
| `Cycle.GetRates` | Dynamic/DynamicLib/Models/TradeModels/TriangularCycle.cs:130-133 | one lookup per symbol, same length and aligned |
| `Cycle.NewCycle` | Dynamic/DynamicLib/Models/TradeModels/TriangularCycle.cs:49-60 | the cycle is resolved against its snapshot: the legs are elements 0, 1 and the last, and it holds three aligned directions, symbols and rates with each rate looked up from its symbol |
| `Cycle.ResolvedLegMeaning` | Dynamic/DynamicLib/Models/TradeModels/TriangularCycle.cs:57-59 | for every leg of a resolved cycle: the cohort, the direction, the symbol and the rates in terms of the tickers alone |
| `Cycle.MissingTickerGivesZeroRates` | Dynamic/DynamicLib/Models/TradeModels/TriangularCycle.cs:115-125 | a leg whose symbol no ticker carries runs right to left at rates (0, 0) |
| `Cycle.EmptySnapshot` | Dynamic/DynamicLib/Models/TradeModels/TriangularCycle.cs:52 | an empty snapshot gives the Poloniex cohort, every leg reversed at rates (0, 0) |
| `Trade.IndexOf` | Dynamic/DynamicLib/Models/TradeModels/TriangularTrade.cs:108 | the first position of the string, or -1 iff it is absent |
| `Trade.LookupLeg` | Dynamic/DynamicLib/Models/TradeModels/TriangularTrade.cs:108-111 | the symbol found is the pair's own spelling or its recomputed trading symbol; the rates are the lookup of that symbol whether stored or recomputed; a left-to-right leg's symbol is listed |
| `Trade.RenderCancel` | Dynamic/DynamicLib/Models/Asset/Pair.cs:31-38 | two pairs with the same cohort spelling and the same base have the same quote, and with the same quote the same base |
| `Trade.NoSwapCollision` | Dynamic/DynamicLib/Models/TradeModels/TriangularTrade.cs:108-111 | in a triangle of three distinct coins, no leg's swapped spelling equals another leg's own spelling |
| `Trade.LookupIsStoredLeg` | Dynamic/DynamicLib/Models/TradeModels/TriangularTrade.cs:108-111 | in a triangle of three distinct coins, looking leg k up by its own spelling returns exactly the symbol, rates and direction the cycle stores for leg k |
| `Trade.BinanceConvert` | Dynamic/DynamicLib/Models/TradeModels/TriangularTrade.cs:113-126 | the fee is the percentage of the amount; the rest is multiplied by the bid (left to right) or is the ending amount times the ask (right to left) |
| `Trade.PoloniexConvert` | Dynamic/DynamicLib/Models/TradeModels/TriangularTrade.cs:153-164 | ending plus fee is the amount times the ask (left to right), or times the bid gives the amount (right to left); the ending keeps (100 − fee) percent of it |
| `Trade.FeeOrderIrrelevant` | Dynamic/DynamicLib/Models/TradeModels/TriangularTrade.cs:113-164 | at one price and one fee, charging the fee before or after conversion ends with the same amount |
| `Trade.HandleBinanceTrade` | Dynamic/DynamicLib/Models/TradeModels/TriangularTrade.cs:106-145 | the record starts in the base coin with the amount and ends in the quote coin; its amounts follow the Binance arithmetic at its own direction and rates; the rates are those of its symbol; the fee is recorded as charged; symbol, rates and direction are what the lookup returned (`Trade.HandlersUseLookup`) |
| `Trade.HandlePoloniexTrade` | Dynamic/DynamicLib/Models/TradeModels/TriangularTrade.cs:146-181 | the same for the Poloniex arithmetic; the fee recorded is the converted amount minus the ending amount |
| `Trade.TradingPair` | Dynamic/DynamicLib/Models/TradeModels/TriangularTrade.cs:96-104 | the cycle's cohort picks the arithmetic and fee (Binance 0.1 %, otherwise 0.2 %); the record keeps the pair, coins, amount and looked-up rates |
| `Trade.HandlersUseLookup` | Dynamic/DynamicLib/Models/TradeModels/TriangularTrade.cs:106-181 | each handler records the symbol, rates and direction its lookup by the cohort's own spelling returned |
| `Trade.TradingPairUsesLookup` | Dynamic/DynamicLib/Models/TradeModels/TriangularTrade.cs:96-104 | the record made for a pair carries what the cohort's lookup of that pair returned |
| `Trade.TradingPairOfLeg` | Dynamic/DynamicLib/Models/TradeModels/TriangularTrade.cs:96-104 | run on leg k, the handler makes a record of leg k: its pair, base-to-quote coins, snapshot rates and looked-up terms |
| `Trade.ConvertIsScaling` | Dynamic/DynamicLib/Models/TradeModels/TriangularTrade.cs:106-181 | in both cohorts a leg multiplies its amount by a factor fixed by cohort, direction and rates |
| `Trade.BinanceLegLinear` | Dynamic/DynamicLib/Models/TradeModels/TriangularTrade.cs:113-126 | a Binance leg multiplies its amount by 0.999 times the bid or divided by the ask |
| `Trade.PoloniexLegLinear` | Dynamic/DynamicLib/Models/TradeModels/TriangularTrade.cs:153-164 | a Poloniex leg multiplies its amount by 0.998 times the ask or divided by the bid |
| `Trade.NewTrade` | Dynamic/DynamicLib/Models/TradeModels/TriangularTrade.cs:35-43 | the records follow legs 1, 2, 3; leg 1 starts with the amount and each later leg with the previous ending amount; the final amount is leg 3's ending; the profit is the final amount minus the amount; profitable iff final > amount |
| `Trade.NewTradeRecordsLegs` | Dynamic/DynamicLib/Models/TradeModels/TriangularTrade.cs:39 | record k trades leg k from its base to its quote, with the looked-up terms and the snapshot's rates for the symbol used |
| `Trade.NewTradeUsesStoredLegs` | Dynamic/DynamicLib/Models/TradeModels/TriangularTrade.cs:96-111 | in a triangle of three distinct coins, record k uses exactly the symbol, rates and direction the cycle resolved for leg k |
| `Trade.CheckProfit` | Dynamic/DynamicLib/Models/TradeModels/TriangularTrade.cs:49-52 | the last leg ends with more than the first leg started with; its contract is the profitability clause of `Trade.NewTrade` |
| `Trade.ProfitableIffGrowthAboveOne` | Dynamic/DynamicLib/Models/TradeModels/TriangularTrade.cs:35-52 | the final amount is the starting amount times the product of the three leg factors; for a positive amount the trade is profitable iff that product exceeds 1 |
| `Trade.TradeGrowth` | Dynamic/DynamicLib/Models/TradeModels/TriangularTrade.cs:39-51 | the same statement for any three chained records that each scale their amount |
| `Trade.ChainedRecordsGrow` | Dynamic/DynamicLib/Models/TradeModels/TriangularTrade.cs:39 | three chained legs scale the first starting amount by the product of their factors |
| `Service.FillGraph` | Dynamic/DynamicLib/TriangularArbitrageService.cs:79-88 | the graph built ticker by ticker from an empty graph is valid, and its keys are the coins the tickers name |
| `Service.AddTicker` | Dynamic/DynamicLib/TriangularArbitrageService.cs:83-86 | one step keeps the graph valid and adds the ticker's base and quote as keys |
| `Service.AddTickerNeighbours` | Dynamic/DynamicLib/TriangularArbitrageService.cs:85 | after one step, c neighbours a iff it did before or the ticker trades a against c |
| `Service.FillGraphKeys` | Dynamic/DynamicLib/TriangularArbitrageService.cs:79-88 | a coin is a node iff some ticker names it as base or quote |
| `Service.FillGraphNeighbours` | Dynamic/DynamicLib/TriangularArbitrageService.cs:79-88 | c neighbours a iff some ticker has {base, quote} = {a, c} in either order |
| `Service.FillGraphSimple` | Dynamic/DynamicLib/TriangularArbitrageService.cs:79-88 | when no ticker trades a coin against itself, lists are duplicate-free and there are no self-loops |
| `Service.DetectSchemes` | Dynamic/DynamicLib/TriangularArbitrageService.cs:73-78 | every detected scheme is closed |
| `Service.DetectedSchemesCharacterised` | Dynamic/DynamicLib/TriangularArbitrageService.cs:73-78 | a scheme is detected iff it walks A → B → C → A and the tickers hold a ticker for each leg, in either orientation |
| `Service.ToCycles` | Dynamic/DynamicLib/TriangularArbitrageService.cs:69-70 | one resolved cycle per scheme, in scheme order, all against the same tickers, with legs taken from the scheme |
| `Service.DetectedCyclesDistinct` | Dynamic/DynamicLib/TriangularArbitrageService.cs:56-88 | when no ticker of the graph's snapshot trades a coin against itself, every cycle built from a detected scheme runs through three distinct coins |
| `Service.ExecuteTrades` | Dynamic/DynamicLib/TriangularArbitrageService.cs:41-54 | there is a result iff every cycle can be simulated; then there is one trade per cycle, in order, each from the same amount |
| `Service.ExecuteTradesSimulates` | Dynamic/DynamicLib/TriangularArbitrageService.cs:45-52 | trade k of a successful pass is exactly the simulation of cycle k from the starting amount |
| `Service.FilterProfitable` | Dynamic/DynamicLib/TriangularArbitrageService.cs:38 | only profitable trades are kept, each as often as it occurred |
| `Service.Insert` | Dynamic/DynamicLib/TriangularArbitrageService.cs:39 | inserting into a list sorted by final amount, largest first, keeps it sorted and adds exactly that trade |
| `Service.SortByFinalDescending` | Dynamic/DynamicLib/TriangularArbitrageService.cs:39 | the result is sorted by final amount, largest first, and is a permutation of the input |
| `Service.Profitables` | Dynamic/DynamicLib/TriangularArbitrageService.cs:35-40 | the result is sorted and drawn from the input; it holds each profitable trade as often as the input does and nothing else |
| `Service.GetProfitables` | Dynamic/DynamicLib/TriangularArbitrageService.cs:35-40 | the pass succeeds iff every cycle can be simulated; then the result is sorted, profitable, and every trade starts from 17.68 on a cycle of the second snapshot |
| `Service.GetProfitablesExact` | Dynamic/DynamicLib/TriangularArbitrageService.cs:38-39 | the result is a permutation of the profitable trades of the pass |

## Left out

- Fetching and parsing tickers in `BinanceClient` and `PoloniexClient` is left out: it is network I/O and JSON parsing. The ticker snapshot is an input sequence. `Asset.Split` models only the split the Poloniex client relies on.
- The JSON shapes of the exchange responses are left out: they only describe deserialization.
- Writing schemes to `triangular.json` and the reload branch for runs after the first are left out: both are file I/O. The model always detects schemes afresh.
- The model takes two snapshots, one for the graph and one for the cycles, because the service fetches tickers twice. The fetches themselves are not modelled.
- `Parallel.ForEach` with its `lock` is modelled as a sequential map in cycle order. In the source the order before sorting is nondeterministic.
- `Service.SortByFinalDescending` does not prove stability. The insertion keeps ties in input order, but the input order is itself nondeterministic in the source.
- The private `TradePair` method is left out: nothing calls it.
- `decimal` rounding to 28–29 significant digits is not modelled: amounts and prices are exact reals.
- `decimal` overflow is not modelled. Above about 7.9e28 the leg arithmetic throws `OverflowException`, for example when dividing by a tiny ask or multiplying by `1 / bid` for a tiny bid (TriangularTrade.cs:120, 125, 158, 162). That exception would abort the pass like a division by zero. Over unbounded reals the model never fails there, so `Service.ExecuteTrades` returns `None` only for a zero divisor.
- Hash values are left out. The string hash is a parameter, and only "equal names, equal hashes" is stated.
- Null coin names and null lists are left out: the model has no null strings or lists.
- Division by zero on a right-to-left leg is not modelled as an exception. Inside a trade it is a precondition (`Trade.Simulable`). At the service level it is a `None` result.
- `Trade.NewTradeUsesStoredLegs` assumes a triangle of three distinct coins. With a repeated coin the lookup by spelling can return another leg's entry, and the model then states only what the lookup returned (`Trade.NewTradeRecordsLegs`). Such schemes arise only from a ticker that trades a coin against itself.
- Console output and the console driver are left out.
