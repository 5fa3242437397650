/** The pure steps of `TriangularArbitrageService`: the graph is filled from one
    ticker snapshot, its triangles become cycles resolved against a second
    snapshot, every cycle is simulated from the same starting amount, and the
    profitable trades are returned, largest final amount first. */
module Service {
  import opened Basics
  import opened Asset
  import opened Market
  import opened MarketGraph
  import opened Detector
  import opened Cycle
  import opened Trade

  /** The amount every simulated cycle starts with. */
  const StartingAmount: real := 17.68

  /** The ticker trades `a` against `c`, in either orientation. */
  predicate Links(t: Ticker, a: Coin, c: Coin) {
    (Coin(t.baseCoin) == a && Coin(t.quoteCoin) == c) || (Coin(t.quoteCoin) == a && Coin(t.baseCoin) == c)
  }

  /** Some ticker of the snapshot trades `a` against `c`. */
  predicate Connected(ts: seq<Ticker>, a: Coin, c: Coin) {
    exists i :: 0 <= i < |ts| && Links(ts[i], a, c)
  }

  /** The ticker names `c` as its base or its quote. */
  predicate Mentions(t: Ticker, c: Coin) {
    Coin(t.baseCoin) == c || Coin(t.quoteCoin) == c
  }

  /** The coins the tickers name, as a set. */
  function CoinsOf(ts: seq<Ticker>): set<Coin>
    decreases |ts|
  {
    if ts == [] then {}
    else CoinsOf(ts[..|ts| - 1]) + {Coin(ts[|ts| - 1].baseCoin), Coin(ts[|ts| - 1].quoteCoin)}
  }

  /** `FullfillGraph`: from an empty graph, `AddCoin(base, quote)` for every
      ticker in list order. */
  function FillGraph(ts: seq<Ticker>): (g: Graph)
    ensures Valid(g)
    ensures g.adj.Keys == CoinsOf(ts)
    decreases |ts|
  {
    if ts == [] then Empty()
    else AddTicker(FillGraph(ts[..|ts| - 1]), ts[|ts| - 1])
  }

  /** One step of the fill: the ticker's two coins become keys. */
  function AddTicker(g: Graph, t: Ticker): (r: Graph)
    requires Valid(g)
    ensures Valid(r)
    ensures r.adj.Keys == g.adj.Keys + {Coin(t.baseCoin), Coin(t.quoteCoin)}
  {
    AddCoinPreservesValid(g, Coin(t.baseCoin), Coin(t.quoteCoin));
    AddCoin(g, Coin(t.baseCoin), Coin(t.quoteCoin))
  }

  /** After one step of the fill, `c` neighbours `a` iff it did before or the
      ticker links the two. */
  lemma AddTickerNeighbours(g: Graph, t: Ticker, a: Coin, c: Coin)
    requires Valid(g)
    ensures c in GetQuotes(AddTicker(g, t), a) <==> c in GetQuotes(g, a) || Links(t, a, c)
  {
    AddCoinNeighbours(g, Coin(t.baseCoin), Coin(t.quoteCoin), a, c);
  }

  /** A coin is collected iff some ticker names it. */
  lemma {:induction false} CoinsOfMentioned(ts: seq<Ticker>, c: Coin)
    ensures c in CoinsOf(ts) <==> exists i :: 0 <= i < |ts| && Mentions(ts[i], c)
    decreases |ts|
  {
    if ts != [] {
      var init := ts[..|ts| - 1];
      CoinsOfMentioned(init, c);
      if exists i :: 0 <= i < |ts| && Mentions(ts[i], c) {
        var i :| 0 <= i < |ts| && Mentions(ts[i], c);
        if i < |init| {
          assert Mentions(init[i], c);
        }
      }
      if exists i :: 0 <= i < |init| && Mentions(init[i], c) {
        var i :| 0 <= i < |init| && Mentions(init[i], c);
        assert Mentions(ts[i], c);
      }
    }
  }

  /** A snapshot with one more ticker connects what the shorter one did, plus
      the two orientations of the new ticker. */
  lemma ConnectedSnoc(ts: seq<Ticker>, a: Coin, c: Coin)
    requires ts != []
    ensures Connected(ts, a, c) <==> Connected(ts[..|ts| - 1], a, c) || Links(ts[|ts| - 1], a, c)
  {
    var init := ts[..|ts| - 1];
    if Connected(ts, a, c) {
      var i :| 0 <= i < |ts| && Links(ts[i], a, c);
      if i < |init| {
        assert Links(init[i], a, c);
      }
    }
    if Connected(init, a, c) {
      var i :| 0 <= i < |init| && Links(init[i], a, c);
      assert Links(ts[i], a, c);
    }
  }

  /** The nodes of the filled graph are exactly the coins the tickers name. */
  lemma FillGraphKeys(ts: seq<Ticker>, c: Coin)
    ensures c in FillGraph(ts).adj <==> exists i :: 0 <= i < |ts| && Mentions(ts[i], c)
  {
    var g := FillGraph(ts);
    assert c in g.adj <==> c in CoinsOf(ts);
    CoinsOfMentioned(ts, c);
  }

  /** Two coins are neighbours in the filled graph iff some ticker trades one
      against the other. */
  lemma {:induction false} FillGraphNeighbours(ts: seq<Ticker>, a: Coin, c: Coin)
    ensures c in GetQuotes(FillGraph(ts), a) <==> Connected(ts, a, c)
    decreases |ts|
  {
    if ts != [] {
      var init := ts[..|ts| - 1];
      var t := ts[|ts| - 1];
      FillGraphNeighbours(init, a, c);
      ConnectedSnoc(ts, a, c);
      AddTickerNeighbours(FillGraph(init), t, a, c);
    }
  }

  /** When no ticker trades a coin against itself, the filled graph has
      duplicate-free lists and no self-loops. */
  lemma {:induction false} FillGraphSimple(ts: seq<Ticker>)
    requires forall i :: 0 <= i < |ts| ==> ts[i].baseCoin != ts[i].quoteCoin
    ensures NoDuplicates(FillGraph(ts)) && NoSelfLoops(FillGraph(ts))
    decreases |ts|
  {
    if ts != [] {
      var init := ts[..|ts| - 1];
      var t := ts[|ts| - 1];
      FillGraphSimple(init);
      assert FillGraph(ts) == AddCoin(FillGraph(init), Coin(t.baseCoin), Coin(t.quoteCoin));
      AddCoinKeepsListsDistinct(FillGraph(init), Coin(t.baseCoin), Coin(t.quoteCoin));
      AddCoinKeepsLoopFree(FillGraph(init), Coin(t.baseCoin), Coin(t.quoteCoin));
    }
  }

  /** `DetectTriangularArbitrageAsync`: the schemes of the filled graph. */
  function DetectSchemes(ts: seq<Ticker>): (r: seq<Scheme>)
    ensures forall k :: 0 <= k < |r| ==> Closed(r[k])
  {
    Schemes(FillGraph(ts))
  }

  /** A scheme is detected iff it walks A -> B -> C -> A and the snapshot holds
      a ticker for each of its three legs, in either orientation. */
  lemma DetectedSchemesCharacterised(ts: seq<Ticker>, s: Scheme)
    ensures s in DetectSchemes(ts) <==>
      (s == Tri(s.first.base, s.second.base, s.third.base)
       && Connected(ts, s.first.base, s.second.base)
       && Connected(ts, s.second.base, s.third.base)
       && Connected(ts, s.third.base, s.first.base))
  {
    var g := FillGraph(ts);
    var a, b, c := s.first.base, s.second.base, s.third.base;
    SchemesCharacterised(g, s);
    FillGraphNeighbours(ts, a, b);
    FillGraphNeighbours(ts, b, c);
    FillGraphNeighbours(ts, c, a);
  }

  /** `TransformToTriangularCylesAsync`: one cycle per scheme, in scheme order,
      all resolved against the same snapshot. */
  function ToCycles(ts: seq<Ticker>, schemes: seq<Scheme>): (r: seq<Cycle>)
    ensures |r| == |schemes| && AllResolved(r)
    ensures forall k :: 0 <= k < |r| ==>
      && Resolved(r[k]) && r[k].tickers == ts
      && r[k].firstPair == schemes[k].first
      && r[k].secondPair == schemes[k].second
      && r[k].thirdPair == schemes[k].third
  {
    seq(|schemes|, k requires 0 <= k < |schemes| => NewCycle(ts, Legs(schemes[k])))
  }

  /** When no ticker of the graph's snapshot trades a coin against itself,
      every cycle built from a detected scheme runs through three distinct
      coins, so its trades use exactly the legs it resolved
      (`Trade.NewTradeUsesStoredLegs`). */
  lemma DetectedCyclesDistinct(ts: seq<Ticker>, cycleTickers: seq<Ticker>, k: nat)
    requires forall i :: 0 <= i < |ts| ==> ts[i].baseCoin != ts[i].quoteCoin
    requires k < |DetectSchemes(ts)|
    ensures DistinctTriangle(ToCycles(cycleTickers, DetectSchemes(ts))[k])
  {
    var schemes := DetectSchemes(ts);
    FillGraphSimple(ts);
    SchemeCoinsDistinct(FillGraph(ts), schemes[k]);
  }

  /** Every cycle of the list has its three legs. */
  predicate AllResolved(cycles: seq<Cycle>) {
    forall k :: 0 <= k < |cycles| ==> Resolved(cycles[k])
  }

  /** Every cycle of the list can be simulated. */
  predicate AllSimulable(cycles: seq<Cycle>)
    requires AllResolved(cycles)
  {
    forall k :: 0 <= k < |cycles| ==> Simulable(cycles[k])
  }

  /** One trade per cycle, position by position, each from `amount`. */
  predicate Follows(trades: seq<Trade>, cycles: seq<Cycle>, amount: real) {
    && |trades| == |cycles|
    && forall k :: 0 <= k < |trades| ==> trades[k].cycle == cycles[k] && trades[k].amount == amount
  }

  /** `ExecuteTriangularTradesAsync`: the parallel loop maps every cycle to its
      trade from the same starting amount. A cycle that would divide by zero
      makes the whole pass fail, as the exception escaping the parallel loop
      does. */
  function ExecuteTrades(cycles: seq<Cycle>, amount: real): (r: Option<seq<Trade>>)
    requires AllResolved(cycles)
    ensures r.Some? <==> AllSimulable(cycles)
    ensures r.Some? ==> Follows(r.value, cycles, amount)
  {
    if AllSimulable(cycles) then
      Some(seq(|cycles|, k requires 0 <= k < |cycles| => NewTrade(cycles[k], amount)))
    else
      None
  }

  /** Trade k of a successful pass is the simulation of cycle k from `amount`. */
  lemma ExecuteTradesSimulates(cycles: seq<Cycle>, amount: real, k: nat)
    requires AllResolved(cycles) && k < |cycles|
    requires ExecuteTrades(cycles, amount).Some?
    ensures Simulable(cycles[k])
    ensures ExecuteTrades(cycles, amount).value[k] == NewTrade(cycles[k], amount)
  {
  }

  /** `Where(tr => tr.IsProfitable)`: the profitable trades, in their order. */
  function FilterProfitable(ts: seq<Trade>): (r: seq<Trade>)
    ensures forall k :: 0 <= k < |r| ==> r[k].isProfitable
    ensures forall t :: multiset(r)[t] == if t.isProfitable then multiset(ts)[t] else 0
  {
    if ts == [] then []
    else
      assert ts == [ts[0]] + ts[1..];
      (if ts[0].isProfitable then [ts[0]] else []) + FilterProfitable(ts[1..])
  }

  /** Non-increasing by final amount. */
  predicate SortedByFinalDescending(s: seq<Trade>) {
    forall i, j :: 0 <= i < j < |s| ==> s[i].finalAmount >= s[j].finalAmount
  }

  /** Inserts `x` into a sorted list ahead of the first trade whose final amount
      does not exceed its own, so that ties keep `x` first. */
  function Insert(x: Trade, s: seq<Trade>): (r: seq<Trade>)
    requires SortedByFinalDescending(s)
    ensures SortedByFinalDescending(r)
    ensures multiset(r) == multiset(s) + multiset{x}
    ensures |r| == |s| + 1
    ensures r[0] == x || (|s| > 0 && r[0] == s[0])
  {
    if s == [] || s[0].finalAmount <= x.finalAmount then
      SortedCons(x, s);
      [x] + s
    else
      SortedTail(s);
      var rest := Insert(x, s[1..]);
      SortedCons(s[0], rest);
      assert s == [s[0]] + s[1..];
      [s[0]] + rest
  }

  /** The tail of a sorted list is sorted. */
  lemma SortedTail(s: seq<Trade>)
    requires s != [] && SortedByFinalDescending(s)
    ensures SortedByFinalDescending(s[1..])
  {
  }

  /** A trade no smaller than the head of a sorted list can go in front of it. */
  lemma SortedCons(x: Trade, s: seq<Trade>)
    requires SortedByFinalDescending(s)
    requires s != [] ==> s[0].finalAmount <= x.finalAmount
    ensures SortedByFinalDescending([x] + s)
  {
    var r := [x] + s;
    forall i, j | 0 <= i < j < |r| ensures r[i].finalAmount >= r[j].finalAmount {
      if i == 0 && j > 1 {
        assert r[j] == s[j - 1];
        assert s[0].finalAmount >= s[j - 1].finalAmount;
      }
    }
  }

  /** `OrderByDescending(tr => tr.FinalAmount)`: an insertion sort that keeps
      equal trades in their input order. */
  function SortByFinalDescending(ts: seq<Trade>): (r: seq<Trade>)
    ensures SortedByFinalDescending(r)
    ensures multiset(r) == multiset(ts)
  {
    if ts == [] then []
    else
      assert ts == [ts[0]] + ts[1..];
      Insert(ts[0], SortByFinalDescending(ts[1..]))
  }

  /** `GetTriangularArbitrageProfitablesAsync` after the trades exist: the
      profitable ones, sorted. */
  function Profitables(ts: seq<Trade>): (r: seq<Trade>)
    ensures SortedByFinalDescending(r)
    ensures forall k :: 0 <= k < |r| ==> r[k].isProfitable && r[k] in ts
    ensures forall t :: multiset(r)[t] == if t.isProfitable then multiset(ts)[t] else 0
  {
    var f := FilterProfitable(ts);
    var r := SortByFinalDescending(f);
    forall k | 0 <= k < |r| ensures r[k].isProfitable && r[k] in ts {
      assert r[k] in multiset(r);
    }
    r
  }

  /** Every trade of the list was simulated from `amount` on a cycle resolved
      against `tickers`. */
  predicate FromSnapshot(trades: seq<Trade>, tickers: seq<Ticker>, amount: real) {
    forall k :: 0 <= k < |trades| ==> trades[k].cycle.tickers == tickers && trades[k].amount == amount
  }

  /** Trades that follow cycles of one snapshot come from that snapshot. */
  lemma FollowsFromSnapshot(trades: seq<Trade>, cycles: seq<Cycle>, tickers: seq<Ticker>, amount: real)
    requires Follows(trades, cycles, amount)
    requires forall k :: 0 <= k < |cycles| ==> cycles[k].tickers == tickers
    ensures FromSnapshot(trades, tickers, amount)
  {
  }

  /** Trades drawn from a list that comes from one snapshot come from it too. */
  lemma DrawnFromSnapshot(r: seq<Trade>, trades: seq<Trade>, tickers: seq<Ticker>, amount: real)
    requires forall k :: 0 <= k < |r| ==> r[k] in trades
    requires FromSnapshot(trades, tickers, amount)
    ensures FromSnapshot(r, tickers, amount)
  {
    forall k | 0 <= k < |r| ensures r[k].cycle.tickers == tickers && r[k].amount == amount {
      var j :| 0 <= j < |trades| && trades[j] == r[k];
    }
  }

  /** The whole pass: the graph comes from the first snapshot, the cycles are
      resolved against the second, every cycle is simulated from the starting
      amount and the profitable trades are returned in sorted order. */
  function GetProfitables(graphTickers: seq<Ticker>, cycleTickers: seq<Ticker>): (r: Option<seq<Trade>>)
    ensures r.Some? <==> AllSimulable(ToCycles(cycleTickers, DetectSchemes(graphTickers)))
    ensures r.Some? ==> SortedByFinalDescending(r.value)
    ensures r.Some? ==> forall k :: 0 <= k < |r.value| ==> r.value[k].isProfitable
    ensures r.Some? ==> FromSnapshot(r.value, cycleTickers, StartingAmount)
  {
    var cycles := ToCycles(cycleTickers, DetectSchemes(graphTickers));
    match ExecuteTrades(cycles, StartingAmount)
    case None => None
    case Some(trades) =>
      var r := Profitables(trades);
      FollowsFromSnapshot(trades, cycles, cycleTickers, StartingAmount);
      DrawnFromSnapshot(r, trades, cycleTickers, StartingAmount);
      Some(r)
  }

  /** Every profitable trade of the pass appears in the result as often as it
      was produced, and nothing else does. */
  lemma GetProfitablesExact(graphTickers: seq<Ticker>, cycleTickers: seq<Ticker>, t: Trade)
    requires GetProfitables(graphTickers, cycleTickers).Some?
    ensures var cycles := ToCycles(cycleTickers, DetectSchemes(graphTickers));
      var trades := ExecuteTrades(cycles, StartingAmount);
      trades.Some? &&
      multiset(GetProfitables(graphTickers, cycleTickers).value)[t] ==
        if t.isProfitable then multiset(trades.value)[t] else 0
  {
  }
}
