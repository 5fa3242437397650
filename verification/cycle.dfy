/** `TriangularCycle`: a scheme resolved against one ticker snapshot. The
    snapshot fixes the exchange cohort, and for every leg whether the pair is
    listed as such (direction and symbol) and the bid/ask rates to trade at. */
module Cycle {
  import opened Asset
  import opened Market

  datatype Cycle = Cycle(
    tickers: seq<Ticker>,
    triangularTrades: seq<Pair>,
    isBinanceCycle: bool,
    firstPair: Pair,
    secondPair: Pair,
    thirdPair: Pair,
    directions: seq<Direction>,
    tradingSymbols: seq<string>,
    tradingRates: seq<Rates>)

  /** The cohort test: some ticker of the snapshot comes from Binance. */
  function IsBinanceSnapshot(ts: seq<Ticker>): (r: bool)
    ensures r <==> exists i :: 0 <= i < |ts| && ts[i].isBinanceTicker
  {
    if ts == [] then false
    else ts[0].isBinanceTicker || IsBinanceSnapshot(ts[1..])
  }

  /** Some ticker of the snapshot carries exactly the symbol `s`. */
  function HasSymbol(ts: seq<Ticker>, s: string): (r: bool)
    ensures r <==> exists i :: 0 <= i < |ts| && ts[i].symbol == s
  {
    if ts == [] then false
    else ts[0].symbol == s || HasSymbol(ts[1..], s)
  }

  /** The cohort's spelling of a pair: "BASEQUOTE" for Binance, "BASE_QUOTE" otherwise. */
  function Render(isBinance: bool, p: Pair): string {
    if isBinance then PairToBinanceString(p) else PairToString(p)
  }

  /** `IsPairExists`: the snapshot lists the pair under the cohort's spelling. */
  function IsPairExists(ts: seq<Ticker>, isBinance: bool, p: Pair): (r: bool)
    ensures r <==> (exists i :: 0 <= i < |ts| && ts[i].symbol == (if isBinance then PairToBinanceString(p) else PairToString(p)))
  {
    HasSymbol(ts, Render(isBinance, p))
  }

  /** `SetTradingDirection`: a listed pair is traded as is, any other reversed. */
  function SetTradingDirection(ts: seq<Ticker>, isBinance: bool, p: Pair): (r: Direction)
    ensures r == LeftToRight <==> exists i :: 0 <= i < |ts| && ts[i].symbol == Render(isBinance, p)
  {
    if IsPairExists(ts, isBinance, p) then LeftToRight else RightToLeft
  }

  /** `ReversePair`: the cohort's spelling of the swapped pair. */
  function ReversePair(isBinance: bool, p: Pair): (r: string)
    ensures r == Render(isBinance, Swap(p))
  {
    if isBinance then PairToBinanceString(Pair(p.quote, p.base)) else PairToString(Pair(p.quote, p.base))
  }

  /** `GetTradingSymbol`: the pair's own spelling when listed, otherwise the
      spelling of the swapped pair, which need not be listed either. */
  function GetTradingSymbol(ts: seq<Ticker>, isBinance: bool, p: Pair): (r: string)
    ensures HasSymbol(ts, Render(isBinance, p)) ==> r == Render(isBinance, p)
    ensures !HasSymbol(ts, Render(isBinance, p)) ==> r == Render(isBinance, Swap(p))
  {
    if isBinance then
      if IsPairExists(ts, isBinance, p) then PairToBinanceString(p) else ReversePair(isBinance, p)
    else
      if IsPairExists(ts, isBinance, p) then PairToString(p) else ReversePair(isBinance, p)
  }

  /** Direction and symbol agree: left-to-right goes with the pair's own
      spelling, which is listed; right-to-left with the swapped pair's spelling,
      the own spelling being absent. */
  lemma DirectionSymbolAgree(ts: seq<Ticker>, isBinance: bool, p: Pair)
    ensures SetTradingDirection(ts, isBinance, p) == LeftToRight <==> HasSymbol(ts, Render(isBinance, p))
    ensures SetTradingDirection(ts, isBinance, p) == LeftToRight ==>
      GetTradingSymbol(ts, isBinance, p) == Render(isBinance, p)
    ensures SetTradingDirection(ts, isBinance, p) == RightToLeft ==>
      GetTradingSymbol(ts, isBinance, p) == Render(isBinance, Swap(p))
  {
  }

  /** `i` is the position of the first ticker carrying `s`. */
  predicate FirstMatch(ts: seq<Ticker>, s: string, i: int) {
    0 <= i < |ts| && ts[i].symbol == s && forall j :: 0 <= j < i ==> ts[j].symbol != s
  }

  /** `GetRate`: the bid/ask of the first ticker carrying `s`, or (0, 0) when none does. */
  function GetRate(ts: seq<Ticker>, s: string): (r: Rates)
    ensures !HasSymbol(ts, s) ==> r == ZeroRates
    ensures HasSymbol(ts, s) ==> exists i :: FirstMatch(ts, s, i) && r == Rates(ts[i].bidPrice, ts[i].askPrice)
  {
    if ts == [] then ZeroRates
    else if ts[0].symbol == s then Rates(ts[0].bidPrice, ts[0].askPrice)
    else
      var r := GetRate(ts[1..], s);
      assert HasSymbol(ts[1..], s) ==> exists i :: FirstMatch(ts, s, i) && r == Rates(ts[i].bidPrice, ts[i].askPrice) by {
        if HasSymbol(ts[1..], s) {
          var i :| FirstMatch(ts[1..], s, i) && r == Rates(ts[1..][i].bidPrice, ts[1..][i].askPrice);
          assert ts[i + 1] == ts[1..][i];
          forall j | 0 <= j < i + 1 ensures ts[j].symbol != s {
            if j > 0 {
              assert ts[j] == ts[1..][j - 1];
            }
          }
          assert FirstMatch(ts, s, i + 1);
        }
      }
      r
  }

  /** `GetRates`: one lookup per trading symbol, in order. */
  function GetRates(ts: seq<Ticker>, symbols: seq<string>): (r: seq<Rates>)
    ensures |r| == |symbols|
    ensures forall k :: 0 <= k < |r| ==> r[k] == GetRate(ts, symbols[k])
  {
    seq(|symbols|, k requires 0 <= k < |symbols| => GetRate(ts, symbols[k]))
  }

  /** The k-th leg of the cycle. */
  function LegAt(c: Cycle, k: nat): Pair
    requires k < 3
  {
    if k == 0 then c.firstPair else if k == 1 then c.secondPair else c.thirdPair
  }

  /** A cycle tied to its snapshot: three legs, each resolved from `tickers`. */
  predicate Resolved(c: Cycle) {
    && |c.directions| == 3 && |c.tradingSymbols| == 3 && |c.tradingRates| == 3
    && c.isBinanceCycle == IsBinanceSnapshot(c.tickers)
    && (forall k :: 0 <= k < 3 ==>
          && c.directions[k] == SetTradingDirection(c.tickers, c.isBinanceCycle, LegAt(c, k))
          && c.tradingSymbols[k] == GetTradingSymbol(c.tickers, c.isBinanceCycle, LegAt(c, k))
          && c.tradingRates[k] == GetRate(c.tickers, c.tradingSymbols[k]))
  }

  /** The constructor: the first, second and last pair of the list are the
      legs; `First()` and `[1]` need at least two elements. */
  function NewCycle(ts: seq<Ticker>, legs: seq<Pair>): (c: Cycle)
    requires |legs| >= 2
    ensures Resolved(c)
    ensures c.tickers == ts && c.triangularTrades == legs
    ensures c.firstPair == legs[0] && c.secondPair == legs[1] && c.thirdPair == legs[|legs| - 1]
  {
    var isBinance := IsBinanceSnapshot(ts);
    var first := legs[0];
    var second := legs[1];
    var third := legs[|legs| - 1];
    var directions := [SetTradingDirection(ts, isBinance, first), SetTradingDirection(ts, isBinance, second),
                       SetTradingDirection(ts, isBinance, third)];
    var symbols := [GetTradingSymbol(ts, isBinance, first), GetTradingSymbol(ts, isBinance, second),
                    GetTradingSymbol(ts, isBinance, third)];
    Cycle(ts, legs, isBinance, first, second, third, directions, symbols, GetRates(ts, symbols))
  }

  /** What a resolved leg means in terms of the snapshot: the cohort is Binance
      iff some ticker is; the leg is left-to-right iff its own cohort spelling is
      listed, and its symbol is that spelling, else the swapped pair's; its rates
      are those of the first ticker with that symbol, or (0, 0). */
  lemma ResolvedLegMeaning(c: Cycle, k: nat)
    requires Resolved(c) && k < 3
    ensures c.isBinanceCycle <==> exists i :: 0 <= i < |c.tickers| && c.tickers[i].isBinanceTicker
    ensures c.directions[k] == LeftToRight <==>
      exists i :: 0 <= i < |c.tickers| && c.tickers[i].symbol == Render(c.isBinanceCycle, LegAt(c, k))
    ensures c.directions[k] == LeftToRight ==> c.tradingSymbols[k] == Render(c.isBinanceCycle, LegAt(c, k))
    ensures c.directions[k] == RightToLeft ==> c.tradingSymbols[k] == Render(c.isBinanceCycle, Swap(LegAt(c, k)))
    ensures HasSymbol(c.tickers, c.tradingSymbols[k]) ==> exists i ::
      FirstMatch(c.tickers, c.tradingSymbols[k], i) && c.tradingRates[k] == Rates(c.tickers[i].bidPrice, c.tickers[i].askPrice)
    ensures !HasSymbol(c.tickers, c.tradingSymbols[k]) ==> c.tradingRates[k] == ZeroRates
  {
    DirectionSymbolAgree(c.tickers, c.isBinanceCycle, LegAt(c, k));
  }

  /** The silent fallback: a leg whose symbol no ticker carries is a reversed
      leg with rates (0, 0). */
  lemma MissingTickerGivesZeroRates(c: Cycle, k: nat)
    requires Resolved(c) && k < 3
    requires !HasSymbol(c.tickers, c.tradingSymbols[k])
    ensures c.directions[k] == RightToLeft
    ensures c.tradingRates[k] == ZeroRates
  {
    DirectionSymbolAgree(c.tickers, c.isBinanceCycle, LegAt(c, k));
  }

  /** An empty snapshot resolves in the Poloniex cohort, every leg reversed at rates (0, 0). */
  lemma EmptySnapshot(legs: seq<Pair>)
    requires |legs| >= 2
    ensures var c := NewCycle([], legs);
      !c.isBinanceCycle
      && c.directions == [RightToLeft, RightToLeft, RightToLeft]
      && c.tradingRates == [ZeroRates, ZeroRates, ZeroRates]
  {
  }
}
