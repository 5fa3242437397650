/** `TriangularTrade`: an amount threaded through the three legs of a resolved
    cycle. Binance charges its 0.1% fee on the amount before converting;
    Poloniex charges 0.2% on the converted amount. */
module Trade {
  import opened Asset
  import opened Market
  import opened Cycle

  /** The fee percentages the simulator passes to the two leg handlers. */
  const BinanceFeePercent: real := 0.1
  const PoloniexFeePercent: real := 0.2

  datatype Trade = Trade(
    cycle: Cycle,
    amount: real,
    tradingRecords: seq<TradingRecord>,
    isProfitable: bool,
    finalAmount: real,
    triangularProfitAmount: real)

  /** What a leg handler reads from the cycle for one pair. */
  datatype LegTerms = LegTerms(symbol: string, rates: Rates, direction: Direction)

  /** The symbol, rates and direction a record was made with. */
  function RecordTerms(r: TradingRecord): LegTerms {
    LegTerms(r.symbol, Rates(r.bidPrice, r.askPrice), r.direction)
  }

  /** `List.IndexOf`: the first position of `s`, or -1. */
  function IndexOf(xs: seq<string>, s: string): (r: int)
    ensures -1 <= r < |xs|
    ensures r == -1 <==> s !in xs
    ensures r >= 0 ==> xs[r] == s && forall j :: 0 <= j < r ==> xs[j] != s
  {
    if xs == [] then -1
    else if xs[0] == s then 0
    else
      var r := IndexOf(xs[1..], s);
      if r == -1 then -1 else r + 1
  }

  /** The lookup both leg handlers start with: the position of the pair's own
      spelling `key` among the cycle's trading symbols selects the stored
      symbol, rates and direction; when absent they are recomputed from the
      snapshot. */
  function LookupLeg(c: Cycle, p: Pair, key: string): (q: LegTerms)
    requires Resolved(c)
    ensures q.rates == GetRate(c.tickers, q.symbol)
    ensures q.direction == LeftToRight ==> HasSymbol(c.tickers, q.symbol)
    ensures q.symbol == key || q.symbol == GetTradingSymbol(c.tickers, c.isBinanceCycle, p)
  {
    var i := IndexOf(c.tradingSymbols, key);
    if i != -1 then
      DirectionSymbolAgree(c.tickers, c.isBinanceCycle, LegAt(c, i));
      LegTerms(c.tradingSymbols[i], c.tradingRates[i], c.directions[i])
    else
      DirectionSymbolAgree(c.tickers, c.isBinanceCycle, p);
      var symbol := GetTradingSymbol(c.tickers, c.isBinanceCycle, p);
      LegTerms(symbol, GetRate(c.tickers, symbol), SetTradingDirection(c.tickers, c.isBinanceCycle, p))
  }

  /** The legs run x -> y -> z -> x through three distinct coins, as every
      detected scheme does when no ticker trades a coin against itself. */
  predicate DistinctTriangle(c: Cycle) {
    && c.firstPair.quote == c.secondPair.base
    && c.secondPair.quote == c.thirdPair.base
    && c.thirdPair.quote == c.firstPair.base
    && c.firstPair.base != c.secondPair.base
    && c.secondPair.base != c.thirdPair.base
    && c.thirdPair.base != c.firstPair.base
  }

  /** The symbol, rates and direction the cycle stores for leg k. */
  function StoredLeg(c: Cycle, k: nat): LegTerms
    requires Resolved(c) && k < 3
  {
    LegTerms(c.tradingSymbols[k], c.tradingRates[k], c.directions[k])
  }

  /** A common prefix cancels. */
  lemma LeftCancel(a: string, b: string, c: string)
    requires a + b == a + c
    ensures b == c
  {
    assert b == (a + b)[|a|..];
    assert c == (a + c)[|a|..];
  }

  /** A common suffix cancels. */
  lemma RightCancel(b: string, c: string, a: string)
    requires b + a == c + a
    ensures b == c
  {
    assert b == (b + a)[..|b|];
    assert c == (c + a)[..|c|];
  }

  /** Two pairs with the same spelling and one coin in common share the other
      coin too. */
  lemma RenderCancel(isBinance: bool, p: Pair, q: Pair)
    requires Render(isBinance, p) == Render(isBinance, q)
    ensures p.base == q.base ==> p.quote == q.quote
    ensures p.quote == q.quote ==> p.base == q.base
  {
    var sep := if isBinance then [] else [Separator];
    assert Render(isBinance, p) == (p.base.name + sep) + p.quote.name;
    assert Render(isBinance, q) == (q.base.name + sep) + q.quote.name;
    if p.base == q.base {
      LeftCancel(p.base.name + sep, p.quote.name, q.quote.name);
    }
    if p.quote == q.quote {
      RightCancel(p.base.name + sep, q.base.name + sep, p.quote.name);
      RightCancel(p.base.name, q.base.name, sep);
    }
  }

  /** In a triangle of distinct coins, the swapped spelling of one leg is
      never the own spelling of another leg. */
  lemma NoSwapCollision(c: Cycle, i: nat, k: nat)
    requires DistinctTriangle(c) && i < 3 && k < 3 && i != k
    ensures Render(c.isBinanceCycle, Swap(LegAt(c, i))) != Render(c.isBinanceCycle, LegAt(c, k))
  {
    if Render(c.isBinanceCycle, Swap(LegAt(c, i))) == Render(c.isBinanceCycle, LegAt(c, k)) {
      RenderCancel(c.isBinanceCycle, Swap(LegAt(c, i)), LegAt(c, k));
      assert false;
    }
  }

  /** For a triangle of distinct coins, looking leg k up by its own spelling
      finds exactly what the cycle stores for leg k: an earlier leg that is
      listed under the same spelling stores the same entry, and no reversed
      leg carries that spelling. */
  lemma LookupIsStoredLeg(c: Cycle, k: nat)
    requires Resolved(c) && DistinctTriangle(c) && k < 3
    ensures LookupLeg(c, LegAt(c, k), Render(c.isBinanceCycle, LegAt(c, k))) == StoredLeg(c, k)
  {
    var p := LegAt(c, k);
    var i := IndexOf(c.tradingSymbols, Render(c.isBinanceCycle, p));
    DirectionSymbolAgree(c.tickers, c.isBinanceCycle, p);
    if i != -1 && i != k {
      DirectionSymbolAgree(c.tickers, c.isBinanceCycle, LegAt(c, i));
      if c.directions[i] == RightToLeft {
        NoSwapCollision(c, i, k);
        assert false;
      }
    }
  }

  /** A Binance leg divides by the ask price when it runs right to left. */
  predicate BinanceLegDefined(c: Cycle, p: Pair)
    requires Resolved(c)
  {
    var q := LookupLeg(c, p, PairToBinanceString(p));
    q.direction == RightToLeft ==> q.rates.askPrice != 0.0
  }

  /** A Poloniex leg divides by the bid price when it runs right to left. */
  predicate PoloniexLegDefined(c: Cycle, p: Pair)
    requires Resolved(c)
  {
    var q := LookupLeg(c, p, PairToString(p));
    q.direction == RightToLeft ==> q.rates.bidPrice != 0.0
  }

  /** The amounts one leg produces: what it ends with and the fee it records. */
  datatype Conversion = Conversion(ending: real, fees: real)

  /** Binance arithmetic: the fee is taken from the amount first, the rest is
      sold at the bid (left to right) or buys at the ask (right to left). */
  function BinanceConvert(amount: real, exchangeFee: real, d: Direction, rates: Rates): (r: Conversion)
    requires d == RightToLeft ==> rates.askPrice != 0.0
    ensures r.fees * 100.0 == amount * exchangeFee
    ensures d == LeftToRight ==> r.ending == (amount - r.fees) * rates.bidPrice
    ensures d == RightToLeft ==> r.ending * rates.askPrice == amount - r.fees
  {
    var takerFee := exchangeFee / 100.0;
    var fees := amount * takerFee;
    var amountAfterFees := amount - fees;
    var finalResult := if d == RightToLeft then amountAfterFees / rates.askPrice
                       else amountAfterFees * rates.bidPrice;
    Conversion(finalResult, fees)
  }

  /** Poloniex arithmetic: the amount is converted at the ask (left to right)
      or at the inverse bid (right to left), and the fee is taken from the result. */
  function PoloniexConvert(amount: real, exchangeFee: real, d: Direction, rates: Rates): (r: Conversion)
    requires d == RightToLeft ==> rates.bidPrice != 0.0
    ensures d == LeftToRight ==> r.ending + r.fees == amount * rates.askPrice
    ensures d == RightToLeft ==> (r.ending + r.fees) * rates.bidPrice == amount
    ensures r.ending * 100.0 == (r.ending + r.fees) * (100.0 - exchangeFee)
  {
    var takerFee := exchangeFee / 100.0;
    var resultWithoutFee := if d == LeftToRight then amount * rates.askPrice
                            else amount * (1.0 / rates.bidPrice);
    var finalResult := resultWithoutFee * (1.0 - takerFee);
    Conversion(finalResult, resultWithoutFee - finalResult)
  }

  /** Over exact arithmetic the order of fee and conversion does not matter:
      at one fee rate and one price, charging the fee before converting
      (Binance) and after converting (Poloniex) end with the same amount. The
      cohorts differ only in the fee rate and in which side of the book each
      direction uses. */
  lemma FeeOrderIrrelevant(amount: real, exchangeFee: real, d: Direction, price: real)
    requires d == RightToLeft ==> price != 0.0
    ensures BinanceConvert(amount, exchangeFee, d, Rates(price, price)).ending ==
            PoloniexConvert(amount, exchangeFee, d, Rates(price, price)).ending
  {
    var b := BinanceConvert(amount, exchangeFee, d, Rates(price, price));
    var p := PoloniexConvert(amount, exchangeFee, d, Rates(price, price));
    var kept := 1.0 - exchangeFee / 100.0;
    assert amount - b.fees == amount * kept;
    assert p.ending == (p.ending + p.fees) * kept;
    if d == LeftToRight {
      assert b.ending == (amount * kept) * price;
      assert p.ending == (amount * price) * kept;
    } else {
      assert b.ending == (amount * kept) / price;
      assert p.ending == (amount * (1.0 / price)) * kept;
    }
  }

  /** `HandleBinanceTrade`: the Binance lookup and arithmetic, recorded. */
  function HandleBinanceTrade(c: Cycle, p: Pair, amount: real, exchangeFee: real): (r: TradingRecord)
    requires Resolved(c) && BinanceLegDefined(c, p)
    ensures r.originalPair == p && r.startingCoin == p.base && r.endingCoin == p.quote
    ensures r.startingAmount == amount
    ensures r.direction == RightToLeft ==> r.askPrice != 0.0
    ensures Conversion(r.endingAmount, r.feesAmount) ==
      BinanceConvert(amount, exchangeFee, r.direction, Rates(r.bidPrice, r.askPrice))
    ensures Rates(r.bidPrice, r.askPrice) == GetRate(c.tickers, r.symbol)
    ensures r.direction == LeftToRight ==> HasSymbol(c.tickers, r.symbol)
  {
    var q := LookupLeg(c, p, PairToBinanceString(p));
    var v := BinanceConvert(amount, exchangeFee, q.direction, q.rates);
    TradingRecord(p, q.symbol, q.rates.bidPrice, q.rates.askPrice, q.direction,
                  amount, p.base, v.ending, p.quote, v.fees)
  }

  /** `HandlePoloniexTrade`: the Poloniex lookup and arithmetic, recorded. */
  function HandlePoloniexTrade(c: Cycle, p: Pair, amount: real, exchangeFee: real): (r: TradingRecord)
    requires Resolved(c) && PoloniexLegDefined(c, p)
    ensures r.originalPair == p && r.startingCoin == p.base && r.endingCoin == p.quote
    ensures r.startingAmount == amount
    ensures r.direction == RightToLeft ==> r.bidPrice != 0.0
    ensures Conversion(r.endingAmount, r.feesAmount) ==
      PoloniexConvert(amount, exchangeFee, r.direction, Rates(r.bidPrice, r.askPrice))
    ensures Rates(r.bidPrice, r.askPrice) == GetRate(c.tickers, r.symbol)
    ensures r.direction == LeftToRight ==> HasSymbol(c.tickers, r.symbol)
  {
    var q := LookupLeg(c, p, PairToString(p));
    var v := PoloniexConvert(amount, exchangeFee, q.direction, q.rates);
    TradingRecord(p, q.symbol, q.rates.bidPrice, q.rates.askPrice, q.direction,
                  amount, p.base, v.ending, p.quote, v.fees)
  }

  /** The leg handler of the cycle's cohort can run without dividing by zero. */
  predicate LegDefined(c: Cycle, p: Pair)
    requires Resolved(c)
  {
    if c.isBinanceCycle then BinanceLegDefined(c, p) else PoloniexLegDefined(c, p)
  }

  /** The share of the amount a leg of the cohort keeps after its fee. */
  function KeptShare(isBinance: bool): real {
    1.0 - (if isBinance then BinanceFeePercent else PoloniexFeePercent) / 100.0
  }

  /** The price a left-to-right leg multiplies by: Binance sells at the bid,
      Poloniex converts at the ask. */
  function ForwardPrice(isBinance: bool, rates: Rates): real {
    if isBinance then rates.bidPrice else rates.askPrice
  }

  /** The price a right-to-left leg divides by: Binance buys at the ask,
      Poloniex converts at the inverse bid. */
  function BackwardPrice(isBinance: bool, rates: Rates): real {
    if isBinance then rates.askPrice else rates.bidPrice
  }

  /** The factor one leg multiplies the amount by, fee included. */
  function LegFactor(isBinance: bool, d: Direction, rates: Rates): real
    requires d == RightToLeft ==> BackwardPrice(isBinance, rates) != 0.0
  {
    KeptShare(isBinance) * (if d == LeftToRight then ForwardPrice(isBinance, rates)
                            else 1.0 / BackwardPrice(isBinance, rates))
  }

  /** The arithmetic of the cohort's leg handler, with its fixed fee. */
  function Convert(isBinance: bool, amount: real, d: Direction, rates: Rates): Conversion
    requires d == RightToLeft ==> BackwardPrice(isBinance, rates) != 0.0
  {
    if isBinance then BinanceConvert(amount, BinanceFeePercent, d, rates)
    else PoloniexConvert(amount, PoloniexFeePercent, d, rates)
  }

  /** `TradingPair`: the cohort picks the handler and its fee. */
  function TradingPair(c: Cycle, p: Pair, amount: real): (r: TradingRecord)
    requires Resolved(c) && LegDefined(c, p)
    ensures r.originalPair == p && r.startingCoin == p.base && r.endingCoin == p.quote
    ensures r.startingAmount == amount
    ensures Rates(r.bidPrice, r.askPrice) == GetRate(c.tickers, r.symbol)
    ensures DivisorNonzero(c.isBinanceCycle, r)
    ensures Conversion(r.endingAmount, r.feesAmount) ==
      Convert(c.isBinanceCycle, amount, r.direction, Rates(r.bidPrice, r.askPrice))
  {
    if c.isBinanceCycle then HandleBinanceTrade(c, p, amount, BinanceFeePercent)
    else HandlePoloniexTrade(c, p, amount, PoloniexFeePercent)
  }

  /** Both handlers record the symbol, rates and direction that looking the
      pair up by the cohort's own spelling returns. */
  lemma HandlersUseLookup(c: Cycle, p: Pair, amount: real, exchangeFee: real)
    requires Resolved(c)
    ensures BinanceLegDefined(c, p) ==>
      RecordTerms(HandleBinanceTrade(c, p, amount, exchangeFee)) == LookupLeg(c, p, PairToBinanceString(p))
    ensures PoloniexLegDefined(c, p) ==>
      RecordTerms(HandlePoloniexTrade(c, p, amount, exchangeFee)) == LookupLeg(c, p, PairToString(p))
  {
  }

  /** The record `TradingPair` makes carries what the cohort's lookup returned. */
  lemma TradingPairUsesLookup(c: Cycle, p: Pair, amount: real)
    requires Resolved(c) && LegDefined(c, p)
    ensures RecordTerms(TradingPair(c, p, amount)) == LookupLeg(c, p, Render(c.isBinanceCycle, p))
  {
    HandlersUseLookup(c, p, amount, if c.isBinanceCycle then BinanceFeePercent else PoloniexFeePercent);
  }

  /** Whatever the cohort, a leg multiplies the amount by its leg factor. */
  lemma ConvertIsScaling(isBinance: bool, amount: real, d: Direction, rates: Rates)
    requires d == RightToLeft ==> BackwardPrice(isBinance, rates) != 0.0
    ensures Convert(isBinance, amount, d, rates).ending == amount * LegFactor(isBinance, d, rates)
  {
    if isBinance {
      BinanceLegLinear(amount, d, rates);
    } else {
      PoloniexLegLinear(amount, d, rates);
    }
  }

  /** Fee-before-conversion is multiplication by the Binance leg factor. */
  lemma BinanceLegLinear(amount: real, d: Direction, rates: Rates)
    requires d == RightToLeft ==> rates.askPrice != 0.0
    ensures BinanceConvert(amount, BinanceFeePercent, d, rates).ending == amount * LegFactor(true, d, rates)
  {
    var v := BinanceConvert(amount, BinanceFeePercent, d, rates);
    var after := amount - v.fees;
    assert after == amount * (1.0 - BinanceFeePercent / 100.0);
    if d == RightToLeft {
      assert v.ending == after / rates.askPrice;
    }
  }

  /** Fee-after-conversion is multiplication by the Poloniex leg factor. */
  lemma PoloniexLegLinear(amount: real, d: Direction, rates: Rates)
    requires d == RightToLeft ==> rates.bidPrice != 0.0
    ensures PoloniexConvert(amount, PoloniexFeePercent, d, rates).ending == amount * LegFactor(false, d, rates)
  {
    var v := PoloniexConvert(amount, PoloniexFeePercent, d, rates);
    var raw := v.ending + v.fees;
    assert v.ending == raw * (1.0 - PoloniexFeePercent / 100.0);
    if d == RightToLeft {
      assert raw == amount / rates.bidPrice;
    }
  }

  /** All three legs can run: no right-to-left leg meets a zero divisor, as the
      (0, 0) fallback for an unlisted symbol would give. */
  predicate Simulable(c: Cycle)
    requires Resolved(c)
  {
    LegDefined(c, c.firstPair) && LegDefined(c, c.secondPair) && LegDefined(c, c.thirdPair)
  }

  /** A right-to-left record has a nonzero divisor for the cohort's arithmetic. */
  predicate DivisorNonzero(isBinance: bool, r: TradingRecord) {
    r.direction == RightToLeft ==> BackwardPrice(isBinance, Rates(r.bidPrice, r.askPrice)) != 0.0
  }

  /** The product of the three leg factors of a simulated trade. */
  function Growth(isBinance: bool, records: seq<TradingRecord>): real
    requires |records| == 3
    requires DivisorNonzero(isBinance, records[0]) && DivisorNonzero(isBinance, records[1])
    requires DivisorNonzero(isBinance, records[2])
  {
    RecordFactor(isBinance, records[0]) * RecordFactor(isBinance, records[1]) * RecordFactor(isBinance, records[2])
  }

  /** The constructor: leg 1 starts with `amount`, each later leg with what the
      previous one ended with; the verdict compares the last leg's ending amount
      with the first leg's starting amount. */
  function NewTrade(c: Cycle, amount: real): (t: Trade)
    requires Resolved(c) && Simulable(c)
    ensures t.cycle == c && t.amount == amount
    ensures |t.tradingRecords| == 3
    ensures forall k :: 0 <= k < 3 ==> t.tradingRecords[k].originalPair == LegAt(c, k)
    ensures LegRecorded(c.isBinanceCycle, t.tradingRecords[0])
    ensures LegRecorded(c.isBinanceCycle, t.tradingRecords[1])
    ensures LegRecorded(c.isBinanceCycle, t.tradingRecords[2])
    ensures t.tradingRecords[0].startingAmount == amount
    ensures t.tradingRecords[1].startingAmount == t.tradingRecords[0].endingAmount
    ensures t.tradingRecords[2].startingAmount == t.tradingRecords[1].endingAmount
    ensures t.finalAmount == t.tradingRecords[2].endingAmount
    ensures t.triangularProfitAmount == t.finalAmount - amount
    ensures t.isProfitable <==> t.finalAmount > amount
  {
    var r1 := TradingPair(c, c.firstPair, amount);
    var r2 := TradingPair(c, c.secondPair, r1.endingAmount);
    var r3 := TradingPair(c, c.thirdPair, r2.endingAmount);
    var records := [r1, r2, r3];
    var finalAmount := records[|records| - 1].endingAmount;
    Trade(c, amount, records, CheckProfit(records), finalAmount, finalAmount - amount)
  }

  /** Record k trades leg k of the cycle, from its base to its quote, with
      what looking the leg up by its own spelling returns, at the snapshot's
      rates for the symbol used. */
  predicate RecordOfLeg(c: Cycle, k: nat, r: TradingRecord)
    requires Resolved(c) && k < 3
  {
    && r.originalPair == LegAt(c, k)
    && r.startingCoin == LegAt(c, k).base && r.endingCoin == LegAt(c, k).quote
    && Rates(r.bidPrice, r.askPrice) == GetRate(c.tickers, r.symbol)
    && RecordTerms(r) == LookupLeg(c, LegAt(c, k), Render(c.isBinanceCycle, LegAt(c, k)))
  }

  /** Record k of a trade trades leg k of the cycle with what the lookup by
      the leg's own spelling returned. */
  lemma NewTradeRecordsLegs(c: Cycle, amount: real, k: nat)
    requires Resolved(c) && Simulable(c) && k < 3
    ensures RecordOfLeg(c, k, NewTrade(c, amount).tradingRecords[k])
  {
    var rs := NewTrade(c, amount).tradingRecords;
    var start := if k == 0 then amount else rs[k - 1].endingAmount;
    SimulableLeg(c, k);
    assert rs[k] == TradingPair(c, LegAt(c, k), start);
    TradingPairOfLeg(c, k, start);
  }

  /** Every leg of a simulable cycle can run. */
  lemma SimulableLeg(c: Cycle, k: nat)
    requires Resolved(c) && Simulable(c) && k < 3
    ensures LegDefined(c, LegAt(c, k))
  {
    if k == 0 {
      assert LegAt(c, k) == c.firstPair;
    } else if k == 1 {
      assert LegAt(c, k) == c.secondPair;
    } else {
      assert LegAt(c, k) == c.thirdPair;
    }
  }

  /** The cohort's handler, run on leg k, makes a record of leg k. */
  lemma TradingPairOfLeg(c: Cycle, k: nat, amount: real)
    requires Resolved(c) && k < 3 && LegDefined(c, LegAt(c, k))
    ensures RecordOfLeg(c, k, TradingPair(c, LegAt(c, k), amount))
  {
    TradingPairUsesLookup(c, LegAt(c, k), amount);
  }

  /** For a triangle of distinct coins, record k of a trade uses exactly the
      symbol, rates and direction the cycle resolved for leg k. */
  lemma NewTradeUsesStoredLegs(c: Cycle, amount: real, k: nat)
    requires Resolved(c) && Simulable(c) && DistinctTriangle(c) && k < 3
    ensures RecordTerms(NewTrade(c, amount).tradingRecords[k]) == StoredLeg(c, k)
  {
    NewTradeRecordsLegs(c, amount, k);
    LookupIsStoredLeg(c, k);
  }

  /** `CheckProfit`: the last leg ends with more than the first leg started with. */
  function CheckProfit(records: seq<TradingRecord>): bool
    requires |records| >= 1
  {
    records[|records| - 1].endingAmount > records[0].startingAmount
  }

  /** The final amount is the starting amount times the growth of the three
      legs; for a positive amount the trade is profitable iff that growth
      exceeds one. */
  lemma ProfitableIffGrowthAboveOne(c: Cycle, amount: real)
    requires Resolved(c) && Simulable(c)
    ensures NewTrade(c, amount).finalAmount == Scale(amount, Growth(c.isBinanceCycle, NewTrade(c, amount).tradingRecords))
    ensures amount > 0.0 ==>
      (NewTrade(c, amount).isProfitable <==> Growth(c.isBinanceCycle, NewTrade(c, amount).tradingRecords) > 1.0)
  {
    RecordScales(c.isBinanceCycle, NewTrade(c, amount).tradingRecords[0]);
    RecordScales(c.isBinanceCycle, NewTrade(c, amount).tradingRecords[1]);
    RecordScales(c.isBinanceCycle, NewTrade(c, amount).tradingRecords[2]);
    TradeGrowth(c.isBinanceCycle, NewTrade(c, amount), amount);
  }

  /** The same statement for any trade whose records chain and follow the
      cohort's arithmetic. */
  lemma TradeGrowth(isBinance: bool, t: Trade, amount: real)
    requires |t.tradingRecords| == 3
    requires Scaled(isBinance, t.tradingRecords[0]) && Scaled(isBinance, t.tradingRecords[1])
    requires Scaled(isBinance, t.tradingRecords[2])
    requires t.tradingRecords[0].startingAmount == amount
    requires t.tradingRecords[1].startingAmount == t.tradingRecords[0].endingAmount
    requires t.tradingRecords[2].startingAmount == t.tradingRecords[1].endingAmount
    requires t.finalAmount == t.tradingRecords[2].endingAmount
    requires t.isProfitable <==> t.finalAmount > amount
    ensures t.finalAmount == Scale(amount, Growth(isBinance, t.tradingRecords))
    ensures amount > 0.0 ==> (t.isProfitable <==> Growth(isBinance, t.tradingRecords) > 1.0)
  {
    var rs := t.tradingRecords;
    var g := Growth(isBinance, rs);
    assert t.finalAmount == amount * g by {
      ChainedRecordsGrow(isBinance, rs[0], rs[1], rs[2], amount);
      assert rs == [rs[0], rs[1], rs[2]];
    }
    if amount > 0.0 {
      GrowthComparison(amount, g, t.finalAmount, t.isProfitable);
    }
  }

  /** A record whose amounts are what the cohort's arithmetic gives for its
      recorded direction and rates. */
  predicate LegRecorded(isBinance: bool, r: TradingRecord) {
    && DivisorNonzero(isBinance, r)
    && Conversion(r.endingAmount, r.feesAmount) ==
       Convert(isBinance, r.startingAmount, r.direction, Rates(r.bidPrice, r.askPrice))
  }

  /** The factor a recorded leg multiplied its amount by. */
  function RecordFactor(isBinance: bool, r: TradingRecord): real
    requires DivisorNonzero(isBinance, r)
  {
    LegFactor(isBinance, r.direction, Rates(r.bidPrice, r.askPrice))
  }

  /** A record that ends with its starting amount times its leg factor. */
  predicate Scaled(isBinance: bool, r: TradingRecord) {
    DivisorNonzero(isBinance, r) && r.endingAmount == r.startingAmount * RecordFactor(isBinance, r)
  }

  /** Every leg recorded by the cohort's arithmetic is a scaling. */
  lemma RecordScales(isBinance: bool, r: TradingRecord)
    requires LegRecorded(isBinance, r)
    ensures Scaled(isBinance, r)
  {
    ConvertIsScaling(isBinance, r.startingAmount, r.direction, Rates(r.bidPrice, r.askPrice));
  }

  /** Three chained scalings scale the first starting amount by their growth. */
  lemma ChainedRecordsGrow(isBinance: bool, r0: TradingRecord, r1: TradingRecord, r2: TradingRecord, amount: real)
    requires Scaled(isBinance, r0) && Scaled(isBinance, r1) && Scaled(isBinance, r2)
    requires r0.startingAmount == amount
    requires r1.startingAmount == r0.endingAmount && r2.startingAmount == r1.endingAmount
    ensures r2.endingAmount == amount * Growth(isBinance, [r0, r1, r2])
  {
    var f0 := RecordFactor(isBinance, r0);
    var f1 := RecordFactor(isBinance, r1);
    var f2 := RecordFactor(isBinance, r2);
    Chain3(amount, f0, f1, f2, r0.endingAmount, r1.endingAmount, r2.endingAmount, Growth(isBinance, [r0, r1, r2]));
  }

  /** An amount multiplied by a growth factor: what a chain of legs ends with. */
  function Scale(amount: real, factor: real): real {
    amount * factor
  }

  /** Three chained scalings are one scaling by the product. */
  lemma Chain3(amount: real, f0: real, f1: real, f2: real, e0: real, e1: real, e2: real, g: real)
    requires e0 == amount * f0 && e1 == e0 * f1 && e2 == e1 * f2 && g == f0 * f1 * f2
    ensures e2 == amount * g
  {
  }

  /** Scaling a positive amount increases it iff the factor exceeds one. */
  lemma GrowthComparison(amount: real, growth: real, final: real, profitable: bool)
    requires amount > 0.0 && final == amount * growth
    requires profitable <==> final > amount
    ensures profitable <==> growth > 1.0
  {
    if growth > 1.0 {
      assert final - amount == amount * (growth - 1.0);
    } else {
      assert amount - final == amount * (1.0 - growth);
    }
  }
}
