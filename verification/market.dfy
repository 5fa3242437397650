/** The behaviour-free records the engine passes around: live quotes, bid/ask
    rates, trade directions and the per-leg trading record. Amounts and prices
    are exact reals; the source's `decimal` rounding is not reproduced. */
module Market {
  import opened Asset

  /** One live quote of an exchange. `baseCoin`/`quoteCoin` are coin names;
      exactly one of the two exchange flags is set by the clients. */
  datatype Ticker = Ticker(
    symbol: string,
    baseCoin: string,
    quoteCoin: string,
    bidPrice: real,
    askPrice: real,
    isPoloniexTicker: bool,
    isBinanceTicker: bool)

  /** `TradingRates`: a bid/ask pair; the default value is (0, 0). */
  datatype Rates = Rates(bidPrice: real, askPrice: real)

  /** The rates used when no ticker carries the looked-up symbol. */
  const ZeroRates: Rates := Rates(0.0, 0.0)

  /** `TradingDirection`: whether a leg trades the pair as listed (spelled
      `LeftToRigth` in the source) or the swapped pair. */
  datatype Direction = LeftToRight | RightToLeft

  /** `TradingRecord`: the outcome of one leg of a simulated trade. */
  datatype TradingRecord = TradingRecord(
    originalPair: Pair,
    symbol: string,
    bidPrice: real,
    askPrice: real,
    direction: Direction,
    startingAmount: real,
    startingCoin: Coin,
    endingAmount: real,
    endingCoin: Coin,
    feesAmount: real)
}
