/** Values shared by the whole dashboard model. */
module Common {

  /** Python's `None` or a present value. */
  datatype Option<T> = None | Some(value: T)

  /**
   * One row of the market table the dashboard fetches (one asset of the
   * top ten by market capitalisation). Prices and percentages are
   * mathematical reals; NaN is not representable.
   */
  datatype Coin = Coin(
    name: string,
    symbol: string,
    currentPrice: real,
    marketCap: real,
    high24h: real,
    low24h: real,
    change24h: real,
    rank: nat)
}
