/** The trade records the client passes between the feed, the recent-trades list and
    the chart. */
module Types {
  import opened Common

  /** A trade of the exchange feed, with `px` as `parseFloat` reads it and `sz` as the
      number it denotes. */
  datatype TradeData = TradeData(coin: string, side: string, px: Num, sz: real, time: Num, hash: string)

  datatype TakerSide = Buy | Sell

  /** A trade of the recent-trades list. `price` is the feed price itself: the list
      stores it as text rounded to 0 decimals (BTC) or 2 (other symbols), and the
      chart parses that text back; the rounding is not modelled. `id` is the `n` of
      its id `trade-n`. */
  datatype ProcessedTrade = ProcessedTrade(price: Num, size: real, sizeUsdc: Num, side: TakerSide, timeMs: Num, id: nat)
}
