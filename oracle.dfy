/** The price oracles of the engine. Every route reads the latest live order-book
    snapshot of a symbol and, failing that, the close of the latest one-minute candle;
    the three routes differ only in which side of the book they prefer. The database
    reads and the clock become the fields of a `Snapshot` and a `nowMs` parameter. */
module Oracle {
  import opened Common
  import opened Ledger

  /** How long a live order-book snapshot stays usable. */
  const FRESHNESS_MS: real := 10000.0

  /** The stored snapshot: the best bid and ask (absent when that side of the book is
      empty, `NonFinite` when the level does not parse) and its timestamp. */
  datatype Book = Book(bestBid: Option<Num>, bestAsk: Option<Num>, timeMs: Num)

  /** What the oracle queries see: the live book, if any, and the close of the latest
      one-minute candle, if any. */
  datatype Snapshot = Snapshot(book: Option<Book>, lastClose: Option<Num>)

  predicate IsFinite(n: Option<Num>) {
    n.Some? && n.value.Finite?
  }

  /** The snapshot exists and is under ten seconds old. */
  predicate Fresh(s: Snapshot, nowMs: real) {
    s.book.Some? && s.book.value.timeMs.Finite? && nowMs - s.book.value.timeMs.value < FRESHNESS_MS
  }

  /** The fallback every rule ends with: the latest candle close when it is finite. */
  function CandleClose(s: Snapshot): (r: Option<real>)
    ensures r.Some? <==> IsFinite(s.lastClose)
  {
    if IsFinite(s.lastClose) then Some(s.lastClose.value.value) else None
  }

  /** `getMarketPrice` of the order and open-position routes: a long pays the ask,
      a short receives the bid. */
  function EntryPrice(s: Snapshot, nowMs: real, side: Side): (r: Option<real>)
    ensures Fresh(s, nowMs) && side == Long && IsFinite(s.book.value.bestAsk) ==> r == Some(s.book.value.bestAsk.value.value)
    ensures Fresh(s, nowMs) && side == Short && IsFinite(s.book.value.bestBid) ==> r == Some(s.book.value.bestBid.value.value)
    ensures Fresh(s, nowMs) && side == Long && !IsFinite(s.book.value.bestAsk) ==> r == CandleClose(s)
    ensures Fresh(s, nowMs) && side == Short && !IsFinite(s.book.value.bestBid) ==> r == CandleClose(s)
    ensures !Fresh(s, nowMs) ==> r == CandleClose(s)
  {
    if Fresh(s, nowMs) && side == Long && IsFinite(s.book.value.bestAsk) then
      Some(s.book.value.bestAsk.value.value)
    else if Fresh(s, nowMs) && side == Short && IsFinite(s.book.value.bestBid) then
      Some(s.book.value.bestBid.value.value)
    else
      CandleClose(s)
  }

  /** `getMarketPrice` of the close route: the bid, else the ask. */
  function ExitPrice(s: Snapshot, nowMs: real): (r: Option<real>)
    ensures !Fresh(s, nowMs) ==> r == CandleClose(s)
    ensures Fresh(s, nowMs) && IsFinite(s.book.value.bestBid) ==> r == Some(s.book.value.bestBid.value.value)
    ensures Fresh(s, nowMs) && !IsFinite(s.book.value.bestBid) && IsFinite(s.book.value.bestAsk) ==> r == Some(s.book.value.bestAsk.value.value)
    ensures Fresh(s, nowMs) && !IsFinite(s.book.value.bestBid) && !IsFinite(s.book.value.bestAsk) ==> r == CandleClose(s)
  {
    if Fresh(s, nowMs) && IsFinite(s.book.value.bestBid) then Some(s.book.value.bestBid.value.value)
    else if Fresh(s, nowMs) && IsFinite(s.book.value.bestAsk) then Some(s.book.value.bestAsk.value.value)
    else CandleClose(s)
  }

  /** `getMarkPrice` of the liquidation service: the mid when both sides are
      present, else the side that is. */
  function MarkPrice(s: Snapshot, nowMs: real): (r: Option<real>)
    ensures !Fresh(s, nowMs) ==> r == CandleClose(s)
    ensures Fresh(s, nowMs) && IsFinite(s.book.value.bestBid) && IsFinite(s.book.value.bestAsk) ==>
      r == Some((s.book.value.bestBid.value.value + s.book.value.bestAsk.value.value) / 2.0)
    ensures Fresh(s, nowMs) && IsFinite(s.book.value.bestBid) && !IsFinite(s.book.value.bestAsk) ==> r == Some(s.book.value.bestBid.value.value)
    ensures Fresh(s, nowMs) && !IsFinite(s.book.value.bestBid) && IsFinite(s.book.value.bestAsk) ==> r == Some(s.book.value.bestAsk.value.value)
    ensures Fresh(s, nowMs) && !IsFinite(s.book.value.bestBid) && !IsFinite(s.book.value.bestAsk) ==> r == CandleClose(s)
  {
    if Fresh(s, nowMs) && IsFinite(s.book.value.bestBid) && IsFinite(s.book.value.bestAsk) then
      Some((s.book.value.bestBid.value.value + s.book.value.bestAsk.value.value) / 2.0)
    else if Fresh(s, nowMs) && IsFinite(s.book.value.bestBid) then Some(s.book.value.bestBid.value.value)
    else if Fresh(s, nowMs) && IsFinite(s.book.value.bestAsk) then Some(s.book.value.bestAsk.value.value)
    else CandleClose(s)
  }

  /** On an uncrossed fresh book the mark lies between what a short receives and what a
      long pays, and a close executes at the short's price. */
  lemma MarkBetweenEntryPrices(s: Snapshot, nowMs: real)
    requires Fresh(s, nowMs) && IsFinite(s.book.value.bestBid) && IsFinite(s.book.value.bestAsk)
    requires s.book.value.bestBid.value.value <= s.book.value.bestAsk.value.value
    ensures EntryPrice(s, nowMs, Short).value <= MarkPrice(s, nowMs).value <= EntryPrice(s, nowMs, Long).value
    ensures ExitPrice(s, nowMs) == EntryPrice(s, nowMs, Short)
  {
  }

  /** Any rule yields a price only from the book or from the candle fallback, and with
      neither a fresh book nor a finite candle close every rule yields none. */
  lemma NoDataNoPrice(s: Snapshot, nowMs: real, side: Side)
    requires !Fresh(s, nowMs) && !IsFinite(s.lastClose)
    ensures EntryPrice(s, nowMs, side).None? && ExitPrice(s, nowMs).None? && MarkPrice(s, nowMs).None?
  {
  }
}
