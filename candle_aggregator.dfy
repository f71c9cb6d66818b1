/** The server-side candle buffer: trades are folded into one-minute candles keyed by
    (symbol, bucket); a timer or a full buffer flushes the buffer into the candle table
    with the upsert rule, after which candles older than two minutes are dropped. The
    asynchronous flush is split at its `await` into `BeginFlush` and `CompleteFlush`;
    the database statement is the function `UpsertBatch` and the clock a parameter. */
module CandleAggregator {
  import opened Common
  import opened Candles

  const DEFAULT_FLUSH_MS: real := 20000.0
  const DEFAULT_MAX_BUFFER: real := 1000.0
  /** Candles whose bucket is more than this many seconds before now leave the buffer. */
  const RETENTION_SECONDS: int := 120

  datatype FlushReason = Interval | BufferFull | Shutdown

  /** A buffer key: the upper-cased symbol and the bucket start in seconds. */
  type Key = (string, int)

  /** A trade as the exchange feed delivers it; `px`, `sz` and `time` after `Number`. */
  datatype FeedTrade = FeedTrade(coin: Option<string>, px: Num, sz: Num, time: Num)

  /** The trade is buffered: a non-empty symbol and finite price, size and time. */
  predicate Accepted(t: FeedTrade) {
    t.coin.Some? && t.coin.value != "" && t.px.Finite? && t.sz.Finite? && t.time.Finite?
  }

  /** The trade as a candle builder sees it; a rejected trade goes to no bucket. */
  function PointOf(t: FeedTrade): (p: Point<Key>)
    ensures p.key.Some? <==> Accepted(t)
    ensures Accepted(t) ==> p.key.value.0 == t.coin.value && p.key.value.1 % 60 == 0 &&
                            p.key.value.1 as real <= t.time.value / 1000.0 < (p.key.value.1 + 60) as real
  {
    if Accepted(t) then Point(Some((t.coin.value, MinuteBucket(t.time.value))), t.time.value, Fill(t.px.value, t.sz.value))
    else Point(None, 0.0, Fill(0.0, 0.0))
  }

  /** `Math.floor(now / 1000) - 120`. */
  function Cutoff(nowMs: real): int {
    (nowMs / 1000.0).Floor - RETENTION_SECONDS
  }

  /** The buffer with exactly the candles older than `cutoff` removed. */
  function Recent(b: map<Key, Ohlcv>, cutoff: int): (r: map<Key, Ohlcv>)
    ensures forall k :: k in r <==> k in b && k.1 >= cutoff
    ensures forall k :: k in r ==> r[k] == b[k]
  {
    map k | k in b && k.1 >= cutoff :: b[k]
  }

  /** The flush statement: `INSERT ... ON CONFLICT (symbol, interval, time) DO UPDATE`,
      over a batch with one row per key. */
  function UpsertBatch(store: map<Key, Ohlcv>, batch: map<Key, Ohlcv>): (r: map<Key, Ohlcv>)
    ensures r.Keys == store.Keys + batch.Keys
    ensures forall k :: k in r ==> r[k] == if k !in batch then store[k] else if k in store then Upsert(store[k], batch[k]) else batch[k]
  {
    map k | k in store.Keys + batch.Keys ::
      if k !in batch then store[k] else if k in store then Upsert(store[k], batch[k]) else batch[k]
  }

  class Aggregator {
    var buffer: map<Key, Ohlcv>
    var timerActive: bool
    var inflight: bool
    /** Set once by the constructor. */
    const flushIntervalMs: real
    const maxBufferSize: real
    var lastFlushAt: Option<real>
    var lastFlushCount: nat
    var lastFlushReason: Option<FlushReason>

    /** Every buffered candle has a non-empty symbol, a minute-aligned bucket, and open
        and close between low and high. */
    ghost predicate Valid()
      reads this
    {
      forall k | k in buffer :: k.0 != "" && k.1 % 60 == 0 && Ranged(buffer[k])
    }

    /** Options absent (`undefined`) take the defaults: 20 s between flushes and 1000
        buffered candles. */
    constructor (flushInterval: Option<real>, maxBuffer: Option<real>)
      ensures Valid()
      ensures buffer == map[] && !timerActive && !inflight
      ensures flushIntervalMs == (if flushInterval.Some? then flushInterval.value else DEFAULT_FLUSH_MS)
      ensures maxBufferSize == (if maxBuffer.Some? then maxBuffer.value else DEFAULT_MAX_BUFFER)
      ensures lastFlushAt == None && lastFlushCount == 0 && lastFlushReason == None
    {
      buffer := map[];
      timerActive := false;
      inflight := false;
      flushIntervalMs := if flushInterval.Some? then flushInterval.value else DEFAULT_FLUSH_MS;
      maxBufferSize := if maxBuffer.Some? then maxBuffer.value else DEFAULT_MAX_BUFFER;
      lastFlushAt := None;
      lastFlushCount := 0;
      lastFlushReason := None;
    }

    /** `addTrade`: a rejected trade changes nothing; an accepted one starts or extends
        the candle of its (symbol, minute). The result says whether the buffer reached
        its limit, in which case the source starts a `'buffer'` flush. */
    method AddTrade(t: FeedTrade) returns (flushRequested: bool)
      modifies this
      requires Valid()
      ensures Valid()
      ensures !Accepted(t) ==> buffer == old(buffer) && !flushRequested
      ensures Accepted(t) ==> buffer == AddPoint(old(buffer), PointOf(t))
      ensures Accepted(t) ==> flushRequested == (|buffer| as real >= maxBufferSize)
      ensures timerActive == old(timerActive) && inflight == old(inflight)
      ensures lastFlushAt == old(lastFlushAt) && lastFlushCount == old(lastFlushCount) && lastFlushReason == old(lastFlushReason)
    {
      if !Accepted(t) {
        return false;
      }
      var key := (t.coin.value, MinuteBucket(t.time.value));
      var f := Fill(t.px.value, t.sz.value);
      if key !in buffer {
        buffer := buffer[key := Candles.Start(f)];
      } else {
        buffer := buffer[key := Absorb(buffer[key], f)];
      }
      flushRequested := |buffer| as real >= maxBufferSize;
    }

    /** `start`: arm the flush timer unless it is armed already. */
    method Start()
      modifies this
      ensures timerActive
      ensures old(timerActive) ==> unchanged(this)
      ensures buffer == old(buffer) && inflight == old(inflight)
      ensures lastFlushAt == old(lastFlushAt) && lastFlushCount == old(lastFlushCount) && lastFlushReason == old(lastFlushReason)
    {
      if timerActive {
        return;
      }
      timerActive := true;
    }

    /** `stop`: disarm the flush timer. */
    method Stop()
      modifies this
      ensures !timerActive
      ensures buffer == old(buffer) && inflight == old(inflight)
      ensures lastFlushAt == old(lastFlushAt) && lastFlushCount == old(lastFlushCount) && lastFlushReason == old(lastFlushReason)
    {
      timerActive := false;
    }

    /** `cleanupBuffer`: drop exactly the candles whose bucket is before the cutoff. */
    method CleanupBuffer(nowMs: real)
      modifies this
      requires Valid()
      ensures Valid()
      ensures buffer == Recent(old(buffer), Cutoff(nowMs))
      ensures timerActive == old(timerActive) && inflight == old(inflight)
      ensures lastFlushAt == old(lastFlushAt) && lastFlushCount == old(lastFlushCount) && lastFlushReason == old(lastFlushReason)
    {
      var cutoff := Cutoff(nowMs);
      var pending := buffer.Keys;
      ghost var b0 := buffer;
      while pending != {}
        invariant pending <= b0.Keys
        invariant forall k :: k in buffer <==> k in b0 && (k in pending || k.1 >= cutoff)
        invariant forall k :: k in buffer ==> buffer[k] == b0[k]
        invariant timerActive == old(timerActive) && inflight == old(inflight)
        invariant lastFlushAt == old(lastFlushAt) && lastFlushCount == old(lastFlushCount) && lastFlushReason == old(lastFlushReason)
        decreases pending
      {
        var k :| k in pending;
        if k.1 < cutoff {
          buffer := buffer - {k};
        }
        pending := pending - {k};
      }
      assert buffer == Recent(b0, cutoff);
    }

    /** The synchronous start of `flushCandles`: nothing while a flush is in flight or
        the buffer is empty; otherwise mark a flush in flight and hand over the whole
        buffer as the batch. */
    method BeginFlush() returns (batch: Option<map<Key, Ohlcv>>)
      modifies this
      ensures old(inflight) || old(buffer) == map[] ==> batch == None && unchanged(this)
      ensures !old(inflight) && old(buffer) != map[] ==> batch == Some(old(buffer)) && inflight
      ensures buffer == old(buffer) && timerActive == old(timerActive)
      ensures lastFlushAt == old(lastFlushAt) && lastFlushCount == old(lastFlushCount) && lastFlushReason == old(lastFlushReason)
    {
      if inflight {
        return None;
      }
      if |buffer| == 0 {
        return None;
      }
      inflight := true;
      batch := Some(buffer);
    }

    /** The rest of `flushCandles` once the statement has run (`ok`) or failed: on
        success the old candles leave the buffer and the flush is recorded; either way
        the flush is no longer in flight. Candles still inside the retention window stay
        buffered. */
    method CompleteFlush(batch: map<Key, Ohlcv>, reason: FlushReason, ok: bool, nowMs: real)
      modifies this
      requires Valid()
      ensures Valid()
      ensures !inflight && timerActive == old(timerActive)
      ensures ok ==> buffer == Recent(old(buffer), Cutoff(nowMs)) && lastFlushAt == Some(nowMs) &&
                     lastFlushCount == |batch| && lastFlushReason == Some(reason)
      ensures !ok ==> buffer == old(buffer) && lastFlushAt == old(lastFlushAt) &&
                      lastFlushCount == old(lastFlushCount) && lastFlushReason == old(lastFlushReason)
    {
      if ok {
        CleanupBuffer(nowMs);
        lastFlushAt := Some(nowMs);
        lastFlushCount := |batch|;
        lastFlushReason := Some(reason);
      }
      inflight := false;
    }
  }

  // ---------------------------------------------------------------------------
  // What the buffer and the candle table hold
  // ---------------------------------------------------------------------------

  /** Feeding trades one by one into an empty buffer leaves one candle per (symbol,
      minute) that received an accepted trade, and that candle is the summary of those
      trades in arrival order: first price, highest, lowest, last price, total size. */
  lemma BufferHoldsSummaries(ts: seq<FeedTrade>)
    ensures forall k :: k in Accumulate(map[], Mapped(ts, PointOf)) <==> |FillsOf(Mapped(ts, PointOf), k)| > 0
    ensures forall k :: k in Accumulate(map[], Mapped(ts, PointOf)) ==>
      var fs := FillsOf(Mapped(ts, PointOf), k);
      Accumulate(map[], Mapped(ts, PointOf))[k] == Summary(fs) &&
      Summary(fs) == Ohlcv(fs[0].price, HighOf(fs), LowOf(fs), fs[|fs| - 1].price, VolumeOf(fs))
  {
    var ps := Mapped(ts, PointOf);
    var empty: map<Key, Ohlcv> := map[];
    AccumulateFresh(ps);
    forall k ensures k in Accumulate(empty, ps) <==> |FillsOf(ps, k)| > 0 {
      assert k in Accumulate(empty, ps) ==> |FillsOf(ps, k)| > 0;
      assert |FillsOf(ps, k)| > 0 ==> k in Accumulate(empty, ps);
    }
    forall k | |FillsOf(Mapped(ts, PointOf), k)| > 0
      ensures var fs := FillsOf(Mapped(ts, PointOf), k);
        Summary(fs) == Ohlcv(fs[0].price, HighOf(fs), LowOf(fs), fs[|fs| - 1].price, VolumeOf(fs))
    {
      SummaryMeaning(FillsOf(Mapped(ts, PointOf), k));
    }
  }

  /** Flushing a bucket's candle, then (still inside the retention window) flushing it
      again after more trades, leaves the table with the earlier trades' volume counted
      twice: the buffer still holds them and the upsert adds volumes. High, low and
      close come out right. */
  lemma ReflushOverCounts(store: map<Key, Ohlcv>, k: Key, earlier: seq<Fill>, later: seq<Fill>)
    requires k !in store && |earlier| > 0
    ensures var once := UpsertBatch(store, map[k := Summary(earlier)]);
      var twice := UpsertBatch(once, map[k := Summary(earlier + later)]);
      && twice[k].volume == VolumeOf(earlier + later) + VolumeOf(earlier)
      && twice[k] == Summary(earlier + later).(volume := twice[k].volume)
  {
    var s1 := Summary(earlier);
    var s2 := Summary(earlier + later);
    SummaryMeaning(earlier);
    SummaryMeaning(earlier + later);
    assert (earlier + later)[0] == earlier[0];
    if later == [] {
      assert earlier + later == earlier;
    } else {
      UpsertConcatenates(earlier, later);
      SummaryMeaning(later);
      assert Upsert(s1, s2).high == Max(s1.high, Upsert(s1, Summary(later)).high);
    }
  }

  /** Were each flushed trade sent only once (the buffer emptied of what it flushed),
      the table would hold the exact candle of all the bucket's trades. */
  lemma SingleDeliveryIsExact(store: map<Key, Ohlcv>, k: Key, earlier: seq<Fill>, later: seq<Fill>)
    requires k !in store && |earlier| > 0 && |later| > 0
    ensures var once := UpsertBatch(store, map[k := Summary(earlier)]);
      UpsertBatch(once, map[k := Summary(later)])[k] == Summary(earlier + later)
  {
    UpsertConcatenates(earlier, later);
  }
}
