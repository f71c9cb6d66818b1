/** The chart's client-side candle aggregation: trades are sorted by time, bucketed by
    the chart interval, folded into candles, listed by ascending bucket and converted to
    seconds, with a repair step for candles whose high or low does not cover the open
    and close. */
module ChartUtils {
  import opened Common
  import opened Candles
  import opened Types

  const MINUTE_MS: int := 60 * 1000

  /** The intervals the chart offers, narrowest first. */
  const INTERVALS: seq<string> := ["1m", "3m", "5m", "15m", "30m", "1h", "2h", "4h", "8h", "12h", "1d", "3d", "1w", "1M"]

  /** `getIntervalMs`: the width of an interval in milliseconds; one minute for an
      interval not listed. */
  function IntervalMs(interval: string): (r: int)
    ensures r > 0 && r % MINUTE_MS == 0
    ensures interval !in INTERVALS ==> r == MINUTE_MS
  {
    match interval
    case "1m" => MINUTE_MS
    case "3m" => 3 * MINUTE_MS
    case "5m" => 5 * MINUTE_MS
    case "15m" => 15 * MINUTE_MS
    case "30m" => 30 * MINUTE_MS
    case "1h" => 60 * MINUTE_MS
    case "2h" => 120 * MINUTE_MS
    case "4h" => 240 * MINUTE_MS
    case "8h" => 480 * MINUTE_MS
    case "12h" => 720 * MINUTE_MS
    case "1d" => 1440 * MINUTE_MS
    case "3d" => 4320 * MINUTE_MS
    case "1w" => 10080 * MINUTE_MS
    case "1M" => 43200 * MINUTE_MS
    case _ => MINUTE_MS
  }

  /** A candle as the chart takes it: the bucket start in whole seconds and the candle. */
  datatype CandleData = CandleData(time: int, candle: Ohlcv)

  /** `getTradeTimestampMs`: the trade's `timeMs` when it is finite. */
  function Timestamp(t: ProcessedTrade): Option<real> {
    if t.timeMs.Finite? then Some(t.timeMs.value) else None
  }

  /** The sort key `getTradeTimestampMs(t) ?? 0`. */
  function SortKey(t: ProcessedTrade): real {
    if t.timeMs.Finite? then t.timeMs.value else 0.0
  }

  /** The trade is aggregated: it has a timestamp and a finite price. */
  predicate Charted(t: ProcessedTrade) {
    t.timeMs.Finite? && t.price.Finite?
  }

  /** The bucket of a trade for buckets `width` milliseconds wide; a skipped trade goes
      to none. */
  function ChartPoint(t: ProcessedTrade, width: int): (p: Point<int>)
    requires width > 0
    ensures p.at == SortKey(t)
    ensures p.key.Some? <==> Charted(t)
    ensures p.key.Some? ==> p.key.value % width == 0 && p.key.value as real <= t.timeMs.value < (p.key.value + width) as real
    ensures p.key.Some? ==> p.fill == Fill(t.price.value, t.size)
  {
    if Charted(t) then Point(Some(Bucket(t.timeMs.value, width)), SortKey(t), Fill(t.price.value, t.size))
    else Point(None, SortKey(t), Fill(0.0, t.size))
  }

  function PointsAt(width: int): ProcessedTrade -> Point<int>
    requires width > 0
  {
    t => ChartPoint(t, width)
  }

  /** The trades in the order they are folded, as points of the interval's buckets. */
  function ChartTimeline(trades: seq<ProcessedTrade>, interval: string): seq<Point<int>> {
    Mapped(SortBy(trades, SortKey), PointsAt(IntervalMs(interval)))
  }

  function EntryTime(e: (int, Ohlcv)): real {
    e.0 as real
  }

  /** The validation step of the output `map`: a high below the open or close is raised
      to cover them, a low above them lowered. */
  function Repair(c: Ohlcv): (r: Ohlcv)
    ensures Ranged(r)
    ensures r.open == c.open && r.close == c.close && r.volume == c.volume
    ensures r.high >= c.high && r.low <= c.low
    ensures Ranged(c) ==> r == c
  {
    var high := if c.high < Max(c.open, c.close) then Max(c.high, Max(c.open, c.close)) else c.high;
    var low := if c.low > Min(c.open, c.close) then Min(c.low, Min(c.open, c.close)) else c.low;
    c.(high := high, low := low)
  }

  /** `aggregateTradesToCandles`: one candle per bucket of the interval that received a
      charted trade, holding the fold of that bucket's trades in time order, the
      candles strictly ascending by time, each time the bucket start in seconds. */
  method AggregateTradesToCandles(trades: seq<ProcessedTrade>, interval: string) returns (candles: seq<CandleData>)
    ensures trades == [] ==> candles == []
    ensures forall i, j :: 0 <= i < j < |candles| ==> candles[i].time < candles[j].time
    ensures forall i :: 0 <= i < |candles| ==> (candles[i].time * 1000) % IntervalMs(interval) == 0
    ensures forall i :: 0 <= i < |candles| ==>
      var fs := FillsOf(ChartTimeline(trades, interval), candles[i].time * 1000);
      |fs| > 0 && candles[i].candle == Summary(fs)
    ensures forall b :: |FillsOf(ChartTimeline(trades, interval), b)| > 0 ==>
      exists i :: 0 <= i < |candles| && candles[i].time * 1000 == b
  {
    if |trades| == 0 {
      return [];
    }
    var width := IntervalMs(interval);
    var sorted := SortBy(trades, SortKey);
    var buckets, order := FoldBuckets(sorted, width);
    forall j | 0 <= j < |order| ensures order[j] in buckets {
      AccumulateKeys(Mapped(sorted, PointsAt(width)), order[j]);
    }
    var entries := SortBy(EntriesOf(buckets, order), EntryTime);
    candles := seq(|entries|, j requires 0 <= j < |entries| => CandleData(entries[j].0 / 1000, Repair(entries[j].1)));
    CandlesBuilt(trades, interval, buckets, order, entries, candles);
  }

  /** `candles` is the candle list of `trades` at `interval`: strictly ascending by
      time, each time a bucket start in seconds holding the summary of that bucket's
      fills, and every bucket that received a fill present. */
  ghost predicate CandlesOf(trades: seq<ProcessedTrade>, interval: string, candles: seq<CandleData>) {
    && (forall i, j :: 0 <= i < j < |candles| ==> candles[i].time < candles[j].time)
    && (forall i :: 0 <= i < |candles| ==> (candles[i].time * 1000) % IntervalMs(interval) == 0)
    && (forall i :: 0 <= i < |candles| ==>
          var fs := FillsOf(ChartTimeline(trades, interval), candles[i].time * 1000);
          |fs| > 0 && candles[i].candle == Summary(fs))
    && (forall b :: |FillsOf(ChartTimeline(trades, interval), b)| > 0 ==>
          exists i :: 0 <= i < |candles| && candles[i].time * 1000 == b)
  }

  /** The times of a candle list. */
  function TimesOf(cs: seq<CandleData>): set<int> {
    set i | 0 <= i < |cs| :: cs[i].time
  }

  /** Only the empty list has no times. */
  lemma TimesEmpty(cs: seq<CandleData>)
    ensures cs == [] <==> TimesOf(cs) == {}
  {
    if cs != [] {
      assert cs[0].time in TimesOf(cs);
    }
  }

  /** Dropping the first candle of a strictly ascending list drops exactly its time. */
  lemma TimesTail(cs: seq<CandleData>)
    requires cs != []
    requires forall i, j :: 0 <= i < j < |cs| ==> cs[i].time < cs[j].time
    ensures TimesOf(cs[1..]) == TimesOf(cs) - {cs[0].time}
  {
    forall x | x in TimesOf(cs[1..]) ensures x in TimesOf(cs) - {cs[0].time} {
      var i :| 0 <= i < |cs[1..]| && cs[1..][i].time == x;
      assert cs[i + 1].time == x;
    }
    forall x | x in TimesOf(cs) - {cs[0].time} ensures x in TimesOf(cs[1..]) {
      var i :| 0 <= i < |cs| && cs[i].time == x;
      assert cs[1..][i - 1].time == x;
    }
  }

  /** Two strictly ascending candle lists with the same times have them at the same
      places. */
  lemma {:induction false} SameTimes(a: seq<CandleData>, b: seq<CandleData>)
    requires forall i, j :: 0 <= i < j < |a| ==> a[i].time < a[j].time
    requires forall i, j :: 0 <= i < j < |b| ==> b[i].time < b[j].time
    requires TimesOf(a) == TimesOf(b)
    ensures |a| == |b| && forall i :: 0 <= i < |a| ==> a[i].time == b[i].time
    decreases |a|
  {
    TimesEmpty(a);
    TimesEmpty(b);
    if a != [] {
      assert a[0].time in TimesOf(b);
      assert b[0].time in TimesOf(a);
      TimesTail(a);
      TimesTail(b);
      SameTimes(a[1..], b[1..]);
      forall i | 1 <= i < |a| ensures a[i].time == b[i].time {
        assert a[1..][i - 1] == a[i] && b[1..][i - 1] == b[i];
      }
    }
  }

  /** The candle list of a batch of trades is determined by the batch and the
      interval: whatever builds it, it is the same list. */
  lemma CandlesOfUnique(trades: seq<ProcessedTrade>, interval: string, a: seq<CandleData>, b: seq<CandleData>)
    requires CandlesOf(trades, interval, a) && CandlesOf(trades, interval, b)
    ensures a == b
  {
    var tl := ChartTimeline(trades, interval);
    TimesCovered(tl, a, b);
    TimesCovered(tl, b, a);
    SameTimes(a, b);
  }

  /** Every time of `a` is a bucket of the timeline with a fill, and `b` covers every
      such bucket; so `b` has every time `a` has. */
  lemma TimesCovered(tl: seq<Point<int>>, a: seq<CandleData>, b: seq<CandleData>)
    requires forall i :: 0 <= i < |a| ==> |FillsOf(tl, a[i].time * 1000)| > 0
    requires forall c :: |FillsOf(tl, c)| > 0 ==> exists j :: 0 <= j < |b| && b[j].time * 1000 == c
    ensures TimesOf(a) <= TimesOf(b)
  {
    forall x | x in TimesOf(a) ensures x in TimesOf(b) {
      var i :| 0 <= i < |a| && a[i].time == x;
      assert |FillsOf(tl, x * 1000)| > 0;
      var j :| 0 <= j < |b| && b[j].time * 1000 == x * 1000;
    }
  }

  /** The loop of `aggregateTradesToCandles`: each charted trade, in the given order,
      starts or extends the candle of its bucket, and new buckets are listed in the
      order they are first seen. */
  method FoldBuckets(sorted: seq<ProcessedTrade>, width: int) returns (buckets: map<int, Ohlcv>, order: seq<int>)
    requires width > 0
    ensures buckets == Accumulate(map[], Mapped(sorted, PointsAt(width)))
    ensures order == KeysOf(Mapped(sorted, PointsAt(width)))
  {
    ghost var ps := Mapped(sorted, PointsAt(width));
    buckets, order := map[], [];
    var i := 0;
    while i < |sorted|
      invariant 0 <= i <= |sorted|
      invariant buckets == Accumulate(map[], ps[..i])
      invariant order == KeysOf(ps[..i])
    {
      var t := sorted[i];
      AccumulateStep(ps, i);
      assert ps[i] == ChartPoint(t, width);
      var timestamp := Timestamp(t);
      if timestamp.Some? && t.price.Finite? {
        var b := Bucket(timestamp.value, width);
        AccumulateKeys(ps[..i], b);
        var f := Fill(t.price.value, t.size);
        assert ps[i].key == Some(b) && ps[i].fill == f;
        if b !in buckets {
          buckets := buckets[b := Candles.Start(f)];
          order := order + [b];
        } else {
          buckets := buckets[b := Absorb(buckets[b], f)];
        }
      }
      i := i + 1;
    }
    assert ps[..i] == ps;
  }

  /** The candles made from the accumulated buckets of the chart timeline are the
      ascending, aligned, complete list of its bucket summaries. */
  lemma CandlesBuilt(trades: seq<ProcessedTrade>, interval: string, buckets: map<int, Ohlcv>, order: seq<int>,
                     entries: seq<(int, Ohlcv)>, candles: seq<CandleData>)
    requires buckets == Accumulate(map[], ChartTimeline(trades, interval))
    requires order == KeysOf(ChartTimeline(trades, interval))
    requires forall j :: 0 <= j < |order| ==> order[j] in buckets
    requires entries == SortBy(EntriesOf(buckets, order), EntryTime)
    requires |candles| == |entries|
    requires forall j :: 0 <= j < |entries| ==> candles[j] == CandleData(entries[j].0 / 1000, Repair(entries[j].1))
    ensures forall i, j :: 0 <= i < j < |candles| ==> candles[i].time < candles[j].time
    ensures forall i :: 0 <= i < |candles| ==> (candles[i].time * 1000) % IntervalMs(interval) == 0
    ensures forall i :: 0 <= i < |candles| ==>
      var fs := FillsOf(ChartTimeline(trades, interval), candles[i].time * 1000);
      |fs| > 0 && candles[i].candle == Summary(fs)
    ensures forall b :: |FillsOf(ChartTimeline(trades, interval), b)| > 0 ==>
      exists i :: 0 <= i < |candles| && candles[i].time * 1000 == b
  {
    var width := IntervalMs(interval);
    var sorted := SortBy(trades, SortKey);
    var ps := ChartTimeline(trades, interval);
    assert ps == Mapped(sorted, PointsAt(width));
    forall p | p in ps && p.key.Some? ensures p.key.value % width == 0 {
      var j :| 0 <= j < |ps| && ps[j] == p;
      assert p == ChartPoint(sorted[j], width);
    }
    EntriesBuilt(ps, buckets, order, width);
    ToSeconds(ps, entries, candles, width);
  }

  /** The bucket entries, sorted, are listed, ascending and aligned to the width. */
  lemma EntriesBuilt(ps: seq<Point<int>>, buckets: map<int, Ohlcv>, order: seq<int>, width: int)
    requires width > 0
    requires buckets == Accumulate(map[], ps) && order == KeysOf(ps)
    requires forall j :: 0 <= j < |order| ==> order[j] in buckets
    requires forall p :: p in ps && p.key.Some? ==> p.key.value % width == 0
    ensures var es := SortBy(EntriesOf(buckets, order), EntryTime);
      Listed(ps, es) && SortedBy(es, EntryTime) && forall j :: 0 <= j < |es| ==> es[j].0 % width == 0
  {
    var es := SortBy(EntriesOf(buckets, order), EntryTime);
    EntriesListed(ps, buckets, EntriesOf(buckets, order), es);
    forall j | 0 <= j < |es| ensures es[j].0 % width == 0 {
      FillsOfMembers(ps, es[j].0);
      assert FillsOf(ps, es[j].0)[0] in FillsOf(ps, es[j].0);
    }
  }

  /** Converting the listed, ascending, aligned entries to seconds keeps them strictly
      ascending and exact, and the repair leaves every candle as it is. */
  lemma ToSeconds(ps: seq<Point<int>>, es: seq<(int, Ohlcv)>, candles: seq<CandleData>, width: int)
    requires width > 0 && width % MINUTE_MS == 0
    requires Listed(ps, es) && SortedBy(es, EntryTime)
    requires forall j :: 0 <= j < |es| ==> es[j].0 % width == 0
    requires |candles| == |es| && forall j :: 0 <= j < |es| ==> candles[j] == CandleData(es[j].0 / 1000, Repair(es[j].1))
    ensures forall i, j :: 0 <= i < j < |candles| ==> candles[i].time < candles[j].time
    ensures forall i :: 0 <= i < |candles| ==> candles[i].time * 1000 == es[i].0
    ensures forall i :: 0 <= i < |candles| ==>
      var fs := FillsOf(ps, candles[i].time * 1000);
      |fs| > 0 && candles[i].candle == Summary(fs)
    ensures forall b :: |FillsOf(ps, b)| > 0 ==> exists i :: 0 <= i < |candles| && candles[i].time * 1000 == b
  {
    forall i | 0 <= i < |es| ensures candles[i].time * 1000 == es[i].0 {
      WholeSeconds(es[i].0, width);
    }
    forall i | 0 <= i < |es| ensures candles[i].candle == es[i].1 {
      SummaryMeaning(FillsOf(ps, es[i].0));
    }
    forall i, j | 0 <= i < j < |candles| ensures candles[i].time < candles[j].time {
      assert es[i].0 != es[j].0;
    }
    forall b | |FillsOf(ps, b)| > 0 ensures exists i :: 0 <= i < |candles| && candles[i].time * 1000 == b {
      var i :| 0 <= i < |es| && es[i].0 == b;
      assert candles[i].time * 1000 == b;
    }
  }

  /** A multiple of a whole number of minutes is a whole number of seconds. */
  lemma WholeSeconds(x: int, width: int)
    requires width > 0 && width % MINUTE_MS == 0 && x % width == 0
    ensures (x / 1000) * 1000 == x
  {
    var q := x / width;
    var r := width / MINUTE_MS;
    assert x == q * width;
    assert width == r * MINUTE_MS;
    var m := q * r;
    assert x == q * (r * MINUTE_MS);
    assert q * (r * MINUTE_MS) == m * MINUTE_MS;
    assert x == (m * 60) * 1000;
  }

  /** The trade is charted and falls in the bucket starting at `b`. */
  predicate InChartBucket(t: ProcessedTrade, width: int, b: int)
    requires width > 0
  {
    Charted(t) && Bucket(t.timeMs.value, width) == b
  }

  /** What a chart candle means in terms of the trades themselves: open from the
      earliest and close from the latest trade of the bucket, high and low the extreme
      prices, volume the total size, whatever order the trades came in. */
  lemma ChartBucketCandle(trades: seq<ProcessedTrade>, interval: string, b: int)
    requires |FillsOf(ChartTimeline(trades, interval), b)| > 0
    ensures var w := IntervalMs(interval);
      var c := Summary(FillsOf(ChartTimeline(trades, interval), b));
      && Ranged(c)
      && c.volume == BucketVolume(trades, PointsAt(w), b)
      && (exists i :: 0 <= i < |trades| && InChartBucket(trades[i], w, b) && trades[i].price.value == c.open &&
            forall j :: 0 <= j < |trades| && InChartBucket(trades[j], w, b) ==> trades[i].timeMs.value <= trades[j].timeMs.value)
      && (exists i :: 0 <= i < |trades| && InChartBucket(trades[i], w, b) && trades[i].price.value == c.close &&
            forall j :: 0 <= j < |trades| && InChartBucket(trades[j], w, b) ==> trades[j].timeMs.value <= trades[i].timeMs.value)
      && (exists i :: 0 <= i < |trades| && InChartBucket(trades[i], w, b) && trades[i].price.value == c.high)
      && (exists i :: 0 <= i < |trades| && InChartBucket(trades[i], w, b) && trades[i].price.value == c.low)
      && (forall j :: 0 <= j < |trades| && InChartBucket(trades[j], w, b) ==> c.low <= trades[j].price.value <= c.high)
  {
    var w := IntervalMs(interval);
    var pt := PointsAt(w);
    var sorted := SortBy(trades, SortKey);
    SortByLength(trades, SortKey);
    var c := Summary(FillsOf(Mapped(sorted, pt), b));
    SummaryMeaning(FillsOf(Mapped(sorted, pt), b));
    VolumeUnordered(sorted, trades, pt, b);
    forall j | 0 <= j < |trades| && InChartBucket(trades[j], w, b)
      ensures pt(trades[j]).key == Some(b) && pt(trades[j]).fill.price == trades[j].price.value
      ensures pt(trades[j]).at == trades[j].timeMs.value
    {
      assert pt(trades[j]) == ChartPoint(trades[j], w);
    }
    var first := SortedBucketOpen(sorted, trades, SortKey, pt, b);
    assert InChartBucket(trades[first], w, b) by {
      assert pt(trades[first]) == ChartPoint(trades[first], w);
    }
    var last := SortedBucketClose(sorted, trades, SortKey, pt, b);
    assert InChartBucket(trades[last], w, b) by {
      assert pt(trades[last]) == ChartPoint(trades[last], w);
    }
    var hi, lo := SortedBucketExtremes(sorted, trades, SortKey, pt, b);
    assert InChartBucket(trades[hi], w, b) && InChartBucket(trades[lo], w, b) by {
      assert pt(trades[hi]) == ChartPoint(trades[hi], w);
      assert pt(trades[lo]) == ChartPoint(trades[lo], w);
    }
    SortedBucketBounds(sorted, trades, SortKey, pt, b);
  }
}
