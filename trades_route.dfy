/** The market-trades route. POST normalises a batch of feed trades, inserts the new
    ones into the trades table (a trade already stored under the same symbol and hash
    is skipped), and for batches from the mock feed builds one-minute candles from the
    trades it inserted and upserts them into the candle table. */
module TradesRoute {
  import opened Common
  import opened Candles

  datatype Side = B | A

  /** A trade of the request body; `px`, `sz` and `time` after `Number`. */
  datatype RawTrade = RawTrade(coin: Option<string>, hash: Option<string>, side: Option<string>, px: Num, sz: Num, time: Num)

  datatype NormalizedTrade = NormalizedTrade(hash: string, symbol: string, side: Side, price: real, size: real, timeMs: real)

  /** (symbol, bucket start in seconds) */
  type Key = (string, int)

  /** A row of the candle batch: its (symbol, time) and its candle. */
  type CandleRow = (Key, Ohlcv)

  /** (symbol, trade id): the conflict target of the trades table. */
  type TradeKey = (string, string)

  datatype StoredTrade = StoredTrade(trade: NormalizedTrade, source: string)

  /** The answer of POST: `inserted`, and `candlesUpserted` when the body held any trade. */
  datatype PostAnswer = PostAnswer(inserted: nat, candlesUpserted: Option<nat>)

  // ---------------------------------------------------------------------------
  // Normalisation
  // ---------------------------------------------------------------------------

  /** JavaScript truthiness of an optional string. */
  predicate Present(s: Option<string>) {
    s.Some? && s.value != ""
  }

  /** The trade survives normalisation: a coin and a hash, and finite numbers. */
  predicate Usable(t: RawTrade) {
    Present(t.coin) && Present(t.hash) && t.px.Finite? && t.sz.Finite? && t.time.Finite?
  }

  function Normal(t: RawTrade): NormalizedTrade
    requires Usable(t)
  {
    NormalizedTrade(t.hash.value, t.coin.value, if t.side == Some("B") then B else A, t.px.value, t.sz.value, t.time.value)
  }

  /** The normalised trades of a body, in order. */
  function NormalizedOf(ts: seq<RawTrade>): seq<NormalizedTrade> {
    if ts == [] then []
    else NormalizedOf(ts[..|ts| - 1]) + (if Usable(ts[|ts| - 1]) then [Normal(ts[|ts| - 1])] else [])
  }

  /** The normalisation loop of POST. */
  method Normalize(trades: seq<RawTrade>) returns (out: seq<NormalizedTrade>)
    ensures out == NormalizedOf(trades)
  {
    out := [];
    var i := 0;
    while i < |trades|
      invariant 0 <= i <= |trades|
      invariant out == NormalizedOf(trades[..i])
    {
      var t := trades[i];
      assert trades[..i + 1][..i] == trades[..i];
      if Present(t.coin) && Present(t.hash) && t.px.Finite? && t.sz.Finite? && t.time.Finite? {
        var side := if t.side == Some("B") then B else A;
        out := out + [NormalizedTrade(t.hash.value, t.coin.value, side, t.px.value, t.sz.value, t.time.value)];
      }
      i := i + 1;
    }
    assert trades[..i] == trades;
  }

  /** Normalisation keeps exactly the usable trades, each as its normal form, and every
      kept trade has a non-empty hash and symbol. */
  lemma {:induction false} NormalizedMeaning(ts: seq<RawTrade>)
    ensures |NormalizedOf(ts)| <= |ts|
    ensures forall n :: n in NormalizedOf(ts) <==> exists i :: 0 <= i < |ts| && Usable(ts[i]) && Normal(ts[i]) == n
    ensures forall n :: n in NormalizedOf(ts) ==> n.hash != "" && n.symbol != ""
  {
    if ts != [] {
      var init := ts[..|ts| - 1];
      NormalizedMeaning(init);
      assert forall i :: 0 <= i < |init| ==> init[i] == ts[i];
    }
  }

  /** A normalised trade sent back as a body trade. */
  function Raw(n: NormalizedTrade): RawTrade {
    RawTrade(Some(n.symbol), Some(n.hash), Some(if n.side == B then "B" else "A"), Finite(n.price), Finite(n.size), Finite(n.timeMs))
  }

  function RawOf(ns: seq<NormalizedTrade>): (r: seq<RawTrade>)
    ensures |r| == |ns| && forall i :: 0 <= i < |ns| ==> r[i] == Raw(ns[i])
  {
    seq(|ns|, i requires 0 <= i < |ns| => Raw(ns[i]))
  }

  /** Normalisation is idempotent: normalised trades sent again come back unchanged. */
  lemma {:induction false} RenormalizeIsIdentity(ns: seq<NormalizedTrade>)
    requires forall n :: n in ns ==> n.hash != "" && n.symbol != ""
    ensures NormalizedOf(RawOf(ns)) == ns
  {
    if ns != [] {
      var init := ns[..|ns| - 1];
      RenormalizeIsIdentity(init);
      assert RawOf(ns)[..|ns| - 1] == RawOf(init);
    }
  }

  // ---------------------------------------------------------------------------
  // One-minute candles of a batch
  // ---------------------------------------------------------------------------

  function TimeOf(t: NormalizedTrade): real {
    t.timeMs
  }

  /** The bucket of a trade: (symbol, minute start in seconds); a trade without a symbol
      goes to none. */
  function PointOf(t: NormalizedTrade): (p: Point<Key>)
    ensures p.at == t.timeMs && p.fill == Fill(t.price, t.size)
    ensures p.key.Some? <==> t.symbol != ""
    ensures p.key.Some? ==> p.key.value.0 == t.symbol && p.key.value.1 % 60 == 0 &&
                            p.key.value.1 as real <= t.timeMs / 1000.0 < (p.key.value.1 + 60) as real
  {
    Point(if t.symbol != "" then Some((t.symbol, MinuteBucket(t.timeMs))) else None, t.timeMs, Fill(t.price, t.size))
  }

  /** The trade goes to bucket `k`. */
  predicate InBucket(t: NormalizedTrade, k: Key) {
    PointOf(t).key == Some(k)
  }

  /** The batch in the order the builder visits it: ascending `timeMs`. */
  function Timeline(trades: seq<NormalizedTrade>): seq<Point<Key>> {
    Mapped(SortBy(trades, TimeOf), PointOf)
  }

  function RowTime(r: CandleRow): real {
    r.0.1 as real
  }

  /** One row per (symbol, minute) that received a trade, holding the candle of that
      bucket's trades folded in the order of `ps`, rows ascending by time. */
  ghost predicate Built(ps: seq<Point<Key>>, rows: seq<CandleRow>) {
    SortedBy(rows, RowTime) && Listed(ps, rows)
  }

  /** `buildOneMinuteCandles`: one row per (symbol, minute) that received a trade, whose
      candle is the fold of that bucket's trades in ascending time; rows ascending by
      time. */
  method BuildOneMinuteCandles(trades: seq<NormalizedTrade>) returns (rows: seq<CandleRow>)
    ensures trades == [] ==> rows == []
    ensures Built(Timeline(trades), rows)
  {
    if |trades| == 0 {
      return [];
    }
    var sorted := SortBy(trades, TimeOf);
    ghost var ps := Mapped(sorted, PointOf);
    var buckets: map<Key, Ohlcv> := map[];
    var order: seq<Key> := [];
    var i := 0;
    while i < |sorted|
      invariant 0 <= i <= |sorted|
      invariant buckets == Accumulate(map[], ps[..i])
      invariant order == KeysOf(ps[..i])
    {
      var t := sorted[i];
      AccumulateStep(ps, i);
      assert ps[i] == PointOf(t);
      if t.symbol != "" {
        var key := (t.symbol, MinuteBucket(t.timeMs));
        AccumulateKeys(ps[..i], key);
        var f := Fill(t.price, t.size);
        assert ps[i].key == Some(key) && ps[i].fill == f;
        if key !in buckets {
          buckets := buckets[key := Candles.Start(f)];
          order := order + [key];
        } else {
          buckets := buckets[key := Absorb(buckets[key], f)];
        }
      }
      i := i + 1;
    }
    assert ps[..i] == ps;
    forall j | 0 <= j < |order| ensures order[j] in buckets {
      AccumulateKeys(ps, order[j]);
    }
    rows := SortBy(EntriesOf(buckets, order), RowTime);
    RowsBuilt(ps, buckets, order);
  }

  lemma RowsBuilt(ps: seq<Point<Key>>, buckets: map<Key, Ohlcv>, order: seq<Key>)
    requires buckets == Accumulate(map[], ps) && order == KeysOf(ps)
    requires forall j :: 0 <= j < |order| ==> order[j] in buckets
    ensures Built(ps, SortBy(EntriesOf(buckets, order), RowTime))
  {
    EntriesListed(ps, buckets, EntriesOf(buckets, order), SortBy(EntriesOf(buckets, order), RowTime));
  }

  /** The candle a bucket gets from a batch: open the price of a trade of the bucket
      no later than any other, close that of one no earlier than any other, high and
      low the highest and lowest of the bucket's prices, volume the sum of its sizes
      (in any order), and open and close between low and high. */
  lemma BucketCandle(trades: seq<NormalizedTrade>, k: Key)
    requires |FillsOf(Timeline(trades), k)| > 0
    ensures var c := Summary(FillsOf(Timeline(trades), k));
      && Ranged(c)
      && c.volume == BucketVolume(trades, PointOf, k)
      && (exists i :: 0 <= i < |trades| && InBucket(trades[i], k) && trades[i].price == c.open &&
            forall j :: 0 <= j < |trades| && InBucket(trades[j], k) ==> trades[i].timeMs <= trades[j].timeMs)
      && (exists i :: 0 <= i < |trades| && InBucket(trades[i], k) && trades[i].price == c.close &&
            forall j :: 0 <= j < |trades| && InBucket(trades[j], k) ==> trades[j].timeMs <= trades[i].timeMs)
      && (exists i :: 0 <= i < |trades| && InBucket(trades[i], k) && trades[i].price == c.high)
      && (exists i :: 0 <= i < |trades| && InBucket(trades[i], k) && trades[i].price == c.low)
      && (forall j :: 0 <= j < |trades| && InBucket(trades[j], k) ==> c.low <= trades[j].price <= c.high)
  {
    var sorted := SortBy(trades, TimeOf);
    SortByLength(trades, TimeOf);
    SummaryMeaning(FillsOf(Mapped(sorted, PointOf), k));
    VolumeUnordered(sorted, trades, PointOf, k);
    var first := SortedBucketOpen(sorted, trades, TimeOf, PointOf, k);
    var last := SortedBucketClose(sorted, trades, TimeOf, PointOf, k);
    var hi, lo := SortedBucketExtremes(sorted, trades, TimeOf, PointOf, k);
    SortedBucketBounds(sorted, trades, TimeOf, PointOf, k);
  }

  // ---------------------------------------------------------------------------
  // POST
  // ---------------------------------------------------------------------------

  function TradeKeyOf(t: NormalizedTrade): TradeKey {
    (t.symbol, t.hash)
  }

  /** `INSERT INTO trades ... ON CONFLICT (symbol, trade_id) DO NOTHING RETURNING ...`:
      the table after the statement and the trades it inserted, in batch order. A trade
      whose key is stored already, or repeats an earlier trade of the batch, is skipped;
      stored rows never change. */
  function InsertNew(table: map<TradeKey, StoredTrade>, ts: seq<NormalizedTrade>, source: string)
    : (map<TradeKey, StoredTrade>, seq<NormalizedTrade>)
  {
    if ts == [] then (table, [])
    else
      var prior := InsertNew(table, ts[..|ts| - 1], source);
      var t := ts[|ts| - 1];
      if TradeKeyOf(t) in prior.0 then prior
      else (prior.0[TradeKeyOf(t) := StoredTrade(t, source)], prior.1 + [t])
  }

  /** After the insert the table holds its old rows unchanged plus a row for every key of
      the batch; the trades reported inserted are trades of the batch, new to the table,
      one per key, stored as given, and there is one for every key the table gained. */
  lemma {:induction false} InsertNewMeaning(table: map<TradeKey, StoredTrade>, ts: seq<NormalizedTrade>, source: string)
    ensures var r := InsertNew(table, ts, source);
      && (forall key :: key in r.0 <==> key in table || exists t :: t in ts && TradeKeyOf(t) == key)
      && (forall key :: key in table ==> r.0[key] == table[key])
      && (forall i :: 0 <= i < |r.1| ==> (r.1[i] in ts && TradeKeyOf(r.1[i]) !in table &&
                                        r.0[TradeKeyOf(r.1[i])] == StoredTrade(r.1[i], source)))
      && (forall i, j :: 0 <= i < j < |r.1| ==> TradeKeyOf(r.1[i]) != TradeKeyOf(r.1[j]))
      && (forall key :: key in r.0 && key !in table ==> exists i :: 0 <= i < |r.1| && TradeKeyOf(r.1[i]) == key)
  {
    InsertNewTable(table, ts, source);
    InsertNewRows(table, ts, source);
    InsertNewDistinct(table, ts, source);
    InsertNewCovers(table, ts, source);
  }

  /** The table half: old rows unchanged, and a row for every key of the batch. */
  lemma {:induction false} InsertNewTable(table: map<TradeKey, StoredTrade>, ts: seq<NormalizedTrade>, source: string)
    ensures var r := InsertNew(table, ts, source);
      && (forall key :: key in r.0 <==> key in table || exists t :: t in ts && TradeKeyOf(t) == key)
      && (forall key :: key in table ==> r.0[key] == table[key])
  {
    if ts != [] {
      var init := ts[..|ts| - 1];
      var t := ts[|ts| - 1];
      InsertNewTable(table, init, source);
      assert ts == init + [t];
      assert forall x :: x in ts <==> x in init || x == t;
    }
  }

  /** Every trade of `inserted` is a batch trade new to `table`, stored as given in `rows`. */
  predicate StoredNew(table: map<TradeKey, StoredTrade>, ts: seq<NormalizedTrade>, source: string,
                      rows: map<TradeKey, StoredTrade>, inserted: seq<NormalizedTrade>)
  {
    forall i :: 0 <= i < |inserted| ==> (inserted[i] in ts && TradeKeyOf(inserted[i]) !in table &&
                                       TradeKeyOf(inserted[i]) in rows && rows[TradeKeyOf(inserted[i])] == StoredTrade(inserted[i], source))
  }

  /** No two trades of the sequence share a key. */
  predicate DistinctKeys(inserted: seq<NormalizedTrade>) {
    forall i, j :: 0 <= i < j < |inserted| ==> TradeKeyOf(inserted[i]) != TradeKeyOf(inserted[j])
  }

  /** The reported trades are batch trades new to the table, stored as given. */
  lemma {:induction false} InsertNewRows(table: map<TradeKey, StoredTrade>, ts: seq<NormalizedTrade>, source: string)
    ensures StoredNew(table, ts, source, InsertNew(table, ts, source).0, InsertNew(table, ts, source).1)
  {
    if ts != [] {
      var init := ts[..|ts| - 1];
      var t := ts[|ts| - 1];
      InsertNewRows(table, init, source);
      InsertNewTable(table, init, source);
      assert ts == init + [t];
      var prior := InsertNew(table, init, source);
      var r := InsertNew(table, ts, source);
      if TradeKeyOf(t) !in prior.0 {
        assert r.1 == prior.1 + [t];
        assert r.0 == prior.0[TradeKeyOf(t) := StoredTrade(t, source)];
        forall i | 0 <= i < |r.1|
          ensures r.1[i] in ts && TradeKeyOf(r.1[i]) !in table
          ensures TradeKeyOf(r.1[i]) in r.0 && r.0[TradeKeyOf(r.1[i])] == StoredTrade(r.1[i], source)
        {
          if i < |prior.1| {
            assert r.1[i] == prior.1[i];
            assert prior.1[i] in init;
            assert TradeKeyOf(prior.1[i]) in prior.0;
          } else {
            assert r.1[i] == t;
          }
        }
      } else {
        assert r == prior;
        forall i | 0 <= i < |r.1| ensures r.1[i] in ts {
          assert r.1[i] in init;
        }
      }
    }
  }

  /** The reported trades have distinct keys. */
  lemma {:induction false} InsertNewDistinct(table: map<TradeKey, StoredTrade>, ts: seq<NormalizedTrade>, source: string)
    ensures DistinctKeys(InsertNew(table, ts, source).1)
  {
    if ts != [] {
      var init := ts[..|ts| - 1];
      var t := ts[|ts| - 1];
      InsertNewDistinct(table, init, source);
      InsertNewRows(table, init, source);
      var prior := InsertNew(table, init, source);
      var r := InsertNew(table, ts, source);
      if TradeKeyOf(t) !in prior.0 {
        assert r.1 == prior.1 + [t];
        forall i, j | 0 <= i < j < |r.1| ensures TradeKeyOf(r.1[i]) != TradeKeyOf(r.1[j]) {
          assert r.1[i] == prior.1[i];
          if j == |prior.1| {
            assert TradeKeyOf(prior.1[i]) in prior.0;
          } else {
            assert r.1[j] == prior.1[j];
          }
        }
      }
    }
  }

  /** Every key the table gained is the key of a reported trade. */
  lemma {:induction false} InsertNewCovers(table: map<TradeKey, StoredTrade>, ts: seq<NormalizedTrade>, source: string)
    ensures var r := InsertNew(table, ts, source);
      forall key :: key in r.0 && key !in table ==> exists i :: 0 <= i < |r.1| && TradeKeyOf(r.1[i]) == key
  {
    if ts != [] {
      var init := ts[..|ts| - 1];
      var t := ts[|ts| - 1];
      InsertNewCovers(table, init, source);
      var prior := InsertNew(table, init, source);
      if TradeKeyOf(t) !in prior.0 {
        var r := InsertNew(table, ts, source);
        forall key | key in r.0 && key !in table ensures exists i :: 0 <= i < |r.1| && TradeKeyOf(r.1[i]) == key {
          if key == TradeKeyOf(t) {
            assert TradeKeyOf(r.1[|prior.1|]) == key;
          } else {
            var i :| 0 <= i < |prior.1| && TradeKeyOf(prior.1[i]) == key;
            assert TradeKeyOf(r.1[i]) == key;
          }
        }
      }
    }
  }

  /** Sending a batch again inserts nothing: every trade's key is stored by then. */
  lemma ReplayInsertsNothing(table: map<TradeKey, StoredTrade>, ts: seq<NormalizedTrade>, source: string, again: string)
    ensures InsertNew(InsertNew(table, ts, source).0, ts, again).1 == []
  {
    InsertNewMeaning(table, ts, source);
    AllStored(InsertNew(table, ts, source).0, ts, again);
  }

  lemma {:induction false} AllStored(table: map<TradeKey, StoredTrade>, ts: seq<NormalizedTrade>, source: string)
    requires forall t :: t in ts ==> TradeKeyOf(t) in table
    ensures InsertNew(table, ts, source) == (table, [])
  {
    if ts != [] {
      AllStored(table, ts[..|ts| - 1], source);
      assert ts[|ts| - 1] in ts;
    }
  }

  /** The candle statement: each row of the batch is inserted, or merged into the stored
      candle of its (symbol, minute) by the upsert rule. */
  function UpsertRows(store: map<Key, Ohlcv>, rows: seq<CandleRow>): map<Key, Ohlcv> {
    if rows == [] then store
    else
      var prior := UpsertRows(store, rows[..|rows| - 1]);
      var r := rows[|rows| - 1];
      prior[r.0 := if r.0 in prior then Upsert(prior[r.0], r.1) else r.1]
  }

  /** For a batch with one row per key, a key gets its row's candle, merged into the
      stored one when there was one; keys without a row keep their candle. */
  lemma {:induction false} UpsertRowsMeaning(store: map<Key, Ohlcv>, rows: seq<CandleRow>)
    requires forall i, j :: 0 <= i < j < |rows| ==> rows[i].0 != rows[j].0
    ensures forall k :: k in UpsertRows(store, rows) <==> k in store || exists i :: 0 <= i < |rows| && rows[i].0 == k
    ensures forall k :: k in store && (forall i :: 0 <= i < |rows| ==> rows[i].0 != k) ==> UpsertRows(store, rows)[k] == store[k]
    ensures forall i :: 0 <= i < |rows| ==>
      UpsertRows(store, rows)[rows[i].0] ==
        if rows[i].0 in store then Upsert(store[rows[i].0], rows[i].1) else rows[i].1
  {
    if rows != [] {
      var init := rows[..|rows| - 1];
      UpsertRowsMeaning(store, init);
      assert forall i :: 0 <= i < |init| ==> init[i] == rows[i];
      assert forall i :: 0 <= i < |init| ==> init[i].0 != rows[|rows| - 1].0;
    }
  }

  /** The trades and one-minute candle tables. */
  class MarketStore {
    var trades: map<TradeKey, StoredTrade>
    var candles: map<Key, Ohlcv>

    constructor ()
      ensures trades == map[] && candles == map[]
    {
      trades := map[];
      candles := map[];
    }
  }

  /** POST: `body` is the `trades` array of the request (none when it is not an array)
      and `source` its `source` string (none when it is not a string). The answer and
      the candle batch it upserted. */
  method Post(store: MarketStore, body: Option<seq<RawTrade>>, source: Option<string>)
    returns (answer: PostAnswer, batch: seq<CandleRow>)
    modifies store
    ensures var trades := if body.Some? then body.value else [];
      && (trades == [] ==> answer == PostAnswer(0, None))
      && (trades != [] && NormalizedOf(trades) == [] ==> answer == PostAnswer(0, Some(0)))
      && (NormalizedOf(trades) == [] ==> batch == [] && unchanged(store))
    ensures var trades := if body.Some? then body.value else [];
      var src := if source.Some? then source.value else "unknown";
      var r := InsertNew(old(store.trades), NormalizedOf(trades), src);
      NormalizedOf(trades) != [] ==>
        && store.trades == r.0
        && answer == PostAnswer(|r.1|, Some(|batch|))
        && (src == "mock" ==> Built(Timeline(r.1), batch) && (r.1 == [] ==> batch == []))
        && (src != "mock" ==> batch == [])
        && store.candles == UpsertRows(old(store.candles), batch)
  {
    var trades := if body.Some? then body.value else [];
    var src := if source.Some? then source.value else "unknown";
    if |trades| == 0 {
      return PostAnswer(0, None), [];
    }
    var normalized := Normalize(trades);
    if |normalized| == 0 {
      return PostAnswer(0, Some(0)), [];
    }
    var r := InsertNew(store.trades, normalized, src);
    store.trades := r.0;
    var inserted := r.1;
    if src == "mock" {
      batch := BuildOneMinuteCandles(inserted);
    } else {
      batch := [];
    }
    if |batch| > 0 {
      store.candles := UpsertRows(store.candles, batch);
    }
    answer := PostAnswer(|inserted|, Some(|batch|));
  }

  /** Posting the same batch twice: the second post inserts no trade and upserts no
      candle, so no trade's size reaches the candle table twice. */
  method PostTwice(store: MarketStore, body: Option<seq<RawTrade>>, source: Option<string>)
    returns (first: PostAnswer, second: PostAnswer, replayed: seq<CandleRow>)
    modifies store
    ensures second == PostAnswer(0, if first.candlesUpserted.Some? then Some(0) else None)
    ensures replayed == []
  {
    var b1;
    first, b1 := Post(store, body, source);
    var trades := if body.Some? then body.value else [];
    var src := if source.Some? then source.value else "unknown";
    if NormalizedOf(trades) != [] {
      ReplayInsertsNothing(old(store.trades), NormalizedOf(trades), src, src);
    }
    second, replayed := Post(store, body, source);
  }
}
