/** The chart's candle state: candles loaded from the database, a baseline time (the
    last candle time trusted, in seconds), and a count of feed trades already charted.
    Realtime candles built from the trades not yet charted are merged into the list
    against the baseline. */
module ChartData {
  import opened Common
  import opened Types
  import opened ChartUtils
  import opened RecentTrades

  /** The merge's working state: the candle list and the baseline. */
  datatype View = View(candles: seq<CandleData>, baseline: Option<int>)

  /** One realtime candle merged in: with no baseline, or newer than it, the candle is
      appended and becomes the baseline; at the baseline it replaces the last candle
      (on an empty list the write lands on index -1, which is not an element); older
      than the baseline it is ignored. */
  function MergeOne(v: View, c: CandleData): View {
    if v.baseline.None? || c.time > v.baseline.value then View(v.candles + [c], Some(c.time))
    else if c.time == v.baseline.value && |v.candles| > 0 then View(v.candles[|v.candles| - 1 := c], v.baseline)
    else v
  }

  /** The realtime candles merged in, in order. */
  function MergeAll(v: View, incoming: seq<CandleData>): View {
    if incoming == [] then v else MergeOne(MergeAll(v, incoming[..|incoming| - 1]), incoming[|incoming| - 1])
  }

  /** The baseline never moves back, and once a candle has been merged there is one. */
  lemma {:induction false} MergeBaselineMonotone(v: View, incoming: seq<CandleData>)
    ensures var r := MergeAll(v, incoming);
      && (v.baseline.Some? ==> r.baseline.Some? && r.baseline.value >= v.baseline.value)
      && (incoming != [] ==> r.baseline.Some?)
    decreases |incoming|
  {
    if incoming != [] {
      MergeBaselineMonotone(v, incoming[..|incoming| - 1]);
    }
  }

  /** The merge grows the list and leaves every candle but the last where it was. */
  lemma {:induction false} MergeKeepsEarlier(v: View, incoming: seq<CandleData>)
    ensures var r := MergeAll(v, incoming);
      && |r.candles| >= |v.candles|
      && forall i :: 0 <= i < |v.candles| - 1 ==> r.candles[i] == v.candles[i]
    decreases |incoming|
  {
    if incoming != [] {
      MergeKeepsEarlier(v, incoming[..|incoming| - 1]);
    }
  }

  /** Candles older than the baseline change nothing. */
  lemma {:induction false} MergeIgnoresStale(v: View, incoming: seq<CandleData>)
    requires v.baseline.Some?
    requires forall i :: 0 <= i < |incoming| ==> incoming[i].time < v.baseline.value
    ensures MergeAll(v, incoming) == v
    decreases |incoming|
  {
    if incoming != [] {
      MergeIgnoresStale(v, incoming[..|incoming| - 1]);
    }
  }

  /** The list ascends strictly by time and the baseline is the last candle's time,
      none for an empty list. */
  predicate Coherent(v: View) {
    && (forall i, j :: 0 <= i < j < |v.candles| ==> v.candles[i].time < v.candles[j].time)
    && v.baseline == (if v.candles == [] then None else Some(v.candles[|v.candles| - 1].time))
  }

  /** A coherent list stays coherent whatever realtime candles arrive. */
  lemma {:induction false} MergeKeepsCoherent(v: View, incoming: seq<CandleData>)
    requires Coherent(v)
    ensures Coherent(MergeAll(v, incoming))
    decreases |incoming|
  {
    if incoming != [] {
      MergeKeepsCoherent(v, incoming[..|incoming| - 1]);
    }
  }

  /** On a coherent list, every ascending realtime candle not older than the baseline
      ends up in the list. */
  lemma {:induction false} MergeAccepts(v: View, incoming: seq<CandleData>)
    requires Coherent(v)
    requires forall i, j :: 0 <= i < j < |incoming| ==> incoming[i].time < incoming[j].time
    ensures forall i :: 0 <= i < |incoming| && (v.baseline.None? || incoming[i].time >= v.baseline.value) ==>
      incoming[i] in MergeAll(v, incoming).candles
    decreases |incoming|
  {
    if incoming != [] {
      var n := |incoming| - 1;
      var front := incoming[..n];
      var w := MergeAll(v, front);
      var c := incoming[n];
      MergeAccepts(v, front);
      MergeKeepsCoherent(v, front);
      MergeBaselineMonotone(v, front);
      forall i | 0 <= i < n && (v.baseline.None? || incoming[i].time >= v.baseline.value)
        ensures incoming[i] in MergeAll(v, incoming).candles
      {
        assert front[i] == incoming[i];
        var k :| 0 <= k < |w.candles| && w.candles[k] == incoming[i];
        if w.baseline.Some? && c.time == w.baseline.value && |w.candles| > 0 {
          assert w.candles[k].time < c.time;
          assert k != |w.candles| - 1;
          assert MergeAll(v, incoming).candles[k] == incoming[i];
        }
      }
      if v.baseline.None? || c.time >= v.baseline.value {
        SameOrNewer(v, incoming);
      }
    }
  }

  /** The last candle of an ascending batch is at or after the baseline the earlier
      ones left, when it is at or after the starting one. */
  lemma SameOrNewer(v: View, incoming: seq<CandleData>)
    requires Coherent(v) && incoming != []
    requires forall i, j :: 0 <= i < j < |incoming| ==> incoming[i].time < incoming[j].time
    requires v.baseline.None? || incoming[|incoming| - 1].time >= v.baseline.value
    ensures incoming[|incoming| - 1] in MergeAll(v, incoming).candles
  {
    var n := |incoming| - 1;
    var c := incoming[n];
    var w := MergeAll(v, incoming[..n]);
    BaselineFromBatch(v, incoming[..n]);
    MergeKeepsCoherent(v, incoming[..n]);
    if w.baseline.Some? {
      if w.baseline != v.baseline {
        var i :| 0 <= i < n && w.baseline == Some(incoming[..n][i].time);
        assert incoming[..n][i] == incoming[i];
      }
      assert c.time >= w.baseline.value;
      assert |w.candles| > 0;
    }
    assert MergeAll(v, incoming) == MergeOne(w, c);
  }

  /** The baseline after a batch is the starting one or the time of one of the batch's
      candles. */
  lemma {:induction false} BaselineFromBatch(v: View, incoming: seq<CandleData>)
    ensures var b := MergeAll(v, incoming).baseline;
      b == v.baseline || exists i :: 0 <= i < |incoming| && b == Some(incoming[i].time)
    decreases |incoming|
  {
    if incoming != [] {
      var n := |incoming| - 1;
      BaselineFromBatch(v, incoming[..n]);
      var b := MergeAll(v, incoming[..n]).baseline;
      if b != v.baseline {
        var i :| 0 <= i < n && b == Some(incoming[..n][i].time);
        assert incoming[..n][i] == incoming[i];
      }
    }
  }

  /** `trades.slice(processedCount)`: the feed trades at or after the processed count. */
  function Unprocessed(trades: seq<ProcessedTrade>, count: nat): (r: seq<ProcessedTrade>)
    ensures |r| == if count < |trades| then |trades| - count else 0
    ensures forall i :: 0 <= i < |r| ==> r[i] == trades[count + i]
  {
    if count < |trades| then trades[count..] else []
  }

  /** The recent-trades list is newest first, so slicing it at the count charted so far
      picks its oldest entries, not the trades just put in front; and once the list is
      full, nothing is left to chart. */
  lemma SliceTakesOldest(batch: seq<TradeData>, prev: seq<ProcessedTrade>, counter: nat)
    requires |prev| <= MAX_TRADES
    ensures var next := Prepend(Stamped(batch, counter), prev);
      && (|batch| + |prev| <= MAX_TRADES ==> |Unprocessed(next, |prev|)| == |batch|)
      && (|batch| <= |prev| && |batch| + |prev| <= MAX_TRADES ==> Unprocessed(next, |prev|) == prev[|prev| - |batch|..])
      && (|prev| == MAX_TRADES ==> Unprocessed(next, |prev|) == [])
  {
    var next := Prepend(Stamped(batch, counter), prev);
    if |batch| <= |prev| && |batch| + |prev| <= MAX_TRADES {
      assert |next| == |batch| + |prev|;
      var r := Unprocessed(next, |prev|);
      forall i | 0 <= i < |batch| ensures r[i] == prev[|prev| - |batch| + i] {
        assert r[i] == next[|prev| + i];
      }
    }
  }

  /** The hook's state. */
  class ChartFeed {
    var candles: seq<CandleData>
    var baseline: Option<int>
    var processedCount: nat
    var loading: bool

    constructor ()
      ensures candles == [] && baseline == None && processedCount == 0 && loading
    {
      candles := [];
      baseline := None;
      processedCount := 0;
      loading := true;
    }

    /** The `setCandles` updater: the realtime candles merged in order into the list,
        the baseline moving with them. */
    method Merge(incoming: seq<CandleData>)
      modifies this
      ensures View(candles, baseline) == MergeAll(View(old(candles), old(baseline)), incoming)
      ensures processedCount == old(processedCount) && loading == old(loading)
    {
      var next := candles;
      var lastTime := baseline;
      var i := 0;
      while i < |incoming|
        invariant 0 <= i <= |incoming|
        invariant View(next, lastTime) == MergeAll(View(candles, baseline), incoming[..i])
      {
        assert incoming[..i + 1][..i] == incoming[..i];
        var c := incoming[i];
        if lastTime.None? {
          next := next + [c];
          lastTime := Some(c.time);
        } else if c.time > lastTime.value {
          next := next + [c];
          lastTime := Some(c.time);
        } else if c.time == lastTime.value {
          if |next| > 0 {
            next := next[|next| - 1 := c];
          }
        }
        i := i + 1;
      }
      assert incoming[..i] == incoming;
      candles := next;
      baseline := lastTime;
    }

    /** The realtime effect: nothing while loading or with no trades; otherwise the
        trades past the processed count are charted, the count moves to the list's
        length, and exactly their candles (`realtime`, the one candle list of those
        trades) are merged in, in order. */
    method MergeRealtime(trades: seq<ProcessedTrade>, interval: string) returns (ghost realtime: seq<CandleData>)
      modifies this
      ensures loading == old(loading)
      ensures old(loading) || trades == [] || Unprocessed(trades, old(processedCount)) == [] ==>
        candles == old(candles) && baseline == old(baseline) && processedCount == old(processedCount)
      ensures !(old(loading) || trades == [] || Unprocessed(trades, old(processedCount)) == []) ==>
        && processedCount == |trades|
        && CandlesOf(Unprocessed(trades, old(processedCount)), interval, realtime)
        && View(candles, baseline) == MergeAll(View(old(candles), old(baseline)), realtime)
      ensures Coherent(View(old(candles), old(baseline))) ==> Coherent(View(candles, baseline))
      ensures old(baseline).Some? ==> baseline.Some? && baseline.value >= old(baseline).value
      ensures |candles| >= |old(candles)| && forall i :: 0 <= i < |old(candles)| - 1 ==> candles[i] == old(candles)[i]
    {
      realtime := [];
      if loading || |trades| == 0 {
        return;
      }
      var newTrades := Unprocessed(trades, processedCount);
      if |newTrades| == 0 {
        return;
      }
      processedCount := |trades|;
      var built := AggregateTradesToCandles(newTrades, interval);
      realtime := built;
      if |built| == 0 {
        return;
      }
      ghost var before := View(candles, baseline);
      Merge(built);
      MergeBaselineMonotone(before, realtime);
      MergeKeepsEarlier(before, realtime);
      if Coherent(before) {
        MergeKeepsCoherent(before, realtime);
      }
    }

    /** The reset on a symbol or interval change: the processed count and the baseline
        cleared, the candles kept. */
    method ResetSelection()
      modifies this
      ensures processedCount == 0 && baseline == None
      ensures candles == old(candles) && loading == old(loading)
    {
      processedCount := 0;
      baseline := None;
    }

    /** The state half of the initial load: on success the loaded candles replace the
        list and the baseline is the last one's time (none for an empty answer); on
        failure the list stays. Loading ends either way. */
    method Load(data: Option<seq<CandleData>>)
      modifies this
      ensures !loading && processedCount == old(processedCount)
      ensures data.None? ==> candles == old(candles) && baseline == old(baseline)
      ensures data.Some? ==> (candles == data.value &&
        baseline == (if data.value == [] then None else Some(data.value[|data.value| - 1].time)))
    {
      if data.Some? {
        candles := data.value;
        baseline := if data.value == [] then None else Some(data.value[|data.value| - 1].time);
      }
      loading := false;
    }

    /** `refresh`: like the load, and a successful refresh also sets the processed count
        back to zero. */
    method Refresh(data: Option<seq<CandleData>>)
      modifies this
      ensures !loading
      ensures data.None? ==> candles == old(candles) && baseline == old(baseline) && processedCount == old(processedCount)
      ensures data.Some? ==> (candles == data.value && processedCount == 0 &&
        baseline == (if data.value == [] then None else Some(data.value[|data.value| - 1].time)))
    {
      Load(data);
      if data.Some? {
        processedCount := 0;
      }
    }
  }

  /** Loaded candles that ascend strictly give a coherent view. */
  lemma LoadedCoherent(data: seq<CandleData>)
    requires forall i, j :: 0 <= i < j < |data| ==> data[i].time < data[j].time
    ensures Coherent(View(data, if data == [] then None else Some(data[|data| - 1].time)))
  {
  }
}
