/** One-minute (or wider) OHLCV candles built from trades. The server buffer, the
    batch builder of the trades route and the chart's client aggregator all start a
    candle at a bucket's first trade and fold the later ones in; the database merges
    an incoming candle into a stored one by the same rule. This module holds the fold,
    its reference definitions, the merge, the bucket arithmetic, keyed accumulation
    over a sequence of trades and a sort by a numeric key. */
module Candles {
  import opened Common

  /** What a candle builder takes from a trade: its price and size. */
  datatype Fill = Fill(price: real, size: real)

  datatype Ohlcv = Ohlcv(open: real, high: real, low: real, close: real, volume: real)

  /** The candle a bucket's first trade creates. */
  function Start(f: Fill): Ohlcv {
    Ohlcv(f.price, f.price, f.price, f.price, f.size)
  }

  /** A later trade in the same bucket: open kept, extremes widened, close replaced,
      size added to the volume. */
  function Absorb(c: Ohlcv, f: Fill): Ohlcv {
    Ohlcv(c.open, Max(c.high, f.price), Min(c.low, f.price), f.price, c.volume + f.size)
  }

  /** Open and close lie between low and high. */
  predicate Ranged(c: Ohlcv) {
    c.low <= c.open <= c.high && c.low <= c.close <= c.high
  }

  // Reference definitions over the bucket's trades.

  function HighOf(fs: seq<Fill>): real
    requires |fs| > 0
  {
    if |fs| == 1 then fs[0].price else Max(HighOf(fs[..|fs| - 1]), fs[|fs| - 1].price)
  }

  function LowOf(fs: seq<Fill>): real
    requires |fs| > 0
  {
    if |fs| == 1 then fs[0].price else Min(LowOf(fs[..|fs| - 1]), fs[|fs| - 1].price)
  }

  function VolumeOf(fs: seq<Fill>): real {
    if fs == [] then 0.0 else VolumeOf(fs[..|fs| - 1]) + fs[|fs| - 1].size
  }

  /** The highest and lowest prices are prices of the bucket, and bound all of them. */
  lemma {:induction false} ExtremesBound(fs: seq<Fill>)
    requires |fs| > 0
    ensures forall i :: 0 <= i < |fs| ==> LowOf(fs) <= fs[i].price <= HighOf(fs)
    ensures exists i :: 0 <= i < |fs| && fs[i].price == HighOf(fs)
    ensures exists j :: 0 <= j < |fs| && fs[j].price == LowOf(fs)
  {
    var n := |fs| - 1;
    if n == 0 {
      assert fs[0].price == HighOf(fs) && fs[0].price == LowOf(fs);
    } else {
      var init := fs[..n];
      ExtremesBound(init);
      assert forall i :: 0 <= i < |init| ==> init[i] == fs[i];
      if HighOf(fs) != fs[n].price {
        var i :| 0 <= i < |init| && init[i].price == HighOf(init);
        assert fs[i].price == HighOf(fs);
      } else {
        assert fs[n].price == HighOf(fs);
      }
      if LowOf(fs) != fs[n].price {
        var j :| 0 <= j < |init| && init[j].price == LowOf(init);
        assert fs[j].price == LowOf(fs);
      } else {
        assert fs[n].price == LowOf(fs);
      }
    }
  }

  /** The candle of a bucket: its first trade started it and every later one was
      absorbed, in order. */
  function Summary(fs: seq<Fill>): Ohlcv
    requires |fs| > 0
  {
    if |fs| == 1 then Start(fs[0]) else Absorb(Summary(fs[..|fs| - 1]), fs[|fs| - 1])
  }

  /** Open is the first price, close the last, high the highest, low the lowest and
      volume the sum of the sizes; hence open and close lie between low and high. */
  lemma {:induction false} SummaryMeaning(fs: seq<Fill>)
    requires |fs| > 0
    ensures Summary(fs) == Ohlcv(fs[0].price, HighOf(fs), LowOf(fs), fs[|fs| - 1].price, VolumeOf(fs))
    ensures Ranged(Summary(fs))
  {
    if |fs| == 1 {
      assert fs[..0] == [];
    } else {
      var init := fs[..|fs| - 1];
      SummaryMeaning(init);
      assert init[0] == fs[0];
    }
    ExtremesBound(fs);
  }

  /** The `ON CONFLICT` rule of the candle upserts: the stored open is kept, high and
      low widen, the incoming close wins and the volumes add. */
  function Upsert(stored: Ohlcv, incoming: Ohlcv): Ohlcv {
    Ohlcv(stored.open, Max(stored.high, incoming.high), Min(stored.low, incoming.low), incoming.close,
          stored.volume + incoming.volume)
  }

  /** Upserting a later trade's candle is absorbing that trade. */
  lemma UpsertStart(c: Ohlcv, f: Fill)
    ensures Upsert(c, Start(f)) == Absorb(c, f)
  {
  }

  lemma UpsertAbsorb(c: Ohlcv, s: Ohlcv, f: Fill)
    ensures Upsert(c, Absorb(s, f)) == Absorb(Upsert(c, s), f)
  {
  }

  /** Upserting the candle of later trades into the candle of earlier ones gives the
      candle of all of them: the merge is faithful when each trade reaches the table
      exactly once. */
  lemma {:induction false} UpsertConcatenates(a: seq<Fill>, b: seq<Fill>)
    requires |a| > 0 && |b| > 0
    ensures Upsert(Summary(a), Summary(b)) == Summary(a + b)
    decreases |b|
  {
    var ab := a + b;
    assert ab[..|ab| - 1] == a + b[..|b| - 1];
    if |b| == 1 {
      assert ab[..|ab| - 1] == a;
      UpsertStart(Summary(a), b[0]);
    } else {
      UpsertConcatenates(a, b[..|b| - 1]);
      UpsertAbsorb(Summary(a), Summary(b[..|b| - 1]), b[|b| - 1]);
    }
  }

  /** Upserting the same candle twice keeps high, low and close as one upsert leaves
      them, but counts its volume twice. */
  lemma UpsertTwice(stored: Ohlcv, c: Ohlcv)
    ensures Upsert(Upsert(stored, c), c) == Upsert(stored, c).(volume := stored.volume + 2.0 * c.volume)
  {
  }

  lemma UpsertRanged(a: Ohlcv, b: Ohlcv)
    requires Ranged(a) && Ranged(b)
    ensures Ranged(Upsert(a, b))
  {
  }

  // ---------------------------------------------------------------------------
  // Buckets
  // ---------------------------------------------------------------------------

  /** `Math.floor(timeMs / 1000 / 60) * 60`: the start, in seconds, of the minute
      holding `timeMs`. */
  function MinuteBucket(timeMs: real): (b: int)
    ensures b % 60 == 0
    ensures b as real <= timeMs / 1000.0 < (b + 60) as real
  {
    (timeMs / 1000.0 / 60.0).Floor * 60
  }

  /** `Math.floor(ts / width) * width`: the start of the `width`-wide bucket holding
      `ts`. */
  function Bucket(ts: real, width: int): (b: int)
    requires width > 0
    ensures b % width == 0
    ensures b as real <= ts < (b + width) as real
  {
    var f := (ts / width as real).Floor;
    FloorScaled(ts, width, f);
    f * width
  }

  lemma FloorScaled(ts: real, width: int, f: int)
    requires width > 0 && f == (ts / width as real).Floor
    ensures (f * width) as real <= ts < (f * width + width) as real
    ensures (f * width) % width == 0
  {
    var w := width as real;
    var q := ts / w;
    assert q * w == ts;
    assert f as real <= q < f as real + 1.0;
    ScaleLe(f as real, q, w);
    ScaleLt(q, f as real + 1.0, w);
    CastProduct(f, width);
    CastProduct(f + 1, width);
    assert (f + 1) * width == f * width + width;
    assert (f as real + 1.0) == (f + 1) as real;
    assert (f * width) as real <= ts;
    assert ts < ((f + 1) * width) as real;
    MultipleMod(f, width);
  }

  lemma MultipleMod(a: int, b: int)
    requires b > 0
    ensures (a * b) % b == 0
  {
    var q, r := (a * b) / b, (a * b) % b;
    assert a * b == q * b + r && 0 <= r < b;
    Distributes(a, q, b);
    assert (a - q) * b == r;
    if a - q > 0 {
      AtLeastOnce(a - q, b);
    } else if a - q < 0 {
      AtLeastOnce(q - a, b);
      Distributes(q, a, b);
    }
  }

  lemma Distributes(x: int, y: int, b: int)
    ensures (x - y) * b == x * b - y * b
  {
  }

  lemma AtLeastOnce(x: int, b: int)
    requires x >= 1 && b > 0
    ensures x * b >= b
  {
  }

  lemma ScaleLe(a: real, b: real, c: real)
    requires a <= b && c > 0.0
    ensures a * c <= b * c
  {
  }

  lemma ScaleLt(a: real, b: real, c: real)
    requires a < b && c > 0.0
    ensures a * c < b * c
  {
  }

  lemma CastProduct(a: int, b: int)
    ensures (a * b) as real == (a as real) * (b as real)
  {
  }

  // ---------------------------------------------------------------------------
  // Keyed accumulation
  // ---------------------------------------------------------------------------

  /** A trade as a candle builder sees it: the bucket it goes to (none when the builder
      skips it), the time it is sorted by, and its fill. */
  datatype Point<K> = Point(key: Option<K>, at: real, fill: Fill)

  /** The fills of the trades of bucket `k`, in order. */
  function FillsOf<K(==)>(ps: seq<Point<K>>, k: K): seq<Fill> {
    if ps == [] then []
    else FillsOf(ps[..|ps| - 1], k) + (if ps[|ps| - 1].key == Some(k) then [ps[|ps| - 1].fill] else [])
  }

  /** The candle a bucket ends with when it held `prior` (none for a new bucket) and
      then took `fs`. */
  function Combine(prior: Option<Ohlcv>, fs: seq<Fill>): Ohlcv
    requires prior.Some? || |fs| > 0
  {
    if fs == [] then prior.value
    else if prior.Some? then Upsert(prior.value, Summary(fs))
    else Summary(fs)
  }

  function Lookup<K(==)>(m: map<K, Ohlcv>, k: K): Option<Ohlcv> {
    if k in m then Some(m[k]) else None
  }

  /** Adding one trade to a keyed map of candles: start the bucket, or absorb into it. */
  function AddPoint<K(==)>(m: map<K, Ohlcv>, p: Point<K>): map<K, Ohlcv> {
    match p.key
    case None => m
    case Some(k) => m[k := if k in m then Absorb(m[k], p.fill) else Start(p.fill)]
  }

  /** Adding the trades in order. */
  function Accumulate<K(==)>(m: map<K, Ohlcv>, ps: seq<Point<K>>): map<K, Ohlcv> {
    if ps == [] then m else AddPoint(Accumulate(m, ps[..|ps| - 1]), ps[|ps| - 1])
  }

  lemma CombineAbsorbs(prior: Option<Ohlcv>, fs: seq<Fill>, f: Fill)
    ensures Combine(prior, fs + [f]) ==
      if prior.Some? || |fs| > 0 then Absorb(Combine(prior, fs), f) else Start(f)
  {
    var g := fs + [f];
    assert g[..|g| - 1] == fs;
    if fs != [] && prior.Some? {
      UpsertAbsorb(prior.value, Summary(fs), f);
    }
  }

  /** After the trades `ps`, a bucket is present iff it was or one of them went to it,
      and it holds its prior candle combined with the candle of its trades. */
  lemma {:induction false} AccumulateMeaning<K>(m: map<K, Ohlcv>, ps: seq<Point<K>>)
    ensures forall k :: k in Accumulate(m, ps) <==> k in m || |FillsOf(ps, k)| > 0
    ensures forall k :: k in Accumulate(m, ps) ==> Accumulate(m, ps)[k] == Combine(Lookup(m, k), FillsOf(ps, k))
  {
    if ps != [] {
      var init := ps[..|ps| - 1];
      var p := ps[|ps| - 1];
      AccumulateMeaning(m, init);
      var before := Accumulate(m, init);
      forall k ensures FillsOf(ps, k) == FillsOf(init, k) + (if p.key == Some(k) then [p.fill] else []) {
      }
      forall k | k in Accumulate(m, ps)
        ensures Accumulate(m, ps)[k] == Combine(Lookup(m, k), FillsOf(ps, k))
      {
        if p.key == Some(k) {
          CombineAbsorbs(Lookup(m, k), FillsOf(init, k), p.fill);
        } else {
          assert FillsOf(ps, k) == FillsOf(init, k);
        }
      }
    }
  }

  /** From an empty map, every present bucket holds exactly the summary of its trades. */
  lemma AccumulateFresh<K>(ps: seq<Point<K>>)
    ensures forall k :: k in Accumulate(map[], ps) <==> |FillsOf(ps, k)| > 0
    ensures forall k :: k in Accumulate(map[], ps) ==> Accumulate(map[], ps)[k] == Summary(FillsOf(ps, k))
  {
    AccumulateMeaning(map[], ps);
  }

  /** The buckets in the order their first trade appears. */
  function KeysOf<K(==,!new)>(ps: seq<Point<K>>): (r: seq<K>)
    ensures forall i, j :: 0 <= i < j < |r| ==> r[i] != r[j]
    ensures forall k :: k in r <==> |FillsOf(ps, k)| > 0
  {
    if ps == [] then []
    else
      var init := ps[..|ps| - 1];
      var p := ps[|ps| - 1];
      var r := KeysOf(init);
      assert forall k :: FillsOf(ps, k) == FillsOf(init, k) + (if p.key == Some(k) then [p.fill] else []);
      if p.key.Some? && p.key.value !in r then r + [p.key.value] else r
  }

  /** A bucket has a candle exactly when it is among the buckets listed. */
  lemma AccumulateKeys<K(!new)>(ps: seq<Point<K>>, k: K)
    ensures k in Accumulate(map[], ps) <==> k in KeysOf(ps)
  {
    AccumulateFresh(ps);
    assert k in Accumulate(map[], ps) <==> |FillsOf(ps, k)| > 0;
  }

  /** One more trade: its bucket is started or extended, and listed if new. */
  lemma AccumulateStep<K(!new)>(ps: seq<Point<K>>, i: nat)
    requires i < |ps|
    ensures Accumulate(map[], ps[..i + 1]) == AddPoint(Accumulate(map[], ps[..i]), ps[i])
    ensures KeysOf(ps[..i + 1]) ==
      if ps[i].key.Some? && ps[i].key.value !in KeysOf(ps[..i]) then KeysOf(ps[..i]) + [ps[i].key.value] else KeysOf(ps[..i])
  {
    assert ps[..i + 1][..i] == ps[..i];
  }

  /** The index of the first trade of bucket `k`. */
  function FirstOf<K(==)>(ps: seq<Point<K>>, k: K): nat
    requires |FillsOf(ps, k)| > 0
    decreases |ps|
  {
    if |FillsOf(ps[..|ps| - 1], k)| > 0 then FirstOf(ps[..|ps| - 1], k) else |ps| - 1
  }

  /** The index of the last trade of bucket `k`. */
  function LastOf<K(==)>(ps: seq<Point<K>>, k: K): nat
    requires |FillsOf(ps, k)| > 0
    decreases |ps|
  {
    if ps[|ps| - 1].key == Some(k) then |ps| - 1 else LastOf(ps[..|ps| - 1], k)
  }

  lemma {:induction false} FirstOfMeaning<K>(ps: seq<Point<K>>, k: K)
    requires |FillsOf(ps, k)| > 0
    ensures FirstOf(ps, k) < |ps| && ps[FirstOf(ps, k)].key == Some(k)
    ensures ps[FirstOf(ps, k)].fill == FillsOf(ps, k)[0]
    ensures forall j :: 0 <= j < FirstOf(ps, k) ==> ps[j].key != Some(k)
  {
    var init := ps[..|ps| - 1];
    if |FillsOf(init, k)| > 0 {
      FirstOfMeaning(init, k);
      assert forall j :: 0 <= j < |init| ==> init[j] == ps[j];
    } else {
      NoFillsNoKey(init, k);
      assert forall j :: 0 <= j < |init| ==> init[j] == ps[j];
    }
  }

  lemma {:induction false} LastOfMeaning<K>(ps: seq<Point<K>>, k: K)
    requires |FillsOf(ps, k)| > 0
    ensures LastOf(ps, k) < |ps| && ps[LastOf(ps, k)].key == Some(k)
    ensures ps[LastOf(ps, k)].fill == FillsOf(ps, k)[|FillsOf(ps, k)| - 1]
    ensures forall j :: LastOf(ps, k) < j < |ps| ==> ps[j].key != Some(k)
  {
    var init := ps[..|ps| - 1];
    if ps[|ps| - 1].key != Some(k) {
      assert FillsOf(ps, k) == FillsOf(init, k);
      LastOfMeaning(init, k);
      assert forall j :: 0 <= j < |init| ==> init[j] == ps[j];
    }
  }

  lemma {:induction false} NoFillsNoKey<K>(ps: seq<Point<K>>, k: K)
    requires |FillsOf(ps, k)| == 0
    ensures forall j :: 0 <= j < |ps| ==> ps[j].key != Some(k)
  {
    if ps != [] {
      var init := ps[..|ps| - 1];
      NoFillsNoKey(init, k);
      assert forall j :: 0 <= j < |init| ==> init[j] == ps[j];
    }
  }

  /** The points of a sequence of trades, one per trade. */
  function Mapped<T, K>(s: seq<T>, pt: T -> Point<K>): (r: seq<Point<K>>)
    ensures |r| == |s| && forall i :: 0 <= i < |s| ==> r[i] == pt(s[i])
  {
    seq(|s|, i requires 0 <= i < |s| => pt(s[i]))
  }

  lemma {:induction false} FillsOfAppend<K>(a: seq<Point<K>>, b: seq<Point<K>>, k: K)
    ensures FillsOf(a + b, k) == FillsOf(a, k) + FillsOf(b, k)
    decreases |b|
  {
    if b == [] {
      assert a + b == a;
    } else {
      var ab := a + b;
      assert ab[..|ab| - 1] == a + b[..|b| - 1];
      FillsOfAppend(a, b[..|b| - 1], k);
    }
  }

  lemma {:induction false} VolumeOfAppend(a: seq<Fill>, b: seq<Fill>)
    ensures VolumeOf(a + b) == VolumeOf(a) + VolumeOf(b)
    decreases |b|
  {
    if b == [] {
      assert a + b == a;
    } else {
      var ab := a + b;
      assert ab[..|ab| - 1] == a + b[..|b| - 1];
      VolumeOfAppend(a, b[..|b| - 1]);
    }
  }

  /** The total size of the trades of bucket `k`. */
  function BucketVolume<T, K(==)>(s: seq<T>, pt: T -> Point<K>, k: K): real {
    VolumeOf(FillsOf(Mapped(s, pt), k))
  }

  /** A bucket's volume does not depend on the order its trades arrive in. */
  lemma {:induction false} VolumeUnordered<T, K>(s: seq<T>, t: seq<T>, pt: T -> Point<K>, k: K)
    requires multiset(s) == multiset(t)
    ensures BucketVolume(s, pt, k) == BucketVolume(t, pt, k)
    decreases |s|
  {
    if s == [] {
      assert |multiset(t)| == 0;
      assert t == [];
    } else {
      var x := s[|s| - 1];
      var init := s[..|s| - 1];
      var before, after := MatchLast(s, t);
      VolumeUnordered(init, before + after, pt, k);
      assert s == init + [x];
      VolumeSplit(init, [x], pt, k);
      VolumeSplit(before, [x], pt, k);
      VolumeSplit(before + [x], after, pt, k);
      VolumeSplit(before, after, pt, k);
    }
  }

  /** The last element of `s` sits somewhere in its permutation `t`; taking it out of
      both leaves permutations of each other. */
  lemma MatchLast<T>(s: seq<T>, t: seq<T>) returns (before: seq<T>, after: seq<T>)
    requires s != [] && multiset(s) == multiset(t)
    ensures t == before + [s[|s| - 1]] + after
    ensures multiset(s[..|s| - 1]) == multiset(before + after)
  {
    var x := s[|s| - 1];
    assert s == s[..|s| - 1] + [x];
    assert x in multiset(t);
    var j :| 0 <= j < |t| && t[j] == x;
    before, after := t[..j], t[j + 1..];
    RemoveOne(t, j);
  }

  lemma RemoveOne<T>(t: seq<T>, j: nat)
    requires j < |t|
    ensures multiset(t[..j] + t[j + 1..]) == multiset(t) - multiset{t[j]}
    ensures t == t[..j] + [t[j]] + t[j + 1..]
  {
    assert t == t[..j] + [t[j]] + t[j + 1..];
  }

  lemma VolumeSplit<T, K>(a: seq<T>, b: seq<T>, pt: T -> Point<K>, k: K)
    ensures BucketVolume(a + b, pt, k) == BucketVolume(a, pt, k) + BucketVolume(b, pt, k)
  {
    assert Mapped(a + b, pt) == Mapped(a, pt) + Mapped(b, pt);
    FillsOfAppend(Mapped(a, pt), Mapped(b, pt), k);
    VolumeOfAppend(FillsOf(Mapped(a, pt), k), FillsOf(Mapped(b, pt), k));
  }

  /** The fills of a bucket are exactly the fills of the trades that went to it. */
  lemma {:induction false} FillsOfMembers<K>(ps: seq<Point<K>>, k: K)
    ensures forall f :: f in FillsOf(ps, k) <==> exists j :: 0 <= j < |ps| && ps[j].key == Some(k) && ps[j].fill == f
  {
    if ps != [] {
      var init := ps[..|ps| - 1];
      FillsOfMembers(init, k);
      assert forall j :: 0 <= j < |init| ==> init[j] == ps[j];
    }
  }

  /** The buckets' (key, candle) entries in the order given (`Map.prototype.entries`,
      which follows insertion order). */
  function EntriesOf<K(==)>(m: map<K, Ohlcv>, order: seq<K>): (r: seq<(K, Ohlcv)>)
    requires forall j :: 0 <= j < |order| ==> order[j] in m
    ensures |r| == |order| && forall j :: 0 <= j < |order| ==> r[j] == (order[j], m[order[j]])
  {
    seq(|order|, j requires 0 <= j < |order| => (order[j], m[order[j]]))
  }

  /** One entry per bucket that received a trade, none twice, each holding the candle
      of that bucket's trades. */
  ghost predicate Listed<K(!new)>(ps: seq<Point<K>>, es: seq<(K, Ohlcv)>) {
    && (forall i, j :: 0 <= i < j < |es| ==> es[i].0 != es[j].0)
    && (forall k :: (exists i :: 0 <= i < |es| && es[i].0 == k) <==> |FillsOf(ps, k)| > 0)
    && (forall i :: 0 <= i < |es| ==> (|FillsOf(ps, es[i].0)| > 0 && es[i].1 == Summary(FillsOf(ps, es[i].0))))
  }

  /** The entries of the accumulated buckets, in first-trade order or in any other
      order, are listed. */
  lemma EntriesListed<K(!new)>(ps: seq<Point<K>>, m: map<K, Ohlcv>, values: seq<(K, Ohlcv)>, es: seq<(K, Ohlcv)>)
    requires m == Accumulate(map[], ps)
    requires |values| == |KeysOf(ps)|
    requires forall j :: 0 <= j < |values| ==> KeysOf(ps)[j] in m && values[j] == (KeysOf(ps)[j], m[KeysOf(ps)[j]])
    requires multiset(es) == multiset(values)
    ensures Listed(ps, es)
  {
    SameMembers(values, es);
    EntriesDistinct(KeysOf(ps), values, es);
    EntriesCover(ps, values, es);
    AccumulateFresh(ps);
    forall i | 0 <= i < |es| ensures |FillsOf(ps, es[i].0)| > 0 && es[i].1 == Summary(FillsOf(ps, es[i].0)) {
      assert es[i] in values;
    }
  }

  lemma EntriesDistinct<K>(order: seq<K>, values: seq<(K, Ohlcv)>, es: seq<(K, Ohlcv)>)
    requires forall i, j :: 0 <= i < j < |order| ==> order[i] != order[j]
    requires |values| == |order| && forall j :: 0 <= j < |order| ==> values[j].0 == order[j]
    requires multiset(es) == multiset(values)
    requires forall x :: x in es ==> x in values
    ensures forall i, j :: 0 <= i < j < |es| ==> es[i].0 != es[j].0
  {
    forall i, j | 0 <= i < j < |values| ensures values[i] != values[j] {
      assert values[i].0 == order[i] && values[j].0 == order[j];
    }
    DistinctPermutation(values, es);
    forall i, j | 0 <= i < j < |es| ensures es[i].0 != es[j].0 {
      assert es[i] in values && es[j] in values;
      var a :| 0 <= a < |values| && values[a] == es[i];
      var b :| 0 <= b < |values| && values[b] == es[j];
      if a < b {
        assert order[a] != order[b];
      } else if b < a {
        assert order[b] != order[a];
      }
    }
  }

  lemma EntriesCover<K(!new)>(ps: seq<Point<K>>, values: seq<(K, Ohlcv)>, es: seq<(K, Ohlcv)>)
    requires |values| == |KeysOf(ps)| && forall j :: 0 <= j < |values| ==> values[j].0 == KeysOf(ps)[j]
    requires forall x :: x in es <==> x in values
    ensures forall k :: (exists i :: 0 <= i < |es| && es[i].0 == k) <==> |FillsOf(ps, k)| > 0
  {
    var order := KeysOf(ps);
    forall k ensures (exists i :: 0 <= i < |es| && es[i].0 == k) <==> |FillsOf(ps, k)| > 0 {
      if |FillsOf(ps, k)| > 0 {
        var j :| 0 <= j < |order| && order[j] == k;
        assert values[j] in es;
      }
      if exists i :: 0 <= i < |es| && es[i].0 == k {
        var i :| 0 <= i < |es| && es[i].0 == k;
        assert es[i] in values;
      }
    }
  }

  // ---------------------------------------------------------------------------
  // The candle of a bucket when the trades are folded in time order
  // ---------------------------------------------------------------------------

  /** `sorted` is `s` put in ascending order of `time`. */
  ghost predicate SortedOf<T>(sorted: seq<T>, s: seq<T>, time: T -> real) {
    |sorted| == |s| && multiset(sorted) == multiset(s) && SortedBy(sorted, time)
  }

  /** Trades sorted by `time`, as points: when every point's time is its trade's sort key,
      the points are in time order. */
  lemma SortedPointsAscend<T, K>(sorted: seq<T>, time: T -> real, pt: T -> Point<K>)
    requires forall t :: pt(t).at == time(t)
    requires SortedBy(sorted, time)
    ensures var ps := Mapped(sorted, pt);
      forall i, j :: 0 <= i < j < |ps| ==> ps[i].at <= ps[j].at
  {
    var ps := Mapped(sorted, pt);
    forall i, j | 0 <= i < j < |ps| ensures ps[i].at <= ps[j].at {
      assert ps[i] == pt(sorted[i]) && ps[j] == pt(sorted[j]);
      assert pt(sorted[i]).at == time(sorted[i]);
      assert pt(sorted[j]).at == time(sorted[j]);
    }
  }

  /** The trade behind a point of the sorted trades. */
  lemma FromSorted<T, K>(sorted: seq<T>, s: seq<T>, time: T -> real, pt: T -> Point<K>, m: nat) returns (a: nat)
    requires SortedOf(sorted, s, time) && m < |s|
    ensures a < |s| && pt(s[a]) == Mapped(sorted, pt)[m]
  {
    assert sorted[m] in multiset(sorted);
    assert sorted[m] in s;
    a :| 0 <= a < |s| && s[a] == sorted[m];
  }

  /** The point of a trade among the sorted trades. */
  lemma ToSorted<T, K>(sorted: seq<T>, s: seq<T>, time: T -> real, pt: T -> Point<K>, a: nat) returns (m: nat)
    requires SortedOf(sorted, s, time) && a < |s|
    ensures m < |s| && Mapped(sorted, pt)[m] == pt(s[a])
  {
    assert s[a] in multiset(s);
    assert s[a] in sorted;
    m :| 0 <= m < |sorted| && sorted[m] == s[a];
  }

  /** Folding trades in time order, a bucket opens at the price of one of its trades no
      later than any other. */
  lemma SortedBucketOpen<T, K>(sorted: seq<T>, s: seq<T>, time: T -> real, pt: T -> Point<K>, k: K) returns (i: nat)
    requires forall t :: pt(t).at == time(t)
    requires SortedOf(sorted, s, time)
    requires |FillsOf(Mapped(sorted, pt), k)| > 0
    ensures i < |s| && pt(s[i]).key == Some(k)
    ensures pt(s[i]).fill.price == Summary(FillsOf(Mapped(sorted, pt), k)).open
    ensures forall j :: 0 <= j < |s| && pt(s[j]).key == Some(k) ==> time(s[i]) <= time(s[j])
  {
    var ps := Mapped(sorted, pt);
    SummaryMeaning(FillsOf(ps, k));
    FirstOfMeaning(ps, k);
    var f := FirstOf(ps, k);
    i := FromSorted(sorted, s, time, pt, f);
    SortedPointsAscend(sorted, time, pt);
    forall j | 0 <= j < |s| && pt(s[j]).key == Some(k) ensures time(s[i]) <= time(s[j]) {
      var m := ToSorted(sorted, s, time, pt, j);
      assert ps[m].key == Some(k);
      assert f <= m;
      assert ps[f].at <= ps[m].at;
    }
  }

  /** ... and closes at the price of one no earlier than any other. */
  lemma SortedBucketClose<T, K>(sorted: seq<T>, s: seq<T>, time: T -> real, pt: T -> Point<K>, k: K) returns (i: nat)
    requires forall t :: pt(t).at == time(t)
    requires SortedOf(sorted, s, time)
    requires |FillsOf(Mapped(sorted, pt), k)| > 0
    ensures i < |s| && pt(s[i]).key == Some(k)
    ensures pt(s[i]).fill.price == Summary(FillsOf(Mapped(sorted, pt), k)).close
    ensures forall j :: 0 <= j < |s| && pt(s[j]).key == Some(k) ==> time(s[j]) <= time(s[i])
  {
    var ps := Mapped(sorted, pt);
    SummaryMeaning(FillsOf(ps, k));
    LastOfMeaning(ps, k);
    var l := LastOf(ps, k);
    i := FromSorted(sorted, s, time, pt, l);
    SortedPointsAscend(sorted, time, pt);
    forall j | 0 <= j < |s| && pt(s[j]).key == Some(k) ensures time(s[j]) <= time(s[i]) {
      var m := ToSorted(sorted, s, time, pt, j);
      assert ps[m].key == Some(k);
      assert m <= l;
      assert ps[m].at <= ps[l].at;
    }
  }

  /** Whatever the order, a bucket's high and low are prices of its trades ... */
  lemma SortedBucketExtremes<T, K>(sorted: seq<T>, s: seq<T>, time: T -> real, pt: T -> Point<K>, k: K) returns (hi: nat, lo: nat)
    requires SortedOf(sorted, s, time)
    requires |FillsOf(Mapped(sorted, pt), k)| > 0
    ensures hi < |s| && pt(s[hi]).key == Some(k) && pt(s[hi]).fill.price == Summary(FillsOf(Mapped(sorted, pt), k)).high
    ensures lo < |s| && pt(s[lo]).key == Some(k) && pt(s[lo]).fill.price == Summary(FillsOf(Mapped(sorted, pt), k)).low
  {
    var ps := Mapped(sorted, pt);
    var fs := FillsOf(ps, k);
    SummaryMeaning(fs);
    ExtremesBound(fs);
    FillsOfMembers(ps, k);
    var h :| 0 <= h < |fs| && fs[h].price == HighOf(fs);
    var w :| 0 <= w < |fs| && fs[w].price == LowOf(fs);
    assert fs[h] in fs && fs[w] in fs;
    var ph :| 0 <= ph < |ps| && ps[ph].key == Some(k) && ps[ph].fill == fs[h];
    var pw :| 0 <= pw < |ps| && ps[pw].key == Some(k) && ps[pw].fill == fs[w];
    hi := FromSorted(sorted, s, time, pt, ph);
    lo := FromSorted(sorted, s, time, pt, pw);
  }

  /** ... and bound all of them. */
  lemma SortedBucketBounds<T, K>(sorted: seq<T>, s: seq<T>, time: T -> real, pt: T -> Point<K>, k: K)
    requires SortedOf(sorted, s, time)
    requires |FillsOf(Mapped(sorted, pt), k)| > 0
    ensures forall j :: 0 <= j < |s| && pt(s[j]).key == Some(k) ==>
      Summary(FillsOf(Mapped(sorted, pt), k)).low <= pt(s[j]).fill.price <= Summary(FillsOf(Mapped(sorted, pt), k)).high
  {
    var ps := Mapped(sorted, pt);
    var fs := FillsOf(ps, k);
    SummaryMeaning(fs);
    ExtremesBound(fs);
    FillsOfMembers(ps, k);
    forall j | 0 <= j < |s| && pt(s[j]).key == Some(k)
      ensures LowOf(fs) <= pt(s[j]).fill.price <= HighOf(fs)
    {
      var m := ToSorted(sorted, s, time, pt, j);
      assert ps[m].fill in fs;
      var n :| 0 <= n < |fs| && fs[n] == ps[m].fill;
    }
  }

  /** The candle a bucket gets when the trades are folded in time order: open the price
      of a trade of the bucket no later than any other, close that of one no earlier than
      any other, high and low the highest and lowest of its prices, volume the sum of its
      sizes in any order, and open and close between low and high. */
  lemma SortedBucketCandle<T, K>(s: seq<T>, time: T -> real, pt: T -> Point<K>, k: K)
    requires forall t :: pt(t).at == time(t)
    requires |FillsOf(Mapped(SortBy(s, time), pt), k)| > 0
    ensures var c := Summary(FillsOf(Mapped(SortBy(s, time), pt), k));
      && Ranged(c)
      && c.volume == BucketVolume(s, pt, k)
      && (exists i :: 0 <= i < |s| && pt(s[i]).key == Some(k) && pt(s[i]).fill.price == c.open &&
            forall j :: 0 <= j < |s| && pt(s[j]).key == Some(k) ==> time(s[i]) <= time(s[j]))
      && (exists i :: 0 <= i < |s| && pt(s[i]).key == Some(k) && pt(s[i]).fill.price == c.close &&
            forall j :: 0 <= j < |s| && pt(s[j]).key == Some(k) ==> time(s[j]) <= time(s[i]))
      && (exists i :: 0 <= i < |s| && pt(s[i]).key == Some(k) && pt(s[i]).fill.price == c.high)
      && (exists i :: 0 <= i < |s| && pt(s[i]).key == Some(k) && pt(s[i]).fill.price == c.low)
      && (forall j :: 0 <= j < |s| && pt(s[j]).key == Some(k) ==> c.low <= pt(s[j]).fill.price <= c.high)
  {
    var sorted := SortBy(s, time);
    SortByLength(s, time);
    SummaryMeaning(FillsOf(Mapped(sorted, pt), k));
    VolumeUnordered(sorted, s, pt, k);
    var first := SortedBucketOpen(sorted, s, time, pt, k);
    var last := SortedBucketClose(sorted, s, time, pt, k);
    var hi, lo := SortedBucketExtremes(sorted, s, time, pt, k);
    SortedBucketBounds(sorted, s, time, pt, k);
  }

  lemma SortByLength<T>(s: seq<T>, key: T -> real)
    ensures |SortBy(s, key)| == |s|
  {
    assert |multiset(SortBy(s, key))| == |multiset(s)|;
  }

  lemma SameMembers<T>(a: seq<T>, b: seq<T>)
    requires multiset(a) == multiset(b)
    ensures forall x :: x in a <==> x in b
  {
    forall x ensures x in a <==> x in b {
      assert x in a <==> x in multiset(a);
      assert x in b <==> x in multiset(b);
    }
  }

  // ---------------------------------------------------------------------------
  // Sorting by a numeric key (`Array.prototype.sort` with `(a, b) => key(a) - key(b)`)
  // ---------------------------------------------------------------------------

  predicate SortedBy<T>(s: seq<T>, key: T -> real) {
    forall i, j :: 0 <= i < j < |s| ==> key(s[i]) <= key(s[j])
  }

  function InsertBy<T>(x: T, s: seq<T>, key: T -> real): (r: seq<T>)
    requires SortedBy(s, key)
    ensures SortedBy(r, key) && multiset(r) == multiset(s) + multiset{x}
    ensures |r| == |s| + 1 && (r[0] == x || (s != [] && r[0] == s[0]))
  {
    if s == [] then [x]
    else if key(x) <= key(s[0]) then
      ConsSorted(x, s, key);
      [x] + s
    else
      var rest := InsertBy(x, s[1..], key);
      ConsCount(s, rest, x);
      ConsSorted(s[0], rest, key);
      [s[0]] + rest
  }

  /** Putting the head back in front of `rest` keeps the count of inserted elements. */
  lemma ConsCount<T>(s: seq<T>, rest: seq<T>, x: T)
    requires s != [] && multiset(rest) == multiset(s[1..]) + multiset{x}
    ensures multiset([s[0]] + rest) == multiset(s) + multiset{x}
  {
    assert s == [s[0]] + s[1..];
  }

  /** A head no greater than the first element keeps a sorted sequence sorted. */
  lemma ConsSorted<T>(h: T, rest: seq<T>, key: T -> real)
    requires SortedBy(rest, key)
    requires rest != [] ==> key(h) <= key(rest[0])
    ensures SortedBy([h] + rest, key)
  {
    var r := [h] + rest;
    forall i, j | 0 <= i < j < |r| ensures key(r[i]) <= key(r[j]) {
      assert r[j] == rest[j - 1];
      if i > 0 {
        assert r[i] == rest[i - 1];
      } else if j > 1 {
        assert key(rest[0]) <= key(rest[j - 1]);
      }
    }
  }

  /** The elements of `s` in ascending order of `key`. */
  function SortBy<T>(s: seq<T>, key: T -> real): (r: seq<T>)
    ensures SortedBy(r, key) && multiset(r) == multiset(s)
  {
    if s == [] then [] else
      assert s == [s[0]] + s[1..];
      InsertBy(s[0], SortBy(s[1..], key), key)
  }

  /** A permutation of a sequence without repeats has none either. */
  lemma DistinctPermutation<T>(a: seq<T>, b: seq<T>)
    requires multiset(a) == multiset(b)
    requires forall i, j :: 0 <= i < j < |a| ==> a[i] != a[j]
    ensures forall i, j :: 0 <= i < j < |b| ==> b[i] != b[j]
  {
    forall i, j | 0 <= i < j < |b| ensures b[i] != b[j] {
      if b[i] == b[j] {
        TwiceCounted(b, i, j);
        OnceCounted(a, b[i]);
      }
    }
  }

  lemma TwiceCounted<T>(s: seq<T>, i: nat, j: nat)
    requires i < j < |s| && s[i] == s[j]
    ensures multiset(s)[s[i]] >= 2
  {
    var x := s[i];
    assert s == s[..i] + [x] + s[i + 1..j] + [x] + s[j + 1..];
  }

  lemma {:induction false} OnceCounted<T>(s: seq<T>, x: T)
    requires forall i, j :: 0 <= i < j < |s| ==> s[i] != s[j]
    ensures multiset(s)[x] <= 1
  {
    if s != [] {
      var init := s[..|s| - 1];
      OnceCounted(init, s[|s| - 1]);
      OnceCounted(init, x);
      assert s == init + [s[|s| - 1]];
      if x == s[|s| - 1] {
        assert x !in init;
      }
    }
  }
}
