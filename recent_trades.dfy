/** The client's recent-trades list: feed batches of the selected symbol are stamped
    with ids from a counter, mapped to display trades and placed newest first in front
    of the list, which is capped at `MAX_TRADES`. */
module RecentTrades {
  import opened Common
  import opened Types

  /** `MAX_TRADES`: the longest the list gets. */
  const MAX_TRADES: nat := 50

  /** Side `'B'` is a buy by the taker; every other side string is a sell. */
  function SideOf(side: string): (r: TakerSide)
    ensures r == Buy <==> side == "B"
  {
    if side == "B" then Buy else Sell
  }

  /** `size * price`: finite exactly when the price is. */
  function SizeUsdc(size: real, price: Num): (r: Num)
    ensures r.Finite? <==> price.Finite?
    ensures r.Finite? ==> r.value == size * price.value
  {
    match price
    case Finite(p) => Finite(size * p)
    case NonFinite => NonFinite
  }

  /** The display trade of a feed trade with id `trade-n`. */
  function Processed(t: TradeData, n: nat): ProcessedTrade {
    ProcessedTrade(t.px, t.sz, SizeUsdc(t.sz, t.px), SideOf(t.side), t.time, n)
  }

  /** The batch as the mapping produces it, ids counting up from `start`. */
  function Stamped(batch: seq<TradeData>, start: nat): (r: seq<ProcessedTrade>)
    ensures |r| == |batch|
    ensures forall i :: 0 <= i < |r| ==> r[i] == Processed(batch[i], start + i)
  {
    if batch == [] then [] else Stamped(batch[..|batch| - 1], start) + [Processed(batch[|batch| - 1], start + |batch| - 1)]
  }

  /** `[...newTrades, ...prev].slice(0, MAX_TRADES)`: the new trades first in their
      batch order, the older ones after them in their order, and whatever lies beyond
      `MAX_TRADES` dropped. */
  function Prepend(newest: seq<ProcessedTrade>, prev: seq<ProcessedTrade>): (r: seq<ProcessedTrade>)
    ensures |r| <= MAX_TRADES && |r| <= |newest| + |prev|
    ensures |r| == MAX_TRADES || |r| == |newest| + |prev|
    ensures forall i :: 0 <= i < |r| && i < |newest| ==> r[i] == newest[i]
    ensures forall i :: |newest| <= i < |r| ==> r[i] == prev[i - |newest|]
  {
    var all := newest + prev;
    if |all| <= MAX_TRADES then all else all[..MAX_TRADES]
  }

  /** The ids of a list: distinct, and all below the counter. */
  predicate IdsBelow(trades: seq<ProcessedTrade>, counter: nat) {
    && (forall i :: 0 <= i < |trades| ==> trades[i].id < counter)
    && (forall i, j :: 0 <= i < j < |trades| ==> trades[i].id != trades[j].id)
  }

  /** Stamping a batch from the counter and putting it in front keeps the ids distinct
      and below the advanced counter. */
  lemma {:induction false} PrependKeepsIds(batch: seq<TradeData>, prev: seq<ProcessedTrade>, counter: nat)
    requires IdsBelow(prev, counter)
    ensures IdsBelow(Prepend(Stamped(batch, counter), prev), counter + |batch|)
  {
    var newest := Stamped(batch, counter);
    var all := newest + prev;
    forall i, j | 0 <= i < j < |all| ensures all[i].id != all[j].id {
      if j < |newest| {
        assert all[i].id == counter + i && all[j].id == counter + j;
      } else if i < |newest| {
        assert all[i].id >= counter && all[j] == prev[j - |newest|];
      } else {
        assert all[i] == prev[i - |newest|] && all[j] == prev[j - |newest|];
      }
    }
    forall i | 0 <= i < |all| ensures all[i].id < counter + |batch| {
      if i >= |newest| {
        assert all[i] == prev[i - |newest|];
      }
    }
  }

  /** The hook's state: the list, the id counter and the selected symbol. */
  class Feed {
    var trades: seq<ProcessedTrade>
    var counter: nat
    var currentSymbol: string

    /** The list is within its cap and its ids are distinct and already issued. */
    ghost predicate Valid()
      reads this
    {
      |trades| <= MAX_TRADES && IdsBelow(trades, counter)
    }

    constructor (symbol: string)
      ensures Valid()
      ensures trades == [] && counter == 0 && currentSymbol == symbol
    {
      trades := [];
      counter := 0;
      currentSymbol := symbol;
    }

    /** `processTrades`: a batch whose first trade is of another symbol is dropped;
        otherwise each trade takes the next id and the batch goes in front of the list. */
    method ProcessTrades(batch: seq<TradeData>)
      requires Valid()
      modifies this
      ensures Valid()
      ensures currentSymbol == old(currentSymbol)
      ensures |batch| > 0 && batch[0].coin != old(currentSymbol) ==>
        trades == old(trades) && counter == old(counter)
      ensures !(|batch| > 0 && batch[0].coin != old(currentSymbol)) ==>
        && counter == old(counter) + |batch|
        && trades == Prepend(Stamped(batch, old(counter)), old(trades))
    {
      if |batch| > 0 && batch[0].coin != currentSymbol {
        return;
      }
      ghost var start := counter;
      var newest: seq<ProcessedTrade> := [];
      var i := 0;
      while i < |batch|
        invariant 0 <= i <= |batch|
        invariant counter == start + i
        invariant newest == Stamped(batch[..i], start)
        invariant trades == old(trades) && currentSymbol == old(currentSymbol)
      {
        assert batch[..i + 1][..i] == batch[..i];
        newest := newest + [Processed(batch[i], counter)];
        counter := counter + 1;
        i := i + 1;
      }
      assert batch[..i] == batch;
      PrependKeepsIds(batch, trades, start);
      trades := Prepend(newest, trades);
    }

    /** `resetTrades`: the list emptied and the counter back to zero. */
    method ResetTrades()
      modifies this
      ensures Valid()
      ensures trades == [] && counter == 0 && currentSymbol == old(currentSymbol)
    {
      trades := [];
      counter := 0;
    }

    /** The render-time assignment of the selected symbol. */
    method SetSymbol(symbol: string)
      modifies this
      ensures trades == old(trades) && counter == old(counter) && currentSymbol == symbol
    {
      currentSymbol := symbol;
    }

    /** The state half of `loadHistorical`: a non-empty history replaces the list,
        numbered from zero. */
    method LoadHistorical(data: seq<TradeData>)
      requires Valid()
      modifies this
      ensures Valid()
      ensures data == [] ==> trades == old(trades) && counter == old(counter)
      ensures data != [] && data[0].coin != currentSymbol ==> trades == [] && counter == 0
      ensures data != [] && data[0].coin == currentSymbol ==>
        trades == Prepend(Stamped(data, 0), []) && counter == |data|
      ensures currentSymbol == old(currentSymbol)
    {
      if data == [] {
        return;
      }
      ResetTrades();
      ProcessTrades(data);
    }
  }
}
