/** One tick of the background liquidation service: every position whose mark price
    has reached its liquidation price loses its margin and is deleted, each in its
    own transaction. The mark prices are a parameter, one per symbol: the oracle read
    behind them is not connected to this module. */
module LiquidationService {
  import opened Common
  import opened Ledger

  /** The mark the tick uses for `symbol`; absent or zero means none (falsy). */
  function MarkOf(marks: map<string, real>, symbol: string): (r: Option<real>)
    ensures Truthy(r) <==> symbol in marks && marks[symbol] != 0.0
  {
    if symbol in marks then Some(marks[symbol]) else None
  }

  /** The position is liquidated by the tick: it has a mark and the mark reached its
      liquidation price. */
  predicate LiquidatedAt(p: Position, marks: map<string, real>) {
    Truthy(MarkOf(marks, p.symbol)) && Reached(p.side, MarkOf(marks, p.symbol).value, p.liquidationPrice)
  }

  /** The trade the tick logs for position `p`: closed at its symbol's mark with the
      loss of its whole margin. */
  function TickTrade(p: Position, marks: map<string, real>): Trade {
    Trade(p.user, p.symbol, p.side, p.entry, if p.symbol in marks then marks[p.symbol] else 0.0,
          p.size, p.margin, p.leverage, -p.margin, Liquidated)
  }

  /** The trades of the positions among the first `n` rows that are live in `before`
      and deleted in `after`, in id order. */
  function Removed(before: seq<Option<Position>>, after: seq<Option<Position>>, marks: map<string, real>, n: nat): seq<Trade>
    requires n <= |before| && n <= |after|
  {
    if n == 0 then []
    else
      Removed(before, after, marks, n - 1) +
      (if before[n - 1].Some? && after[n - 1].None? then [TickTrade(before[n - 1].value, marks)] else [])
  }

  /** Only the rows below `n` of the later table matter. */
  lemma {:induction false} RemovedFrame(before: seq<Option<Position>>, a: seq<Option<Position>>, a': seq<Option<Position>>,
                                        marks: map<string, real>, n: nat)
    requires n <= |before| && n <= |a| && n <= |a'|
    requires forall j :: 0 <= j < n ==> a[j] == a'[j]
    ensures Removed(before, a, marks, n) == Removed(before, a', marks, n)
  {
    if n > 0 {
      RemovedFrame(before, a, a', marks, n - 1);
    }
  }

  /** Rows from `i` to `n` left as they were add no trade. */
  lemma {:induction false} RemovedUntouched(before: seq<Option<Position>>, after: seq<Option<Position>>,
                                            marks: map<string, real>, i: nat, n: nat)
    requires i <= n <= |before| && n <= |after|
    requires forall j :: i <= j < n ==> after[j] == before[j]
    ensures Removed(before, after, marks, n) == Removed(before, after, marks, i)
  {
    if n > i {
      RemovedUntouched(before, after, marks, i, n - 1);
    }
  }

  /** History row `h` is the liquidation entry of trade `tid`: the owner's loss of
      the trade's margin, with the owner's available balance in `accounts` after it. */
  predicate Logged(h: HistoryEntry, ts: seq<Trade>, tid: nat, accounts: map<UserId, Account>) {
    && tid < |ts| && ts[tid].user in accounts
    && h == HistoryEntry(ts[tid].user, Liquidation, -ts[tid].margin, accounts[ts[tid].user].available, Some(tid))
  }

  /** The body of the tick for position `i`: its owner loses the margin from the total
      and the locked amount (not clamped), the available balance is untouched, the
      trade is logged as liquidated at the mark with a loss of the whole margin, and
      the position is deleted. Linked stop orders are left open. */
  method Liquidate(db: Exchange, i: nat, mark: real)
    modifies db
    requires db.Valid()
    requires i < |db.positions| && db.positions[i].Some? && db.positions[i].value.user in db.accounts
    ensures db.Valid()
    ensures var p := old(db.positions)[i].value;
      var acc := Realize(ReleaseUnclamped(old(db.accounts)[p.user], p.margin), -p.margin);
      && db.accounts == old(db.accounts)[p.user := acc]
      && db.positions == old(db.positions)[i := None]
      && db.trades == old(db.trades) + [Trade(p.user, p.symbol, p.side, p.entry, mark, p.size, p.margin, p.leverage, -p.margin, Liquidated)]
      && db.history == old(db.history) + [HistoryEntry(p.user, Liquidation, -p.margin, acc.available, Some(|old(db.trades)|))]
      && db.orders == old(db.orders)
  {
    var p := db.positions[i].value;
    var u := p.user;
    var acc := Realize(ReleaseUnclamped(db.accounts[u], p.margin), -p.margin);
    var tid := |db.trades|;
    SettleKeepsConsistent(db.accounts, db.positions, db.orders, i, acc);
    db.accounts := db.accounts[u := acc];
    db.trades := db.trades + [Trade(u, p.symbol, p.side, p.entry, mark, p.size, p.margin, p.leverage, -p.margin, Liquidated)];
    db.history := db.history + [HistoryEntry(u, Liquidation, -p.margin, acc.available, Some(tid))];
    db.positions := db.positions[i := None];
  }

  /** A liquidation leaves the owner's available balance as it was, lowers the total
      and the locked margin by the same amount, and never drives the locked margin
      below zero even though it is not clamped. */
  lemma LiquidationKeepsAvailable(accounts: map<UserId, Account>, ps: seq<Option<Position>>, os: seq<Order>, i: nat)
    requires Consistent(accounts, ps, os)
    requires i < |ps| && ps[i].Some? && ps[i].value.user in accounts
    ensures var a := accounts[ps[i].value.user];
      var acc := Realize(ReleaseUnclamped(a, ps[i].value.margin), -ps[i].value.margin);
      && acc.available == a.available
      && acc.total - acc.locked == a.total - a.locked
      && 0.0 <= acc.locked <= a.locked
  {
    ClampNeverFires(accounts, ps, os, ps[i].value.user, i);
    assert ps[i].value.margin >= 0.0;
  }

  /** The tick's bookkeeping after the first `i` position rows, against the tables
      `a0`, `ps0`, `ts0`, `h0` as they were when it started: rows from `i` on are
      untouched, a row before `i` is kept or was a live position liquidated at its
      mark, no live row before `i` is left liquidatable, available balances and each
      total less its locked margin are kept, the new trades are those of the deleted
      positions in id order, and each has its history row. */
  ghost predicate Ticked(a0: map<UserId, Account>, ps0: seq<Option<Position>>, ts0: seq<Trade>, h0: seq<HistoryEntry>,
                         a: map<UserId, Account>, ps: seq<Option<Position>>, ts: seq<Trade>, h: seq<HistoryEntry>,
                         marks: map<string, real>, i: nat, liquidated: nat)
  {
    && i <= |ps0| == |ps|
    && (forall j :: i <= j < |ps0| ==> ps[j] == ps0[j])
    && (forall j :: 0 <= j < i ==> ps[j] == ps0[j] || (ps[j].None? && ps0[j].Some? && LiquidatedAt(ps0[j].value, marks)))
    && (forall j :: 0 <= j < i && ps[j].Some? ==> !LiquidatedAt(ps[j].value, marks))
    && a.Keys == a0.Keys
    && (forall v | v in a :: a[v].available == a0[v].available && a[v].total - a[v].locked == a0[v].total - a0[v].locked)
    && ts == ts0 + Removed(ps0, ps, marks, i) && |ts| == |ts0| + liquidated
    && (forall k :: |ts0| <= k < |ts| ==> ts[k].status == Liquidated && ts[k].pnl == -ts[k].margin)
    && h0 <= h && |h| == |h0| + liquidated
    && (forall k :: |h0| <= k < |h| ==> Logged(h[k], ts, |ts0| + (k - |h0|), a0))
  }

  /** Liquidating live row `i`, whose owner gets the balances `acc` (available and
      total less locked kept), one trade and one history row, moves the bookkeeping
      past `i`; a row that is not liquidatable moves it past `i` with nothing changed. */
  lemma TickedStep(a0: map<UserId, Account>, ps0: seq<Option<Position>>, ts0: seq<Trade>, h0: seq<HistoryEntry>,
                   a: map<UserId, Account>, ps: seq<Option<Position>>, ts: seq<Trade>, h: seq<HistoryEntry>,
                   marks: map<string, real>, i: nat, liquidated: nat, acc: Account)
    requires Ticked(a0, ps0, ts0, h0, a, ps, ts, h, marks, i, liquidated) && i < |ps0|
    requires ps[i].Some? && LiquidatedAt(ps[i].value, marks) && ps[i].value.user in a
    requires acc.available == a[ps[i].value.user].available
    requires acc.total - acc.locked == a[ps[i].value.user].total - a[ps[i].value.user].locked
    ensures var p := ps[i].value;
      Ticked(a0, ps0, ts0, h0, a[p.user := acc], ps[i := None], ts + [TickTrade(p, marks)],
             h + [HistoryEntry(p.user, Liquidation, -p.margin, acc.available, Some(|ts|))], marks, i + 1, liquidated + 1)
  {
    var p := ps[i].value;
    var ts' := ts + [TickTrade(p, marks)];
    var h' := h + [HistoryEntry(p.user, Liquidation, -p.margin, acc.available, Some(|ts|))];
    RemovedFrame(ps0, ps, ps[i := None], marks, i);
    assert Removed(ps0, ps[i := None], marks, i + 1) == Removed(ps0, ps, marks, i) + [TickTrade(p, marks)];
    forall k | |h0| <= k < |h'| ensures Logged(h'[k], ts', |ts0| + (k - |h0|), a0) {
      if k < |h| {
        assert Logged(h[k], ts, |ts0| + (k - |h0|), a0);
      }
    }
  }

  lemma TickedSkip(a0: map<UserId, Account>, ps0: seq<Option<Position>>, ts0: seq<Trade>, h0: seq<HistoryEntry>,
                   a: map<UserId, Account>, ps: seq<Option<Position>>, ts: seq<Trade>, h: seq<HistoryEntry>,
                   marks: map<string, real>, i: nat, liquidated: nat)
    requires Ticked(a0, ps0, ts0, h0, a, ps, ts, h, marks, i, liquidated) && i < |ps0|
    requires !(ps[i].Some? && LiquidatedAt(ps[i].value, marks))
    ensures Ticked(a0, ps0, ts0, h0, a, ps, ts, h, marks, i + 1, liquidated)
  {
    assert Removed(ps0, ps, marks, i + 1) == Removed(ps0, ps, marks, i);
  }

  /** What the bookkeeping says once the tick has stopped at row `i`. */
  lemma TickedEnds(a0: map<UserId, Account>, ps0: seq<Option<Position>>, ts0: seq<Trade>, h0: seq<HistoryEntry>,
                   a: map<UserId, Account>, ps: seq<Option<Position>>, ts: seq<Trade>, h: seq<HistoryEntry>,
                   marks: map<string, real>, i: nat, liquidated: nat)
    requires Ticked(a0, ps0, ts0, h0, a, ps, ts, h, marks, i, liquidated)
    ensures |ps| == |ps0|
    ensures forall j :: 0 <= j < |ps| ==> ps[j] == ps0[j] || (ps[j].None? && ps0[j].Some? && LiquidatedAt(ps0[j].value, marks))
    ensures i == |ps0| ==> forall j :: 0 <= j < |ps| && ps[j].Some? ==> !LiquidatedAt(ps[j].value, marks)
    ensures a.Keys == a0.Keys
    ensures forall v | v in a :: a[v].available == a0[v].available && a[v].total - a[v].locked == a0[v].total - a0[v].locked
    ensures |ts| == |ts0| + liquidated && ts0 <= ts
    ensures forall k :: |ts0| <= k < |ts| ==> ts[k].status == Liquidated && ts[k].pnl == -ts[k].margin
    ensures ts == ts0 + Removed(ps0, ps, marks, |ps|)
    ensures h0 <= h && |h| == |h0| + liquidated
    ensures forall k :: |h0| <= k < |h| ==> Logged(h[k], ts, |ts0| + (k - |h0|), a0)
  {
    RemovedUntouched(ps0, ps, marks, i, |ps|);
  }

  /** One iteration of the tick, at row `i`: a live position the mark has reached is
      liquidated when its owner has a user row; when the owner has none the tick
      stops there (`stop`) with nothing changed. */
  method TickRow(db: Exchange, marks: map<string, real>, i: nat, liquidated: nat,
                 ghost a0: map<UserId, Account>, ghost ps0: seq<Option<Position>>, ghost ts0: seq<Trade>, ghost h0: seq<HistoryEntry>)
    returns (liquidated': nat, stop: bool)
    modifies db
    requires db.Valid() && i < |ps0|
    requires Ticked(a0, ps0, ts0, h0, db.accounts, db.positions, db.trades, db.history, marks, i, liquidated)
    ensures db.Valid() && db.orders == old(db.orders)
    ensures Ticked(a0, ps0, ts0, h0, db.accounts, db.positions, db.trades, db.history, marks, if stop then i else i + 1, liquidated')
  {
    var p := db.positions[i];
    liquidated', stop := liquidated, false;
    if p.Some? && LiquidatedAt(p.value, marks) {
      if p.value.user !in db.accounts {
        stop := true;
        return;
      }
      ghost var a, ps, ts, h := db.accounts, db.positions, db.trades, db.history;
      var q := p.value;
      LiquidationKeepsAvailable(a, ps, db.orders, i);
      ghost var acc := Realize(ReleaseUnclamped(a[q.user], q.margin), -q.margin);
      TickedStep(a0, ps0, ts0, h0, a, ps, ts, h, marks, i, liquidated, acc);
      Liquidate(db, i, MarkOf(marks, q.symbol).value);
      assert db.accounts == a[q.user := acc] && db.positions == ps[i := None];
      assert db.trades == ts + [TickTrade(q, marks)];
      assert db.history == h + [HistoryEntry(q.user, Liquidation, -q.margin, acc.available, Some(|ts|))];
      liquidated' := liquidated + 1;
    } else {
      TickedSkip(a0, ps0, ts0, h0, db.accounts, db.positions, db.trades, db.history, marks, i, liquidated);
    }
  }

  /** One tick over the position table as read at its start, in id order. It stops
      early (`completed == false`) where a position's owner has no user row: reading
      that row throws, the open transaction rolls back and the rest of the tick is
      skipped, while earlier liquidations stay committed. Every position it deletes
      was liquidated at its mark, and the new trades are exactly those of the deleted
      positions, in id order, so `liquidated` counts them; each trade has one history
      row of the loss of its margin. */
  method Tick(db: Exchange, marks: map<string, real>) returns (liquidated: nat, completed: bool)
    modifies db
    requires db.Valid()
    ensures db.Valid()
    ensures db.orders == old(db.orders)
    ensures |db.positions| == |old(db.positions)|
    ensures forall i :: 0 <= i < |db.positions| ==>
      db.positions[i] == old(db.positions)[i] ||
      (db.positions[i].None? && old(db.positions)[i].Some? && LiquidatedAt(old(db.positions)[i].value, marks))
    ensures completed ==> forall i :: 0 <= i < |db.positions| && db.positions[i].Some? ==> !LiquidatedAt(db.positions[i].value, marks)
    ensures db.accounts.Keys == old(db.accounts).Keys
    ensures forall v | v in db.accounts ::
      && db.accounts[v].available == old(db.accounts)[v].available
      && db.accounts[v].total - db.accounts[v].locked == old(db.accounts)[v].total - old(db.accounts)[v].locked
    ensures |db.trades| == |old(db.trades)| + liquidated && old(db.trades) <= db.trades
    ensures forall k :: |old(db.trades)| <= k < |db.trades| ==> db.trades[k].status == Liquidated && db.trades[k].pnl == -db.trades[k].margin
    ensures db.trades == old(db.trades) + Removed(old(db.positions), db.positions, marks, |db.positions|)
    ensures old(db.history) <= db.history && |db.history| == |old(db.history)| + liquidated
    ensures forall k :: |old(db.history)| <= k < |db.history| ==>
      Logged(db.history[k], db.trades, |old(db.trades)| + (k - |old(db.history)|), old(db.accounts))
  {
    ghost var i;
    liquidated, completed, i := TickLoop(db, marks);
    TickedEnds(old(db.accounts), old(db.positions), old(db.trades), old(db.history),
               db.accounts, db.positions, db.trades, db.history, marks, i, liquidated);
  }

  /** The loop of the tick: it ends with its bookkeeping at the row where it stopped,
      every row when it completes. */
  method TickLoop(db: Exchange, marks: map<string, real>) returns (liquidated: nat, completed: bool, ghost i: nat)
    modifies db
    requires db.Valid()
    ensures db.Valid() && db.orders == old(db.orders)
    ensures Ticked(old(db.accounts), old(db.positions), old(db.trades), old(db.history),
                   db.accounts, db.positions, db.trades, db.history, marks, i, liquidated)
    ensures completed ==> i == |old(db.positions)|
  {
    ghost var a0, ps0, ts0, h0 := db.accounts, db.positions, db.trades, db.history;
    var n := |db.positions|;
    liquidated := 0;
    completed := true;
    assert ts0 + Removed(ps0, ps0, marks, 0) == ts0;
    var k := 0;
    while k < n
      invariant db.Valid() && db.orders == old(db.orders) && completed
      invariant Ticked(a0, ps0, ts0, h0, db.accounts, db.positions, db.trades, db.history, marks, k, liquidated)
    {
      var stop;
      liquidated, stop := TickRow(db, marks, k, liquidated, a0, ps0, ts0, h0);
      if stop {
        completed := false;
        break;
      }
      k := k + 1;
    }
    i := k;
  }
}
