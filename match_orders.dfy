/** The match pass: given a mark price for one symbol, walk the caller's open orders
    on that symbol in creation order (filling limit orders, triggering stop orders),
    then liquidate the caller's positions on that symbol whose liquidation price the
    mark has reached. The caller's balances are carried in local variables and
    written back once at the end. */
module MatchOrders {
  import opened Common
  import opened Ledger

  datatype MatchError = MissingSymbol | InvalidMarkPrice | UserNotFound

  /** The counters the route answers with. */
  datatype MatchCounts = MatchCounts(matched: nat, triggeredStops: nat, liquidated: nat, rejected: nat)

  const INVALID_LIMIT: string := "Invalid limit price"
  const POSITION_EXISTS: string := "Position already open for symbol/side"
  const INVALID_STOP: string := "Invalid stop order configuration"
  const ORPHAN_STOP: string := "Linked position no longer exists"
  const CLOSED_BY_STOP: string := "Position closed by stop trigger"
  const CLOSED_BY_LIQUIDATION: string := "Position liquidated"

  /** An open order of user `u` on `symbol`: a row the pass reads. */
  predicate OpenFor(o: Order, u: UserId, symbol: string) {
    o.user == u && o.symbol == symbol && o.status == Open
  }

  /** A limit order whose limit price is present and positive. */
  predicate ValidLimit(o: Order) {
    o.limitPrice.Some? && o.limitPrice.value > 0.0
  }

  /** A stop order whose stop price is present and positive. */
  predicate ValidStop(o: Order) {
    o.stopPrice.Some? && o.stopPrice.value > 0.0
  }

  /** The position a stop order's link resolves to for user `u`. Position ids are
      serial and start at 1, so a missing link (`Number(null)`, that is 0) resolves to
      no position. */
  function LinkedPosition(ps: seq<Option<Position>>, o: Order, u: UserId): (r: Option<nat>)
    ensures r.Some? ==> o.linkedPosition == r && r.value < |ps| && ps[r.value].Some? && ps[r.value].value.user == u
    ensures r.None? && o.linkedPosition.Some? && o.linkedPosition.value < |ps| ==>
      !(ps[o.linkedPosition.value].Some? && ps[o.linkedPosition.value].value.user == u)
  {
    match o.linkedPosition
    case None => None
    case Some(pid) => if pid < |ps| && ps[pid].Some? && ps[pid].value.user == u then Some(pid) else None
  }

  /** The mark has reached a position's (positive) liquidation price. */
  predicate Breached(p: Position, mark: real) {
    p.liquidationPrice > 0.0 && Reached(p.side, mark, p.liquidationPrice)
  }

  /** A row the pass has nothing more to do with at this mark: if it is still open, it
      is a well-formed limit order the mark has not reached, or a well-formed stop. */
  predicate Settled(o: Order, mark: real) {
    o.status == Open ==>
      && (o.orderType == Limit ==> ValidLimit(o) && !Reached(o.side, mark, o.limitPrice.value))
      && (o.orderType == StopMarket ==> ValidStop(o) && o.linkedPosition.Some?)
  }

  /** A live position of `u` on `symbol`: a row the liquidation loop reads. */
  predicate HeldOn(p: Option<Position>, u: UserId, symbol: string) {
    p.Some? && p.value.user == u && p.value.symbol == symbol
  }

  /** Nothing for the pass to fill, reject or liquidate on (`u`, `symbol`) at `mark`. */
  ghost predicate Calm(os: seq<Order>, ps: seq<Option<Position>>, u: UserId, symbol: string, mark: real) {
    && (forall k :: 0 <= k < |os| && OpenFor(os[k], u, symbol) ==> Settled(os[k], mark))
    && (forall i :: 0 <= i < |ps| && HeldOn(ps[i], u, symbol) ==> !Breached(ps[i].value, mark))
  }

  /** A stop order this mark cannot trigger as long as positions are only deleted: its
      link names an id already allocated, and if that position is still `u`'s the
      mark has not reached the stop price. */
  predicate Quiet(ps: seq<Option<Position>>, o: Order, u: UserId, mark: real) {
    && ValidStop(o) && o.linkedPosition.Some? && o.linkedPosition.value < |ps|
    && (LinkedPosition(ps, o, u).Some? ==> !Reached(ps[o.linkedPosition.value].value.side, mark, o.stopPrice.value))
  }

  /** Every open stop order of `u` on `symbol` among the first `n` rows is quiet. */
  ghost predicate Dormant(os: seq<Order>, ps: seq<Option<Position>>, u: UserId, symbol: string, mark: real, n: nat) {
    && n <= |os|
    && forall k :: 0 <= k < n && OpenFor(os[k], u, symbol) && os[k].orderType == StopMarket ==> Quiet(ps, os[k], u, mark)
  }

  /** A stop-loss child created by the pass for a limit order it filled. */
  predicate IsChild(o: Order, u: UserId, symbol: string) {
    && o.orderType == StopMarket && o.user == u && o.symbol == symbol
    && o.reduceOnly && o.marginReserved == 0.0 && ValidStop(o) && o.linkedPosition.Some?
  }

  /** The position table changed only by deleting positions of `u` and appending
      positions of `u` on `symbol`. */
  ghost predicate PositionsEvolved(before: seq<Option<Position>>, after: seq<Option<Position>>, u: UserId, symbol: string) {
    && |before| <= |after|
    && (forall i :: 0 <= i < |before| ==>
          after[i] == before[i] || (after[i].None? && before[i].Some? && before[i].value.user == u))
    && (forall i :: |before| <= i < |after| && after[i].Some? ==> after[i].value.user == u && after[i].value.symbol == symbol)
  }

  /** Ids below `n` of the open orders of `u` on `symbol`, oldest first: the rows the
      pass reads, in `created_at` order. */
  function OpenIds(os: seq<Order>, u: UserId, symbol: string, n: nat): (r: seq<nat>)
    requires n <= |os|
    ensures forall j :: 0 <= j < |r| ==> r[j] < n && OpenFor(os[r[j]], u, symbol)
    ensures forall j, l :: 0 <= j < l < |r| ==> r[j] < r[l]
    ensures forall k :: 0 <= k < n && OpenFor(os[k], u, symbol) ==> k in r
    decreases n
  {
    if n == 0 then []
    else if OpenFor(os[n - 1], u, symbol) then OpenIds(os, u, symbol, n - 1) + [n - 1]
    else OpenIds(os, u, symbol, n - 1)
  }

  /** The realized P&L of a run of trade rows. */
  function RealizedPnl(ts: seq<Trade>): real {
    if ts == [] then 0.0 else RealizedPnl(ts[..|ts| - 1]) + ts[|ts| - 1].pnl
  }

  /** The P&L of the trades logged across two appends is the sum of the two runs. */
  lemma {:induction false} RealizedPnlSplit(t0: seq<Trade>, t1: seq<Trade>, t2: seq<Trade>)
    requires t0 <= t1 <= t2
    ensures RealizedPnl(t2[|t0|..]) == RealizedPnl(t1[|t0|..]) + RealizedPnl(t2[|t1|..])
    decreases |t2|
  {
    if |t2| > |t1| {
      var t2' := t2[..|t2| - 1];
      RealizedPnlSplit(t0, t1, t2');
      assert t2[|t0|..][..|t2[|t0|..]| - 1] == t2'[|t0|..];
      assert t2[|t1|..][..|t2[|t1|..]| - 1] == t2'[|t1|..];
    } else {
      assert t2 == t1;
      assert t2[|t1|..] == [];
    }
  }

  /** How many of the first `n` rows were open in `os0` and have status `st` in `os`. */
  function Became(os0: seq<Order>, os: seq<Order>, st: OrderStatus, n: nat): nat
    requires n <= |os0| && n <= |os|
  {
    if n == 0 then 0
    else Became(os0, os, st, n - 1) + (if os0[n - 1].status == Open && os[n - 1].status == st then 1 else 0)
  }

  /** No snapshot row has become anything while the table is the snapshot. */
  lemma {:induction false} BecameNone(os0: seq<Order>, st: OrderStatus, n: nat)
    requires n <= |os0| && st != Open
    ensures Became(os0, os0, st, n) == 0
  {
    if n > 0 {
      BecameNone(os0, st, n - 1);
    }
  }

  /** Rows whose status `st`-ness is unchanged leave the count unchanged. */
  lemma {:induction false} BecameSame(os0: seq<Order>, os: seq<Order>, os': seq<Order>, st: OrderStatus, n: nat)
    requires n <= |os0| && n <= |os| && n <= |os'|
    requires forall j :: 0 <= j < n ==> (os[j].status == st <==> os'[j].status == st)
    ensures Became(os0, os', st, n) == Became(os0, os, st, n)
  {
    if n > 0 {
      BecameSame(os0, os, os', st, n - 1);
    }
  }

  /** When only row `k` (open in the snapshot, not yet `st`) may reach `st`, the count
      grows by one exactly when it does. */
  lemma {:induction false} BecameStep(os0: seq<Order>, os: seq<Order>, os': seq<Order>, st: OrderStatus, k: nat, n: nat)
    requires n <= |os0| && n <= |os| && n <= |os'| && k < n
    requires forall j :: 0 <= j < n && j != k ==> (os[j].status == st <==> os'[j].status == st)
    requires os0[k].status == Open && os[k].status != st
    ensures Became(os0, os', st, n) == Became(os0, os, st, n) + (if os'[k].status == st then 1 else 0)
  {
    if k < n - 1 {
      BecameStep(os0, os, os', st, k, n - 1);
    } else {
      BecameSame(os0, os, os', st, n - 1);
    }
  }

  /** Row `r` is open stop order `o` canceled, with whatever reason. */
  predicate CanceledFrom(o: Order, r: Order) {
    o.status == Open && o.orderType == StopMarket && r == o.(status := Canceled, rejectReason := r.rejectReason)
  }

  /** The position stop order `o` links to has been deleted from `ps`. */
  predicate Gone(ps: seq<Option<Position>>, o: Order) {
    o.linkedPosition.Some? && o.linkedPosition.value < |ps| && ps[o.linkedPosition.value].None?
  }

  /** Apart from row `k`, every row of `os` either stays as it is in `os'` or is an open
      stop order that gets canceled; rows may be appended. */
  ghost predicate CancelsOnly(os: seq<Order>, os': seq<Order>, k: int) {
    && |os| <= |os'|
    && forall j :: 0 <= j < |os| && j != k ==> os'[j] == os[j] || CanceledFrom(os[j], os'[j])
  }

  /** Canceling linked stops only cancels open stop orders, all of them linked to `pid`. */
  lemma CancelStopsOnlyCancels(os: seq<Order>, pid: nat, owner: Option<UserId>, keep: Option<nat>, reason: string)
    ensures CancelsOnly(os, CancelStops(os, pid, owner, keep, reason), -1)
    ensures forall j :: 0 <= j < |os| && CancelStops(os, pid, owner, keep, reason)[j] != os[j] ==> os[j].linkedPosition == Some(pid)
  {
    var r := CancelStops(os, pid, owner, keep, reason);
    forall j | 0 <= j < |os| ensures r[j] == os[j] || CanceledFrom(os[j], r[j]) {
      if IsLinkedStop(os[j], j, pid, owner, keep) {
        assert r[j] == os[j].(status := Canceled, rejectReason := Some(reason));
      }
    }
  }

  /** Two rounds of cancellations are one. */
  lemma CancelsOnlyTransitive(a: seq<Order>, b: seq<Order>, c: seq<Order>)
    requires CancelsOnly(a, b, -1) && CancelsOnly(b, c, -1) && |a| == |b|
    ensures CancelsOnly(a, c, -1)
  {
    forall j | 0 <= j < |a| ensures c[j] == a[j] || CanceledFrom(a[j], c[j]) {
      if b[j] != a[j] {
        assert b[j].status != Open;
      }
    }
  }

  /** Row `r` is open stop order `o` canceled with reason `w` because the position it
      links to, live in `ps`, is deleted in `ps'`. */
  predicate ClosedBy(o: Order, r: Order, ps: seq<Option<Position>>, ps': seq<Option<Position>>, w: string) {
    && o.status == Open && o.orderType == StopMarket
    && Gone(ps', o) && !Gone(ps, o)
    && r == o.(status := Canceled, rejectReason := Some(w))
  }

  /** Order `o` belongs to `owner`, when an owner is given. */
  predicate Owns(owner: Option<UserId>, o: Order) {
    owner.None? || o.user == owner.value
  }

  /** A position row once deleted stays deleted. */
  ghost predicate KeepsGone(ps: seq<Option<Position>>, ps': seq<Option<Position>>) {
    |ps| <= |ps'| && forall i :: 0 <= i < |ps| && ps[i].None? ==> ps'[i].None?
  }

  /** From the tables `os`, `ps` to `os'`, `ps'`, row `k` set aside: every row that
      changes is an open stop of `owner` closed with reason `w` because its position was
      deleted, and no open stop of `owner` is left linked to a position deleted in
      between. */
  ghost predicate Closes(os: seq<Order>, os': seq<Order>, ps: seq<Option<Position>>, ps': seq<Option<Position>>,
                         k: int, w: string, owner: Option<UserId>)
  {
    && |os| <= |os'|
    && (forall j :: 0 <= j < |os| && j != k && os'[j] != os[j] ==> Owns(owner, os[j]) && ClosedBy(os[j], os'[j], ps, ps', w))
    && (forall j ::
          (0 <= j < |os'| && os'[j].status == Open && os'[j].orderType == StopMarket && Owns(owner, os'[j]) && Gone(ps', os'[j])) ==>
            j < |os| && os'[j] == os[j] && Gone(ps, os[j]))
  }

  /** A step that deletes no position and touches no row but `k`, which it leaves as it
      is or takes out of the open state, closes nothing; it may append positions and
      rows linked to them. */
  lemma ClosesQuiet(os: seq<Order>, os': seq<Order>, ps: seq<Option<Position>>, ps': seq<Option<Position>>,
                    k: int, w: string, owner: Option<UserId>)
    requires |os| <= |os'| && forall j :: 0 <= j < |os| && j != k ==> os'[j] == os[j]
    requires 0 <= k < |os| ==> os'[k] == os[k] || os'[k].status != Open
    requires |ps| <= |ps'| && (forall i :: 0 <= i < |ps| ==> ps'[i] == ps[i]) && (forall i :: |ps| <= i < |ps'| ==> ps'[i].Some?)
    requires forall j :: |os| <= j < |os'| ==> os'[j].linkedPosition.Some? && |ps| <= os'[j].linkedPosition.value < |ps'|
    ensures Closes(os, os', ps, ps', k, w, owner)
  {
  }

  /** Cancellations compose: two rounds of closing stops with one reason are one. */
  lemma ClosesTransitive(a: seq<Order>, b: seq<Order>, c: seq<Order>, pa: seq<Option<Position>>, pb: seq<Option<Position>>,
                         pc: seq<Option<Position>>, w: string, owner: Option<UserId>)
    requires Closes(a, b, pa, pb, -1, w, owner) && Closes(b, c, pb, pc, -1, w, owner)
    requires KeepsGone(pa, pb) && KeepsGone(pb, pc)
    ensures Closes(a, c, pa, pc, -1, w, owner)
  {
    forall j | 0 <= j < |a| && c[j] != a[j] ensures Owns(owner, a[j]) && ClosedBy(a[j], c[j], pa, pc, w) {
      if b[j] == a[j] {
        assert ClosedBy(b[j], c[j], pb, pc, w);
      } else {
        assert ClosedBy(a[j], b[j], pa, pb, w);
        assert c[j] == b[j];
      }
    }
  }

  /** What the pass does with an open snapshot row `o` of `u` when its turn comes, with
      the position table then `ps`: a limit order with an invalid price is rejected; one
      the mark has not reached rests; one the mark has reached is rejected when `u`
      already holds a position on its symbol and side, and fills otherwise. A stop
      order with an invalid price is rejected; one whose linked position of `u` is gone
      is canceled; one on a live position fills (triggers) exactly when the mark has
      reached its stop price for the position's side. A market order rests. */
  datatype Verdict = Rest | Fill | Reject(reason: string) | Cancel(reason: string)

  function Decide(ps: seq<Option<Position>>, o: Order, u: UserId, mark: real): Verdict {
    match o.orderType
    case Limit =>
      if !ValidLimit(o) then Reject(INVALID_LIMIT)
      else if !Reached(o.side, mark, o.limitPrice.value) then Rest
      else if HasPosition(ps, u, o.symbol, o.side) then Reject(POSITION_EXISTS)
      else Fill
    case StopMarket =>
      if !ValidStop(o) then Reject(INVALID_STOP)
      else if LinkedPosition(ps, o, u).None? then Cancel(ORPHAN_STOP)
      else if Reached(ps[LinkedPosition(ps, o, u).value].value.side, mark, o.stopPrice.value) then Fill
      else Rest
    case Market => Rest
  }

  /** The position table after the visit of `o` against `ps`: a filled limit order
      appends a position of `u` at its limit price holding its reserved margin, a
      triggered stop deletes its linked position, and any other verdict leaves the
      table as it is. */
  function After(ps: seq<Option<Position>>, o: Order, u: UserId, mark: real): seq<Option<Position>>
    requires o.orderType == Limit ==> o.leverage != 0.0
  {
    if Decide(ps, o, u, mark) != Fill then ps
    else if o.orderType == Limit then
      ps + [Some(NewPosition(u, o.symbol, o.side, o.limitPrice.value, o.size, o.marginReserved, o.leverage))]
    else ps[LinkedPosition(ps, o, u).value := None]
  }

  /** Row `r` is snapshot row `o` after verdict `v`, taken with the position table
      `ps`: a resting row is unchanged (a resting stop may since have been canceled by
      a later trigger or liquidation); a rejected or canceled row carries the verdict's
      status and reason; a filled limit order is linked to the position appended at
      id `|ps|` with its limit price as fill price; a triggered stop is filled at the
      mark. No other field changes. */
  ghost predicate Becomes(o: Order, r: Order, v: Verdict, ps: seq<Option<Position>>, mark: real) {
    match v
    case Rest => r == o || CanceledFrom(o, r)
    case Reject(w) => r == o.(status := Rejected, rejectReason := Some(w))
    case Cancel(w) => r == o.(status := Canceled, rejectReason := Some(w))
    case Fill =>
      if o.orderType == Limit then r == o.(status := Filled, linkedPosition := Some(|ps|), filledPrice := o.limitPrice)
      else r == o.(status := Filled, filledPrice := Some(mark))
  }

  /** A later cancellation of a row left open keeps the row's outcome. */
  lemma BecomesStable(o: Order, r: Order, r': Order, v: Verdict, ps: seq<Option<Position>>, mark: real)
    requires Becomes(o, r, v, ps, mark) && (r' == r || CanceledFrom(r, r'))
    ensures Becomes(o, r', v, ps, mark)
  {
  }

  /** Every limit order of the table has a non-zero leverage. */
  ghost predicate Levered(os: seq<Order>) {
    forall k :: 0 <= k < |os| && os[k].orderType == Limit ==> os[k].leverage != 0.0
  }

  /** Well-formed tables have no limit order without leverage. */
  lemma LeveredTables(ps: seq<Option<Position>>, os: seq<Order>)
    requires TablesOk(ps, os)
    ensures Levered(os)
  {
    forall k | 0 <= k < |os| && os[k].orderType == Limit ensures os[k].leverage != 0.0 {
      assert OrderOk(os[k]);
    }
  }

  /** The position table after the first `i` visits of the snapshot rows `ids` of
      `os0`, starting from `ps0`. */
  ghost function PositionsAt(os0: seq<Order>, ps0: seq<Option<Position>>, ids: seq<nat>, i: nat, u: UserId, mark: real): seq<Option<Position>>
    requires Levered(os0) && i <= |ids| && forall j :: 0 <= j < |ids| ==> ids[j] < |os0|
  {
    if i == 0 then ps0 else After(PositionsAt(os0, ps0, ids, i - 1, u, mark), os0[ids[i - 1]], u, mark)
  }

  /** The first `n` snapshot rows `ids` of `os0` have, in `os`, the outcome `Decide`
      gives each at the position table its visit met. */
  ghost predicate Outcomes(os0: seq<Order>, ps0: seq<Option<Position>>, os: seq<Order>, ids: seq<nat>, n: nat, u: UserId, mark: real) {
    && Levered(os0) && n <= |ids| && (forall j :: 0 <= j < |ids| ==> ids[j] < |os0|) && |os0| <= |os|
    && forall j :: 0 <= j < n ==>
         Becomes(os0[ids[j]], os[ids[j]], Decide(PositionsAt(os0, ps0, ids, j, u, mark), os0[ids[j]], u, mark),
                 PositionsAt(os0, ps0, ids, j, u, mark), mark)
  }

  /** The visit of the `i`-th snapshot row, which decides that row and touches no
      other row but to cancel stops, extends the outcomes by one row. */
  lemma {:induction false} OutcomesStep(os0: seq<Order>, ps0: seq<Option<Position>>, os: seq<Order>, os': seq<Order>,
                                        ps: seq<Option<Position>>, ps': seq<Option<Position>>, ids: seq<nat>, i: nat, u: UserId, mark: real)
    requires Outcomes(os0, ps0, os, ids, i, u, mark) && i < |ids|
    requires ps == PositionsAt(os0, ps0, ids, i, u, mark)
    requires forall j, l :: 0 <= j < l < |ids| ==> ids[j] < ids[l]
    requires CancelsOnly(os, os', ids[i])
    requires Becomes(os0[ids[i]], os'[ids[i]], Decide(ps, os0[ids[i]], u, mark), ps, mark)
    requires ps' == After(ps, os0[ids[i]], u, mark)
    ensures Outcomes(os0, ps0, os', ids, i + 1, u, mark) && ps' == PositionsAt(os0, ps0, ids, i + 1, u, mark)
  {
    forall j | 0 <= j < i
      ensures Becomes(os0[ids[j]], os'[ids[j]], Decide(PositionsAt(os0, ps0, ids, j, u, mark), os0[ids[j]], u, mark),
                      PositionsAt(os0, ps0, ids, j, u, mark), mark)
    {
      assert ids[j] != ids[i];
      BecomesStable(os0[ids[j]], os[ids[j]], os'[ids[j]], Decide(PositionsAt(os0, ps0, ids, j, u, mark), os0[ids[j]], u, mark),
                    PositionsAt(os0, ps0, ids, j, u, mark), mark);
    }
  }

  /** Cancellations after the order loop keep the outcomes. */
  lemma OutcomesCancel(os0: seq<Order>, ps0: seq<Option<Position>>, os: seq<Order>, os': seq<Order>, ids: seq<nat>, n: nat, u: UserId, mark: real)
    requires Outcomes(os0, ps0, os, ids, n, u, mark) && CancelsOnly(os, os', -1)
    ensures Outcomes(os0, ps0, os', ids, n, u, mark)
  {
    forall j | 0 <= j < n
      ensures Becomes(os0[ids[j]], os'[ids[j]], Decide(PositionsAt(os0, ps0, ids, j, u, mark), os0[ids[j]], u, mark),
                      PositionsAt(os0, ps0, ids, j, u, mark), mark)
    {
      BecomesStable(os0[ids[j]], os[ids[j]], os'[ids[j]], Decide(PositionsAt(os0, ps0, ids, j, u, mark), os0[ids[j]], u, mark),
                    PositionsAt(os0, ps0, ids, j, u, mark), mark);
    }
  }

  /** Row `r` is the verdict on snapshot row `o` of `u` on `symbol`: it has left the
      open state, filled or with one of the reasons a visit gives. */
  predicate Verdicted(o: Order, r: Order, u: UserId, symbol: string) {
    && OpenFor(o, u, symbol) && r.status != Open
    && (|| r.status == Filled
        || r.rejectReason == Some(INVALID_LIMIT) || r.rejectReason == Some(POSITION_EXISTS)
        || r.rejectReason == Some(INVALID_STOP) || r.rejectReason == Some(ORPHAN_STOP))
  }

  /** What the order loop has done to the snapshot rows `os0` by `os`, with the
      positions gone from `ps0` to `ps`: each row is as it was, or has its verdict, or is
      a stop closed by a trigger because the position it links to was deleted; and no
      open stop is left linked to a position the loop deleted. */
  ghost predicate Fates(os0: seq<Order>, ps0: seq<Option<Position>>, os: seq<Order>, ps: seq<Option<Position>>,
                        u: UserId, symbol: string)
  {
    && |os0| <= |os| && KeepsGone(ps0, ps)
    && (forall j :: 0 <= j < |os0| ==>
          os[j] == os0[j] || Verdicted(os0[j], os[j], u, symbol) || ClosedBy(os0[j], os[j], ps0, ps, CLOSED_BY_STOP))
    && (forall j :: 0 <= j < |os| && os[j].status == Open && os[j].orderType == StopMarket && Gone(ps, os[j]) ==> Gone(ps0, os[j]))
  }

  /** A visit of snapshot row `k` that gives it its verdict or leaves it, and otherwise
      only closes stops on the position a trigger deleted, keeps the fates. */
  lemma FatesStep(os0: seq<Order>, ps0: seq<Option<Position>>, os: seq<Order>, ps: seq<Option<Position>>,
                  os': seq<Order>, ps': seq<Option<Position>>, k: nat, u: UserId, symbol: string)
    requires Fates(os0, ps0, os, ps, u, symbol) && k < |os0|
    requires Closes(os, os', ps, ps', k, CLOSED_BY_STOP, None) && KeepsGone(ps, ps')
    requires os'[k] == os[k] || Verdicted(os0[k], os'[k], u, symbol)
    ensures Fates(os0, ps0, os', ps', u, symbol)
  {
    forall j | 0 <= j < |os0|
      ensures os'[j] == os0[j] || Verdicted(os0[j], os'[j], u, symbol) || ClosedBy(os0[j], os'[j], ps0, ps', CLOSED_BY_STOP)
    {
      if os'[j] == os[j] {
        assert os[j] == os0[j] || Verdicted(os0[j], os[j], u, symbol) || ClosedBy(os0[j], os[j], ps0, ps, CLOSED_BY_STOP);
      } else if j != k {
        assert ClosedBy(os[j], os'[j], ps, ps', CLOSED_BY_STOP);
        assert os[j] == os0[j];
        assert !Gone(ps0, os[j]);
      }
    }
  }

  /** What the whole pass has done to the snapshot rows `os0` by `os`, with `built` the
      position table the order loop left and `ps` the final one: each row is as it
      was, or has its verdict, or is a stop canceled "Position closed by stop trigger"
      because the order loop deleted its position, or a stop of `u` canceled "Position
      liquidated" because the liquidation loop deleted its position. No open stop is
      left linked to a position the order loop deleted, and no open stop of `u` to one
      the liquidation loop deleted. */
  ghost predicate Cancellations(os0: seq<Order>, ps0: seq<Option<Position>>, os: seq<Order>, built: seq<Option<Position>>,
                                ps: seq<Option<Position>>, u: UserId, symbol: string)
  {
    && |os0| <= |os|
    && (forall j :: 0 <= j < |os0| ==>
          || os[j] == os0[j] || Verdicted(os0[j], os[j], u, symbol)
          || ClosedBy(os0[j], os[j], ps0, built, CLOSED_BY_STOP)
          || (os0[j].user == u && ClosedBy(os0[j], os[j], built, ps, CLOSED_BY_LIQUIDATION)))
    && (forall j :: 0 <= j < |os| && os[j].status == Open && os[j].orderType == StopMarket ==>
          && (Gone(built, os[j]) ==> Gone(ps0, os[j]))
          && (os[j].user == u && Gone(ps, os[j]) ==> Gone(built, os[j])))
  }

  /** The order loop's fates followed by the liquidation loop's closings. */
  lemma FatesCompose(os0: seq<Order>, ps0: seq<Option<Position>>, os1: seq<Order>, ps1: seq<Option<Position>>,
                     os2: seq<Order>, ps2: seq<Option<Position>>, u: UserId, symbol: string)
    requires Fates(os0, ps0, os1, ps1, u, symbol)
    requires Closes(os1, os2, ps1, ps2, -1, CLOSED_BY_LIQUIDATION, Some(u)) && |os2| == |os1|
    ensures Cancellations(os0, ps0, os2, ps1, ps2, u, symbol)
  {
    forall j | 0 <= j < |os0|
      ensures || os2[j] == os0[j] || Verdicted(os0[j], os2[j], u, symbol)
              || ClosedBy(os0[j], os2[j], ps0, ps1, CLOSED_BY_STOP)
              || (os0[j].user == u && ClosedBy(os0[j], os2[j], ps1, ps2, CLOSED_BY_LIQUIDATION))
    {
      if os2[j] != os1[j] {
        assert ClosedBy(os1[j], os2[j], ps1, ps2, CLOSED_BY_LIQUIDATION);
        assert os1[j] == os0[j];
      }
    }
    forall j | 0 <= j < |os2| && os2[j].status == Open && os2[j].orderType == StopMarket
      ensures Gone(ps1, os2[j]) ==> Gone(ps0, os2[j])
    {
      assert os2[j] == os1[j];
    }
  }

  /** A position row after the liquidation loop: deleted when it is `u`'s on `symbol`
      and the mark has breached it. */
  function Survivor(p: Option<Position>, u: UserId, symbol: string, mark: real): Option<Position> {
    if HeldOn(p, u, symbol) && Breached(p.value, mark) then None else p
  }

  /** The trade the liquidation loop logs for position `p`: closed at its liquidation
      price with the loss of its whole margin. */
  function LiquidationTrade(p: Position): Trade {
    Trade(p.user, p.symbol, p.side, p.entry, p.liquidationPrice, p.size, p.margin, p.leverage, -Abs(p.margin), Liquidated)
  }

  /** The trades the liquidation loop logs over the first `n` rows of `ps`, in id
      order: one for each position of `u` on `symbol` the mark has breached. */
  function LiquidationTrades(ps: seq<Option<Position>>, u: UserId, symbol: string, mark: real, n: nat): seq<Trade>
    requires n <= |ps|
  {
    if n == 0 then []
    else
      LiquidationTrades(ps, u, symbol, mark, n - 1) +
      (if HeldOn(ps[n - 1], u, symbol) && Breached(ps[n - 1].value, mark) then [LiquidationTrade(ps[n - 1].value)] else [])
  }

  // ---------------------------------------------------------------------------
  // The steps of the pass. Each keeps the database consistent with `u`'s account
  // replaced by the pass's running balances `acc`.
  // ---------------------------------------------------------------------------

  /** Give order `k` a terminal status and a reason; with `release`, its reserved margin
      goes back to the available balance (locked clamped at zero). */
  method Retire(db: Exchange, u: UserId, k: nat, acc: Account, status: OrderStatus, reason: string, release: bool)
    returns (acc': Account)
    modifies db
    requires Consistent(db.accounts[u := acc], db.positions, db.orders)
    requires k < |db.orders| && db.orders[k].user == u && status != Open
    requires release ==> db.orders[k].status == Open
    requires !release ==> Reserved(db.orders[k], u) == 0.0
    ensures Consistent(db.accounts[u := acc'], db.positions, db.orders)
    ensures acc' == if release then Release(acc, old(db.orders)[k].marginReserved) else acc
    ensures db.orders == old(db.orders)[k := old(db.orders)[k].(status := status, rejectReason := Some(reason))]
    ensures db.accounts == old(db.accounts) && db.positions == old(db.positions)
    ensures db.trades == old(db.trades) && db.history == old(db.history)
    ensures Closes(old(db.orders), db.orders, old(db.positions), db.positions, k, CLOSED_BY_STOP, None)
  {
    var view := db.accounts[u := acc];
    var row := db.orders[k].(status := status, rejectReason := Some(reason));
    ClosesQuiet(db.orders, db.orders[k := row], db.positions, db.positions, k, CLOSED_BY_STOP, None);
    assert OrderOk(db.orders[k]);
    BalancedSound(view[u], db.positions, db.orders, u);
    OrderReplaced(db.orders, k, row);
    SetOrderKeepsTables(db.positions, db.orders, k, row);
    acc' := if release then Release(acc, db.orders[k].marginReserved) else acc;
    Rebalance(view, db.positions, db.orders, db.positions, db.orders[k := row], u, acc');
    assert view[u := acc'] == db.accounts[u := acc'];
    db.orders := db.orders[k := row];
  }

  /** Fill open limit order `k` at its limit price: a position opens with the order's
      reserved margin (which stays locked), the order becomes filled and linked to it,
      and a positive attached stop-loss becomes a stop child of the position. */
  method FillLimit(db: Exchange, u: UserId, k: nat, acc: Account)
    modifies db
    requires Consistent(db.accounts[u := acc], db.positions, db.orders)
    requires k < |db.orders| && db.orders[k].user == u && db.orders[k].status == Open
    requires db.orders[k].orderType == Limit && ValidLimit(db.orders[k])
    requires !HasPosition(db.positions, u, db.orders[k].symbol, db.orders[k].side)
    ensures Consistent(db.accounts[u := acc], db.positions, db.orders)
    ensures var o := old(db.orders)[k];
      var pid := |old(db.positions)|;
      var limit := o.limitPrice.value;
      && db.positions == old(db.positions) + [Some(NewPosition(u, o.symbol, o.side, limit, o.size, o.marginReserved, o.leverage))]
      && db.orders == old(db.orders)[k := o.(status := Filled, linkedPosition := Some(pid), filledPrice := Some(limit))] +
           (if o.attachedStopLoss.Some? && o.attachedStopLoss.value > 0.0
            then [StopChild(u, o.symbol, o.side, o.size, o.leverage, o.attachedStopLoss.value, pid)] else [])
    ensures db.accounts == old(db.accounts) && db.trades == old(db.trades) && db.history == old(db.history)
  {
    var view := db.accounts[u := acc];
    var o := db.orders[k];
    assert OrderOk(o);
    var pid := |db.positions|;
    var limit := o.limitPrice.value;
    var p := NewPosition(u, o.symbol, o.side, limit, o.size, o.marginReserved, o.leverage);
    var filled := o.(status := Filled, linkedPosition := Some(pid), filledPrice := Some(limit));
    var ps0, os0 := db.positions, db.orders;
    PositionAdded(ps0, p);
    AddPositionKeepsTables(ps0, os0, p);
    OrderReplaced(os0, k, filled);
    SetOrderKeepsTables(ps0 + [Some(p)], os0, k, filled);
    var os1 := os0[k := filled];
    assert Balanced(view[u], ps0, os0, u);
    assert PositionMargin(ps0 + [Some(p)], u) == PositionMargin(ps0, u) + Held(Some(p), u);
    assert ReservedMargin(os1, u) == ReservedMargin(os0, u) - Reserved(os0[k], u) + Reserved(filled, u);
    Rebalance(view, ps0, os0, ps0 + [Some(p)], os1, u, acc);
    assert view[u := acc] == view;
    var rows: seq<Order> := [];
    if o.attachedStopLoss.Some? && o.attachedStopLoss.value > 0.0 {
      var child := StopChild(u, o.symbol, o.side, o.size, o.leverage, o.attachedStopLoss.value, pid);
      OrderAdded(os1, child);
      AddOrderKeepsTables(ps0 + [Some(p)], os1, child);
      assert ReservedMargin(os1 + [child], u) == ReservedMargin(os1, u) + Reserved(child, u);
      Rebalance(view, ps0 + [Some(p)], os1, ps0 + [Some(p)], os1 + [child], u, acc);
      rows := [child];
    }
    assert Consistent(view, ps0 + [Some(p)], os1 + rows) by {
      if rows == [] {
        assert os1 + rows == os1;
      }
    }
    db.positions := db.positions + [Some(p)];
    db.orders := os1 + rows;
  }

  /** Settling position `pid` at `mark` through stop order `k`, filling the order and
      canceling the position's other open stops keeps the database consistent with the
      settled balances. */
  lemma TriggerKeepsConsistent(accounts: map<UserId, Account>, ps: seq<Option<Position>>, os: seq<Order>,
                               u: UserId, k: nat, pid: nat, mark: real, acc: Account)
    requires Consistent(accounts[u := acc], ps, os)
    requires k < |os| && os[k].user == u && os[k].orderType == StopMarket
    requires pid < |ps| && ps[pid].Some? && ps[pid].value.user == u
    ensures var p := ps[pid].value;
      var acc' := Realize(Release(acc, p.margin), Pnl(p.side, p.entry, mark, p.size));
      Consistent(accounts[u := acc'], ps[pid := None],
                 CancelStops(os[k := os[k].(status := Filled, filledPrice := Some(mark))], pid, None, Some(k), CLOSED_BY_STOP))
  {
    var view := accounts[u := acc];
    var p := ps[pid].value;
    assert PositionOk(p);
    var pnl := Pnl(p.side, p.entry, mark, p.size);
    ClampNeverFires(view, ps, os, u, pid);
    var acc' := Realize(Release(acc, p.margin), pnl);
    SettleKeepsConsistent(view, ps, os, pid, acc');
    var filled := os[k].(status := Filled, filledPrice := Some(mark));
    assert OrderOk(os[k]);
    OrderReplaced(os, k, filled);
    SetOrderKeepsTables(ps[pid := None], os, k, filled);
    var os' := CancelStops(os[k := filled], pid, None, Some(k), CLOSED_BY_STOP);
    CancelStopsKeepsMargin(ps[pid := None], os[k := filled], pid, None, Some(k), CLOSED_BY_STOP);
    var view' := view[u := acc'];
    assert Balanced(view'[u], ps[pid := None], os, u);
    assert ReservedMargin(os', u) == ReservedMargin(os[k := filled], u);
    assert ReservedMargin(os[k := filled], u) == ReservedMargin(os, u) - Reserved(os[k], u) + Reserved(filled, u);
    Rebalance(view', ps[pid := None], os, ps[pid := None], os', u, acc');
    assert view'[u := acc'] == accounts[u := acc'];
  }

  /** Liquidating position `pid` with the loss of its whole margin and canceling its
      open stops of `u` keeps the database consistent with the settled balances. */
  lemma LiquidationKeepsConsistent(accounts: map<UserId, Account>, ps: seq<Option<Position>>, os: seq<Order>,
                                   u: UserId, pid: nat, acc: Account)
    requires Consistent(accounts[u := acc], ps, os)
    requires pid < |ps| && ps[pid].Some? && ps[pid].value.user == u
    ensures var p := ps[pid].value;
      var acc' := Realize(Release(acc, p.margin), -Abs(p.margin));
      Consistent(accounts[u := acc'], ps[pid := None], CancelStops(os, pid, Some(u), None, CLOSED_BY_LIQUIDATION))
  {
    var view := accounts[u := acc];
    var p := ps[pid].value;
    assert PositionOk(p);
    ClampNeverFires(view, ps, os, u, pid);
    var acc' := Realize(Release(acc, p.margin), -Abs(p.margin));
    SettleKeepsConsistent(view, ps, os, pid, acc');
    var os' := CancelStops(os, pid, Some(u), None, CLOSED_BY_LIQUIDATION);
    CancelStopsKeepsMargin(ps[pid := None], os, pid, Some(u), None, CLOSED_BY_LIQUIDATION);
    var view' := view[u := acc'];
    assert Balanced(view'[u], ps[pid := None], os, u);
    assert ReservedMargin(os', u) == ReservedMargin(os, u);
    Rebalance(view', ps[pid := None], os, ps[pid := None], os', u, acc');
    assert view'[u := acc'] == accounts[u := acc'];
  }

  /** Filling stop order `k` and canceling the other open stops on its position only
      moves rows out of the open state, leaves row `k` filled at the mark, and touches
      no other row but to cancel an open stop linked to the position. */
  lemma TriggerEvolves(os: seq<Order>, k: nat, pid: nat, mark: real)
    requires k < |os|
    ensures var r := CancelStops(os[k := os[k].(status := Filled, filledPrice := Some(mark))], pid, None, Some(k), CLOSED_BY_STOP);
      && Evolved(os, r)
      && r[k] == os[k].(status := Filled, filledPrice := Some(mark))
      && (forall j :: 0 <= j < |os| && j != k && os[j].orderType != StopMarket ==> r[j] == os[j])
      && CancelsOnly(os, r, k)
      && (forall j :: 0 <= j < |os| && j != k && r[j] != os[j] ==> os[j].linkedPosition == Some(pid))
  {
    var row := os[k].(status := Filled, filledPrice := Some(mark));
    var r := CancelStops(os[k := row], pid, None, Some(k), CLOSED_BY_STOP);
    assert r[k] == row;
    forall i | 0 <= i < |os| ensures r[i] == os[i] || (SameTerms(os[i], r[i]) && r[i].status != Open) {
      if i != k {
        assert os[k := row][i] == os[i];
      }
    }
    forall i | 0 <= i < |os| && i != k
      ensures (r[i] == os[i] || CanceledFrom(os[i], r[i])) && (r[i] != os[i] ==> os[i].linkedPosition == Some(pid))
    {
      assert os[k := row][i] == os[i];
    }
  }

  /** A trigger on live position `pid` closes, with the trigger's reason, exactly the
      open stops of any user linked to it, the triggering row set aside. */
  lemma ClosesTrigger(os: seq<Order>, ps: seq<Option<Position>>, k: nat, pid: nat, mark: real)
    requires k < |os| && pid < |ps| && ps[pid].Some?
    ensures Closes(os, CancelStops(os[k := os[k].(status := Filled, filledPrice := Some(mark))], pid, None, Some(k), CLOSED_BY_STOP),
                   ps, ps[pid := None], k, CLOSED_BY_STOP, None)
  {
    var row := os[k].(status := Filled, filledPrice := Some(mark));
    var r := CancelStops(os[k := row], pid, None, Some(k), CLOSED_BY_STOP);
    forall j | 0 <= j < |os| && j != k && r[j] != os[j] ensures ClosedBy(os[j], r[j], ps, ps[pid := None], CLOSED_BY_STOP) {
      assert os[k := row][j] == os[j];
    }
    forall j | 0 <= j < |r| && r[j].status == Open && r[j].orderType == StopMarket && Gone(ps[pid := None], r[j])
      ensures j < |os| && r[j] == os[j] && Gone(ps, os[j])
    {
      assert r[k] == row;
      assert os[k := row][j] == os[j];
    }
  }

  /** A liquidation of live position `pid` closes, with the liquidation's reason, exactly
      the open stops of `u` linked to it. */
  lemma ClosesLiquidation(os: seq<Order>, ps: seq<Option<Position>>, pid: nat, u: UserId)
    requires pid < |ps| && ps[pid].Some?
    ensures Closes(os, CancelStops(os, pid, Some(u), None, CLOSED_BY_LIQUIDATION), ps, ps[pid := None], -1,
                   CLOSED_BY_LIQUIDATION, Some(u))
  {
  }

  /** Trigger stop order `k` on position `pid` at `mark`: the position is settled at
      the mark (P&L realized, margin released with the clamp), logged as a trade with
      status `liquidated` and two history rows, and deleted; the order is filled at the
      mark and the position's other open stops are canceled. */
  method TriggerStop(db: Exchange, u: UserId, k: nat, pid: nat, mark: real, acc: Account) returns (acc': Account)
    modifies db
    requires Consistent(db.accounts[u := acc], db.positions, db.orders)
    requires k < |db.orders| && db.orders[k].user == u && db.orders[k].orderType == StopMarket
    requires pid < |db.positions| && db.positions[pid].Some? && db.positions[pid].value.user == u
    ensures Consistent(db.accounts[u := acc'], db.positions, db.orders)
    ensures var p := old(db.positions)[pid].value;
      var pnl := Pnl(p.side, p.entry, mark, p.size);
      var released := Release(acc, p.margin);
      var tid := |old(db.trades)|;
      && acc' == Realize(released, pnl)
      && db.positions == old(db.positions)[pid := None]
      && db.orders == CancelStops(old(db.orders)[k := old(db.orders)[k].(status := Filled, filledPrice := Some(mark))],
                                  pid, None, Some(k), CLOSED_BY_STOP)
      && db.trades == old(db.trades) + [Trade(u, p.symbol, p.side, p.entry, mark, p.size, p.margin, p.leverage, pnl, Liquidated)]
      && db.history == old(db.history) + [
           HistoryEntry(u, PositionClosed, p.margin, released.available, Some(tid)),
           HistoryEntry(u, if pnl >= 0.0 then TradeProfit else TradeLoss, pnl, acc'.available, Some(tid))]
    ensures db.accounts == old(db.accounts)
  {
    var p := db.positions[pid].value;
    var pnl := Pnl(p.side, p.entry, mark, p.size);
    var released := Release(acc, p.margin);
    acc' := Realize(released, pnl);
    var tid := |db.trades|;
    var filled := db.orders[k].(status := Filled, filledPrice := Some(mark));
    TriggerKeepsConsistent(db.accounts, db.positions, db.orders, u, k, pid, mark, acc);
    db.trades := db.trades + [Trade(u, p.symbol, p.side, p.entry, mark, p.size, p.margin, p.leverage, pnl, Liquidated)];
    db.history := db.history + [
      HistoryEntry(u, PositionClosed, p.margin, released.available, Some(tid)),
      HistoryEntry(u, if pnl >= 0.0 then TradeProfit else TradeLoss, pnl, acc'.available, Some(tid))];
    db.positions := db.positions[pid := None];
    db.orders := CancelStops(db.orders[k := filled], pid, None, Some(k), CLOSED_BY_STOP);
  }

  /** Liquidate position `pid` of `u` at its liquidation price: the whole margin is
      lost, the trade and one history row are logged, the position is deleted and its
      open stops of `u` are canceled. */
  method LiquidateInPass(db: Exchange, u: UserId, pid: nat, acc: Account) returns (acc': Account)
    modifies db
    requires Consistent(db.accounts[u := acc], db.positions, db.orders)
    requires pid < |db.positions| && db.positions[pid].Some? && db.positions[pid].value.user == u
    ensures Consistent(db.accounts[u := acc'], db.positions, db.orders)
    ensures var p := old(db.positions)[pid].value;
      var pnl := -Abs(p.margin);
      && acc' == Realize(Release(acc, p.margin), pnl)
      && db.positions == old(db.positions)[pid := None]
      && db.orders == CancelStops(old(db.orders), pid, Some(u), None, CLOSED_BY_LIQUIDATION)
      && db.trades == old(db.trades) +
           [Trade(u, p.symbol, p.side, p.entry, p.liquidationPrice, p.size, p.margin, p.leverage, pnl, Liquidated)]
      && db.history == old(db.history) + [HistoryEntry(u, Liquidation, pnl, acc'.available, Some(|old(db.trades)|))]
    ensures db.accounts == old(db.accounts)
    ensures Evolved(old(db.orders), db.orders) && CancelsOnly(old(db.orders), db.orders, -1)
    ensures acc'.total == acc.total + RealizedPnl(db.trades[|old(db.trades)|..])
  {
    var p := db.positions[pid].value;
    var pnl := -Abs(p.margin);
    acc' := Realize(Release(acc, p.margin), pnl);
    var tid := |db.trades|;
    LiquidationKeepsConsistent(db.accounts, db.positions, db.orders, u, pid, acc);
    CancelStopsKeepsMargin(db.positions, db.orders, pid, Some(u), None, CLOSED_BY_LIQUIDATION);
    CancelStopsOnlyCancels(db.orders, pid, Some(u), None, CLOSED_BY_LIQUIDATION);
    db.trades := db.trades + [Trade(u, p.symbol, p.side, p.entry, p.liquidationPrice, p.size, p.margin, p.leverage, pnl, Liquidated)];
    db.history := db.history + [HistoryEntry(u, Liquidation, pnl, acc'.available, Some(tid))];
    db.positions := db.positions[pid := None];
    db.orders := CancelStops(db.orders, pid, Some(u), None, CLOSED_BY_LIQUIDATION);
    assert db.trades[tid..] == [db.trades[tid]];
  }

  // ---------------------------------------------------------------------------
  // The pass
  // ---------------------------------------------------------------------------

  /** Rows that only leave the open state keep every open row settled. */
  lemma SettledStable(a: seq<Order>, b: seq<Order>, u: UserId, symbol: string, mark: real)
    requires Evolved(a, b) && |a| == |b|
    requires forall k :: 0 <= k < |a| && OpenFor(a[k], u, symbol) ==> Settled(a[k], mark)
    ensures forall k :: 0 <= k < |b| && OpenFor(b[k], u, symbol) ==> Settled(b[k], mark)
  {
    forall k | 0 <= k < |b| && OpenFor(b[k], u, symbol) ensures Settled(b[k], mark) {
      assert b[k] == a[k];
    }
  }

  /** Deleting positions and appending positions keeps a quiet stop quiet. */
  lemma QuietStable(ps: seq<Option<Position>>, ps': seq<Option<Position>>, o: Order, u: UserId, symbol: string, mark: real)
    requires Quiet(ps, o, u, mark) && PositionsEvolved(ps, ps', u, symbol)
    ensures Quiet(ps', o, u, mark)
  {
    var pid := o.linkedPosition.value;
    assert ps'[pid] == ps[pid] || ps'[pid].None?;
  }

  lemma DormantStable(os: seq<Order>, os': seq<Order>, ps: seq<Option<Position>>, ps': seq<Option<Position>>,
                      u: UserId, symbol: string, mark: real, n: nat)
    requires Dormant(os, ps, u, symbol, mark, n) && Evolved(os, os') && PositionsEvolved(ps, ps', u, symbol)
    ensures Dormant(os', ps', u, symbol, mark, n)
  {
    forall k | 0 <= k < n && OpenFor(os'[k], u, symbol) && os'[k].orderType == StopMarket
      ensures Quiet(ps', os'[k], u, mark)
    {
      assert os'[k] == os[k];
      QuietStable(ps, ps', os[k], u, symbol, mark);
    }
  }

  /** What one iteration of the order loop may do to the tables, visiting row `k`:
      rows only leave the open state, appended rows are stop children, no row but `k`
      that is not a stop order changes, every row but `k` that changes is an open stop
      canceled whose linked position is gone, and positions change only as the pass
      allows. */
  ghost predicate Stepped(os: seq<Order>, os': seq<Order>, ps: seq<Option<Position>>, ps': seq<Option<Position>>,
                          u: UserId, symbol: string, k: nat)
  {
    && Evolved(os, os')
    && (forall j :: |os| <= j < |os'| ==> IsChild(os'[j], u, symbol))
    && (forall j :: 0 <= j < |os| && j != k && os[j].orderType != StopMarket ==> os'[j] == os[j])
    && CancelsOnly(os, os', k)
    && (forall j :: 0 <= j < |os| && j != k && os'[j] != os[j] ==> Gone(ps', os[j]))
    && PositionsEvolved(ps, ps', u, symbol)
  }

  /** A limit order of the snapshot, still open and unchanged at row `k`. With an
      invalid limit price it is rejected, and a positive reservation is released.
      While the mark has not reached the limit price it stays open and nothing
      changes. Once the mark has reached it, the order is rejected with its
      reservation released when `u` already holds a position on its symbol and side;
      otherwise it fills: a position at the limit price holding the reserved margin is
      appended, and the order is linked to it. Each count is one exactly when the row
      ends with its status; no trade is logged and the total balance does not move. */
  method VisitLimit(db: Exchange, u: UserId, symbol: string, mark: real, k: nat, acc: Account)
    returns (acc': Account, filled: nat, rejected: nat)
    modifies db
    requires Consistent(db.accounts[u := acc], db.positions, db.orders)
    requires k < |db.orders| && OpenFor(db.orders[k], u, symbol) && db.orders[k].orderType == Limit
    ensures Consistent(db.accounts[u := acc'], db.positions, db.orders)
    ensures db.accounts == old(db.accounts)
    ensures Stepped(old(db.orders), db.orders, old(db.positions), db.positions, u, symbol, k)
    ensures Settled(db.orders[k], mark)
    ensures old(db.trades) <= db.trades && old(db.history) <= db.history
    ensures Settled(old(db.orders)[k], mark) ==> filled == 0 && rejected == 0 && |db.positions| == |old(db.positions)|
    ensures Closes(old(db.orders), db.orders, old(db.positions), db.positions, k, CLOSED_BY_STOP, None)
    ensures filled == (if db.orders[k].status == Filled then 1 else 0)
    ensures rejected == (if db.orders[k].status == Rejected then 1 else 0)
    ensures |db.positions| == |old(db.positions)| + filled
    ensures db.trades == old(db.trades) && acc'.total == acc.total
    ensures var o := old(db.orders)[k];
      !ValidLimit(o) ==>
        && db.orders == old(db.orders)[k := o.(status := Rejected, rejectReason := Some(INVALID_LIMIT))]
        && db.positions == old(db.positions)
        && acc' == (if o.marginReserved > 0.0 then Release(acc, o.marginReserved) else acc)
    ensures var o := old(db.orders)[k];
      ValidLimit(o) && !Reached(o.side, mark, o.limitPrice.value) ==>
        db.orders == old(db.orders) && db.positions == old(db.positions) && acc' == acc
    ensures var o := old(db.orders)[k];
      ValidLimit(o) && Reached(o.side, mark, o.limitPrice.value) && HasPosition(old(db.positions), u, o.symbol, o.side) ==>
        && db.orders == old(db.orders)[k := o.(status := Rejected, rejectReason := Some(POSITION_EXISTS))]
        && db.positions == old(db.positions)
        && acc' == Release(acc, o.marginReserved)
    ensures var o := old(db.orders)[k];
      ValidLimit(o) && Reached(o.side, mark, o.limitPrice.value) && !HasPosition(old(db.positions), u, o.symbol, o.side) ==>
        && o.leverage != 0.0
        && db.positions == old(db.positions) +
             [Some(NewPosition(u, o.symbol, o.side, o.limitPrice.value, o.size, o.marginReserved, o.leverage))]
        && db.orders[k] == o.(status := Filled, linkedPosition := Some(|old(db.positions)|), filledPrice := o.limitPrice)
        && acc' == acc
  {
    var o := db.orders[k];
    assert OrderOk(o);
    acc', filled, rejected := acc, 0, 0;
    if !ValidLimit(o) {
      acc' := Retire(db, u, k, acc, Rejected, INVALID_LIMIT, o.marginReserved > 0.0);
      rejected := 1;
    } else if Reached(o.side, mark, o.limitPrice.value) {
      if HasPosition(db.positions, u, o.symbol, o.side) {
        acc' := Retire(db, u, k, acc, Rejected, POSITION_EXISTS, true);
        rejected := 1;
      } else {
        ghost var os, ps := db.orders, db.positions;
        FillLimit(db, u, k, acc);
        ClosesQuiet(os, db.orders, ps, db.positions, k, CLOSED_BY_STOP, None);
        filled := 1;
      }
    }
  }

  /** The trigger branch of a stop visit: the stop's linked position `pid` of `u` is
      closed at the mark, which has reached the stop price. The row ends filled at
      the mark, one trade carrying the realized P&L is logged, the margin is released
      and the P&L realized, and the position row is emptied. */
  method FireStop(db: Exchange, u: UserId, symbol: string, mark: real, k: nat, o: Order, pid: nat, acc: Account)
    returns (acc': Account)
    modifies db
    requires Consistent(db.accounts[u := acc], db.positions, db.orders)
    requires k < |db.orders| && db.orders[k] == o && OpenFor(o, u, symbol) && o.orderType == StopMarket && ValidStop(o)
    requires LinkedPosition(db.positions, o, u) == Some(pid)
    requires Reached(db.positions[pid].value.side, mark, o.stopPrice.value)
    ensures Consistent(db.accounts[u := acc'], db.positions, db.orders)
    ensures db.accounts == old(db.accounts)
    ensures Stepped(old(db.orders), db.orders, old(db.positions), db.positions, u, symbol, k)
    ensures old(db.trades) <= db.trades && old(db.history) <= db.history
    ensures !Quiet(old(db.positions), o, u, mark)
    ensures |db.positions| == |old(db.positions)| && |db.trades| == |old(db.trades)| + 1
    ensures acc'.total == acc.total + RealizedPnl(db.trades[|old(db.trades)|..])
    ensures var p := old(db.positions)[pid].value;
      var pnl := Pnl(p.side, p.entry, mark, p.size);
      && acc' == Realize(Release(acc, p.margin), pnl)
      && db.positions == old(db.positions)[pid := None]
      && db.orders[k] == o.(status := Filled, filledPrice := Some(mark))
      && db.trades == old(db.trades) + [Trade(u, p.symbol, p.side, p.entry, mark, p.size, p.margin, p.leverage, pnl, Liquidated)]
    ensures db.orders == CancelStops(old(db.orders)[k := o.(status := Filled, filledPrice := Some(mark))], pid, None, Some(k), CLOSED_BY_STOP)
    ensures Closes(old(db.orders), db.orders, old(db.positions), db.positions, k, CLOSED_BY_STOP, None)
  {
    ghost var ts := db.trades;
    TriggerEvolves(db.orders, k, pid, mark);
    ClosesTrigger(db.orders, db.positions, k, pid, mark);
    acc' := TriggerStop(db, u, k, pid, mark, acc);
    assert db.trades[|ts|..] == [db.trades[|ts|]];
  }

  /** A stop order of the snapshot, read as `o`, whose row `k` may since have been
      canceled by an earlier trigger that deleted its linked position. It is rejected
      when its stop price is invalid, and canceled when its linked position of `u` is
      gone; neither releases anything. On a live linked position it stays open with
      nothing changed while the mark has not reached its stop price for the
      position's side, and triggers once it has: the position is closed at the mark.
      Each count is one exactly when the row ends with its status; a trigger logs one
      trade, and the total moves by the P&L of the trades logged. */
  method VisitStop(db: Exchange, u: UserId, symbol: string, mark: real, k: nat, o: Order, acc: Account)
    returns (acc': Account, triggered: nat, rejected: nat)
    modifies db
    requires Consistent(db.accounts[u := acc], db.positions, db.orders)
    requires k < |db.orders| && OpenFor(o, u, symbol) && o.orderType == StopMarket
    requires db.orders[k] == o || (CanceledFrom(o, db.orders[k]) && Gone(db.positions, o))
    ensures Consistent(db.accounts[u := acc'], db.positions, db.orders)
    ensures db.accounts == old(db.accounts)
    ensures Stepped(old(db.orders), db.orders, old(db.positions), db.positions, u, symbol, k)
    ensures Settled(db.orders[k], mark)
    ensures old(db.trades) <= db.trades && old(db.history) <= db.history
    ensures Settled(o, mark) ==> rejected == 0 && |db.positions| == |old(db.positions)|
    ensures db.orders[k].status == Open ==> Quiet(db.positions, db.orders[k], u, mark)
    ensures Quiet(old(db.positions), o, u, mark) ==> triggered == 0
    ensures Closes(old(db.orders), db.orders, old(db.positions), db.positions, k, CLOSED_BY_STOP, None)
    ensures triggered == (if db.orders[k].status == Filled then 1 else 0)
    ensures rejected == (if db.orders[k].status == Rejected then 1 else 0)
    ensures |db.positions| == |old(db.positions)| && |db.trades| == |old(db.trades)| + triggered
    ensures acc'.total == acc.total + RealizedPnl(db.trades[|old(db.trades)|..])
    ensures !ValidStop(o) ==>
      && db.orders == old(db.orders)[k := o.(status := Rejected, rejectReason := Some(INVALID_STOP))]
      && db.positions == old(db.positions) && db.trades == old(db.trades) && acc' == acc
    ensures ValidStop(o) && LinkedPosition(old(db.positions), o, u).None? ==>
      && db.orders == old(db.orders)[k := o.(status := Canceled, rejectReason := Some(ORPHAN_STOP))]
      && db.positions == old(db.positions) && db.trades == old(db.trades) && acc' == acc
    ensures ValidStop(o) && LinkedPosition(old(db.positions), o, u).Some? ==>
      var pid := LinkedPosition(old(db.positions), o, u).value;
      var p := old(db.positions)[pid].value;
      var pnl := Pnl(p.side, p.entry, mark, p.size);
      if Reached(p.side, mark, o.stopPrice.value) then
        && triggered == 1
        && db.orders == CancelStops(old(db.orders)[k := o.(status := Filled, filledPrice := Some(mark))], pid, None, Some(k), CLOSED_BY_STOP)
        && db.orders[k] == o.(status := Filled, filledPrice := Some(mark))
        && db.positions == old(db.positions)[pid := None]
        && db.trades == old(db.trades) + [Trade(u, p.symbol, p.side, p.entry, mark, p.size, p.margin, p.leverage, pnl, Liquidated)]
        && acc' == Realize(Release(acc, p.margin), pnl)
      else
        && triggered == 0
        && db.orders == old(db.orders) && db.positions == old(db.positions) && db.trades == old(db.trades) && acc' == acc
  {
    assert OrderOk(db.orders[k]);
    ghost var ts := db.trades;
    acc', triggered, rejected := acc, 0, 0;
    if !ValidStop(o) {
      acc' := Retire(db, u, k, acc, Rejected, INVALID_STOP, false);
      rejected := 1;
    } else {
      var pid := LinkedPosition(db.positions, o, u);
      if pid.None? {
        acc' := Retire(db, u, k, acc, Canceled, ORPHAN_STOP, false);
      } else if Reached(db.positions[pid.value].value.side, mark, o.stopPrice.value) {
        acc' := FireStop(db, u, symbol, mark, k, o, pid.value, acc);
        triggered := 1;
      }
    }
    if triggered == 0 {
      assert db.trades[|ts|..] == [];
    }
  }

  /** The loop's bookkeeping after visiting the first `i` snapshot ids: the tables
      evolved from the snapshot as the pass allows, a row not yet visited is untouched
      or is a stop canceled because its linked position is gone, the visited rows
      are settled, and every row has its fate so far. */
  ghost predicate Progress(os0: seq<Order>, ps0: seq<Option<Position>>, os: seq<Order>, ps: seq<Option<Position>>,
                           ids: seq<nat>, i: nat, u: UserId, symbol: string, mark: real)
  {
    && i <= |ids|
    && (forall j :: 0 <= j < |ids| ==> ids[j] < |os0|)
    && Evolved(os0, os)
    && (forall k :: |os0| <= k < |os| ==> IsChild(os[k], u, symbol))
    && (forall j :: i <= j < |ids| ==>
          os[ids[j]] == os0[ids[j]] || (CanceledFrom(os0[ids[j]], os[ids[j]]) && Gone(ps, os0[ids[j]])))
    && (forall j :: 0 <= j < i ==> Settled(os[ids[j]], mark))
    && (forall j :: 0 <= j < i && os[ids[j]].status == Open && os[ids[j]].orderType == StopMarket ==>
          Quiet(ps, os[ids[j]], u, mark))
    && PositionsEvolved(ps0, ps, u, symbol)
    && Fates(os0, ps0, os, ps, u, symbol)
  }

  lemma ProgressStep(os0: seq<Order>, ps0: seq<Option<Position>>, os: seq<Order>, ps: seq<Option<Position>>,
                     os': seq<Order>, ps': seq<Option<Position>>, ids: seq<nat>, i: nat, u: UserId, symbol: string, mark: real)
    requires Progress(os0, ps0, os, ps, ids, i, u, symbol, mark) && i < |ids|
    requires forall j, l :: 0 <= j < l < |ids| ==> ids[j] < ids[l]
    requires Stepped(os, os', ps, ps', u, symbol, ids[i]) && Settled(os'[ids[i]], mark)
    requires os'[ids[i]].status == Open && os'[ids[i]].orderType == StopMarket ==> Quiet(ps', os'[ids[i]], u, mark)
    requires Closes(os, os', ps, ps', ids[i], CLOSED_BY_STOP, None)
    requires os'[ids[i]] == os[ids[i]] || Verdicted(os0[ids[i]], os'[ids[i]], u, symbol)
    ensures Progress(os0, ps0, os', ps', ids, i + 1, u, symbol, mark)
  {
    assert KeepsGone(ps, ps');
    FatesStep(os0, ps0, os, ps, os', ps', ids[i], u, symbol);
    EvolvedTransitive(os0, os, os');
    forall k | |os0| <= k < |os'| ensures IsChild(os'[k], u, symbol) {
      if k < |os| {
        assert os'[k] == os[k] || SameTerms(os[k], os'[k]);
      }
    }
    forall j | 0 <= j < i ensures Settled(os'[ids[j]], mark) {
      assert ids[j] != ids[i];
    }
    forall j | 0 <= j < i && os'[ids[j]].status == Open && os'[ids[j]].orderType == StopMarket
      ensures Quiet(ps', os'[ids[j]], u, mark)
    {
      assert os'[ids[j]] == os[ids[j]];
      QuietStable(ps, ps', os[ids[j]], u, symbol, mark);
    }
    forall j | i + 1 <= j < |ids|
      ensures os'[ids[j]] == os0[ids[j]] || (CanceledFrom(os0[ids[j]], os'[ids[j]]) && Gone(ps', os0[ids[j]]))
    {
      assert ids[j] != ids[i];
    }
  }

  /** One snapshot row dispatched on its type: a limit order to `VisitLimit`, a stop to
      `VisitStop`, and any other row left as it is. The row ends as `Decide` rules at
      the position table the visit meets, and that table becomes `After` of it. The row
      ends settled (quiet if it is a stop still open); the counts say what became of
      it, and the positions, trades and running total move as the visit's counts say. */
  method VisitRow(db: Exchange, u: UserId, symbol: string, mark: real, k: nat, o: Order, acc: Account)
    returns (acc': Account, filled: nat, triggered: nat, rejected: nat)
    modifies db
    requires Consistent(db.accounts[u := acc], db.positions, db.orders)
    requires k < |db.orders| && OpenFor(o, u, symbol)
    requires db.orders[k] == o || (CanceledFrom(o, db.orders[k]) && Gone(db.positions, o))
    ensures Consistent(db.accounts[u := acc'], db.positions, db.orders)
    ensures db.accounts == old(db.accounts)
    ensures Stepped(old(db.orders), db.orders, old(db.positions), db.positions, u, symbol, k)
    ensures Settled(db.orders[k], mark)
    ensures db.orders[k].status == Open && db.orders[k].orderType == StopMarket ==> Quiet(db.positions, db.orders[k], u, mark)
    ensures old(db.trades) <= db.trades && old(db.history) <= db.history
    ensures Settled(o, mark) ==> filled == triggered && rejected == 0 && |db.positions| == |old(db.positions)|
    ensures o.orderType != StopMarket ==> triggered == 0
    ensures o.orderType == StopMarket && Quiet(old(db.positions), o, u, mark) ==> triggered == 0
    ensures filled == (if db.orders[k].status == Filled then 1 else 0)
    ensures rejected == (if db.orders[k].status == Rejected then 1 else 0)
    ensures |db.positions| + triggered == |old(db.positions)| + filled
    ensures |db.trades| == |old(db.trades)| + triggered
    ensures acc'.total == acc.total + RealizedPnl(db.trades[|old(db.trades)|..])
    ensures o.orderType == Limit ==> o.leverage != 0.0
    ensures Becomes(o, db.orders[k], Decide(old(db.positions), o, u, mark), old(db.positions), mark)
    ensures db.positions == After(old(db.positions), o, u, mark)
    ensures Closes(old(db.orders), db.orders, old(db.positions), db.positions, k, CLOSED_BY_STOP, None)
    ensures db.orders[k] == old(db.orders)[k] || Verdicted(o, db.orders[k], u, symbol)
    ensures Decide(old(db.positions), o, u, mark) == Rest ==> db.orders == old(db.orders)
  {
    assert OrderOk(db.orders[k]);
    acc', filled, triggered, rejected := acc, 0, 0, 0;
    if o.orderType == Limit {
      acc', filled, rejected := VisitLimit(db, u, symbol, mark, k, acc);
    } else if o.orderType == StopMarket {
      acc', triggered, rejected := VisitStop(db, u, symbol, mark, k, o, acc);
      filled := triggered;
    } else {
      assert Stepped(old(db.orders), db.orders, old(db.positions), db.positions, u, symbol, k);
      assert db.trades[|db.trades|..] == [];
      ClosesQuiet(db.orders, db.orders, db.positions, db.positions, k, CLOSED_BY_STOP, None);
    }
  }

  /** One iteration of the order loop: row `k`, the `i`-th snapshot id, read as `o`
      when the loop started, is visited as a limit order or a stop order; a market
      order is skipped. The loop's bookkeeping advances past `i`, and the counts are
      those of the tables: a filled or rejected count of one is the row going from
      open to filled or rejected, a trigger logs one trade and empties a position row,
      a limit fill adds one, and the running total moves by the P&L logged. */
  method Visit(db: Exchange, u: UserId, symbol: string, mark: real, k: nat, o: Order, acc: Account,
               ghost os0: seq<Order>, ghost ps0: seq<Option<Position>>, ghost ids: seq<nat>, ghost i: nat)
    returns (acc': Account, filled: nat, triggered: nat, rejected: nat)
    modifies db
    requires Consistent(db.accounts[u := acc], db.positions, db.orders)
    requires Progress(os0, ps0, db.orders, db.positions, ids, i, u, symbol, mark) && i < |ids|
    requires forall j, l :: 0 <= j < l < |ids| ==> ids[j] < ids[l]
    requires k == ids[i] && o == os0[k] && OpenFor(o, u, symbol)
    ensures Consistent(db.accounts[u := acc'], db.positions, db.orders)
    ensures db.accounts == old(db.accounts)
    ensures Progress(os0, ps0, db.orders, db.positions, ids, i + 1, u, symbol, mark)
    ensures old(db.trades) <= db.trades && old(db.history) <= db.history
    ensures Settled(o, mark) ==> filled == triggered && rejected == 0 && |db.positions| == |old(db.positions)|
    ensures o.orderType != StopMarket ==> triggered == 0
    ensures o.orderType == StopMarket && Quiet(old(db.positions), o, u, mark) ==> triggered == 0
    ensures |old(db.orders)| <= |db.orders|
    ensures Became(os0, db.orders, Filled, |os0|) == Became(os0, old(db.orders), Filled, |os0|) + filled
    ensures Became(os0, db.orders, Rejected, |os0|) == Became(os0, old(db.orders), Rejected, |os0|) + rejected
    ensures |db.positions| + triggered == |old(db.positions)| + filled
    ensures |db.trades| == |old(db.trades)| + triggered
    ensures acc'.total == acc.total + RealizedPnl(db.trades[|old(db.trades)|..])
    ensures CancelsOnly(old(db.orders), db.orders, k)
    ensures o.orderType == Limit ==> o.leverage != 0.0
    ensures Becomes(o, db.orders[k], Decide(old(db.positions), o, u, mark), old(db.positions), mark)
    ensures db.positions == After(old(db.positions), o, u, mark)
  {
    ghost var os1, ps1 := db.orders, db.positions;
    assert k < |os0| <= |os1|;
    assert os1[k] == o || (CanceledFrom(o, os1[k]) && Gone(ps1, o));
    acc', filled, triggered, rejected := VisitRow(db, u, symbol, mark, k, o, acc);
    BecameStep(os0, os1, db.orders, Filled, k, |os0|);
    BecameStep(os0, os1, db.orders, Rejected, k, |os0|);
    ProgressStep(os0, ps0, os1, ps1, db.orders, db.positions, ids, i, u, symbol, mark);
  }

  /** The order loop's counts against the tables: `filled` and `rejected` count the
      snapshot rows that went from open to filled and to rejected, each triggered stop
      logged one trade and emptied a position row, each filled limit order added one,
      and the running total moved by the P&L of the logged trades. */
  ghost predicate Tally(os0: seq<Order>, os: seq<Order>, ps0: seq<Option<Position>>, ps: seq<Option<Position>>,
                        ts0: seq<Trade>, ts: seq<Trade>, acc0: Account, acc: Account, filled: nat, triggered: nat, rejected: nat)
  {
    && |os0| <= |os| && ts0 <= ts
    && filled == Became(os0, os, Filled, |os0|)
    && rejected == Became(os0, os, Rejected, |os0|)
    && |ps| + triggered == |ps0| + filled
    && |ts| == |ts0| + triggered
    && acc.total == acc0.total + RealizedPnl(ts[|ts0|..])
  }

  /** One visit's counts added to the running ones keep the tally. */
  lemma TallyStep(os0: seq<Order>, os1: seq<Order>, os2: seq<Order>, ps0: seq<Option<Position>>, ps1: seq<Option<Position>>,
                  ps2: seq<Option<Position>>, ts0: seq<Trade>, ts1: seq<Trade>, ts2: seq<Trade>, acc0: Account, acc1: Account,
                  acc2: Account, filled: nat, triggered: nat, rejected: nat, f: nat, t: nat, r: nat)
    requires Tally(os0, os1, ps0, ps1, ts0, ts1, acc0, acc1, filled, triggered, rejected)
    requires |os1| <= |os2| && ts1 <= ts2
    requires Became(os0, os2, Filled, |os0|) == Became(os0, os1, Filled, |os0|) + f
    requires Became(os0, os2, Rejected, |os0|) == Became(os0, os1, Rejected, |os0|) + r
    requires |ps2| + t == |ps1| + f && |ts2| == |ts1| + t
    requires acc2.total == acc1.total + RealizedPnl(ts2[|ts1|..])
    ensures Tally(os0, os2, ps0, ps2, ts0, ts2, acc0, acc2, filled + f, triggered + t, rejected + r)
  {
    RealizedPnlSplit(ts0, ts1, ts2);
  }

  /** One iteration of the order loop with its bookkeeping: the `i`-th snapshot id is
      visited and the loop's invariant moves from `i` to `i + 1`; in particular the
      row gets the outcome `Decide` gives it at the current position table. A calm snapshot keeps
      the counts at stop triggers only, and a calm and dormant one at none. */
  method Step(db: Exchange, u: UserId, symbol: string, mark: real, os0: seq<Order>, ids: seq<nat>, i: nat,
              acc: Account, filled: nat, triggered: nat, rejected: nat,
              ghost ps0: seq<Option<Position>>, ghost ts0: seq<Trade>, ghost acc0: Account, ghost calm: bool, ghost dormant: bool)
    returns (acc': Account, filled': nat, triggered': nat, rejected': nat)
    modifies db
    requires Consistent(db.accounts[u := acc], db.positions, db.orders)
    requires Progress(os0, ps0, db.orders, db.positions, ids, i, u, symbol, mark) && i < |ids|
    requires forall j, l :: 0 <= j < l < |ids| ==> ids[j] < ids[l]
    requires forall j :: 0 <= j < |ids| ==> OpenFor(os0[ids[j]], u, symbol)
    requires calm ==> Calm(os0, ps0, u, symbol, mark)
    requires dormant ==> Dormant(os0, ps0, u, symbol, mark, |os0|)
    requires calm ==> filled == triggered && rejected == 0 && |db.positions| == |ps0|
    requires calm && dormant ==> triggered == 0
    requires Tally(os0, db.orders, ps0, db.positions, ts0, db.trades, acc0, acc, filled, triggered, rejected)
    requires Outcomes(os0, ps0, db.orders, ids, i, u, mark) && db.positions == PositionsAt(os0, ps0, ids, i, u, mark)
    ensures Consistent(db.accounts[u := acc'], db.positions, db.orders)
    ensures db.accounts == old(db.accounts)
    ensures Progress(os0, ps0, db.orders, db.positions, ids, i + 1, u, symbol, mark)
    ensures old(db.trades) <= db.trades && old(db.history) <= db.history
    ensures calm ==> filled' == triggered' && rejected' == 0 && |db.positions| == |ps0|
    ensures calm && dormant ==> triggered' == 0
    ensures Tally(os0, db.orders, ps0, db.positions, ts0, db.trades, acc0, acc', filled', triggered', rejected')
    ensures Outcomes(os0, ps0, db.orders, ids, i + 1, u, mark) && db.positions == PositionsAt(os0, ps0, ids, i + 1, u, mark)
  {
    var k := ids[i];
    var o := os0[k];
    if calm {
      assert Settled(o, mark);
    }
    if dormant && o.orderType == StopMarket {
      assert Quiet(ps0, o, u, mark);
      QuietStable(ps0, db.positions, o, u, symbol, mark);
    }
    ghost var os1, ps1, ts1 := db.orders, db.positions, db.trades;
    var f, t, r;
    acc', f, t, r := Visit(db, u, symbol, mark, k, o, acc, os0, ps0, ids, i);
    ghost var os2, ps2, ts2 := db.orders, db.positions, db.trades;
    TallyStep(os0, os1, os2, ps0, ps1, ps2, ts0, ts1, ts2, acc0, acc, acc', filled, triggered, rejected, f, t, r);
    OutcomesStep(os0, ps0, os1, os2, ps1, ps2, ids, i, u, mark);
    filled', triggered', rejected' := filled + f, triggered + t, rejected + r;
  }

  /** Once every snapshot id is visited, no open row of `u` on `symbol` is left for the
      pass, and every open stop among the snapshot rows is quiet. */
  lemma ProgressDone(os0: seq<Order>, ps0: seq<Option<Position>>, os: seq<Order>, ps: seq<Option<Position>>,
                     ids: seq<nat>, u: UserId, symbol: string, mark: real)
    requires Progress(os0, ps0, os, ps, ids, |ids|, u, symbol, mark)
    requires forall k :: 0 <= k < |os0| && OpenFor(os0[k], u, symbol) ==> k in ids
    ensures forall k :: 0 <= k < |os| && OpenFor(os[k], u, symbol) ==> Settled(os[k], mark)
    ensures Dormant(os, ps, u, symbol, mark, |os0|)
  {
    forall k | 0 <= k < |os| && OpenFor(os[k], u, symbol) ensures Settled(os[k], mark) {
      if k < |os0| {
        assert os[k] == os0[k];
        assert k in ids;
      }
    }
    forall k | 0 <= k < |os0| && OpenFor(os[k], u, symbol) && os[k].orderType == StopMarket
      ensures Quiet(ps, os[k], u, mark)
    {
      assert os[k] == os0[k];
      assert k in ids;
    }
  }

  /** Before the first visit, nothing has been visited, decided or counted. */
  lemma OrderLoopStarts(accounts: map<UserId, Account>, ps0: seq<Option<Position>>, os0: seq<Order>, ts0: seq<Trade>,
                        acc0: Account, ids: seq<nat>, u: UserId, symbol: string, mark: real)
    requires Consistent(accounts[u := acc0], ps0, os0) && ids == OpenIds(os0, u, symbol, |os0|)
    ensures Progress(os0, ps0, os0, ps0, ids, 0, u, symbol, mark)
    ensures Tally(os0, os0, ps0, ps0, ts0, ts0, acc0, acc0, 0, 0, 0)
    ensures Outcomes(os0, ps0, os0, ids, 0, u, mark) && ps0 == PositionsAt(os0, ps0, ids, 0, u, mark)
    ensures Fates(os0, ps0, os0, ps0, u, symbol)
  {
    LeveredTables(ps0, os0);
    BecameNone(os0, Filled, |os0|);
    BecameNone(os0, Rejected, |os0|);
    assert ts0[|ts0|..] == [];
  }

  /** The loop over the open orders of `u` on `symbol` as read at its start, oldest
      first. Each of those rows ends as `Decide` rules at the position table its visit
      met, and the position table ends as those decisions build it. Stop children it
      creates are appended and not visited. */
  method OrderLoop(db: Exchange, u: UserId, symbol: string, mark: real, acc0: Account)
    returns (acc: Account, filled: nat, triggered: nat, rejected: nat)
    modifies db
    requires Consistent(db.accounts[u := acc0], db.positions, db.orders)
    ensures Consistent(db.accounts[u := acc], db.positions, db.orders)
    ensures db.accounts == old(db.accounts)
    ensures Evolved(old(db.orders), db.orders)
    ensures forall k :: |old(db.orders)| <= k < |db.orders| ==> IsChild(db.orders[k], u, symbol)
    ensures forall k :: 0 <= k < |db.orders| && OpenFor(db.orders[k], u, symbol) ==> Settled(db.orders[k], mark)
    ensures PositionsEvolved(old(db.positions), db.positions, u, symbol)
    ensures old(db.trades) <= db.trades && old(db.history) <= db.history
    ensures Calm(old(db.orders), old(db.positions), u, symbol, mark) ==>
      filled == triggered && rejected == 0 && |db.positions| == |old(db.positions)|
    ensures Dormant(db.orders, db.positions, u, symbol, mark, |old(db.orders)|)
    ensures (Calm(old(db.orders), old(db.positions), u, symbol, mark) &&
             Dormant(old(db.orders), old(db.positions), u, symbol, mark, |old(db.orders)|)) ==> triggered == 0
    ensures filled == Became(old(db.orders), db.orders, Filled, |old(db.orders)|)
    ensures rejected == Became(old(db.orders), db.orders, Rejected, |old(db.orders)|)
    ensures |db.positions| + triggered == |old(db.positions)| + filled
    ensures |db.trades| == |old(db.trades)| + triggered
    ensures acc.total == acc0.total + RealizedPnl(db.trades[|old(db.trades)|..])
    ensures var ids := OpenIds(old(db.orders), u, symbol, |old(db.orders)|);
      && Outcomes(old(db.orders), old(db.positions), db.orders, ids, |ids|, u, mark)
      && db.positions == PositionsAt(old(db.orders), old(db.positions), ids, |ids|, u, mark)
    ensures Fates(old(db.orders), old(db.positions), db.orders, db.positions, u, symbol)
  {
    var os0, ps0 := db.orders, db.positions;
    ghost var ts0 := db.trades;
    var ids := OpenIds(os0, u, symbol, |os0|);
    OrderLoopStarts(db.accounts, ps0, os0, ts0, acc0, ids, u, symbol, mark);
    ghost var calm := Calm(os0, ps0, u, symbol, mark);
    ghost var dormant := Dormant(os0, ps0, u, symbol, mark, |os0|);
    acc, filled, triggered, rejected := acc0, 0, 0, 0;
    var i := 0;
    while i < |ids|
      invariant Consistent(db.accounts[u := acc], db.positions, db.orders)
      invariant db.accounts == old(db.accounts)
      invariant Progress(os0, ps0, db.orders, db.positions, ids, i, u, symbol, mark)
      invariant old(db.trades) <= db.trades && old(db.history) <= db.history
      invariant calm ==> filled == triggered && rejected == 0 && |db.positions| == |ps0|
      invariant calm && dormant ==> triggered == 0
      invariant Tally(os0, db.orders, ps0, db.positions, ts0, db.trades, acc0, acc, filled, triggered, rejected)
      invariant Outcomes(os0, ps0, db.orders, ids, i, u, mark) && db.positions == PositionsAt(os0, ps0, ids, i, u, mark)
    {
      acc, filled, triggered, rejected :=
        Step(db, u, symbol, mark, os0, ids, i, acc, filled, triggered, rejected, ps0, ts0, acc0, calm, dormant);
      i := i + 1;
    }
    ProgressDone(os0, ps0, db.orders, db.positions, ids, u, symbol, mark);
  }

  /** The liquidation loop's bookkeeping after the first `i` position rows: the rows
      before `i` are their survivors, the rest are untouched, the trades of the
      liquidated ones were logged in id order, and the only order rows changed are
      open stops of `u` canceled "Position liquidated" because their position was
      deleted. */
  ghost predicate Swept(os0: seq<Order>, ps0: seq<Option<Position>>, ts0: seq<Trade>, os: seq<Order>,
                        ps: seq<Option<Position>>, ts: seq<Trade>, i: nat, u: UserId, symbol: string, mark: real)
  {
    && i <= |ps0| == |ps|
    && Evolved(os0, os) && |os| == |os0| && CancelsOnly(os0, os, -1)
    && PositionsEvolved(ps0, ps, u, symbol) && KeepsGone(ps0, ps)
    && Closes(os0, os, ps0, ps, -1, CLOSED_BY_LIQUIDATION, Some(u))
    && (forall j :: i <= j < |ps0| ==> ps[j] == ps0[j])
    && (forall j :: 0 <= j < i ==> ps[j] == Survivor(ps0[j], u, symbol, mark))
    && ts == ts0 + LiquidationTrades(ps0, u, symbol, mark, i)
  }

  /** Before the first row, nothing has been swept. */
  lemma SweptStarts(os0: seq<Order>, ps0: seq<Option<Position>>, ts0: seq<Trade>, u: UserId, symbol: string, mark: real)
    ensures Swept(os0, ps0, ts0, os0, ps0, ts0, 0, u, symbol, mark)
    ensures ts0[|ts0|..] == []
  {
    ClosesQuiet(os0, os0, ps0, ps0, -1, CLOSED_BY_LIQUIDATION, Some(u));
    assert ts0 + LiquidationTrades(ps0, u, symbol, mark, 0) == ts0;
  }

  /** One iteration of the liquidation loop, at row `i`: a position of `u` on
      `symbol` the mark has breached is liquidated (`hit`), any other row is left. */
  method SweepRow(db: Exchange, u: UserId, symbol: string, mark: real, i: nat, acc: Account,
                  ghost os0: seq<Order>, ghost ps0: seq<Option<Position>>, ghost ts0: seq<Trade>)
    returns (acc': Account, hit: bool)
    modifies db
    requires Consistent(db.accounts[u := acc], db.positions, db.orders)
    requires Swept(os0, ps0, ts0, db.orders, db.positions, db.trades, i, u, symbol, mark) && i < |ps0|
    ensures Consistent(db.accounts[u := acc'], db.positions, db.orders)
    ensures db.accounts == old(db.accounts)
    ensures Swept(os0, ps0, ts0, db.orders, db.positions, db.trades, i + 1, u, symbol, mark)
    ensures hit <==> HeldOn(ps0[i], u, symbol) && Breached(ps0[i].value, mark)
    ensures old(db.trades) <= db.trades && |db.trades| == |old(db.trades)| + (if hit then 1 else 0)
    ensures old(db.history) <= db.history && |db.history| == |old(db.history)| + (if hit then 1 else 0)
    ensures acc'.total == acc.total + RealizedPnl(db.trades[|old(db.trades)|..])
    ensures hit ==>
      && db.orders == CancelStops(old(db.orders), i, Some(u), None, CLOSED_BY_LIQUIDATION)
      && db.positions == old(db.positions)[i := None]
    ensures !hit ==> db.orders == old(db.orders) && db.positions == old(db.positions)
  {
    var p := db.positions[i];
    acc', hit := acc, false;
    ghost var os1, ps1, ts1 := db.orders, db.positions, db.trades;
    if HeldOn(p, u, symbol) && Breached(p.value, mark) {
      ClosesLiquidation(os1, ps1, i, u);
      acc' := LiquidateInPass(db, u, i, acc);
      EvolvedTransitive(os0, os1, db.orders);
      CancelsOnlyTransitive(os0, os1, db.orders);
      assert KeepsGone(ps1, db.positions);
      ClosesTransitive(os0, os1, db.orders, ps0, ps1, db.positions, CLOSED_BY_LIQUIDATION, Some(u));
      hit := true;
    } else {
      assert db.trades[|ts1|..] == [];
    }
    assert LiquidationTrades(ps0, u, symbol, mark, i + 1) ==
      LiquidationTrades(ps0, u, symbol, mark, i) + (if hit then [LiquidationTrade(ps0[i].value)] else []);
  }

  /** The loop over `u`'s positions on `symbol` (read after the order loop, in id
      order): each one the mark has breached is liquidated and deleted, every other
      row stays, and one trade and one history row are logged per liquidation, in id
      order. */
  method LiquidationLoop(db: Exchange, u: UserId, symbol: string, mark: real, acc0: Account)
    returns (acc: Account, liquidated: nat)
    modifies db
    requires Consistent(db.accounts[u := acc0], db.positions, db.orders)
    ensures Consistent(db.accounts[u := acc], db.positions, db.orders)
    ensures db.accounts == old(db.accounts)
    ensures Evolved(old(db.orders), db.orders) && |db.orders| == |old(db.orders)|
    ensures PositionsEvolved(old(db.positions), db.positions, u, symbol) && |db.positions| == |old(db.positions)|
    ensures forall i :: 0 <= i < |db.positions| && HeldOn(db.positions[i], u, symbol) ==> !Breached(db.positions[i].value, mark)
    ensures (forall i :: 0 <= i < |old(db.positions)| && HeldOn(old(db.positions)[i], u, symbol) ==>
               !Breached(old(db.positions)[i].value, mark)) ==> liquidated == 0
    ensures old(db.trades) <= db.trades && old(db.history) <= db.history
    ensures CancelsOnly(old(db.orders), db.orders, -1)
    ensures |db.trades| == |old(db.trades)| + liquidated
    ensures acc.total == acc0.total + RealizedPnl(db.trades[|old(db.trades)|..])
    ensures forall j :: 0 <= j < |db.positions| ==> db.positions[j] == Survivor(old(db.positions)[j], u, symbol, mark)
    ensures db.trades == old(db.trades) + LiquidationTrades(old(db.positions), u, symbol, mark, |old(db.positions)|)
    ensures |db.history| == |old(db.history)| + liquidated
    ensures Closes(old(db.orders), db.orders, old(db.positions), db.positions, -1, CLOSED_BY_LIQUIDATION, Some(u))
  {
    var os0, ps0 := db.orders, db.positions;
    ghost var ts0 := db.trades;
    SweptStarts(os0, ps0, ts0, u, symbol, mark);
    acc, liquidated := acc0, 0;
    var i := 0;
    while i < |ps0|
      invariant Consistent(db.accounts[u := acc], db.positions, db.orders)
      invariant db.accounts == old(db.accounts)
      invariant Swept(os0, ps0, ts0, db.orders, db.positions, db.trades, i, u, symbol, mark)
      invariant (forall j :: 0 <= j < |ps0| && HeldOn(ps0[j], u, symbol) ==> !Breached(ps0[j].value, mark)) ==> liquidated == 0
      invariant old(db.trades) <= db.trades && old(db.history) <= db.history
      invariant |db.trades| == |ts0| + liquidated && |db.history| == |old(db.history)| + liquidated
      invariant acc.total == acc0.total + RealizedPnl(db.trades[|ts0|..])
    {
      ghost var ts1 := db.trades;
      var hit;
      acc, hit := SweepRow(db, u, symbol, mark, i, acc, os0, ps0, ts0);
      RealizedPnlSplit(ts0, ts1, db.trades);
      if hit {
        liquidated := liquidated + 1;
      }
      i := i + 1;
    }
  }

  /** The order loop followed by the liquidation loop: the tables evolve as the pass
      allows, the pass ends calm with every snapshot stop quiet, and the liquidations,
      which only cancel orders, change neither count of filled or rejected rows. */
  lemma PassComposes(os0: seq<Order>, ps0: seq<Option<Position>>, os1: seq<Order>, ps1: seq<Option<Position>>,
                     os2: seq<Order>, ps2: seq<Option<Position>>, u: UserId, symbol: string, mark: real)
    requires Evolved(os0, os1) && (forall k :: |os0| <= k < |os1| ==> IsChild(os1[k], u, symbol))
    requires forall k :: 0 <= k < |os1| && OpenFor(os1[k], u, symbol) ==> Settled(os1[k], mark)
    requires PositionsEvolved(ps0, ps1, u, symbol) && Dormant(os1, ps1, u, symbol, mark, |os0|)
    requires Evolved(os1, os2) && |os2| == |os1|
    requires PositionsEvolved(ps1, ps2, u, symbol) && |ps2| == |ps1|
    requires forall i :: 0 <= i < |ps2| && HeldOn(ps2[i], u, symbol) ==> !Breached(ps2[i].value, mark)
    requires CancelsOnly(os1, os2, -1)
    ensures Became(os0, os2, Filled, |os0|) == Became(os0, os1, Filled, |os0|)
    ensures Became(os0, os2, Rejected, |os0|) == Became(os0, os1, Rejected, |os0|)
    ensures Evolved(os0, os2) && (forall k :: |os0| <= k < |os2| ==> IsChild(os2[k], u, symbol))
    ensures PositionsEvolved(ps0, ps2, u, symbol)
    ensures Calm(os2, ps2, u, symbol, mark) && Dormant(os2, ps2, u, symbol, mark, |os0|)
  {
    SettledStable(os1, os2, u, symbol, mark);
    DormantStable(os1, os2, ps1, ps2, u, symbol, mark, |os0|);
    EvolvedTransitive(os0, os1, os2);
    forall k | |os0| <= k < |os2| ensures IsChild(os2[k], u, symbol) {
      assert os2[k] == os1[k] || SameTerms(os1[k], os2[k]);
    }
    BecameSame(os0, os1, os2, Filled, |os0|);
    BecameSame(os0, os1, os2, Rejected, |os0|);
  }

  /** What the pass did to the order, position and trade tables, against the
      snapshot `os0`, `ps0`, `ts0`: each open order of `u` on `symbol` read at the
      start has the outcome `Decide` gives it at the position table its visit met; the
      position table is the one those decisions built, less the positions of `u` on
      `symbol` the mark has breached; every order row that changed otherwise is a stop
      canceled for the position it links to, "Position closed by stop trigger" when
      the order loop deleted it and "Position liquidated" (`u`'s stops only) when the
      liquidation loop did; and after the `triggered` stop trades come the
      liquidation trades of those positions, in id order. */
  ghost predicate Matched(os0: seq<Order>, ps0: seq<Option<Position>>, ts0: seq<Trade>, os: seq<Order>,
                          ps: seq<Option<Position>>, ts: seq<Trade>, u: UserId, symbol: string, mark: real, triggered: nat)
  {
    var ids := OpenIds(os0, u, symbol, |os0|);
    && Outcomes(os0, ps0, os, ids, |ids|, u, mark)
    && var built := PositionsAt(os0, ps0, ids, |ids|, u, mark);
       && |ps| == |built|
       && (forall j :: 0 <= j < |built| ==> ps[j] == Survivor(built[j], u, symbol, mark))
       && |ts0| + triggered <= |ts|
       && ts[|ts0| + triggered..] == LiquidationTrades(built, u, symbol, mark, |built|)
       && Cancellations(os0, ps0, os, built, ps, u, symbol)
  }

  /** The order loop's outcomes and the liquidation loop's sweep make up the pass's. */
  lemma PassMatched(os0: seq<Order>, ps0: seq<Option<Position>>, ts0: seq<Trade>, os1: seq<Order>, ps1: seq<Option<Position>>,
                    ts1: seq<Trade>, os2: seq<Order>, ps2: seq<Option<Position>>, ts2: seq<Trade>,
                    u: UserId, symbol: string, mark: real, triggered: nat)
    requires var ids := OpenIds(os0, u, symbol, |os0|);
      && Outcomes(os0, ps0, os1, ids, |ids|, u, mark)
      && ps1 == PositionsAt(os0, ps0, ids, |ids|, u, mark)
    requires CancelsOnly(os1, os2, -1) && |ps2| == |ps1|
    requires forall j :: 0 <= j < |ps2| ==> ps2[j] == Survivor(ps1[j], u, symbol, mark)
    requires ts2 == ts1 + LiquidationTrades(ps1, u, symbol, mark, |ps1|) && |ts1| == |ts0| + triggered
    requires Fates(os0, ps0, os1, ps1, u, symbol)
    requires Closes(os1, os2, ps1, ps2, -1, CLOSED_BY_LIQUIDATION, Some(u)) && |os2| == |os1|
    ensures Matched(os0, ps0, ts0, os2, ps2, ts2, u, symbol, mark, triggered)
  {
    var ids := OpenIds(os0, u, symbol, |os0|);
    OutcomesCancel(os0, ps0, os1, os2, ids, |ids|, u, mark);
    FatesCompose(os0, ps0, os1, ps1, os2, ps2, u, symbol);
    assert ts2[|ts0| + triggered..] == ts2[|ts1|..];
  }

  /** The running balances of a consistent view are balanced against the tables. */
  lemma BalancedAt(accounts: map<UserId, Account>, ps: seq<Option<Position>>, os: seq<Order>, u: UserId, a: Account)
    requires Consistent(accounts[u := a], ps, os)
    ensures a.total == a.available + a.locked && a.locked == PositionMargin(ps, u) + ReservedMargin(os, u)
  {
    assert u in accounts[u := a];
  }

  /** Both loops of the pass on `u`'s running balances `acc`: the order loop, then the
      liquidation loop. The tables end as `Matched` says and calm, and the counts and
      the running total are those of the tables. */
  method Loops(db: Exchange, u: UserId, symbol: string, m: real, acc: Account) returns (acc': Account, c: MatchCounts)
    modifies db
    requires Consistent(db.accounts[u := acc], db.positions, db.orders)
    ensures Consistent(db.accounts[u := acc'], db.positions, db.orders)
    ensures db.accounts == old(db.accounts)
    ensures Evolved(old(db.orders), db.orders)
    ensures forall k :: |old(db.orders)| <= k < |db.orders| ==> IsChild(db.orders[k], u, symbol)
    ensures PositionsEvolved(old(db.positions), db.positions, u, symbol)
    ensures old(db.trades) <= db.trades && old(db.history) <= db.history
    ensures Calm(db.orders, db.positions, u, symbol, m)
    ensures Calm(old(db.orders), old(db.positions), u, symbol, m) ==>
      c.matched == c.triggeredStops && c.liquidated == 0 && c.rejected == 0
    ensures Dormant(db.orders, db.positions, u, symbol, m, |old(db.orders)|)
    ensures (Calm(old(db.orders), old(db.positions), u, symbol, m) &&
             Dormant(old(db.orders), old(db.positions), u, symbol, m, |old(db.orders)|)) ==> c == MatchCounts(0, 0, 0, 0)
    ensures c.matched == Became(old(db.orders), db.orders, Filled, |old(db.orders)|)
    ensures c.rejected == Became(old(db.orders), db.orders, Rejected, |old(db.orders)|)
    ensures |db.trades| == |old(db.trades)| + c.triggeredStops + c.liquidated
    ensures |db.positions| + c.triggeredStops == |old(db.positions)| + c.matched
    ensures acc'.total == acc.total + RealizedPnl(db.trades[|old(db.trades)|..])
    ensures Matched(old(db.orders), old(db.positions), old(db.trades), db.orders, db.positions, db.trades, u, symbol, m, c.triggeredStops)
  {
    ghost var os0, ps0, ts0 := db.orders, db.positions, db.trades;
    var a1, filled, triggered, rejected := OrderLoop(db, u, symbol, m, acc);
    ghost var os1, ps1, ts1 := db.orders, db.positions, db.trades;
    var liquidated;
    acc', liquidated := LiquidationLoop(db, u, symbol, m, a1);
    PassComposes(os0, ps0, os1, ps1, db.orders, db.positions, u, symbol, m);
    PassMatched(os0, ps0, ts0, os1, ps1, ts1, db.orders, db.positions, db.trades, u, symbol, m, triggered);
    RealizedPnlSplit(ts0, ts1, db.trades);
    c := MatchCounts(filled, triggered, liquidated, rejected);
  }

  /** The pass itself on a known user `u` at mark `m`: both loops run on `u`'s
      balances, which are then written back. Each open order of `u` on `symbol` read
      at the start ends as `Decide` rules at the position table its visit met: it
      rests, fills, is rejected or is canceled. The position table is then the one
      those decisions built, less the positions of `u` on `symbol` the mark has
      breached, each of which logged one liquidation trade in id order. The pass keeps
      the ledger consistent, leaves every other user's account alone, and ends calm: no open order of `u` on
      `symbol` is left that the same mark would fill or reject, and no position it
      would liquidate. From a calm start it rejects and liquidates nothing and every
      match it reports is a triggered stop. The counts are those of the tables: matched
      and rejected snapshot rows, one trade per trigger or liquidation, one position per
      filled limit order; `u`'s total moves by the P&L of the trades logged, and its
      available balance by that P&L plus the margin the pass unlocked. */
  method Pass(db: Exchange, u: UserId, symbol: string, m: real) returns (c: MatchCounts)
    modifies db
    requires db.Valid() && u in db.accounts
    ensures db.Valid()
    ensures db.accounts.Keys == old(db.accounts).Keys
    ensures forall v :: v in old(db.accounts) && v != u ==> db.accounts[v] == old(db.accounts)[v]
    ensures Evolved(old(db.orders), db.orders)
    ensures forall k :: |old(db.orders)| <= k < |db.orders| ==> IsChild(db.orders[k], u, symbol)
    ensures PositionsEvolved(old(db.positions), db.positions, u, symbol)
    ensures old(db.trades) <= db.trades && old(db.history) <= db.history
    ensures Calm(db.orders, db.positions, u, symbol, m)
    ensures Calm(old(db.orders), old(db.positions), u, symbol, m) ==>
      c.matched == c.triggeredStops && c.liquidated == 0 && c.rejected == 0
    ensures Dormant(db.orders, db.positions, u, symbol, m, |old(db.orders)|)
    ensures (Calm(old(db.orders), old(db.positions), u, symbol, m) &&
             Dormant(old(db.orders), old(db.positions), u, symbol, m, |old(db.orders)|)) ==> c == MatchCounts(0, 0, 0, 0)
    ensures c.matched == Became(old(db.orders), db.orders, Filled, |old(db.orders)|)
    ensures c.rejected == Became(old(db.orders), db.orders, Rejected, |old(db.orders)|)
    ensures |db.trades| == |old(db.trades)| + c.triggeredStops + c.liquidated
    ensures |db.positions| + c.triggeredStops == |old(db.positions)| + c.matched
    ensures db.accounts[u].total == old(db.accounts)[u].total + RealizedPnl(db.trades[|old(db.trades)|..])
    ensures db.accounts[u].locked == PositionMargin(db.positions, u) + ReservedMargin(db.orders, u)
    ensures db.accounts[u].available ==
      old(db.accounts)[u].available + old(db.accounts)[u].locked - db.accounts[u].locked
      + RealizedPnl(db.trades[|old(db.trades)|..])
    ensures Matched(old(db.orders), old(db.positions), old(db.trades), db.orders, db.positions, db.trades, u, symbol, m, c.triggeredStops)
  {
    var acc := db.accounts[u];
    assert Balanced(acc, db.positions, db.orders, u);
    assert db.accounts[u := acc] == db.accounts;
    var a2;
    a2, c := Loops(db, u, symbol, m, acc);
    BalancedAt(db.accounts, db.positions, db.orders, u, a2);
    db.accounts := db.accounts[u := a2];
  }

  /** `POST /api/orders/match`: validate the request, then run the pass. A missing
      symbol, a mark that is not a positive number and an unknown user are refused, in
      that order, with the database untouched; otherwise the pass's promises hold of
      the counts reported. */
  method Match(db: Exchange, u: UserId, symbol: string, mark: Num) returns (r: Result<MatchCounts, MatchError>)
    modifies db
    requires db.Valid()
    ensures db.Valid()
    ensures r.Failure? <==> symbol == "" || !PositiveNum(mark) || u !in old(db.accounts)
    ensures r.Failure? ==> unchanged(db)
    ensures r.Failure? ==>
      r.error == (if symbol == "" then MissingSymbol else if !PositiveNum(mark) then InvalidMarkPrice else UserNotFound)
    ensures r.Success? ==>
      && db.accounts.Keys == old(db.accounts).Keys
      && (forall v :: v in old(db.accounts) && v != u ==> db.accounts[v] == old(db.accounts)[v])
      && Evolved(old(db.orders), db.orders)
      && (forall k :: |old(db.orders)| <= k < |db.orders| ==> IsChild(db.orders[k], u, symbol))
      && PositionsEvolved(old(db.positions), db.positions, u, symbol)
      && old(db.trades) <= db.trades && old(db.history) <= db.history
      && Calm(db.orders, db.positions, u, symbol, mark.value)
      && (Calm(old(db.orders), old(db.positions), u, symbol, mark.value) ==>
            r.value.matched == r.value.triggeredStops && r.value.liquidated == 0 && r.value.rejected == 0)
      && Dormant(db.orders, db.positions, u, symbol, mark.value, |old(db.orders)|)
      && ((Calm(old(db.orders), old(db.positions), u, symbol, mark.value) &&
           Dormant(old(db.orders), old(db.positions), u, symbol, mark.value, |old(db.orders)|)) ==>
            r.value == MatchCounts(0, 0, 0, 0))
    ensures r.Success? ==>
      && r.value.matched == Became(old(db.orders), db.orders, Filled, |old(db.orders)|)
      && r.value.rejected == Became(old(db.orders), db.orders, Rejected, |old(db.orders)|)
      && |db.trades| == |old(db.trades)| + r.value.triggeredStops + r.value.liquidated
      && |db.positions| + r.value.triggeredStops == |old(db.positions)| + r.value.matched
      && db.accounts[u].total == old(db.accounts)[u].total + RealizedPnl(db.trades[|old(db.trades)|..])
      && db.accounts[u].locked == PositionMargin(db.positions, u) + ReservedMargin(db.orders, u)
      && db.accounts[u].available ==
           old(db.accounts)[u].available + old(db.accounts)[u].locked - db.accounts[u].locked
           + RealizedPnl(db.trades[|old(db.trades)|..])
    ensures r.Success? ==>
      Matched(old(db.orders), old(db.positions), old(db.trades), db.orders, db.positions, db.trades,
              u, symbol, mark.value, r.value.triggeredStops)
  {
    if symbol == "" {
      return Failure(MissingSymbol);
    }
    if !PositiveNum(mark) {
      return Failure(InvalidMarkPrice);
    }
    if u !in db.accounts {
      return Failure(UserNotFound);
    }
    var c := Pass(db, u, symbol, mark.value);
    r := Success(c);
  }

  /** Two passes at the same mark. The second starts calm, so it rejects and
      liquidates nothing and every match it reports is a stop trigger; and only the
      stop children the first pass created can trigger: when it created none, the
      second pass changes nothing it reports. */
  method MatchTwice(db: Exchange, u: UserId, symbol: string, mark: Num)
    returns (first: Result<MatchCounts, MatchError>, second: Result<MatchCounts, MatchError>, children: nat)
    modifies db
    requires db.Valid()
    ensures db.Valid()
    ensures first.Failure? ==> second == first && unchanged(db)
    ensures second.Success? <==> first.Success?
    ensures second.Success? ==>
      && second.value.rejected == 0 && second.value.liquidated == 0
      && second.value.matched == second.value.triggeredStops
    ensures second.Success? && children == 0 ==> second.value == MatchCounts(0, 0, 0, 0)
  {
    var n0 := |db.orders|;
    first := Match(db, u, symbol, mark);
    children := |db.orders| - n0;
    second := Match(db, u, symbol, mark);
  }
}
