/** The shared state of the paper-trading engine: the users' margin accounts, the
    order table, the position table, the realized-trade log and the balance-history
    log, with the margin arithmetic every route uses and the invariant that ties the
    three balances of an account to the rows that hold its margin. */
module Ledger {
  import opened Common

  type UserId = nat

  datatype Side = Long | Short
  datatype OrderType = Market | Limit | StopMarket
  datatype OrderStatus = Open | Filled | Canceled | Rejected
  datatype TradeStatus = Closed | Liquidated
  datatype ChangeType = PositionOpened | PositionClosed | TradeProfit | TradeLoss | Liquidation

  /** The symbols the order and position routes accept. */
  const SYMBOLS: set<string> := {"BTC", "ETH", "SOL", "ARB"}
  /** Smallest accepted position size, in quote currency. */
  const MIN_POSITION_SIZE: real := 10.0
  const MIN_LEVERAGE: real := 1.0
  const MAX_LEVERAGE: real := 10.0

  /** A user row: `mock_usdc_balance`, `locked_margin`, `available_balance`. */
  datatype Account = Account(total: real, locked: real, available: real)

  /** A row of `paper_orders`; its id is its index in the order table. */
  datatype Order = Order(
    user: UserId,
    symbol: string,
    side: Side,
    orderType: OrderType,
    status: OrderStatus,
    size: real,
    leverage: real,
    reduceOnly: bool,
    limitPrice: Option<real>,
    stopPrice: Option<real>,
    attachedStopLoss: Option<real>,
    marginReserved: real,
    linkedPosition: Option<nat>,
    filledPrice: Option<real>,
    rejectReason: Option<string>)

  /** A row of `positions`; its id is its index in the position table. */
  datatype Position = Position(
    user: UserId,
    symbol: string,
    side: Side,
    entry: real,
    size: real,
    margin: real,
    leverage: real,
    liquidationPrice: real)

  /** A row of `paper_trades` (a realized position). */
  datatype Trade = Trade(
    user: UserId,
    symbol: string,
    side: Side,
    entry: real,
    exit: real,
    size: real,
    margin: real,
    leverage: real,
    pnl: real,
    status: TradeStatus)

  /** A row of `balance_history`; `availableAfter` is the `balance_after` column. */
  datatype HistoryEntry = HistoryEntry(
    user: UserId,
    change: ChangeType,
    amount: real,
    availableAfter: real,
    tradeId: Option<nat>)

  // ---------------------------------------------------------------------------
  // Price arithmetic
  // ---------------------------------------------------------------------------

  /** `getLiquidationPrice`: the price at which a position loses its whole margin. */
  function LiquidationPrice(entry: real, leverage: real, side: Side): (r: real)
    requires leverage != 0.0
    ensures entry > 0.0 && leverage >= MIN_LEVERAGE && side == Long ==> 0.0 <= r < entry
    ensures entry > 0.0 && leverage >= MIN_LEVERAGE && side == Short ==> entry < r <= 2.0 * entry
  {
    var factor := 1.0 / leverage;
    assert leverage >= MIN_LEVERAGE ==> 0.0 < factor <= 1.0;
    if side == Long then entry * (1.0 - factor) else entry * (1.0 + factor)
  }

  /** A position opened at `entry`, with its liquidation price. */
  function NewPosition(u: UserId, symbol: string, side: Side, entry: real, size: real, margin: real, leverage: real): (p: Position)
    requires leverage != 0.0
    ensures entry > 0.0 && leverage >= MIN_LEVERAGE ==> !Reached(side, entry, p.liquidationPrice)
  {
    Position(u, symbol, side, entry, size, margin, leverage, LiquidationPrice(entry, leverage, side))
  }

  /** The reduce-only stop-loss child of a position: open, reserving no margin. */
  function StopChild(u: UserId, symbol: string, side: Side, size: real, leverage: real, stop: real, pid: nat): Order {
    Order(u, symbol, side, StopMarket, Open, size, leverage, true, None, Some(stop), None, 0.0, Some(pid), None, None)
  }

  /** True when `x` lies strictly on the far side of `reference`: below it for a long,
      above it for a short. A long limit must be placed below the market and a long
      stop below the entry; a short one above. */
  predicate Behind(side: Side, x: real, reference: real) {
    if side == Long then x < reference else x > reference
  }

  /** A price behind the current one has not been reached at the current one, so a
      limit order or a stop accepted by that rule does not execute on the spot. */
  lemma BehindNotReached(side: Side, level: real, current: real)
    requires Behind(side, level, current)
    ensures !Reached(side, current, level)
  {
  }

  /** Realized profit of closing `size` (quote currency) opened at `entry` at price `exit`. */
  function Pnl(side: Side, entry: real, exit: real, size: real): real
    requires entry != 0.0
  {
    ((exit - entry) / entry) * size * (if side == Long then 1.0 else -1.0)
  }

  /** True when `mark` has reached `level` from the side's point of view: at or below it
      for a long, at or above it for a short. It is the fill rule of a resting limit
      order, the trigger rule of a stop and the breach rule of a liquidation price. */
  predicate Reached(side: Side, mark: real, level: real) {
    if side == Long then mark <= level else mark >= level
  }

  /** A long profits exactly when the exit is above the entry, a short exactly when it
      is below, and the two sides' results are opposite. */
  lemma PnlSign(entry: real, exit: real, size: real)
    requires entry > 0.0 && size > 0.0
    ensures Pnl(Long, entry, exit, size) > 0.0 <==> exit > entry
    ensures Pnl(Short, entry, exit, size) > 0.0 <==> exit < entry
    ensures Pnl(Short, entry, exit, size) == -Pnl(Long, entry, exit, size)
  {
    var q := (exit - entry) / entry;
    assert q > 0.0 <==> exit > entry;
    assert q < 0.0 <==> exit < entry;
    assert q * size > 0.0 <==> q > 0.0;
    assert q * size < 0.0 <==> q < 0.0;
  }

  /** Closing at the liquidation price loses exactly the margin `size / leverage`. */
  lemma LiquidationLosesMargin(entry: real, leverage: real, size: real, side: Side)
    requires entry != 0.0 && leverage != 0.0
    ensures Pnl(side, entry, LiquidationPrice(entry, leverage, side), size) == -(size / leverage)
  {
    var f := 1.0 / leverage;
    var sign := if side == Long then 1.0 else -1.0;
    var move := -(sign * f);
    assert LiquidationPrice(entry, leverage, side) - entry == entry * move;
    DivCancel(entry, move);
    assert Pnl(side, entry, LiquidationPrice(entry, leverage, side), size) == move * size * sign;
    assert move * size * sign == -(f * size) * (sign * sign);
    assert sign * sign == 1.0;
    assert f * size == size / leverage;
  }

  lemma DivCancel(a: real, x: real)
    requires a != 0.0
    ensures (a * x) / a == x
  {
  }

  /** How a request's row id (`Number(body.id)`) resolves against a serial key. */
  datatype RowRef = InvalidId | NoSuchRow | QueryError | RowId(id: nat)

  /** The range of a `bigint` key: a query parameter outside it fails the cast. */
  const KeyBound: int := 0x8000_0000_0000_0000

  /** A non-finite id is refused by the route; a fractional one, or one outside the
      key's range, fails the query, whose parameter is a `bigint`; a negative one in
      range matches no row. */
  function ParseRowId(n: Num): (r: RowRef)
    ensures r == InvalidId <==> n.NonFinite?
    ensures r == QueryError <==>
      n.Finite? && (n.value.Floor as real != n.value || n.value < -KeyBound as real || n.value >= KeyBound as real)
    ensures r.RowId? <==> n.Finite? && 0.0 <= n.value < KeyBound as real && n.value.Floor as real == n.value
    ensures r.RowId? ==> n.value == r.id as real && r.id < KeyBound
  {
    if n.NonFinite? then InvalidId
    else if n.value.Floor as real != n.value then QueryError
    else if n.value < -KeyBound as real || n.value >= KeyBound as real then QueryError
    else if n.value < 0.0 then NoSuchRow
    else RowId(n.value.Floor)
  }

  // ---------------------------------------------------------------------------
  // Ledger primitives
  // ---------------------------------------------------------------------------

  /** Reserve margin: it moves from available to locked; the total is untouched. */
  function Reserve(a: Account, margin: real): (r: Account)
    ensures r.total == a.total
    ensures r.available + r.locked == a.available + a.locked
    ensures r.available == a.available - margin
  {
    Account(a.total, a.locked + margin, a.available + (-margin))
  }

  /** Release reserved margin, clamping the locked amount at zero. */
  function Release(a: Account, margin: real): (r: Account)
    ensures r.total == a.total && r.available == a.available + margin
    ensures r.locked >= 0.0
    ensures a.locked >= margin ==> r.available + r.locked == a.available + a.locked
  {
    Account(a.total, Max(0.0, a.locked - margin), a.available + margin)
  }

  /** Release margin without the clamp: the manual close and the liquidation service. */
  function ReleaseUnclamped(a: Account, margin: real): (r: Account)
    ensures r.total == a.total
    ensures r.available + r.locked == a.available + a.locked
  {
    Account(a.total, a.locked - margin, a.available + margin)
  }

  /** Realize a profit or loss: it reaches the total and the available balance, never
      the locked margin. */
  function Realize(a: Account, pnl: real): (r: Account)
    ensures r.locked == a.locked
    ensures r.total - r.available == a.total - a.available
    ensures r.total == a.total + pnl
  {
    Account(a.total + pnl, a.locked, a.available + pnl)
  }

  /** Reserving and then releasing the same margin restores the available balance
      exactly, and the whole account whenever the locked margin was not negative. */
  lemma ReleaseUndoesReserve(a: Account, margin: real)
    ensures Release(Reserve(a, margin), margin).available == a.available
    ensures a.locked >= 0.0 ==> Release(Reserve(a, margin), margin) == a
  {
    var r := Release(Reserve(a, margin), margin);
    assert r.locked == Max(0.0, a.locked + margin - margin);
  }

  // ---------------------------------------------------------------------------
  // Margin held by the tables
  // ---------------------------------------------------------------------------

  /** Margin a position-table slot holds for user `u`. */
  function Held(p: Option<Position>, u: UserId): real {
    if p.Some? && p.value.user == u then p.value.margin else 0.0
  }

  /** Margin an order row reserves for user `u` (only open orders reserve). */
  function Reserved(o: Order, u: UserId): real {
    if o.user == u && o.status == Open then o.marginReserved else 0.0
  }

  /** Sum of the margins of `u`'s open positions. */
  ghost function PositionMargin(ps: seq<Option<Position>>, u: UserId): real
    decreases |ps|
  {
    if ps == [] then 0.0 else PositionMargin(ps[..|ps| - 1], u) + Held(ps[|ps| - 1], u)
  }

  /** Sum of the margins reserved by `u`'s open orders. */
  ghost function ReservedMargin(os: seq<Order>, u: UserId): real
    decreases |os|
  {
    if os == [] then 0.0 else ReservedMargin(os[..|os| - 1], u) + Reserved(os[|os| - 1], u)
  }

  lemma {:induction false} PositionMarginUpdate(ps: seq<Option<Position>>, i: nat, x: Option<Position>, u: UserId)
    requires i < |ps|
    ensures PositionMargin(ps[i := x], u) == PositionMargin(ps, u) - Held(ps[i], u) + Held(x, u)
    decreases |ps|
  {
    var n := |ps| - 1;
    if i == n {
      assert ps[i := x][..n] == ps[..n];
    } else {
      assert ps[i := x][..n] == ps[..n][i := x];
      PositionMarginUpdate(ps[..n], i, x, u);
    }
  }

  lemma {:induction false} ReservedMarginUpdate(os: seq<Order>, i: nat, x: Order, u: UserId)
    requires i < |os|
    ensures ReservedMargin(os[i := x], u) == ReservedMargin(os, u) - Reserved(os[i], u) + Reserved(x, u)
    decreases |os|
  {
    var n := |os| - 1;
    if i == n {
      assert os[i := x][..n] == os[..n];
    } else {
      assert os[i := x][..n] == os[..n][i := x];
      ReservedMarginUpdate(os[..n], i, x, u);
    }
  }

  /** Two order tables whose rows reserve the same for `u`, row by row, reserve the same in total. */
  lemma {:induction false} ReservedMarginPointwise(a: seq<Order>, b: seq<Order>, u: UserId)
    requires |a| == |b|
    requires forall i :: 0 <= i < |a| ==> Reserved(a[i], u) == Reserved(b[i], u)
    ensures ReservedMargin(a, u) == ReservedMargin(b, u)
    decreases |a|
  {
    if a != [] {
      ReservedMarginPointwise(a[..|a| - 1], b[..|b| - 1], u);
    }
  }

  /** Appending a position adds its margin to its owner's sum and nothing to anyone else's. */
  lemma PositionAdded(ps: seq<Option<Position>>, p: Position)
    ensures forall v :: PositionMargin(ps + [Some(p)], v) == PositionMargin(ps, v) + Held(Some(p), v)
  {
    assert (ps + [Some(p)])[..|ps|] == ps;
  }

  /** Deleting a position takes its margin off its owner's sum and nothing off anyone else's. */
  lemma PositionRemoved(ps: seq<Option<Position>>, i: nat)
    requires i < |ps|
    ensures forall v :: PositionMargin(ps[i := None], v) == PositionMargin(ps, v) - Held(ps[i], v)
  {
    forall v ensures PositionMargin(ps[i := None], v) == PositionMargin(ps, v) - Held(ps[i], v) {
      PositionMarginUpdate(ps, i, None, v);
    }
  }

  /** Appending an order adds what it reserves. */
  lemma OrderAdded(os: seq<Order>, o: Order)
    ensures forall v :: ReservedMargin(os + [o], v) == ReservedMargin(os, v) + Reserved(o, v)
  {
    assert (os + [o])[..|os|] == os;
  }

  /** Replacing an order row changes each user's reserved sum by the difference of the two rows. */
  lemma OrderReplaced(os: seq<Order>, k: nat, o: Order)
    requires k < |os|
    ensures forall v :: ReservedMargin(os[k := o], v) == ReservedMargin(os, v) - Reserved(os[k], v) + Reserved(o, v)
  {
    forall v ensures ReservedMargin(os[k := o], v) == ReservedMargin(os, v) - Reserved(os[k], v) + Reserved(o, v) {
      ReservedMarginUpdate(os, k, o, v);
    }
  }

  // ---------------------------------------------------------------------------
  // Well-formed tables
  // ---------------------------------------------------------------------------

  ghost predicate OrderOk(o: Order) {
    && o.marginReserved >= 0.0
    && (o.orderType == StopMarket ==> o.marginReserved == 0.0)
    && (o.orderType == Limit ==> o.leverage >= MIN_LEVERAGE)
  }

  ghost predicate PositionOk(p: Position) {
    p.margin >= 0.0 && p.entry != 0.0
  }

  /** Positions `p` and `q` occupy the same (user, symbol, side) slot. */
  predicate SameSlot(p: Position, q: Position) {
    p.user == q.user && p.symbol == q.symbol && p.side == q.side
  }

  predicate IsSlot(p: Option<Position>, u: UserId, symbol: string, side: Side) {
    p.Some? && p.value.user == u && p.value.symbol == symbol && p.value.side == side
  }

  /** `SELECT id FROM positions WHERE user_id = u AND symbol = s AND side = side`. */
  predicate HasPosition(ps: seq<Option<Position>>, u: UserId, symbol: string, side: Side) {
    exists i :: 0 <= i < |ps| && IsSlot(ps[i], u, symbol, side)
  }

  ghost predicate UniquePositions(ps: seq<Option<Position>>) {
    forall i, j :: 0 <= i < |ps| && 0 <= j < |ps| && ps[i].Some? && ps[j].Some? && SameSlot(ps[i].value, ps[j].value) ==> i == j
  }

  ghost predicate TablesOk(ps: seq<Option<Position>>, os: seq<Order>) {
    && (forall i :: 0 <= i < |os| ==> OrderOk(os[i]))
    && (forall i :: 0 <= i < |ps| && ps[i].Some? ==> PositionOk(ps[i].value))
    && UniquePositions(ps)
  }

  /** The canonical relation of an account: total = available + locked, and locked is
      exactly the margin held by the user's positions and open orders. */
  ghost predicate Balanced(a: Account, ps: seq<Option<Position>>, os: seq<Order>, u: UserId) {
    && a.total == a.available + a.locked
    && a.locked == PositionMargin(ps, u) + ReservedMargin(os, u)
  }

  ghost predicate BalancedExcept(accounts: map<UserId, Account>, ps: seq<Option<Position>>, os: seq<Order>, u: UserId) {
    forall v | v in accounts && v != u :: Balanced(accounts[v], ps, os, v)
  }

  lemma {:induction false} PositionMarginNonneg(ps: seq<Option<Position>>, u: UserId)
    requires forall i :: 0 <= i < |ps| && ps[i].Some? ==> PositionOk(ps[i].value)
    ensures PositionMargin(ps, u) >= 0.0
    decreases |ps|
  {
    if ps != [] {
      PositionMarginNonneg(ps[..|ps| - 1], u);
    }
  }

  lemma {:induction false} ReservedMarginNonneg(os: seq<Order>, u: UserId)
    requires forall i :: 0 <= i < |os| ==> OrderOk(os[i])
    ensures ReservedMargin(os, u) >= 0.0
    decreases |os|
  {
    if os != [] {
      ReservedMarginNonneg(os[..|os| - 1], u);
    }
  }

  /** In a balanced account the locked margin is never negative, so the available
      balance never exceeds the total, and the locked margin covers every position and
      open order of the user: releasing one of them never needs the clamp at zero. */
  lemma BalancedSound(a: Account, ps: seq<Option<Position>>, os: seq<Order>, u: UserId)
    requires TablesOk(ps, os) && Balanced(a, ps, os, u)
    ensures a.locked >= 0.0 && a.available <= a.total
    ensures forall i :: 0 <= i < |ps| ==> a.locked >= Held(ps[i], u)
    ensures forall k :: 0 <= k < |os| ==> a.locked >= Reserved(os[k], u)
  {
    PositionMarginNonneg(ps, u);
    ReservedMarginNonneg(os, u);
    forall i | 0 <= i < |ps| ensures a.locked >= Held(ps[i], u) {
      var rest := ps[i := None];
      PositionMarginUpdate(ps, i, None, u);
      assert forall j :: 0 <= j < |rest| && rest[j].Some? ==> PositionOk(rest[j].value);
      PositionMarginNonneg(rest, u);
    }
    forall k | 0 <= k < |os| ensures a.locked >= Reserved(os[k], u) {
      var x := os[k].(status := Canceled);
      var rest := os[k := x];
      ReservedMarginUpdate(os, k, x, u);
      assert forall j :: 0 <= j < |rest| ==> OrderOk(rest[j]);
      ReservedMarginNonneg(rest, u);
    }
  }

  /** In a consistent database the clamp at zero of `Release` never fires for margin
      the user actually holds, so the clamped release of the match pass and the
      unclamped one of the close route and the liquidation service agree. */
  lemma ClampNeverFires(accounts: map<UserId, Account>, ps: seq<Option<Position>>, os: seq<Order>, u: UserId, i: nat)
    requires Consistent(accounts, ps, os) && u in accounts
    requires i < |ps| && ps[i].Some? && ps[i].value.user == u
    ensures Release(accounts[u], ps[i].value.margin) == ReleaseUnclamped(accounts[u], ps[i].value.margin)
    ensures ReleaseUnclamped(accounts[u], ps[i].value.margin).locked >= 0.0
  {
    BalancedSound(accounts[u], ps, os, u);
  }

  /** Deleting a position and writing its owner an account whose locked margin is
      lower by the position's margin, and whose total is again available plus locked,
      keeps the database consistent. */
  lemma SettleKeepsConsistent(accounts: map<UserId, Account>, ps: seq<Option<Position>>, os: seq<Order>, i: nat, acc: Account)
    requires Consistent(accounts, ps, os)
    requires i < |ps| && ps[i].Some? && ps[i].value.user in accounts
    requires acc.locked == accounts[ps[i].value.user].locked - ps[i].value.margin
    requires acc.total == acc.available + acc.locked
    ensures Consistent(accounts[ps[i].value.user := acc], ps[i := None], os)
  {
    PositionRemoved(ps, i);
    RemovePositionKeepsTables(ps, os, i);
  }

  /** A change of the tables that leaves every other user's held margin as it was,
      together with a new account for `u` that balances against the new tables, keeps
      the database consistent. */
  lemma Rebalance(accounts: map<UserId, Account>, ps: seq<Option<Position>>, os: seq<Order>,
                  ps': seq<Option<Position>>, os': seq<Order>, u: UserId, acc: Account)
    requires Consistent(accounts, ps, os) && TablesOk(ps', os')
    requires forall v :: v != u ==> PositionMargin(ps', v) + ReservedMargin(os', v) == PositionMargin(ps, v) + ReservedMargin(os, v)
    requires Balanced(acc, ps', os', u)
    ensures Consistent(accounts[u := acc], ps', os')
  {
    var updated := accounts[u := acc];
    forall v | v in updated ensures Balanced(updated[v], ps', os', v) {
      if v != u {
        assert Balanced(accounts[v], ps, os, v);
      }
    }
  }

  /** `UPDATE paper_orders SET status = 'canceled', reject_reason = reason WHERE
      linked_position_id = pid AND order_type = 'stop_market' AND status = 'open'`,
      further restricted to the rows of `owner` and to rows other than `keep` when given. */
  function CancelStops(os: seq<Order>, pid: nat, owner: Option<UserId>, keep: Option<nat>, reason: string): (r: seq<Order>)
    ensures |r| == |os|
    ensures forall i :: 0 <= i < |os| && !IsLinkedStop(os[i], i, pid, owner, keep) ==> r[i] == os[i]
    ensures forall i :: 0 <= i < |os| && IsLinkedStop(os[i], i, pid, owner, keep) ==>
      r[i] == os[i].(status := Canceled, rejectReason := Some(reason))
    ensures forall i :: 0 <= i < |r| ==> !IsLinkedStop(r[i], i, pid, owner, keep)
  {
    seq(|os|, i requires 0 <= i < |os| =>
      if IsLinkedStop(os[i], i, pid, owner, keep) then os[i].(status := Canceled, rejectReason := Some(reason)) else os[i])
  }

  predicate IsLinkedStop(o: Order, i: nat, pid: nat, owner: Option<UserId>, keep: Option<nat>) {
    && o.linkedPosition == Some(pid)
    && o.orderType == StopMarket
    && o.status == Open
    && (owner.Some? ==> o.user == owner.value)
    && (keep.Some? ==> i != keep.value)
  }

  /** Canceling stop orders releases nothing, because stop orders reserve no margin;
      and the canceled rows stay well formed. */
  lemma CancelStopsKeepsMargin(ps: seq<Option<Position>>, os: seq<Order>, pid: nat, owner: Option<UserId>, keep: Option<nat>, reason: string)
    requires TablesOk(ps, os)
    ensures TablesOk(ps, CancelStops(os, pid, owner, keep, reason))
    ensures forall v :: ReservedMargin(CancelStops(os, pid, owner, keep, reason), v) == ReservedMargin(os, v)
    ensures Evolved(os, CancelStops(os, pid, owner, keep, reason))
    ensures forall j :: 0 <= j < |os| && os[j].orderType != StopMarket ==> CancelStops(os, pid, owner, keep, reason)[j] == os[j]
  {
    var r := CancelStops(os, pid, owner, keep, reason);
    forall v ensures ReservedMargin(r, v) == ReservedMargin(os, v) {
      forall i | 0 <= i < |os| ensures Reserved(r[i], v) == Reserved(os[i], v) {
        assert OrderOk(os[i]);
      }
      ReservedMarginPointwise(r, os, v);
    }
    forall i | 0 <= i < |r| ensures OrderOk(r[i]) {
      assert OrderOk(os[i]);
    }
  }

  /** The whole database is consistent: well-formed tables and balanced accounts. */
  ghost predicate Consistent(accounts: map<UserId, Account>, ps: seq<Option<Position>>, os: seq<Order>) {
    TablesOk(ps, os) && forall u | u in accounts :: Balanced(accounts[u], ps, os, u)
  }

  lemma AddPositionKeepsTables(ps: seq<Option<Position>>, os: seq<Order>, p: Position)
    requires TablesOk(ps, os) && PositionOk(p) && !HasPosition(ps, p.user, p.symbol, p.side)
    ensures TablesOk(ps + [Some(p)], os)
  {
    var ps' := ps + [Some(p)];
    forall i, j | 0 <= i < |ps'| && 0 <= j < |ps'| && ps'[i].Some? && ps'[j].Some? && SameSlot(ps'[i].value, ps'[j].value)
      ensures i == j
    {
      if i == |ps| && j < |ps| {
        assert IsSlot(ps[j], p.user, p.symbol, p.side);
      } else if j == |ps| && i < |ps| {
        assert IsSlot(ps[i], p.user, p.symbol, p.side);
      }
    }
  }

  lemma AddOrderKeepsTables(ps: seq<Option<Position>>, os: seq<Order>, o: Order)
    requires TablesOk(ps, os) && OrderOk(o)
    ensures TablesOk(ps, os + [o])
  {
  }

  lemma SetOrderKeepsTables(ps: seq<Option<Position>>, os: seq<Order>, k: nat, o: Order)
    requires TablesOk(ps, os) && k < |os| && OrderOk(o)
    ensures TablesOk(ps, os[k := o])
  {
  }

  lemma RemovePositionKeepsTables(ps: seq<Option<Position>>, os: seq<Order>, i: nat)
    requires TablesOk(ps, os) && i < |ps|
    ensures TablesOk(ps[i := None], os)
  {
  }

  /** Two versions of an order row agree on everything but the columns the engine
      updates after insertion: status, reject reason, fill price, and the linked
      position of a limit order (set when it fills). */
  predicate SameTerms(a: Order, b: Order) {
    && a == b.(status := a.status, rejectReason := a.rejectReason, linkedPosition := a.linkedPosition, filledPrice := a.filledPrice)
    && (a.orderType != Limit ==> a.linkedPosition == b.linkedPosition)
  }

  /** How the order table may evolve: rows are only appended, and a row either stays
      as it is or keeps its terms and leaves the open state. */
  ghost predicate Evolved(before: seq<Order>, after: seq<Order>) {
    |before| <= |after| &&
    forall i :: 0 <= i < |before| ==> after[i] == before[i] || (SameTerms(before[i], after[i]) && after[i].status != Open)
  }

  lemma EvolvedTransitive(a: seq<Order>, b: seq<Order>, c: seq<Order>)
    requires Evolved(a, b) && Evolved(b, c)
    ensures Evolved(a, c)
  {
  }

  /** The engine's database: the users' accounts and the four tables. */
  class Exchange {
    var accounts: map<UserId, Account>
    var orders: seq<Order>
    var positions: seq<Option<Position>>
    var trades: seq<Trade>
    var history: seq<HistoryEntry>

    ghost predicate Valid()
      reads this
    {
      Consistent(accounts, positions, orders)
    }

    /** Fresh users, each credited with a mock balance, holding nothing. */
    constructor (balances: map<UserId, real>)
      ensures Valid()
      ensures accounts == map u | u in balances :: Account(balances[u], 0.0, balances[u])
      ensures orders == [] && positions == [] && trades == [] && history == []
    {
      accounts := map u | u in balances :: Account(balances[u], 0.0, balances[u]);
      orders := [];
      positions := [];
      trades := [];
      history := [];
    }
  }
}
