/** The order route: placing a market or limit order (POST) and listing a user's
    orders (GET). The oracle price is a parameter; the symbol and the order type are
    taken after case folding. */
module Orders {
  import opened Common
  import opened Ledger

  datatype OrderError =
    | UnsupportedSymbol
    | InvalidOrderType
    | SizeTooSmall
    | InvalidLeverage
    | LimitPriceRequired
    | InvalidStopLoss
    | PositionExists
    | UserNotFound
    | InsufficientBalance
    | MarketDataUnavailable
    | LimitOnWrongSide
    | StopOnWrongSide

  /** The request body after `Number(...)`; an absent price is `None`. */
  datatype OrderRequest = OrderRequest(
    symbol: string,
    side: Side,
    orderType: string,
    size: Num,
    leverage: Num,
    limitPrice: Option<Num>,
    stopLoss: Option<Num>)

  /** A request that passed the stateless guards. `limit` is only meaningful for a
      limit order. */
  datatype Ticket = Ticket(
    symbol: string,
    side: Side,
    kind: OrderType,
    size: real,
    leverage: real,
    limit: real,
    stop: Option<real>)

  /** What a successful placement answers: the order id, the position id of a market
      order, and the balances after the reservation. */
  datatype Placement = Placement(orderId: nat, positionId: Option<nat>, balance: Account)

  function Margin(t: Ticket): real
    requires t.leverage != 0.0
  {
    t.size / t.leverage
  }

  /** The stateless guards, in the order the route applies them. */
  function CheckRequest(req: OrderRequest): (r: Result<Ticket, OrderError>)
    ensures r.Success? ==>
      && r.value.symbol == req.symbol && r.value.side == req.side
      && r.value.symbol in SYMBOLS
      && r.value.kind != StopMarket
      && r.value.size >= MIN_POSITION_SIZE
      && MIN_LEVERAGE <= r.value.leverage <= MAX_LEVERAGE
      && (r.value.kind == Limit ==> r.value.limit > 0.0)
      && (r.value.stop.Some? ==> r.value.stop.value > 0.0)
    ensures
      (&& req.symbol in SYMBOLS
       && req.orderType in {"market", "limit"}
       && req.size.Finite? && req.size.value >= MIN_POSITION_SIZE
       && req.leverage.Finite? && MIN_LEVERAGE <= req.leverage.value <= MAX_LEVERAGE
       && (req.orderType == "limit" ==> req.limitPrice.Some? && PositiveNum(req.limitPrice.value))
       && (req.stopLoss.Some? ==> PositiveNum(req.stopLoss.value)))
      <==> r.Success?
  {
    if req.symbol !in SYMBOLS then Failure(UnsupportedSymbol)
    else if req.orderType != "market" && req.orderType != "limit" then Failure(InvalidOrderType)
    else if !req.size.Finite? || req.size.value < MIN_POSITION_SIZE then Failure(SizeTooSmall)
    else if !req.leverage.Finite? || req.leverage.value < MIN_LEVERAGE || req.leverage.value > MAX_LEVERAGE then
      Failure(InvalidLeverage)
    else if req.orderType == "limit" && !(req.limitPrice.Some? && PositiveNum(req.limitPrice.value)) then
      Failure(LimitPriceRequired)
    else if req.stopLoss.Some? && !PositiveNum(req.stopLoss.value) then Failure(InvalidStopLoss)
    else
      Success(Ticket(
        req.symbol, req.side,
        if req.orderType == "limit" then Limit else Market,
        req.size.value, req.leverage.value,
        if req.orderType == "limit" then req.limitPrice.value.value else 0.0,
        if req.stopLoss.Some? then Some(req.stopLoss.value.value) else None))
  }

  /** All guards of the POST route, the stateless ones and those that read the tables
      and the oracle price. */
  function Admit(accounts: map<UserId, Account>, ps: seq<Option<Position>>, u: UserId, req: OrderRequest, price: Option<real>): (r: Result<Ticket, OrderError>)
    ensures CheckRequest(req).Failure? ==> r == Failure(CheckRequest(req).error)
    ensures r.Success? ==>
      && CheckRequest(req) == Success(r.value)
      && !HasPosition(ps, u, r.value.symbol, r.value.side)
      && u in accounts
      && Margin(r.value) <= accounts[u].available
      && Truthy(price)
      && (r.value.kind == Limit ==> Behind(r.value.side, r.value.limit, price.value))
      && (r.value.stop.Some? ==>
            Behind(r.value.side, r.value.stop.value, if r.value.kind == Limit then r.value.limit else price.value))
    ensures CheckRequest(req).Success? ==>
      (var t := CheckRequest(req).value;
       (&& !HasPosition(ps, u, t.symbol, t.side)
        && u in accounts
        && Margin(t) <= accounts[u].available
        && Truthy(price)
        && (t.kind == Limit ==> Behind(t.side, t.limit, price.value))
        && (t.stop.Some? ==> Behind(t.side, t.stop.value, if t.kind == Limit then t.limit else price.value)))
       ==> r.Success?)
  {
    match CheckRequest(req)
    case Failure(e) => Failure(e)
    case Success(t) =>
      if HasPosition(ps, u, t.symbol, t.side) then Failure(PositionExists)
      else if u !in accounts then Failure(UserNotFound)
      else if Margin(t) > accounts[u].available then Failure(InsufficientBalance)
      else if !Truthy(price) then Failure(MarketDataUnavailable)
      else if t.kind == Limit && !Behind(t.side, t.limit, price.value) then Failure(LimitOnWrongSide)
      else if t.stop.Some? && !Behind(t.side, t.stop.value, if t.kind == Limit then t.limit else price.value) then
        Failure(StopOnWrongSide)
      else Success(t)
  }

  /** The margin of an accepted order is positive and at most its size, and the
      order does not execute at the price it was checked against: a limit order is not
      fillable at the placement price, and its stop (or a market order's stop) has
      not been reached at the entry price. */
  lemma AdmittedOrderIsQuiet(accounts: map<UserId, Account>, ps: seq<Option<Position>>, u: UserId, req: OrderRequest, price: Option<real>)
    requires Admit(accounts, ps, u, req, price).Success?
    ensures var t := Admit(accounts, ps, u, req, price).value;
      && 0.0 < Margin(t) <= t.size
      && (t.kind == Limit ==> !Reached(t.side, price.value, t.limit))
      && (t.stop.Some? ==> !Reached(t.side, if t.kind == Limit then t.limit else price.value, t.stop.value))
  {
    var t := Admit(accounts, ps, u, req, price).value;
    assert t.size / t.leverage <= t.size / 1.0;
    if t.kind == Limit {
      BehindNotReached(t.side, t.limit, price.value);
    }
    if t.stop.Some? {
      BehindNotReached(t.side, t.stop.value, if t.kind == Limit then t.limit else price.value);
    }
  }

  /** The row a limit order rests as. */
  function RestingOrder(u: UserId, t: Ticket): Order
    requires t.leverage != 0.0
  {
    Order(u, t.symbol, t.side, Limit, Open, t.size, t.leverage, false, Some(t.limit), None, t.stop, Margin(t), None, None, None)
  }

  /** The row a market order is recorded as once its position `pid` is open. */
  function MarketFill(u: UserId, t: Ticket, pid: nat, price: real): Order {
    Order(u, t.symbol, t.side, Market, Filled, t.size, t.leverage, false, None, None, None, 0.0, Some(pid), Some(price), None)
  }

  /** POST: place a market or a limit order for user `u`, with `price` the oracle's
      answer for the order's symbol and side. */
  method Place(db: Exchange, u: UserId, req: OrderRequest, price: Option<real>) returns (r: Result<Placement, OrderError>)
    modifies db
    requires db.Valid()
    ensures db.Valid()
    ensures var a := Admit(old(db.accounts), old(db.positions), u, req, price);
      && (a.Failure? <==> r.Failure?)
      && (a.Failure? ==> r.error == a.error && unchanged(db))
    ensures r.Success? ==>
      var t := Admit(old(db.accounts), old(db.positions), u, req, price).value;
      var acc := Reserve(old(db.accounts)[u], Margin(t));
      && db.accounts == old(db.accounts)[u := acc]
      && r.value.balance == acc
      && db.trades == old(db.trades)
      && (t.kind == Limit ==>
            && db.orders == old(db.orders) + [RestingOrder(u, t)]
            && db.positions == old(db.positions)
            && db.history == old(db.history)
            && r.value == Placement(|old(db.orders)|, None, acc))
      && (t.kind == Market ==>
            var pid := |old(db.positions)|;
            var fill := MarketFill(u, t, pid, price.value);
            && db.positions == old(db.positions) + [Some(NewPosition(u, t.symbol, t.side, price.value, t.size, Margin(t), t.leverage))]
            && db.orders == old(db.orders) + [fill] +
                 (if t.stop.Some? then [StopChild(u, t.symbol, t.side, t.size, t.leverage, t.stop.value, pid)] else [])
            && db.history == old(db.history) + [HistoryEntry(u, PositionOpened, -Margin(t), acc.available, None)]
            && r.value == Placement(|old(db.orders)|, Some(pid), acc))
  {
    var admitted := Admit(db.accounts, db.positions, u, req, price);
    if admitted.Failure? {
      return Failure(admitted.error);
    }
    var t := admitted.value;
    var margin := Margin(t);
    var acc := Reserve(db.accounts[u], margin);

    if t.kind == Limit {
      var row := RestingOrder(u, t);
      LimitPlaced(db.accounts, db.positions, db.orders, u, req, price, t);
      r := Success(Placement(|db.orders|, None, acc));
      db.accounts := db.accounts[u := acc];
      db.orders := db.orders + [row];
      return;
    }

    var pid := |db.positions|;
    var p := NewPosition(u, t.symbol, t.side, price.value, t.size, margin, t.leverage);
    var fill := MarketFill(u, t, pid, price.value);
    var rows := [fill] + (if t.stop.Some? then [StopChild(u, t.symbol, t.side, t.size, t.leverage, t.stop.value, pid)] else []);
    MarketPlaced(db.accounts, db.positions, db.orders, u, req, price, t, rows);
    r := Success(Placement(|db.orders|, Some(pid), acc));
    db.accounts := db.accounts[u := acc];
    db.positions := db.positions + [Some(p)];
    db.orders := db.orders + rows;
    db.history := db.history + [HistoryEntry(u, PositionOpened, -margin, acc.available, None)];
  }

  /** A resting limit order reserves its margin and keeps the database consistent. */
  lemma LimitPlaced(accounts: map<UserId, Account>, ps: seq<Option<Position>>, os: seq<Order>,
                    u: UserId, req: OrderRequest, price: Option<real>, t: Ticket)
    requires Consistent(accounts, ps, os)
    requires Admit(accounts, ps, u, req, price) == Success(t) && t.kind == Limit
    ensures Consistent(accounts[u := Reserve(accounts[u], Margin(t))], ps, os + [RestingOrder(u, t)])
  {
    var row := RestingOrder(u, t);
    OrderAdded(os, row);
    AddOrderKeepsTables(ps, os, row);
    assert Balanced(accounts[u], ps, os, u);
    Rebalance(accounts, ps, os, ps, os + [row], u, Reserve(accounts[u], Margin(t)));
  }

  /** A market order opens its position with the margin locked, logs a filled row and
      a stop child that reserves nothing, and keeps the database consistent. */
  lemma MarketPlaced(accounts: map<UserId, Account>, ps: seq<Option<Position>>, os: seq<Order>,
                     u: UserId, req: OrderRequest, price: Option<real>, t: Ticket, rows: seq<Order>)
    requires Consistent(accounts, ps, os)
    requires Admit(accounts, ps, u, req, price) == Success(t) && t.kind == Market
    requires rows == [MarketFill(u, t, |ps|, price.value)] +
      (if t.stop.Some? then [StopChild(u, t.symbol, t.side, t.size, t.leverage, t.stop.value, |ps|)] else [])
    ensures Consistent(accounts[u := Reserve(accounts[u], Margin(t))],
      ps + [Some(NewPosition(u, t.symbol, t.side, price.value, t.size, Margin(t), t.leverage))], os + rows)
  {
    var pid := |ps|;
    var p := NewPosition(u, t.symbol, t.side, price.value, t.size, Margin(t), t.leverage);
    var fill := MarketFill(u, t, pid, price.value);
    var ps' := ps + [Some(p)];
    PositionAdded(ps, p);
    AddPositionKeepsTables(ps, os, p);
    OrderAdded(os, fill);
    AddOrderKeepsTables(ps', os, fill);
    if t.stop.Some? {
      var child := StopChild(u, t.symbol, t.side, t.size, t.leverage, t.stop.value, pid);
      OrderAdded(os + [fill], child);
      AddOrderKeepsTables(ps', os + [fill], child);
      assert os + rows == os + [fill] + [child];
    } else {
      assert os + rows == os + [fill];
    }
    assert Balanced(accounts[u], ps, os, u);
    Rebalance(accounts, ps, os, ps', os + rows, u, Reserve(accounts[u], Margin(t)));
  }

  // ---------------------------------------------------------------------------
  // GET: list orders
  // ---------------------------------------------------------------------------

  datatype ListError = InvalidStatusFilter | UnsupportedSymbolFilter | QueryFailed

  const DEFAULT_LIST_LIMIT: real := 200.0
  const MAX_LIST_LIMIT: real := 500.0

  /** The `limit` query parameter: absent or not a finite number means 200, anything
      else is clamped into [1, 500]. */
  function ClampLimit(raw: Option<Num>): (r: real)
    ensures 1.0 <= r <= MAX_LIST_LIMIT
    ensures raw.Some? && raw.value.Finite? && 1.0 <= raw.value.value <= MAX_LIST_LIMIT ==> r == raw.value.value
    ensures !(raw.Some? && raw.value.Finite?) ==> r == DEFAULT_LIST_LIMIT
  {
    if raw.Some? && raw.value.Finite? then Min(Max(raw.value.value, 1.0), MAX_LIST_LIMIT) else DEFAULT_LIST_LIMIT
  }

  /** The `status` query parameter after lower-casing; absent means `open`. */
  function ParseStatus(raw: Option<string>): (r: Option<OrderStatus>)
    ensures raw.None? ==> r == Some(Open)
    ensures r.Some? <==> raw.None? || raw.value in ["open", "filled", "canceled", "rejected"]
  {
    match if raw.Some? then raw.value else "open"
    case "open" => Some(Open)
    case "filled" => Some(Filled)
    case "canceled" => Some(Canceled)
    case "rejected" => Some(Rejected)
    case _ => None
  }

  predicate Listed(o: Order, u: UserId, symbol: string, status: OrderStatus) {
    o.user == u && o.status == status && (symbol == "" || o.symbol == symbol)
  }

  /** Ids below `n` of the rows the query selects, newest first. */
  function NewestFirst(os: seq<Order>, u: UserId, symbol: string, status: OrderStatus, n: nat): (r: seq<nat>)
    requires n <= |os|
    ensures forall k :: 0 <= k < |r| ==> r[k] < n && Listed(os[r[k]], u, symbol, status)
    ensures forall k, l :: 0 <= k < l < |r| ==> r[k] > r[l]
    ensures forall i :: 0 <= i < n && Listed(os[i], u, symbol, status) ==> i in r
    decreases n
  {
    if n == 0 then []
    else if Listed(os[n - 1], u, symbol, status) then [n - 1] + NewestFirst(os, u, symbol, status, n - 1)
    else NewestFirst(os, u, symbol, status, n - 1)
  }

  /** GET: the ids of `u`'s orders with the requested status (and symbol, when one is
      given), newest first, at most `limit` of them. An unknown status or symbol filter
      is refused; a clamped limit that is not a whole number fails the query; otherwise
      the answer is the newest `limit` rows, or all of them when there are fewer. */
  function List(os: seq<Order>, u: UserId, symbol: string, status: Option<string>, limit: Option<Num>): (r: Result<seq<nat>, ListError>)
    ensures ParseStatus(status).None? ==> r == Failure(InvalidStatusFilter)
    ensures ParseStatus(status).Some? && symbol != "" && symbol !in SYMBOLS ==> r == Failure(UnsupportedSymbolFilter)
    ensures r.Success? ==>
      var all := NewestFirst(os, u, symbol, ParseStatus(status).value, |os|);
      && (|r.value| as real) <= ClampLimit(limit)
      && r.value <= all
      && (|all| as real <= ClampLimit(limit) ==> r.value == all)
    ensures ParseStatus(status).Some? && (symbol == "" || symbol in SYMBOLS) ==>
      var all := NewestFirst(os, u, symbol, ParseStatus(status).value, |os|);
      var lim := ClampLimit(limit);
      && (lim.Floor as real != lim ==> r == Failure(QueryFailed))
      && (lim.Floor as real == lim ==> r.Success? && |r.value| as real == Min(lim, |all| as real))
  {
    var lim := ClampLimit(limit);
    var st := ParseStatus(status);
    if st.None? then Failure(InvalidStatusFilter)
    else if symbol != "" && symbol !in SYMBOLS then Failure(UnsupportedSymbolFilter)
    else if lim.Floor as real != lim then Failure(QueryFailed)
    else
      var all := NewestFirst(os, u, symbol, st.value, |os|);
      var n := lim.Floor as nat;
      Success(if n <= |all| then all[..n] else all)
  }
}
