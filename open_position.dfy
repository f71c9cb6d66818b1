/** The direct open-position route: a position at the oracle price, its margin
    reserved out of the available balance. */
module OpenPosition {
  import opened Common
  import opened Ledger

  datatype OpenError =
    | UnsupportedSymbol
    | InvalidPositionSize
    | InvalidLeverage
    | SizeTooSmall
    | MarketDataUnavailable
    | PositionExists
    | UserNotFound
    | InsufficientBalance

  /** The request body after `Number(...)`, the symbol after upper-casing. */
  datatype OpenRequest = OpenRequest(symbol: string, side: Side, size: Num, leverage: Num)

  /** The guards, in the order the route applies them; on success, the entry price. */
  function Admit(accounts: map<UserId, Account>, ps: seq<Option<Position>>, u: UserId, req: OpenRequest, price: Option<real>): (r: Result<real, OpenError>)
    ensures r.Success? ==>
      && req.symbol in SYMBOLS
      && req.size.Finite? && req.size.value >= MIN_POSITION_SIZE
      && req.leverage.Finite? && MIN_LEVERAGE <= req.leverage.value <= MAX_LEVERAGE
      && Truthy(price) && r.value == price.value
      && !HasPosition(ps, u, req.symbol, req.side)
      && u in accounts
      && req.size.value / req.leverage.value <= accounts[u].available
    ensures
      (&& req.symbol in SYMBOLS
       && req.size.Finite? && req.size.value >= MIN_POSITION_SIZE
       && req.leverage.Finite? && MIN_LEVERAGE <= req.leverage.value <= MAX_LEVERAGE
       && Truthy(price)
       && !HasPosition(ps, u, req.symbol, req.side)
       && u in accounts
       && req.size.value / req.leverage.value <= accounts[u].available)
      ==> r.Success?
    ensures (&& req.symbol in SYMBOLS
             && req.size.Finite? && 0.0 < req.size.value < MIN_POSITION_SIZE
             && req.leverage.Finite? && MIN_LEVERAGE <= req.leverage.value <= MAX_LEVERAGE)
            ==> r == Failure(SizeTooSmall)
  {
    if req.symbol !in SYMBOLS then Failure(UnsupportedSymbol)
    else if !PositiveNum(req.size) then Failure(InvalidPositionSize)
    else if !req.leverage.Finite? || req.leverage.value < MIN_LEVERAGE || req.leverage.value > MAX_LEVERAGE then
      Failure(InvalidLeverage)
    else if req.size.value < MIN_POSITION_SIZE then Failure(SizeTooSmall)
    else if !Truthy(price) then Failure(MarketDataUnavailable)
    else if HasPosition(ps, u, req.symbol, req.side) then Failure(PositionExists)
    else if u !in accounts then Failure(UserNotFound)
    else if req.size.value / req.leverage.value > accounts[u].available then Failure(InsufficientBalance)
    else Success(price.value)
  }

  /** What a successful open answers: the position id and the balances after it. */
  datatype Opened = Opened(positionId: nat, balance: Account)

  /** POST: open a position for user `u`, with `price` the oracle's answer for the
      symbol and side. */
  method Open(db: Exchange, u: UserId, req: OpenRequest, price: Option<real>) returns (r: Result<Opened, OpenError>)
    modifies db
    requires db.Valid()
    ensures db.Valid()
    ensures var a := Admit(old(db.accounts), old(db.positions), u, req, price);
      && (a.Failure? <==> r.Failure?)
      && (a.Failure? ==> r.error == a.error && unchanged(db))
    ensures r.Success? ==>
      var margin := req.size.value / req.leverage.value;
      var acc := Reserve(old(db.accounts)[u], margin);
      && r.value == Opened(|old(db.positions)|, acc)
      && db.accounts == old(db.accounts)[u := acc]
      && db.positions == old(db.positions) +
           [Some(NewPosition(u, req.symbol, req.side, price.value, req.size.value, margin, req.leverage.value))]
      && db.history == old(db.history) + [HistoryEntry(u, PositionOpened, -margin, acc.available, None)]
      && db.orders == old(db.orders)
      && db.trades == old(db.trades)
  {
    var admitted := Admit(db.accounts, db.positions, u, req, price);
    if admitted.Failure? {
      return Failure(admitted.error);
    }
    var entry := admitted.value;
    var margin := req.size.value / req.leverage.value;
    var p := NewPosition(u, req.symbol, req.side, entry, req.size.value, margin, req.leverage.value);
    var acc := Reserve(db.accounts[u], margin);
    PositionAdded(db.positions, p);
    AddPositionKeepsTables(db.positions, db.orders, p);
    r := Success(Opened(|db.positions|, acc));
    db.accounts := db.accounts[u := acc];
    db.positions := db.positions + [Some(p)];
    db.history := db.history + [HistoryEntry(u, PositionOpened, -margin, acc.available, None)];
  }

  /** Opening a position never overdraws: the available balance stays non-negative
      when it was, and the new position's margin is between a tenth of its size and
      its size. */
  lemma OpenNeverOverdraws(accounts: map<UserId, Account>, ps: seq<Option<Position>>, u: UserId, req: OpenRequest, price: Option<real>)
    requires Admit(accounts, ps, u, req, price).Success?
    ensures var margin := req.size.value / req.leverage.value;
      && req.size.value / MAX_LEVERAGE <= margin <= req.size.value
      && Reserve(accounts[u], margin).available >= 0.0
  {
    MarginBounds(req.size.value, req.leverage.value);
  }

  /** `size / leverage` for a leverage in [1, 10] lies between a tenth of the size and
      the size. */
  lemma MarginBounds(s: real, l: real)
    requires s >= 0.0 && MIN_LEVERAGE <= l <= MAX_LEVERAGE
    ensures s / MAX_LEVERAGE <= s / l <= s
  {
    var m := s / l;
    assert m * l == s;
    assert m >= 0.0;
    assert m * 1.0 <= m * l <= m * MAX_LEVERAGE;
  }
}
