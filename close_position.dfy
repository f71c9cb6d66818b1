/** The manual close route: settle a position of the caller at the oracle price,
    log the realized trade and delete the position. */
module ClosePosition {
  import opened Common
  import opened Ledger

  datatype CloseError = InvalidPositionId | PositionNotFound | UnsupportedSymbol | MarketDataUnavailable | QueryFailed | InternalError

  /** What a successful close answers. */
  datatype Settlement = Settlement(realizedPnl: real, exitPrice: real, balance: Account)

  /** The balance-history kind of a realized result: a zero result counts as a profit. */
  function ResultKind(pnl: real): (c: ChangeType)
    ensures c == TradeProfit <==> pnl >= 0.0
    ensures c == TradeProfit || c == TradeLoss
  {
    if pnl >= 0.0 then TradeProfit else TradeLoss
  }

  /** POST: close position `positionId` of user `u`, with `price` the oracle's answer
      for the position's symbol. */
  method Close(db: Exchange, u: UserId, positionId: Num, price: Option<real>) returns (r: Result<Settlement, CloseError>)
    modifies db
    requires db.Valid()
    ensures db.Valid()
    ensures r.Failure? ==> unchanged(db)
    ensures positionId.NonFinite? ==> r == Failure(InvalidPositionId)
    ensures ParseRowId(positionId).RowId? ==>
      var id := ParseRowId(positionId).id;
      && (id >= |old(db.positions)| || !(old(db.positions)[id].Some? && old(db.positions)[id].value.user == u) ==>
            r == Failure(PositionNotFound))
      && (id < |old(db.positions)| && old(db.positions)[id].Some? && old(db.positions)[id].value.user == u ==>
            (r.Success? <==> old(db.positions)[id].value.symbol in SYMBOLS && Truthy(price) && u in old(db.accounts)))
    ensures r.Success? ==>
      && ParseRowId(positionId).RowId?
      && var id := ParseRowId(positionId).id;
      && var p := old(db.positions)[id].value;
      && var pnl := Pnl(p.side, p.entry, price.value, p.size);
      && var released := ReleaseUnclamped(old(db.accounts)[u], p.margin);
      && var acc := Realize(released, pnl);
      && var tid := |old(db.trades)|;
      && r.value == Settlement(pnl, price.value, acc)
      && db.accounts == old(db.accounts)[u := acc]
      && db.positions == old(db.positions)[id := None]
      && db.trades == old(db.trades) + [Trade(u, p.symbol, p.side, p.entry, price.value, p.size, p.margin, p.leverage, pnl, Closed)]
      && db.history == old(db.history) + [
           HistoryEntry(u, PositionClosed, p.margin, released.available, Some(tid)),
           HistoryEntry(u, ResultKind(pnl), pnl, acc.available, Some(tid))]
      && db.orders == old(db.orders)
  {
    var ref := ParseRowId(positionId);
    if ref == InvalidId {
      return Failure(InvalidPositionId);
    }
    if ref == QueryError {
      return Failure(QueryFailed);
    }
    if ref == NoSuchRow || ref.id >= |db.positions| || db.positions[ref.id].None? || db.positions[ref.id].value.user != u {
      return Failure(PositionNotFound);
    }
    var id := ref.id;
    var p := db.positions[id].value;
    if p.symbol !in SYMBOLS {
      return Failure(UnsupportedSymbol);
    }
    if !Truthy(price) {
      return Failure(MarketDataUnavailable);
    }
    var exit := price.value;
    var pnl := Pnl(p.side, p.entry, exit, p.size);
    if u !in db.accounts {
      // the user row is missing: reading its balances throws and the transaction rolls back
      return Failure(InternalError);
    }
    var released := ReleaseUnclamped(db.accounts[u], p.margin);
    var acc := Realize(released, pnl);
    var tid := |db.trades|;
    PositionRemoved(db.positions, id);
    RemovePositionKeepsTables(db.positions, db.orders, id);
    db.accounts := db.accounts[u := acc];
    db.trades := db.trades + [Trade(u, p.symbol, p.side, p.entry, exit, p.size, p.margin, p.leverage, pnl, Closed)];
    db.history := db.history + [
      HistoryEntry(u, PositionClosed, p.margin, released.available, Some(tid)),
      HistoryEntry(u, ResultKind(pnl), pnl, acc.available, Some(tid))];
    db.positions := db.positions[id := None];
    r := Success(Settlement(pnl, exit, acc));
  }

  /** A close settles exactly the result of the trade: the total moves by the P&L, the
      available balance by the margin plus the P&L, and the locked margin drops by
      the margin without going negative; a long books a profit exactly when it
      closes above its entry, a short exactly when it closes below. */
  lemma CloseSettlement(accounts: map<UserId, Account>, ps: seq<Option<Position>>, os: seq<Order>, u: UserId, id: nat, exit: real)
    requires Consistent(accounts, ps, os) && u in accounts
    requires id < |ps| && ps[id].Some? && ps[id].value.user == u
    requires ps[id].value.entry > 0.0 && ps[id].value.size > 0.0
    ensures var p := ps[id].value;
      var pnl := Pnl(p.side, p.entry, exit, p.size);
      var acc := Realize(ReleaseUnclamped(accounts[u], p.margin), pnl);
      && acc.total == accounts[u].total + pnl
      && acc.available == accounts[u].available + p.margin + pnl
      && 0.0 <= acc.locked == accounts[u].locked - p.margin
      && (ResultKind(pnl) == TradeProfit && exit != p.entry <==> (if p.side == Long then exit > p.entry else exit < p.entry))
  {
    var p := ps[id].value;
    ClampNeverFires(accounts, ps, os, u, id);
    PnlSign(p.entry, exit, p.size);
  }
}
