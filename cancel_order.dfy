/** The cancel route: an open order of the caller becomes canceled and the margin it
    reserved goes back to the available balance. */
module CancelOrder {
  import opened Common
  import opened Ledger
  import Orders

  datatype CancelError = InvalidOrderId | OrderNotFound | NotOpen | UserNotFound | QueryFailed

  /** POST: cancel order `orderId` of user `u`; answers the canceled row. */
  method Cancel(db: Exchange, u: UserId, orderId: Num) returns (r: Result<Order, CancelError>)
    modifies db
    requires db.Valid()
    ensures db.Valid()
    ensures r.Failure? ==> unchanged(db)
    ensures orderId.NonFinite? ==> r == Failure(InvalidOrderId)
    ensures ParseRowId(orderId).RowId? ==>
      var id := ParseRowId(orderId).id;
      && (id >= |old(db.orders)| || old(db.orders)[id].user != u ==> r == Failure(OrderNotFound))
      && (id < |old(db.orders)| && old(db.orders)[id].user == u && old(db.orders)[id].status != Open ==> r == Failure(NotOpen))
      && (id < |old(db.orders)| && old(db.orders)[id].user == u && old(db.orders)[id].status == Open ==>
            (r.Failure? <==> old(db.orders)[id].marginReserved > 0.0 && u !in old(db.accounts)))
    ensures r.Success? ==>
      && ParseRowId(orderId).RowId?
      && var id := ParseRowId(orderId).id;
      && var m := old(db.orders)[id].marginReserved;
      && old(db.orders)[id].status == Open
      && r.value == old(db.orders)[id].(status := Canceled)
      && db.orders == old(db.orders)[id := r.value]
      && db.positions == old(db.positions)
      && db.trades == old(db.trades)
      && db.history == old(db.history)
      && db.accounts == (if m > 0.0 then old(db.accounts)[u := Release(old(db.accounts)[u], m)] else old(db.accounts))
  {
    var ref := ParseRowId(orderId);
    if ref == InvalidId {
      return Failure(InvalidOrderId);
    }
    if ref == QueryError {
      return Failure(QueryFailed);
    }
    if ref == NoSuchRow || ref.id >= |db.orders| || db.orders[ref.id].user != u {
      return Failure(OrderNotFound);
    }
    var id := ref.id;
    var order := db.orders[id];
    if order.status != Open {
      return Failure(NotOpen);
    }
    var m := order.marginReserved;
    var canceled := order.(status := Canceled);
    OrderReplaced(db.orders, id, canceled);
    SetOrderKeepsTables(db.positions, db.orders, id, canceled);
    if m > 0.0 {
      if u !in db.accounts {
        return Failure(UserNotFound);
      }
      BalancedSound(db.accounts[u], db.positions, db.orders, u);
      db.accounts := db.accounts[u := Release(db.accounts[u], m)];
    }
    db.orders := db.orders[id := canceled];
    r := Success(canceled);
  }

  /** Reserving margin for `u` and then releasing it (as the cancel route does when
      the reservation is positive) gives back the accounts as they were. */
  lemma ReserveThenRelease(accounts: map<UserId, Account>, u: UserId, m: real)
    requires u in accounts && accounts[u].locked >= 0.0 && m >= 0.0
    ensures var mid := accounts[u := Reserve(accounts[u], m)];
      (if m > 0.0 then mid[u := Release(mid[u], m)] else mid) == accounts
  {
    ReleaseUndoesReserve(accounts[u], m);
    var mid := accounts[u := Reserve(accounts[u], m)];
    if m > 0.0 {
      assert mid[u := Release(mid[u], m)] == accounts[u := Release(Reserve(accounts[u], m), m)];
    } else {
      assert Reserve(accounts[u], m) == accounts[u];
    }
  }

  /** Placing a limit order and canceling it straight away gives every account back
      exactly the balances it had, and leaves the order on record as canceled. The new
      order's id must fit the `bigint` key the cancel route queries with. */
  method PlaceThenCancel(db: Exchange, u: UserId, req: Orders.OrderRequest, price: Option<real>)
    returns (placed: Result<Orders.Placement, Orders.OrderError>, canceled: Result<Order, CancelError>)
    modifies db
    requires db.Valid()
    requires req.orderType == "limit" && |db.orders| < KeyBound
    ensures db.Valid()
    ensures placed.Success? ==> canceled.Success? && canceled.value.status == Canceled
    ensures db.accounts == old(db.accounts)
    ensures db.positions == old(db.positions) && db.trades == old(db.trades) && db.history == old(db.history)
  {
    ghost var before := db.accounts;
    placed := Orders.Place(db, u, req, price);
    if placed.Failure? {
      canceled := Failure(OrderNotFound);
      return;
    }
    ghost var t := Orders.Admit(before, old(db.positions), u, req, price).value;
    assert t.kind == Limit;
    ghost var m := Orders.Margin(t);
    BalancedSound(before[u], old(db.positions), old(db.orders), u);
    ReserveThenRelease(before, u, m);
    var id := placed.value.orderId;
    assert db.orders[id] == Orders.RestingOrder(u, t);
    assert (id as real).Floor == id;
    canceled := Cancel(db, u, Finite(placed.value.orderId as real));
  }
}
