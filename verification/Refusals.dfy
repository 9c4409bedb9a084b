/** The interleaved engine and the services decide alike: what a transaction finds at each step, and what it answers, in
    terms of the rows it reads there. Where it is refused, the service of the same name raises on the same rows. */
module Refusals {
  import opened Schema
  import opened Serial
  import opened Engine
  import opened Serializable
  import opened RowByRow
  import opened Services

  // ----- checkouts -----

  /** A card checkout begins with its cart: an empty one is refused. */
  lemma CardStarts(s: State, t: nat, x: Txn, x': Txn)
    requires x.req.Checkout? && x.req.tender == ByCard && StartMoves(s, t, x, x')
    ensures x'.pc == Finished(Refused(EmptyCart)) <==>
              forall id :: id in s.db.carts ==> s.db.carts[id].user != x.req.user
    ensures x'.pc == Finished(Refused(EmptyCart)) || x'.pc.Locking?
  {
    ReadingFinds(s.db, x, x', x.req.user, 0);
  }

  lemma WalletStarts(s: State, t: nat, x: Txn, x': Txn)
    requires x.req.Checkout? && x.req.tender == ByWallet && StartMoves(s, t, x, x')
    ensures x'.pc == Finished(Refused(NotFound)) <==> x.req.user !in s.db.wallets
    ensures x.req.user in s.db.wallets ==>
              x'.pc == UserLocked(s.db.wallets[x.req.user]) && x'.held == x.held + {UserKey(x.req.user)}
  {}

  /** The cart is read as it is. */
  lemma ReadingFinds(db: Db, x: Txn, x': Txn, user: nat, balance: int)
    requires ReadsCart(db, x, x', user, balance)
    ensures x'.pc == Finished(Refused(EmptyCart)) <==> forall id :: id in db.carts ==> db.carts[id].user != user
    ensures || x'.pc == Finished(Refused(EmptyCart))
            || (x'.pc.Locking? && IsCart(db.carts, user, x'.pc.lines) && x'.pc.balance == balance)
  {
    var lines :| IsCart(db.carts, user, lines) &&
      x' == if lines == [] then Refuse(x, EmptyCart)
            else x.(pc := Locking(balance, lines, SortedPids(lines), map[]));
    EmptyListing(db.carts, user, lines);
  }

  /** With all its rows locked, a checkout is refused exactly when, and for the reason for which, the service would
      refuse these lines on the tables of this moment. */
  lemma CheckoutDecides(s: State, t: nat, x: Txn, x': Txn)
    requires Good(s.db, x) && x.pc.Locking? && x.pc.todo == [] && LockingMoves(s, t, x, x')
    ensures forall reason :: x'.pc == Finished(Refused(reason)) <==>
              Verdict(s.db, x.req.tender, x.req.user, x.pc.lines) == Some(reason)
    ensures x'.pc.Selling? <==> Verdict(s.db, x.req.tender, x.req.user, x.pc.lines).None?
  {
    var Locking(balance, lines, todo, rows) := x.pc;
    assert Pids(lines) - Elements(todo) == Pids(lines);
    RefusalOfCopies(s.db.products, lines);
    if Refusal(rows, lines).None? {
      SaleFromCopies(s.db, lines, 0);
    }
  }

  /** The final DELETE takes exactly the user's rows. */
  lemma EmptyingTakes(s: State, t: nat, x: Txn, x': Txn)
    requires x.req.Checkout? && x.pc.Billed? && EmptyingMoves(s, t, x, x')
    ensures x'.pc.Ready? && x'.pc.ev.Bought?
    ensures forall id :: id in x'.pc.ev.gone <==> id in s.db.carts && s.db.carts[id].user == x.req.user
  {}

  // ----- stock -----

  lemma ProductFound(s: State, t: nat, x: Txn, x': Txn)
    requires (x.req.Restock? || x.req.Edit?) && StartMoves(s, t, x, x')
    ensures x'.pc == Finished(Refused(NotFound)) <==> x.req.pid !in s.db.products
    ensures x.req.pid in s.db.products ==> x'.pc == ProductLocked(s.db.products[x.req.pid])
  {}

  /** An optimistic deduction reads without locking: nothing to deduct from is a conflict, too little stock an error. */
  lemma DeductionStarts(s: State, t: nat, x: Txn, x': Txn)
    requires x.req.Deduct? && StartMoves(s, t, x, x')
    ensures var pid, products := x.req.pid, s.db.products;
            && (x'.pc == Finished(Conflict) <==> pid !in products || !products[pid].active)
            && (x'.pc == Finished(Refused(OutOfStock(pid))) <==>
                  pid in products && products[pid].active && products[pid].stock < x.req.units)
            && (pid in products && products[pid].active && products[pid].stock >= x.req.units ==>
                  x'.pc == Snapped(products[pid]))
  {}

  /** The conditional UPDATE goes through exactly when the version is still the one read and the stock suffices. */
  lemma DeductionDecides(s: State, t: nat, x: Txn, x': Txn)
    requires x.req.Deduct? && x.pc.Snapped? && OptimisticMoves(s, t, x, x')
    ensures var pid, products := x.req.pid, s.db.products;
            var matches := pid in products
                           && products[pid].version == x.pc.seen.version && products[pid].stock >= x.req.units;
            && (matches <==> x'.pc == Ready(Deducted(pid, x.req.units)))
            && (!matches <==> x'.pc == Finished(Conflict))
  {}

  // ----- payments, cancellation, status -----

  /** process_payment locks the order first. */
  lemma PaymentStarts(s: State, t: nat, x: Txn, x': Txn)
    requires x.req.Pay? && StartMoves(s, t, x, x')
    ensures x'.pc == Finished(Refused(NotFound)) <==> x.req.oid !in s.db.orders
    ensures x.req.oid in s.db.orders ==> x'.pc == OrderLocked(s.db.orders[x.req.oid])
  {}

  lemma PaymentFindsRow(s: State, t: nat, x: Txn, x': Txn)
    requires x.req.Pay? && x.pc.OrderLocked? && LockedMoves(s, t, x, x')
    ensures x'.pc == Finished(Refused(NotFound)) <==>
              || (x.req.payer.Some? && !x.req.payer.value.staff && x.pc.order.user != x.req.payer.value.user)
              || x.req.oid !in s.db.payments
    ensures x'.pc == Finished(Refused(NotFound)) ||
              (x.req.oid in s.db.payments && x'.pc == PaymentLocked(x.pc.order, s.db.payments[x.req.oid]))
  {}

  lemma PaymentDecides(s: State, t: nat, x: Txn, x': Txn)
    requires x.req.Pay? && x.pc.PaymentLocked? && LockedMoves(s, t, x, x')
    ensures x'.pc == Finished(Refused(OrderCancelled)) <==> x.pc.order.status == Cancelled
    ensures x'.pc == Finished(Refused(AlreadyPaid)) <==>
              x.pc.order.status != Cancelled && x.pc.payment.status == Completed
    ensures x'.pc == Ready(Paid(x.req.oid, x.req.how)) <==>
              x.pc.order.status != Cancelled && x.pc.payment.status != Completed
  {}

  lemma CancellationStarts(s: State, t: nat, x: Txn, x': Txn)
    requires x.req.Cancel? && StartMoves(s, t, x, x')
    ensures x'.pc == Finished(Refused(NotFound)) <==>
              || x.req.oid !in s.db.orders
              || (x.req.owner.Some? && s.db.orders[x.req.oid].user != x.req.owner.value)
    ensures x'.pc == Finished(Refused(NotFound)) ||
              (x.req.oid in s.db.orders && x'.pc == OrderLocked(s.db.orders[x.req.oid]))
  {}

  lemma CancellationDecides(s: State, t: nat, x: Txn, x': Txn)
    requires x.req.Cancel? && x.pc.OrderLocked? && LockedMoves(s, t, x, x')
    ensures x'.pc == Ready(Cancelling(x.req.oid)) <==> x.pc.order.status == Pending || x.pc.order.status == Confirmed
    ensures x'.pc == Finished(Refused(NotCancellable)) <==>
              x.pc.order.status != Pending && x.pc.order.status != Confirmed
  {}

  lemma StatusStarts(s: State, t: nat, x: Txn, x': Txn)
    requires x.req.SetStatus? && StartMoves(s, t, x, x')
    ensures x'.pc == Finished(Refused(NotFound)) <==> x.req.oid !in s.db.orders
    ensures x.req.oid in s.db.orders ==> x'.pc == OrderLocked(s.db.orders[x.req.oid])
  {}

  // ----- carts -----

  /** An add is refused exactly for a product that is missing or inactive, or has too little stock, at its snapshot. */
  lemma AddStarts(s: State, t: nat, x: Txn, x': Txn)
    requires x.req.CartAdd? && StartMoves(s, t, x, x')
    ensures var pid, products := x.req.pid, s.db.products;
            && (x'.pc == Finished(Refused(NotFound)) <==> pid !in products || !products[pid].active)
            && (x'.pc == Finished(Refused(OutOfStock(pid))) <==>
                  pid in products && products[pid].active && products[pid].stock < x.req.extra)
            && (x'.pc == ItemWanted <==> pid in products && products[pid].active && products[pid].stock >= x.req.extra)
  {}

  lemma AddFinds(s: State, t: nat, x: Txn, x': Txn)
    requires x.req.CartAdd? && x.pc.ItemWanted? && OptimisticMoves(s, t, x, x')
    ensures x'.pc == RowAbsent <==>
              forall id :: id in s.db.carts ==> s.db.carts[id].user != x.req.user || s.db.carts[id].pid != x.req.pid
    ensures x'.pc == RowAbsent ||
              (&& x'.pc.RowRead? && x'.pc.id in s.db.carts && x'.pc.row == s.db.carts[x'.pc.id]
               && x'.pc.row.user == x.req.user && x'.pc.row.pid == x.req.pid)
  {}

  /** The conditional UPDATE of a cart row. */
  lemma BumpDecides(s: State, t: nat, x: Txn, x': Txn)
    requires x.req.CartAdd? && x.pc.RowRead? && OptimisticMoves(s, t, x, x')
    ensures var id, row, carts := x.pc.id, x.pc.row, s.db.carts;
            && (x'.pc == Finished(Conflict) <==> id !in carts || carts[id].version != row.version)
            && (x'.pc == Finished(Refused(BadRow)) <==>
                  id in carts && carts[id].version == row.version && row.qty + x.req.extra < 0)
            && (x'.pc.Ready? <==> id in carts && carts[id].version == row.version && row.qty + x.req.extra >= 0)
  {}

  /** The INSERT of a first row. */
  lemma InsertDecides(s: State, t: nat, x: Txn, x': Txn)
    requires x.req.CartAdd? && x.pc.RowAbsent? && OptimisticMoves(s, t, x, x')
    ensures x'.pc.Ready? <==>
              && x.req.extra >= 0
              && forall id :: id in s.db.carts ==> s.db.carts[id].user != x.req.user || s.db.carts[id].pid != x.req.pid
    ensures x'.pc.Ready? || x'.pc == Finished(Refused(BadRow))
  {}

  /** Setting a quantity and removing a row lock the row first, if there is one. */
  lemma RowStarts(s: State, t: nat, x: Txn, x': Txn)
    requires (x.req.CartSet? || x.req.CartRemove?) && StartMoves(s, t, x, x')
    ensures var carts := s.db.carts;
            var none := forall id :: id in carts ==> carts[id].user != x.req.user || carts[id].pid != x.req.pid;
            && (none <==> !x'.pc.RowLocked?)
            && (none && x.req.CartSet? && x.req.qty > 0 <==> x'.pc == Finished(Refused(NotFound)))
            && (none && (x.req.CartRemove? || x.req.qty <= 0) <==> x'.pc == Finished(NothingToDo))
    ensures x'.pc.RowLocked? ==>
              && x'.pc.id in s.db.carts && x'.pc.row == s.db.carts[x'.pc.id]
              && x'.pc.row.user == x.req.user && x'.pc.row.pid == x.req.pid
  {}

  /** Clearing takes exactly the user's rows, a cleanup exactly the listed rows that are still there. */
  lemma DeletionStarts(s: State, t: nat, x: Txn, x': Txn)
    requires (x.req.CartClear? || x.req.CartPurge?) && StartMoves(s, t, x, x')
    ensures x'.pc.Ready? && x'.pc.ev.RowsDeleted?
    ensures x.req.CartClear? ==>
              forall id :: id in x'.pc.ev.ids <==> id in s.db.carts && s.db.carts[id].user == x.req.user
    ensures x.req.CartPurge? ==> forall id :: id in x'.pc.ev.ids <==> id in s.db.carts && id in x.req.ids
  {}
}
