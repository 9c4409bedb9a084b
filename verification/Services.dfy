/** The services themselves, statement by statement, on tables they update in place. Each is proved against
    the serial reference: it either performs exactly its transaction or leaves every table as it was. */
module Services {
  import opened Schema
  import opened Serial
  import opened Evolution
  import opened Engine
  import opened Serializable
  import opened Interference
  import opened RowByRow

  datatype Result<T> = Ok(value: T) | Err(reason: Reason)

  datatype Attempt = Took | Lost | Short

  /** The last attempt ended the loop, or all of them were lost. */
  datatype RetryOutcome = Ended(last: Attempt) | Exhausted

  datatype CartAttempt = Kept(id: nat) | TryAgain | Raised(reason: Reason)

  const OPTIMISTIC_MAX_RETRIES := 5
  const CART_OPTIMISTIC_MAX_RETRIES := 5

  /** The validation loop gives the same verdict on copies of the lines' rows as on the table. */
  lemma {:induction false} RefusalLocal(products: map<nat, Product>, products': map<nat, Product>, lines: seq<Line>)
    requires forall i :: 0 <= i < |lines| ==>
               && (lines[i].pid in products <==> lines[i].pid in products')
               && (lines[i].pid in products ==> products'[lines[i].pid].stock == products[lines[i].pid].stock)
    ensures Refusal(products, lines) == Refusal(products', lines)
  {
    if lines != [] {
      var n := |lines| - 1;
      assert lines[n].pid in products <==> lines[n].pid in products';
      RefusalLocal(products, products', lines[..n]);
    }
  }

  lemma RefusalOfCopies(products: map<nat, Product>, lines: seq<Line>)
    ensures Refusal(Pick(products, Pids(lines)), lines) == Refusal(products, lines)
  {
    assert forall i :: 0 <= i < |lines| ==> lines[i].pid in Pids(lines);
    RefusalLocal(Pick(products, Pids(lines)), products, lines);
  }

  /** The verdict of a loop that stops after k lines is the verdict on all of them. */
  lemma {:induction false} RefusalPrefix(products: map<nat, Product>, lines: seq<Line>, k: nat)
    requires k <= |lines| && Refusal(products, lines[..k]).Some?
    ensures Refusal(products, lines) == Refusal(products, lines[..k])
    decreases |lines| - k
  {
    if k == |lines| {
      assert lines[..k] == lines;
    } else {
      assert lines[..k + 1][..k] == lines[..k];
      RefusalPrefix(products, lines, k + 1);
    }
  }

  lemma RemovedCount(carts: map<nat, CartRow>, gone: set<nat>)
    requires gone <= carts.Keys
    ensures |carts - gone| == |carts| - |gone|
  {
    assert (carts - gone).Keys == carts.Keys - gone;
  }

  /** How a checkout's cart lines are judged. */
  function Verdict(db: Db, tender: Tender, user: nat, lines: seq<Line>): Option<Reason> {
    if lines == [] then Some(EmptyCart)
    else if Refusal(db.products, lines).Some? then Refusal(db.products, lines)
    else if tender == ByWallet && user in db.wallets && db.wallets[user] < Total(db.products, lines)
    then Some(LowBalance)
    else None
  }

  /** The verdict lets a cart pass exactly when the serial purchase is accepted; otherwise it gives the first reason: an
      empty cart; the first line that cannot be served; and, by wallet only, a balance below the total. */
  lemma VerdictExactly(db: Db, tender: Tender, user: nat, lines: seq<Line>, oid: nat)
    requires CartsOk(db) && IsCart(db.carts, user, lines) && oid !in db.orders && oid !in db.payments
    requires tender == ByWallet ==> user in db.wallets
    ensures Verdict(db, tender, user, lines).None? <==>
              Accepts(db, Bought(tender, user, lines, oid, RowsOf(db.carts, user)))
    ensures Verdict(db, tender, user, lines) == Some(EmptyCart) <==>
              forall id :: id in db.carts ==> db.carts[id].user != user
    ensures var servable := forall i :: 0 <= i < |lines| ==>
                              lines[i].pid in db.products && db.products[lines[i].pid].stock >= lines[i].qty;
            && (Verdict(db, tender, user, lines).None? <==>
                  lines != [] && servable && (tender == ByWallet ==> db.wallets[user] >= Total(db.products, lines)))
            && (Verdict(db, tender, user, lines) == Some(LowBalance) <==>
                  lines != [] && servable && tender == ByWallet && db.wallets[user] < Total(db.products, lines))
  {
    CartIsDistinct(db, user, lines);
    EmptyListing(db.carts, user, lines);
    if Refusal(db.products, lines).Some? {
      var i := RefusalReason(db.products, lines);
    }
  }

  /** An empty listing is an empty cart. */
  lemma EmptyListing(carts: map<nat, CartRow>, user: nat, lines: seq<Line>)
    requires IsCart(carts, user, lines)
    ensures lines == [] <==> forall id :: id in carts ==> carts[id].user != user
  {
    if lines != [] {
      CartLines(carts, user, lines, lines[0].row);
    }
    forall id | id in carts && carts[id].user == user ensures lines != [] {
      CartLines(carts, user, lines, id);
    }
  }

  /** A line that cannot be served is the reason of a refusal, the first one that cannot. */
  lemma VerdictOfLines(db: Db, tender: Tender, user: nat, lines: seq<Line>) returns (i: int)
    requires lines != [] && !forall k :: 0 <= k < |lines| ==>
               lines[k].pid in db.products && db.products[lines[k].pid].stock >= lines[k].qty
    ensures 0 <= i < |lines|
    ensures forall k :: 0 <= k < i ==> lines[k].pid in db.products && db.products[lines[k].pid].stock >= lines[k].qty
    ensures Verdict(db, tender, user, lines)
            == if lines[i].pid in db.products then Some(OutOfStock(lines[i].pid)) else Some(Unavailable(lines[i].pid))
    ensures lines[i].pid in db.products ==> db.products[lines[i].pid].stock < lines[i].qty
  {
    i := RefusalReason(db.products, lines);
  }

  /** The pieces of a checkout put together are the purchase. */
  lemma SaleAssembled(before: Db, after: Db, tender: Tender, user: nat, lines: seq<Line>, oid: nat)
    requires CartsOk(before) && lines != [] && Distinct(lines) && Refusal(before.products, lines).None?
    requires oid !in before.orders && oid !in before.payments
    requires tender == ByWallet ==> user in before.wallets && before.wallets[user] >= Total(before.products, lines)
    requires var total := Total(before.products, lines);
             && after.products == Sell(before.products, lines)
             && after.wallets == (if tender == ByWallet then before.wallets[user := before.wallets[user] - total]
                                  else before.wallets)
             && after.carts == before.carts - RowsOf(before.carts, user) && after.owners == before.owners
             && after.orders == before.orders[oid := Order(user, Confirmed, total)]
             && after.items == before.items + ItemsOf(oid, before.products, lines)
             && after.payments == before.payments[oid := OpeningPayment(tender, total)]
             && after.log == before.log + SaleLog(lines)
    ensures var ev := Bought(tender, user, lines, oid, RowsOf(before.carts, user));
            Accepts(before, ev) && after == Perform(before, ev) && CartsOk(after)
  {
    EvolvesStep(before, Bought(tender, user, lines, oid, RowsOf(before.carts, user)));
  }

  class Store {
    var products: map<nat, Product>
    var wallets: map<nat, int>
    var carts: map<nat, CartRow>
    var owners: map<nat, nat>
    var orders: map<nat, Order>
    var items: seq<ItemRow>
    var payments: map<nat, Payment>
    var log: seq<LogEntry>

    function View(): Db
      reads this
    {
      Db(products, wallets, carts, owners, orders, items, payments, log)
    }

    ghost predicate Valid()
      reads this
    {
      CartsOk(View())
    }

    constructor (db: Db)
      requires CartsOk(db)
      ensures Valid() && View() == db
    {
      products, wallets, carts, owners := db.products, db.wallets, db.carts, db.owners;
      orders, items, payments, log := db.orders, db.items, db.payments, db.log;
    }

    /** Other transactions commit. */
    method Interleave(events: seq<Event>)
      requires Valid()
      modifies this
      ensures Valid() && View() == Absorb(old(View()), events)
    {
      EvolvesAbsorbing(View(), events);
      var db := Absorb(View(), events);
      products, wallets, carts, owners := db.products, db.wallets, db.carts, db.owners;
      orders, items, payments, log := db.orders, db.items, db.payments, db.log;
    }

    /** A transaction's writes are dropped: the tables are again as they were when it began. */
    method Rollback(db: Db)
      requires CartsOk(db)
      modifies this
      ensures Valid() && View() == db
    {
      products, wallets, carts, owners := db.products, db.wallets, db.carts, db.owners;
      orders, items, payments, log := db.orders, db.items, db.payments, db.log;
    }

    // ----- checkout -----

    /** The cart query: all rows of the user, in any order. */
    method ListCart(user: nat) returns (lines: seq<Line>)
      ensures IsCart(carts, user, lines)
    {
      lines := [];
      var rest := RowsOf(carts, user);
      while rest != {}
        invariant rest <= RowsOf(carts, user)
        invariant forall i :: 0 <= i < |lines| ==>
                    && lines[i].row in RowsOf(carts, user) && lines[i].row !in rest
                    && lines[i] == Line(lines[i].row, carts[lines[i].row].pid, carts[lines[i].row].qty)
        invariant forall i, j :: 0 <= i < j < |lines| ==> lines[i].row != lines[j].row
        invariant forall id :: id in RowsOf(carts, user) && id !in rest ==>
                    exists i :: 0 <= i < |lines| && lines[i].row == id
        decreases rest
      {
        var id :| id in rest;
        ghost var before := lines;
        lines := lines + [Line(id, carts[id].pid, carts[id].qty)];
        rest := rest - {id};
        assert lines[|before|].row == id;
        assert forall i :: 0 <= i < |before| ==> lines[i] == before[i];
      }
    }

    /** Lock the cart's products one by one in ascending id order; ids without a row are skipped. */
    method LockProducts(lines: seq<Line>) returns (locked: map<nat, Product>)
      ensures locked == Pick(products, Pids(lines))
    {
      locked := map[];
      var ids := SortedPids(lines);
      var i := 0;
      while i < |ids|
        invariant 0 <= i <= |ids|
        invariant forall p :: p in locked <==> p in products && exists k :: 0 <= k < i && ids[k] == p
        invariant forall p :: p in locked ==> locked[p] == products[p]
      {
        if ids[i] in products {
          locked := locked[ids[i] := products[ids[i]]];
        }
        i := i + 1;
      }
      assert forall p :: p in Pids(lines) <==> p in Elements(ids);
    }

    /** The validation loop over the cart lines: the first line that cannot be served. */
    method CheckLines(locked: map<nat, Product>, lines: seq<Line>) returns (r: Option<Reason>)
      ensures r == Refusal(locked, lines)
    {
      var i := 0;
      while i < |lines|
        invariant 0 <= i <= |lines| && Refusal(locked, lines[..i]).None?
      {
        var l := lines[i];
        assert lines[..i + 1][..i] == lines[..i];
        if l.pid !in locked {
          RefusalPrefix(locked, lines, i + 1);
          return Some(Unavailable(l.pid));
        }
        if locked[l.pid].stock < l.qty {
          RefusalPrefix(locked, lines, i + 1);
          return Some(OutOfStock(l.pid));
        }
        i := i + 1;
      }
      assert lines[..i] == lines;
      r := None;
    }

    /** Deduct from a locked product row and log it; the caller has the row locked. */
    method DeductStockPessimistic(pid: nat, qty: nat) returns (ok: bool)
      requires pid in products
      modifies `products, `log
      ensures ok == (old(products)[pid].stock >= qty)
      ensures products == if ok then old(products)[pid := Taken(old(products)[pid], qty)] else old(products)
      ensures log == if ok then old(log) + [LogEntry(pid, 0 - qty, Purchase)] else old(log)
    {
      if products[pid].stock < qty {
        return false;
      }
      var p := products[pid];
      products := products[pid := p.(stock := p.stock - qty, version := p.version + 1)];
      log := log + [LogEntry(pid, 0 - qty, Purchase)];
      return true;
    }

    /** The deduction loop: after a validated cart it never stops half-way. */
    method DeductLines(lines: seq<Line>)
      requires Distinct(lines) && Refusal(products, lines).None?
      modifies `products, `log
      ensures Stocked(old(products), lines)
      ensures products == Sell(old(products), lines)
      ensures log == old(log) + SaleLog(lines)
    {
      var i := 0;
      while i < |lines|
        invariant 0 <= i <= |lines| && Stocked(old(products), lines[..i])
        invariant products == Sell(old(products), lines[..i])
        invariant log == old(log) + SaleLog(lines[..i])
      {
        ValidatedNeverFails(old(products), lines, i);
        OneMore(old(products), lines, i, 0);
        var ok := DeductStockPessimistic(lines[i].pid, lines[i].qty);
        assert ok;
        i := i + 1;
      }
      assert lines[..i] == lines;
    }

    /** The order total from the locked prices. */
    method PriceLines(locked: map<nat, Product>, lines: seq<Line>) returns (total: int)
      requires Stocked(locked, lines)
      ensures total == Total(locked, lines)
    {
      total := 0;
      var i := 0;
      while i < |lines|
        invariant 0 <= i <= |lines| && total == Total(locked, lines[..i])
      {
        OneMore(locked, lines, i, 0);
        total := total + locked[lines[i].pid].price * lines[i].qty;
        i := i + 1;
      }
      assert lines[..i] == lines;
    }

    /** The bulk insert of order items at the locked prices. */
    method CreateItems(oid: nat, locked: map<nat, Product>, lines: seq<Line>)
      requires Stocked(locked, lines)
      modifies `items
      ensures items == old(items) + ItemsOf(oid, locked, lines)
    {
      var i := 0;
      while i < |lines|
        invariant 0 <= i <= |lines| && items == old(items) + ItemsOf(oid, locked, lines[..i])
      {
        OneMore(locked, lines, i, oid);
        items := items + [ItemRow(oid, lines[i].pid, lines[i].qty, locked[lines[i].pid].price)];
        i := i + 1;
      }
      assert lines[..i] == lines;
    }

    /** An id the order sequence has not handed out. */
    method NewOrderId() returns (oid: nat)
      ensures oid !in orders && oid !in payments
    {
      ghost var top := FreshNat(orders.Keys + payments.Keys);
      assert top !in orders && top !in payments;
      oid :| oid !in orders && oid !in payments;
    }

    /** Order, items and payment are created, then the user's cart is emptied. */
    method PlaceOrder(tender: Tender, user: nat, locked: map<nat, Product>, lines: seq<Line>, total: int)
      returns (oid: nat)
      requires Stocked(locked, lines)
      modifies `orders, `items, `payments, `carts
      ensures oid !in old(orders) && oid !in old(payments)
      ensures orders == old(orders)[oid := Order(user, Confirmed, total)]
      ensures payments == old(payments)[oid := OpeningPayment(tender, total)]
      ensures items == old(items) + ItemsOf(oid, locked, lines)
      ensures carts == old(carts) - RowsOf(old(carts), user)
    {
      oid := NewOrderId();
      orders := orders[oid := Order(user, Pending, total)];
      CreateItems(oid, locked, lines);
      orders := orders[oid := orders[oid].(status := Confirmed)];
      payments := payments[oid := OpeningPayment(tender, total)];
      carts := carts - RowsOf(carts, user);
    }

    /** Read the cart, lock its products and validate every line: how either checkout begins. */
    method ExamineCart(user: nat) returns (lines: seq<Line>, locked: map<nat, Product>, refusal: Option<Reason>)
      requires Valid()
      ensures IsCart(carts, user, lines) && Distinct(lines) && locked == Pick(products, Pids(lines))
      ensures refusal == if lines == [] then Some(EmptyCart) else Refusal(products, lines)
      ensures refusal == Some(EmptyCart) <==> lines == []
      ensures refusal != Some(LowBalance)
    {
      lines := ListCart(user);
      CartIsDistinct(View(), user, lines);
      locked := LockProducts(lines);
      if lines == [] {
        return lines, locked, Some(EmptyCart);
      }
      refusal := CheckLines(locked, lines);
      RefusalOfCopies(products, lines);
      if refusal.Some? {
        ghost var i := RefusalReason(products, lines);
      }
    }

    /** create_order_from_cart: refused with the tables untouched, or exactly one purchase of the listed cart. */
    method CreateOrderFromCart(user: nat) returns (r: Result<nat>, lines: seq<Line>)
      requires Valid()
      modifies this
      ensures Valid() && IsCart(old(carts), user, lines)
      ensures r.Err? <==> Verdict(old(View()), ByCard, user, lines).Some?
      ensures r.Err? ==> Some(r.reason) == Verdict(old(View()), ByCard, user, lines) && View() == old(View())
      ensures r.Ok? <==> lines != [] && forall i :: 0 <= i < |lines| ==>
                lines[i].pid in old(products) && old(products)[lines[i].pid].stock >= lines[i].qty
      ensures r == Err(EmptyCart) <==> lines == []
      ensures r.Ok? ==> var ev := Bought(ByCard, user, lines, r.value, RowsOf(old(carts), user));
                        Accepts(old(View()), ev) && View() == Perform(old(View()), ev)
    {
      var locked, refusal;
      lines, locked, refusal := ExamineCart(user);
      if refusal.Some? {
        return Err(refusal.value), lines;
      }
      var oid := SettleByCard(user, lines, locked);
      r := Ok(oid);
    }

    /** The writes of a card checkout whose lines have been validated: deduct, price, order. */
    method SettleByCard(user: nat, lines: seq<Line>, locked: map<nat, Product>) returns (oid: nat)
      requires Valid() && lines != [] && Distinct(lines) && Refusal(products, lines).None?
      requires locked == Pick(products, Pids(lines))
      modifies this
      ensures var ev := Bought(ByCard, user, lines, oid, RowsOf(old(carts), user));
              Valid() && Accepts(old(View()), ev) && View() == Perform(old(View()), ev)
    {
      SaleFromCopies(View(), lines, 0);
      DeductLines(lines);
      var total := PriceLines(locked, lines);
      oid := PlaceOrder(ByCard, user, locked, lines, total);
      SaleFromCopies(old(View()), lines, oid);
      SaleAssembled(old(View()), View(), ByCard, user, lines, oid);
    }

    /** The writes of a wallet checkout whose lines and balance have been validated: debit, deduct, order. */
    method SettleFromWallet(user: nat, lines: seq<Line>, locked: map<nat, Product>, total: int) returns (oid: nat)
      requires Valid() && lines != [] && Distinct(lines) && Refusal(products, lines).None?
      requires locked == Pick(products, Pids(lines)) && total == Total(products, lines)
      requires user in wallets && wallets[user] >= total
      modifies this
      ensures var ev := Bought(ByWallet, user, lines, oid, RowsOf(old(carts), user));
              Valid() && Accepts(old(View()), ev) && View() == Perform(old(View()), ev)
    {
      StockedPick(products, lines);
      wallets := wallets[user := wallets[user] - total];
      DeductLines(lines);
      oid := PlaceOrder(ByWallet, user, locked, lines, total);
      SaleFromCopies(old(View()), lines, oid);
      SaleAssembled(old(View()), View(), ByWallet, user, lines, oid);
    }

    /** checkout_with_wallet: as above, after locking the user and checking the balance. */
    method CheckoutWithWallet(user: nat) returns (r: Result<nat>, lines: seq<Line>)
      requires Valid()
      modifies this
      ensures Valid()
      ensures user !in old(wallets) ==> r == Err(NotFound)
      ensures user in old(wallets) ==>
                && IsCart(old(carts), user, lines)
                && (r.Err? <==> Verdict(old(View()), ByWallet, user, lines).Some?)
                && (r.Err? ==> Some(r.reason) == Verdict(old(View()), ByWallet, user, lines))
                && var servable := forall i :: 0 <= i < |lines| ==>
                                     lines[i].pid in old(products) && old(products)[lines[i].pid].stock >= lines[i].qty;
                   && (r == Err(EmptyCart) <==> lines == [])
                   && (r == Err(LowBalance) <==>
                         lines != [] && servable && old(wallets)[user] < Total(old(products), lines))
                   && (r.Ok? <==> lines != [] && servable && old(wallets)[user] >= Total(old(products), lines))
      ensures r.Err? ==> View() == old(View())
      ensures r.Ok? ==> var ev := Bought(ByWallet, user, lines, r.value, RowsOf(old(carts), user));
                        Accepts(old(View()), ev) && View() == Perform(old(View()), ev)
    {
      if user !in wallets {
        return Err(NotFound), [];
      }
      var locked, refusal;
      lines, locked, refusal := ExamineCart(user);
      if refusal.Some? {
        return Err(refusal.value), lines;
      }
      SaleFromCopies(View(), lines, 0);
      var total := PriceLines(locked, lines);
      if wallets[user] < total {
        return Err(LowBalance), lines;
      }
      var oid := SettleFromWallet(user, lines, locked, total);
      r := Ok(oid);
    }

    // ----- payments, cancellation, status, restock -----

    /** process_payment: the order must exist, be the payer's (unless staff pays) and have a payment; it must not be
        cancelled, nor its payment completed. */
    method ProcessPayment(oid: nat, how: PaymentMethod, payer: Option<Actor>) returns (r: Result<Payment>)
      requires Valid()
      modifies `orders, `payments
      ensures Valid()
      ensures var found := oid in old(orders) && oid in old(payments)
                           && (payer.Some? && !payer.value.staff ==> payer.value.user == old(orders)[oid].user);
              && (r == Err(NotFound) <==> !found)
              && (r == Err(OrderCancelled) <==> found && old(orders)[oid].status == Cancelled)
              && (r == Err(AlreadyPaid) <==>
                    found && old(orders)[oid].status != Cancelled && old(payments)[oid].status == Completed)
              && (r.Ok? <==> found && old(orders)[oid].status != Cancelled && old(payments)[oid].status != Completed)
      ensures r.Ok? ==>
                && r.value == Payment(old(payments)[oid].amount, Completed, how)
                && payments == old(payments)[oid := r.value]
                && orders == old(orders)[oid := Order(old(orders)[oid].user, Processing, old(orders)[oid].total)]
      ensures r.Ok? ==> Accepts(old(View()), Paid(oid, how)) && View() == Perform(old(View()), Paid(oid, how))
      ensures r.Err? ==> View() == old(View())
    {
      if oid !in orders {
        return Err(NotFound);
      }
      var order := orders[oid];
      if payer.Some? && !payer.value.staff && order.user != payer.value.user {
        return Err(NotFound);
      }
      if oid !in payments {
        return Err(NotFound);
      }
      if order.status == Cancelled {
        return Err(OrderCancelled);
      }
      if payments[oid].status == Completed {
        return Err(AlreadyPaid);
      }
      payments := payments[oid := payments[oid].(status := Completed, how := how)];
      orders := orders[oid := order.(status := Processing)];
      r := Ok(payments[oid]);
    }

    /** cancel_order: the order must exist, be the owner's if one is given, and be PENDING or CONFIRMED. */
    method CancelOrder(oid: nat, owner: Option<nat>) returns (r: Result<Order>)
      requires Valid()
      modifies `orders
      ensures Valid()
      ensures var found := oid in old(orders) && (owner.Some? ==> owner.value == old(orders)[oid].user);
              && (r == Err(NotFound) <==> !found)
              && (r.Ok? <==> found && (old(orders)[oid].status == Pending || old(orders)[oid].status == Confirmed))
              && (r == Err(NotCancellable) <==>
                    found && old(orders)[oid].status != Pending && old(orders)[oid].status != Confirmed)
      ensures r.Ok? ==>
                && r.value == Order(old(orders)[oid].user, Cancelled, old(orders)[oid].total)
                && orders == old(orders)[oid := r.value]
      ensures r.Ok? ==> Accepts(old(View()), Cancelling(oid)) && View() == Perform(old(View()), Cancelling(oid))
      ensures r.Err? ==> View() == old(View())
    {
      if oid !in orders || (owner.Some? && orders[oid].user != owner.value) {
        return Err(NotFound);
      }
      if orders[oid].status !in {Pending, Confirmed} {
        return Err(NotCancellable);
      }
      orders := orders[oid := orders[oid].(status := Cancelled)];
      r := Ok(orders[oid]);
    }

    method UpdateOrderStatus(oid: nat, status: OrderStatus) returns (r: Result<Order>)
      requires Valid()
      modifies `orders
      ensures Valid()
      ensures r.Ok? <==> oid in old(orders)
      ensures r.Err? ==> r == Err(NotFound) && View() == old(View())
      ensures r.Ok? ==>
                && r.value == Order(old(orders)[oid].user, status, old(orders)[oid].total)
                && orders == old(orders)[oid := r.value]
      ensures r.Ok? ==>
                && Accepts(old(View()), StatusSet(oid, status))
                && View() == Perform(old(View()), StatusSet(oid, status))
    {
      if oid !in orders {
        return Err(NotFound);
      }
      orders := orders[oid := orders[oid].(status := status)];
      r := Ok(orders[oid]);
    }

    /** restock_product: whatever the amount; the view lets only positive ones through. */
    method RestockProduct(pid: nat, amount: int) returns (r: Result<Product>)
      requires Valid()
      modifies `products, `log
      ensures Valid()
      ensures r.Ok? <==> pid in old(products)
      ensures r.Ok? ==> pid in products && r.value == products[pid]
      ensures r.Err? ==> r.reason == NotFound
      ensures r.Ok? ==>
                && log == old(log) + [LogEntry(pid, amount, Restocking)]
                && products == old(products)[pid := Product(old(products)[pid].stock + amount,
                                                            old(products)[pid].version + 1,
                                                            old(products)[pid].price, old(products)[pid].active)]
      ensures r.Ok? ==> View() == Supplied(old(View()), pid, amount)
      ensures r.Ok? && amount >= 1 ==>
                Accepts(old(View()), Restocked(pid, amount)) && View() == Perform(old(View()), Restocked(pid, amount))
      ensures r.Err? ==> View() == old(View())
    {
      if pid !in products {
        return Err(NotFound);
      }
      var p := products[pid];
      products := products[pid := p.(stock := p.stock + amount, version := p.version + 1)];
      log := log + [LogEntry(pid, amount, Restocking)];
      r := Ok(products[pid]);
    }

    // ----- optimistic deduction -----

    /** deduct_stock_optimistic, with whatever others commit between its snapshot and its UPDATE. */
    method DeductStockOptimistic(pid: nat, units: int, between: seq<Event>) returns (r: Attempt)
      requires Valid()
      modifies this
      ensures Valid()
      ensures var now, later := old(View()), Absorb(old(View()), between);
              && (r == Short <==> pid in now.products && now.products[pid].active && now.products[pid].stock < units)
              && (r == Took ==> Accepts(later, Deducted(pid, units)) && View() == Perform(later, Deducted(pid, units)))
              && (r != Took ==> View() == later)
              && (r == Lost <==>
                    || pid !in now.products || !now.products[pid].active
                    || (now.products[pid].stock >= units && pid in later.products
                        && later.products[pid].version != now.products[pid].version))
    {
      if pid !in products || !products[pid].active {
        Interleave(between);
        return Lost;
      }
      var product := products[pid];
      if product.stock < units {
        Interleave(between);
        return Short;
      }
      EvolvesAbsorbing(View(), between);
      Interleave(between);
      assert ProductGrows(product, products[pid]);
      if products[pid].version == product.version && products[pid].stock >= units {
        products := products[pid := products[pid].(stock := product.stock - units, version := product.version + 1)];
        log := log + [LogEntry(pid, 0 - units, Purchase)];
        return Took;
      }
      return Lost;
    }

    /** One attempt of the retry loop, with everything others commit since the previous one. */
    method AttemptDeduction(pid: nat, units: int, ghost before: Db, env: Schedule, i: nat) returns (r: Attempt)
      requires Valid() && View() == AfterAttempts(before, env, i)
      modifies this
      ensures Valid() && AttemptEnds(before, env, i, pid, units, r, View())
    {
      Interleave(env(i).before);
      Interleave(env(i).amid);
      EvolvesAbsorbing(View(), env(i).between);
      ghost var now := View();
      assert now == AtRead(before, env, i);
      r := DeductStockOptimistic(pid, units, env(i).between);
      if r == Lost && pid in now.products {
        assert ProductGrows(now.products[pid], products[pid]);
      }
    }

    /** deduct_stock_with_retry under an arbitrary schedule of others: success is exactly one deduction by this call,
        on the tables as they are at that moment; an exception is none at all; and every attempt lost on an active
        product was lost to another writer of that row. */
    method DeductStockWithRetry(pid: nat, units: int, env: Schedule, maxRetries: nat := OPTIMISTIC_MAX_RETRIES)
      returns (r: RetryOutcome, attempts: nat)
      requires Valid()
      modifies this
      ensures Valid() && attempts <= maxRetries
      ensures RetryEnds(old(View()), env, pid, units, maxRetries, r, attempts, View())
    {
      ghost var before := View();
      attempts := 0;
      while attempts < maxRetries
        invariant attempts <= maxRetries && Valid()
        invariant View() == AfterAttempts(before, env, attempts) && AllLost(before, env, attempts, pid)
      {
        var result := AttemptDeduction(pid, units, before, env, attempts);
        attempts := attempts + 1;
        if result != Lost {
          return Ended(result), attempts;
        }
      }
      return Exhausted, attempts;
    }

    // ----- cart -----

    /** The row of (user, product), if there is one. */
    method FindRow(user: nat, pid: nat) returns (id: Option<nat>)
      ensures id.Some? <==> HasRow(carts, user, pid)
      ensures id.Some? ==> RowAt(carts, id.value, user, pid)
    {
      if HasRow(carts, user, pid) {
        var k :| k in carts && carts[k].user == user && carts[k].pid == pid;
        return Some(k);
      }
      return None;
    }

    method NewRowId() returns (id: nat)
      ensures id !in owners
    {
      ghost var top := FreshNat(owners.Keys);
      assert top !in owners;
      id :| id !in owners;
    }

    /** _try_add_to_cart_optimistic, with others' commits between its statements. */
    method TryAddToCartOptimistic(user: nat, pid: nat, extra: int, at: nat, amid: seq<Event>, between: seq<Event>)
      returns (r: CartAttempt)
      requires Valid()
      modifies this
      ensures Valid()
      ensures var later := Absorb(Absorb(old(View()), amid), between);
              && (r.Kept? ==> AddedOnce(later, View(), user, pid, extra, at, r.id))
              && (!r.Kept? ==> View() == later)
              && (r == Raised(NotFound) <==> pid !in old(products) || !old(products)[pid].active)
              && (r == Raised(OutOfStock(pid)) <==>
                    pid in old(products) && old(products)[pid].active && old(products)[pid].stock < extra)
              && (r.Raised? <==> !Addable(old(View()), pid, extra))
              && (r.TryAgain? <==>
                    && Addable(old(View()), pid, extra)
                    && Spoiled(Absorb(old(View()), amid), later, user, pid, extra))
    {
      if pid !in products || !products[pid].active {
        Interleave(amid);
        Interleave(between);
        return Raised(NotFound);
      }
      if products[pid].stock < extra {
        Interleave(amid);
        Interleave(between);
        return Raised(OutOfStock(pid));
      }
      Interleave(amid);
      var found := FindRow(user, pid);
      if found.Some? {
        r := UpdateRow(user, pid, extra, at, found.value, between);
      } else {
        r := InsertRow(user, pid, extra, at, between);
      }
    }

    /** The conditional UPDATE of the quantity read before. */
    method UpdateRow(user: nat, pid: nat, extra: int, at: nat, id: nat, between: seq<Event>) returns (r: CartAttempt)
      requires Valid() && RowAt(carts, id, user, pid)
      modifies this
      ensures Valid() && !r.Raised?
      ensures r.TryAgain? <==> Spoiled(old(View()), Absorb(old(View()), between), user, pid, extra)
      ensures var later := Absorb(old(View()), between);
              && (r.Kept? ==> AddedOnce(later, View(), user, pid, extra, at, r.id))
              && (!r.Kept? ==> View() == later)
    {
      var item := carts[id];
      ghost var seen := View();
      EvolvesAbsorbing(View(), between);
      Interleave(between);
      assert id in carts ==> RowGrows(item, carts[id]);
      assert RowAt(seen.carts, id, user, pid);
      if id !in carts || carts[id].version != item.version || item.qty + extra < 0 {
        return TryAgain;
      }
      ghost var later := View();
      carts := carts[id := carts[id].(qty := item.qty + extra, version := item.version + 1)];
      assert View() == Perform(later, RowBumped(id, extra, at));
      EvolvesStep(later, RowBumped(id, extra, at));
      r := Kept(id);
    }

    /** The INSERT after no row was found; the unique constraint may reject it. */
    method InsertRow(user: nat, pid: nat, extra: int, at: nat, between: seq<Event>) returns (r: CartAttempt)
      requires Valid() && !HasRow(carts, user, pid)
      modifies this
      ensures Valid() && !r.Raised?
      ensures r.TryAgain? <==> Spoiled(old(View()), Absorb(old(View()), between), user, pid, extra)
      ensures var later := Absorb(old(View()), between);
              && (r.Kept? ==> AddedOnce(later, View(), user, pid, extra, at, r.id))
              && (!r.Kept? ==> View() == later)
    {
      Interleave(between);
      var taken := FindRow(user, pid);
      if taken.Some? || extra < 0 {
        return TryAgain;
      }
      ghost var later := View();
      var id := NewRowId();
      var row := CartRow(user, pid, extra, 0, at);
      carts := carts[id := row];
      owners := owners[id := user];
      EvolvesStep(later, RowAdded(id, row));
      r := Kept(id);
    }

    /** One attempt of the add loop, with everything others commit since the previous one. */
    method AttemptAdd(user: nat, pid: nat, extra: int, at: nat, ghost before: Db, env: Schedule, i: nat)
      returns (r: CartAttempt)
      requires Valid() && StillAt(before, env, i, View())
      modifies this
      ensures Valid() && AddedBy(before, env, i + 1, user, pid, extra, at, r, View())
      ensures RaisedFor(before, env, i + 1, pid, r)
    {
      Interleave(env(i).before);
      assert View() == AtStart(before, env, i);
      r := TryAddToCartOptimistic(user, pid, extra, at, env(i).amid, env(i).between);
    }

    /** add_to_cart under an arbitrary schedule of others: a normal return is exactly one increment or insert of the
        requested quantity, applied to the row as it is at that moment; any exception is no effect, and comes either
        from a product that cannot be added or after the last attempt. */
    method AddToCart(user: nat, pid: nat, extra: int, at: nat, env: Schedule) returns (r: CartAttempt, attempts: nat)
      requires Valid()
      modifies this
      ensures Valid() && 1 <= attempts <= 5
      ensures AddedBy(old(View()), env, attempts, user, pid, extra, at, r, View())
      ensures RaisedFor(old(View()), env, attempts, pid, r)
      ensures r.TryAgain? ==> attempts == CART_OPTIMISTIC_MAX_RETRIES
    {
      ghost var before := View();
      attempts := 0;
      while attempts < CART_OPTIMISTIC_MAX_RETRIES - 1
        invariant attempts < CART_OPTIMISTIC_MAX_RETRIES && Valid() && StillAt(before, env, attempts, View())
      {
        r := AttemptAdd(user, pid, extra, at, before, env, attempts);
        attempts := attempts + 1;
        if !r.TryAgain? {
          return;
        }
      }
      // the last attempt: if it fails too, its failure is the one reported
      r := AttemptAdd(user, pid, extra, at, before, env, attempts);
      attempts := attempts + 1;
    }

    method RemoveFromCart(user: nat, pid: nat) returns (removed: bool)
      requires Valid()
      modifies `carts
      ensures Valid() && removed == HasRow(old(carts), user, pid) && !HasRow(carts, user, pid)
      ensures removed <==> exists id :: id in old(carts) && old(carts)[id].user == user && old(carts)[id].pid == pid
      ensures forall id :: id in carts <==>
                id in old(carts) && (old(carts)[id].user != user || old(carts)[id].pid != pid)
      ensures forall id :: id in carts ==> carts[id] == old(carts)[id]
      ensures exists ids :: ids <= old(carts).Keys && View() == Perform(old(View()), RowsDeleted(ids))
                && forall id :: id in ids <==> RowAt(old(carts), id, user, pid)
    {
      var found := FindRow(user, pid);
      ghost var ids := if found.Some? then {found.value} else {};
      if found.Some? {
        carts := carts - {found.value};
      }
      removed := found.Some?;
      assert carts == old(carts) - ids;
      assert View() == Perform(old(View()), RowsDeleted(ids));
    }

    method ClearCart(user: nat) returns (deleted: nat)
      requires Valid()
      modifies `carts
      ensures Valid() && deleted == |RowsOf(old(carts), user)| && RowsOf(carts, user) == {}
      ensures deleted == |old(carts)| - |carts|
      ensures forall id :: id in carts <==> id in old(carts) && old(carts)[id].user != user
      ensures forall id :: id in carts ==> carts[id] == old(carts)[id]
      ensures View() == Perform(old(View()), RowsDeleted(RowsOf(old(carts), user)))
    {
      var gone := RowsOf(carts, user);
      RemovedCount(carts, gone);
      carts := carts - gone;
      deleted := |gone|;
    }

    /** Set the quantity; zero or less removes the row. */
    method UpdateCartItemQuantity(user: nat, pid: nat, qty: int, at: nat) returns (r: Result<Option<nat>>)
      requires Valid()
      modifies `carts
      ensures Valid()
      ensures r.Err? <==>
                qty > 0 && forall id :: id in old(carts) ==> old(carts)[id].user != user || old(carts)[id].pid != pid
      ensures r.Err? ==> r.reason == NotFound && View() == old(View())
      ensures r.Ok? ==> (r.value.Some? <==> qty > 0)
      ensures qty > 0 && r.Ok? ==>
                && r.value.value in old(carts)
                && old(carts)[r.value.value].user == user && old(carts)[r.value.value].pid == pid
                && carts == old(carts)[r.value.value := CartRow(user, pid, qty,
                                                                 old(carts)[r.value.value].version + 1, at)]
                && View() == Perform(old(View()), RowSet(r.value.value, qty, at))
      ensures qty <= 0 ==>
                && (forall id :: id in carts <==>
                      id in old(carts) && (old(carts)[id].user != user || old(carts)[id].pid != pid))
                && forall id :: id in carts ==> carts[id] == old(carts)[id]
    {
      if qty <= 0 {
        var _ := RemoveFromCart(user, pid);
        return Ok(None);
      }
      var found := FindRow(user, pid);
      if found.None? {
        return Err(NotFound);
      }
      var id := found.value;
      carts := carts[id := carts[id].(qty := qty, version := carts[id].version + 1, touched := at)];
      r := Ok(Some(id));
    }
  }

  /** Attempt i found the product missing or inactive, or between its snapshot and its UPDATE another transaction
      committed a stock write on that row. */
  ghost predicate LostTo(before: Db, env: Schedule, i: nat, pid: nat) {
    var now := AtRead(before, env, i);
    && (pid in now.products && now.products[pid].active ==>
        pid in AfterAttempts(before, env, i + 1).products
        && AfterAttempts(before, env, i + 1).products[pid].version > now.products[pid].version)
  }

  ghost predicate AllLost(before: Db, env: Schedule, n: nat, pid: nat) {
    forall i :: 0 <= i < n ==> LostTo(before, env, i, pid)
  }

  /** How attempt i of a deduction left the tables: with exactly its deduction on top of what others committed, or
      with nothing of its own. */
  ghost predicate AttemptEnds(before: Db, env: Schedule, i: nat, pid: nat, units: int, r: Attempt, now: Db) {
    var read, later := AtRead(before, env, i), AfterAttempts(before, env, i + 1);
    match r
    case Took => Accepts(later, Deducted(pid, units)) && now == Perform(later, Deducted(pid, units))
    case Short => now == later && pid in read.products && read.products[pid].active && read.products[pid].stock < units
    case Lost => now == later && LostTo(before, env, i, pid)
  }

  /** How a whole call of the retry loop ends: by its last attempt, all earlier ones lost, or with all of them lost. */
  ghost predicate RetryEnds(before: Db, env: Schedule, pid: nat, units: int, maxRetries: nat, r: RetryOutcome,
                            attempts: nat, now: Db)
  {
    match r
    case Ended(last) =>
      && last != Lost && attempts >= 1 && AllLost(before, env, attempts - 1, pid)
      && AttemptEnds(before, env, attempts - 1, pid, units, last, now)
    case Exhausted =>
      attempts == maxRetries && AllLost(before, env, attempts, pid) && now == AfterAttempts(before, env, attempts)
  }

  /** After n attempts only others' commits have had an effect. */
  ghost predicate StillAt(before: Db, env: Schedule, n: nat, now: Db) {
    now == AfterAttempts(before, env, n)
  }

  /** How attempt i of an add left the tables, and when it raised. */
  ghost predicate AddEnds(before: Db, env: Schedule, i: nat, user: nat, pid: nat, extra: int, at: nat,
                          r: CartAttempt, now: Db)
  {
    var later := AfterAttempts(before, env, i + 1);
    && (if r.Kept? then AddedOnce(later, now, user, pid, extra, at, r.id) else now == later)
    && (r.Raised? <==> !Addable(AtStart(before, env, i), pid, extra))
    && (r.TryAgain? <==>
          && Addable(AtStart(before, env, i), pid, extra)
          && Spoiled(AtRead(before, env, i), later, user, pid, extra))
  }

  /** So far: what the last of n attempts did, the earlier ones having done nothing. */
  ghost predicate AddedBy(before: Db, env: Schedule, n: nat, user: nat, pid: nat, extra: int, at: nat,
                          r: CartAttempt, now: Db)
  {
    && CartsOk(now) && n >= 1 && AddEnds(before, env, n - 1, user, pid, extra, at, r, now)
    && (r.TryAgain? ==> StillAt(before, env, n, now))
  }

  /** Between the two states the user's row for the product grew by `extra`, or was inserted with it, once. */
  ghost predicate AddedOnce(db: Db, db': Db, user: nat, pid: nat, extra: int, at: nat, id: nat) {
    || (RowAt(db.carts, id, user, pid) && Did(db, db', RowBumped(id, extra, at)))
    || (extra >= 0 && Did(db, db', RowAdded(id, CartRow(user, pid, extra, 0, at))))
  }

  ghost predicate Did(db: Db, db': Db, ev: Event) {
    Accepts(db, ev) && db' == Perform(db, ev)
  }

  /** The attempt's write cannot go through: the row it read has changed or gone, a row appeared where it saw none,
      or the new quantity would be negative. */
  ghost predicate Spoiled(seen: Db, later: Db, user: nat, pid: nat, extra: int) {
    if HasRow(seen.carts, user, pid)
    then exists id :: RowAt(seen.carts, id, user, pid)
           && (|| id !in later.carts || later.carts[id].version != seen.carts[id].version
               || seen.carts[id].qty + extra < 0)
    else HasRow(later.carts, user, pid) || extra < 0
  }

  /** If the n-th attempt raised, it was for the product as it was at its snapshot. */
  ghost predicate RaisedFor(before: Db, env: Schedule, n: nat, pid: nat, r: CartAttempt) {
    r.Raised? ==> n >= 1 && r.reason == AddRefusal(AtStart(before, env, n - 1), pid)
  }

  /** Why an add is refused. */
  function AddRefusal(db: Db, pid: nat): Reason {
    if pid in db.products && db.products[pid].active then OutOfStock(pid) else NotFound
  }

  predicate Addable(db: Db, pid: nat, extra: int) {
    pid in db.products && db.products[pid].active && db.products[pid].stock >= extra
  }

  /** A normal return leaves exactly one row changed, by the requested quantity and at the quantity it has by then, or
      inserted. */
  lemma AddedRow(later: Db, now: Db, user: nat, pid: nat, extra: int, at: nat, id: nat)
    requires CartsOk(later) && AddedOnce(later, now, user, pid, extra, at, id)
    ensures if id in later.carts
            then
              && later.carts[id].user == user && later.carts[id].pid == pid && later.carts[id].qty + extra >= 0
              && now == later.(carts := later.carts[id := CartRow(user, pid, later.carts[id].qty + extra,
                                                                   later.carts[id].version + 1,
                                                                   later.carts[id].touched)])
            else
              && extra >= 0 && id !in later.owners
              && (forall k :: k in later.carts ==> later.carts[k].user != user || later.carts[k].pid != pid)
              && now == later.(carts := later.carts[id := CartRow(user, pid, extra, 0, at)],
                               owners := later.owners[id := user])
  {}

  /** An attempt has to try again exactly when the row it found was changed or deleted, or a row appeared where it found
      none, or the quantity would be negative. */
  lemma SpoiledExactly(seen: Db, later: Db, user: nat, pid: nat, extra: int)
    requires CartsOk(seen)
    ensures forall id :: id in seen.carts && seen.carts[id].user == user && seen.carts[id].pid == pid ==>
              (Spoiled(seen, later, user, pid, extra) <==>
                 || id !in later.carts || later.carts[id].version != seen.carts[id].version
                 || seen.carts[id].qty + extra < 0)
    ensures (forall id :: id in seen.carts ==> seen.carts[id].user != user || seen.carts[id].pid != pid) ==>
              (Spoiled(seen, later, user, pid, extra) <==>
                 || extra < 0
                 || exists id :: id in later.carts && later.carts[id].user == user && later.carts[id].pid == pid)
  {
    forall id | id in seen.carts && seen.carts[id].user == user && seen.carts[id].pid == pid
      ensures Spoiled(seen, later, user, pid, extra) <==>
                || id !in later.carts || later.carts[id].version != seen.carts[id].version
                || seen.carts[id].qty + extra < 0
    {
      assert HasRow(seen.carts, user, pid) && RowAt(seen.carts, id, user, pid);
    }
  }

  /** An attempt raises exactly for a product that is missing or inactive, or has too little stock, at its snapshot. */
  lemma AddableExactly(start: Db, pid: nat, extra: int)
    ensures !Addable(start, pid, extra) && AddRefusal(start, pid) == NotFound <==>
              pid !in start.products || !start.products[pid].active
    ensures !Addable(start, pid, extra) && AddRefusal(start, pid) == OutOfStock(pid) <==>
              pid in start.products && start.products[pid].active && start.products[pid].stock < extra
    ensures AddRefusal(start, pid) == NotFound || AddRefusal(start, pid) == OutOfStock(pid)
  {}

  /** What an add has done, on the rows, when its n-th attempt was the last: an exception is no effect, comes for the
      product as it was when that attempt began, or after a write that could not go through. */
  lemma AddMeans(before: Db, env: Schedule, n: nat, user: nat, pid: nat, extra: int, at: nat, r: CartAttempt, now: Db)
    requires n >= 1 && AddedBy(before, env, n, user, pid, extra, at, r, now) && RaisedFor(before, env, n, pid, r)
    ensures var start := AtStart(before, env, n - 1);
            && (r == Raised(NotFound) <==> pid !in start.products || !start.products[pid].active)
            && (r == Raised(OutOfStock(pid)) <==>
                  pid in start.products && start.products[pid].active && start.products[pid].stock < extra)
            && (r.Raised? ==> r == Raised(NotFound) || r == Raised(OutOfStock(pid)))
    ensures !r.Kept? ==> now == AfterAttempts(before, env, n)
    ensures r.Kept? ==> AddedOnce(AfterAttempts(before, env, n), now, user, pid, extra, at, r.id)
    ensures !r.Raised? ==>
              (r.TryAgain? <==> Spoiled(AtRead(before, env, n - 1), AfterAttempts(before, env, n), user, pid, extra))
  {
    AddableExactly(AtStart(before, env, n - 1), pid, extra);
  }

  /** What a retried deduction has done, on the rows, when its n-th attempt was the last: exactly one deduction from the
      row as it is then, or nothing; an exception for short stock means that the snapshot of the last attempt was
      short; and every attempt before it found the product missing or inactive, or its version moved. */
  lemma DeductionMeans(before: Db, env: Schedule, pid: nat, units: int, maxRetries: nat, r: RetryOutcome,
                       n: nat, now: Db)
    requires RetryEnds(before, env, pid, units, maxRetries, r, n, now)
    ensures r == Ended(Took) || r == Ended(Short) || r == Exhausted
    ensures r == Ended(Took) ==>
              && pid in AfterAttempts(before, env, n).products
              && AfterAttempts(before, env, n).products[pid].stock >= units
              && now == Perform(AfterAttempts(before, env, n), Deducted(pid, units))
    ensures r != Ended(Took) ==> now == AfterAttempts(before, env, n)
    ensures r == Ended(Short) ==>
              && n >= 1 && pid in AtRead(before, env, n - 1).products && AtRead(before, env, n - 1).products[pid].active
              && AtRead(before, env, n - 1).products[pid].stock < units
    ensures r == Exhausted ==> n == maxRetries
    ensures forall i :: 0 <= i < (if r == Exhausted then n else n - 1) ==> LostTo(before, env, i, pid)
  {}

  /** What it means that an attempt was lost. */
  lemma LostMeans(before: Db, env: Schedule, i: nat, pid: nat)
    requires LostTo(before, env, i, pid)
    ensures pid in AtRead(before, env, i).products && AtRead(before, env, i).products[pid].active ==>
              && pid in AfterAttempts(before, env, i + 1).products
              && AfterAttempts(before, env, i + 1).products[pid].version > AtRead(before, env, i).products[pid].version
  {}

  /** Every attempt lost on an active product means progress elsewhere: another transaction committed a stock write
      on that very row between this attempt's snapshot and its UPDATE. */
  lemma LostToAWriter(before: Db, env: Schedule, i: nat, pid: nat)
    requires CartsOk(before) && LostTo(before, env, i, pid)
    requires pid in AtRead(before, env, i).products && AtRead(before, env, i).products[pid].active
    ensures exists j :: 0 <= j < |env(i).between|
              && Accepts(Absorb(AtRead(before, env, i), env(i).between[..j]), env(i).between[j])
              && WritesStock(env(i).between[j], pid)
  {
    AttemptsKeepCarts(before, env, i);
    var d := AfterAttempts(before, env, i);
    EvolvesAbsorbing(d, env(i).before);
    EvolvesAbsorbing(Absorb(d, env(i).before), env(i).amid);
    ConflictMeansProgress(AtRead(before, env, i), env(i).between, pid);
  }
}
