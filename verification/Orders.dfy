/** Orders, their items and their payments over every history. */
module Orders {
  import opened Schema
  import opened Serial

  /** The sum of unit price times quantity over one order's items. */
  function Subtotal(items: seq<ItemRow>, oid: nat): int {
    if items == [] then 0 else
      var e := items[|items| - 1];
      Subtotal(items[..|items| - 1], oid) + if e.oid == oid then e.unitPrice * e.qty else 0
  }

  /** Every order has items and exactly one payment, and total, items and payment agree on the amount;
      there are no items or payments of orders that do not exist. */
  ghost predicate Integrity(db: Db) {
    && db.payments.Keys == db.orders.Keys
    && (forall oid :: oid in db.orders ==>
          && db.orders[oid].total == Subtotal(db.items, oid) == db.payments[oid].amount
          && exists i :: 0 <= i < |db.items| && db.items[i].oid == oid)
    && (forall i :: 0 <= i < |db.items| ==> db.items[i].oid in db.orders)
  }

  /** The sum, one item further. */
  lemma OneItemFurther(items: seq<ItemRow>, e: ItemRow, oid: nat)
    ensures Subtotal([], oid) == 0
    ensures Subtotal(items + [e], oid) == Subtotal(items, oid) + if e.oid == oid then e.unitPrice * e.qty else 0
  {
    assert (items + [e])[..|items|] == items;
  }

  lemma {:induction false} SubtotalAppend(a: seq<ItemRow>, b: seq<ItemRow>, oid: nat)
    ensures Subtotal(a + b, oid) == Subtotal(a, oid) + Subtotal(b, oid)
  {
    if b == [] {
      assert a + b == a;
    } else {
      assert (a + b)[..|a + b| - 1] == a + b[..|b| - 1];
      SubtotalAppend(a, b[..|b| - 1], oid);
    }
  }

  /** The items created for an order all carry its id and add up to its total. */
  lemma {:induction false} NewItems(oid: nat, products: map<nat, Product>, lines: seq<Line>, other: nat)
    requires Stocked(products, lines) && other != oid
    ensures forall i :: 0 <= i < |lines| ==> ItemsOf(oid, products, lines)[i].oid == oid
    ensures Subtotal(ItemsOf(oid, products, lines), oid) == Total(products, lines)
    ensures Subtotal(ItemsOf(oid, products, lines), other) == 0
  {
    if lines != [] {
      NewItems(oid, products, lines[..|lines| - 1], other);
    }
  }

  /** An order without items has subtotal zero. */
  lemma {:induction false} NoItems(items: seq<ItemRow>, oid: nat)
    requires forall i :: 0 <= i < |items| ==> items[i].oid != oid
    ensures Subtotal(items, oid) == 0
  {
    if items != [] {
      NoItems(items[..|items| - 1], oid);
    }
  }

  lemma PurchasedOrder(db: Db, items: seq<ItemRow>, added: seq<ItemRow>, oid: nat, total: int)
    requires items == db.items + added && added != []
    requires forall i :: 0 <= i < |db.items| ==> db.items[i].oid != oid
    requires Subtotal(added, oid) == total && forall i :: 0 <= i < |added| ==> added[i].oid == oid
    ensures Subtotal(items, oid) == total && exists i :: 0 <= i < |items| && items[i].oid == oid
  {
    SubtotalAppend(db.items, added, oid);
    NoItems(db.items, oid);
    assert items[|db.items|] == added[0];
  }

  lemma OlderOrder(db: Db, items: seq<ItemRow>, added: seq<ItemRow>, oid: nat)
    requires items == db.items + added && Subtotal(added, oid) == 0
    requires exists i :: 0 <= i < |db.items| && db.items[i].oid == oid
    ensures Subtotal(items, oid) == Subtotal(db.items, oid) && exists i :: 0 <= i < |items| && items[i].oid == oid
  {
    SubtotalAppend(db.items, added, oid);
    var i :| 0 <= i < |db.items| && db.items[i].oid == oid;
    assert items[i] == db.items[i];
  }

  /** The new order gets items worth its total; the others keep theirs. */
  lemma PurchaseBillsOrders(db: Db, ev: Event, oid: nat)
    requires Integrity(db) && Accepts(db, ev) && ev.Bought? && oid in Perform(db, ev).orders
    ensures var db' := Perform(db, ev);
            && db'.orders[oid].total == Subtotal(db'.items, oid)
            && exists i :: 0 <= i < |db'.items| && db'.items[i].oid == oid
  {
    var db', added := Perform(db, ev), ItemsOf(ev.oid, db.products, ev.lines);
    NewItems(ev.oid, db.products, ev.lines, ev.oid + 1);
    if oid == ev.oid {
      PurchasedOrder(db, db'.items, added, oid, Total(db.products, ev.lines));
    } else {
      NewItems(ev.oid, db.products, ev.lines, oid);
      OlderOrder(db, db'.items, added, oid);
    }
  }

  lemma PurchasedItemsHaveOrders(db: Db, ev: Event, i: nat)
    requires Integrity(db) && Accepts(db, ev) && ev.Bought? && i < |Perform(db, ev).items|
    ensures Perform(db, ev).items[i].oid in Perform(db, ev).orders
  {
    var added := ItemsOf(ev.oid, db.products, ev.lines);
    NewItems(ev.oid, db.products, ev.lines, ev.oid + 1);
    assert Perform(db, ev).items[i] == if i < |db.items| then db.items[i] else added[i - |db.items|];
  }

  lemma PurchaseKeepsIntegrity(db: Db, ev: Event)
    requires Integrity(db) && Accepts(db, ev) && ev.Bought?
    ensures Integrity(Perform(db, ev))
  {
    var db' := Perform(db, ev);
    forall oid | oid in db'.orders
      ensures db'.orders[oid].total == Subtotal(db'.items, oid) == db'.payments[oid].amount
      ensures exists i :: 0 <= i < |db'.items| && db'.items[i].oid == oid
    {
      PurchaseBillsOrders(db, ev, oid);
    }
    forall i | 0 <= i < |db'.items| ensures db'.items[i].oid in db'.orders {
      PurchasedItemsHaveOrders(db, ev, i);
    }
  }

  /** Main result: payment, cancellation, status, price and stock changes keep order integrity, and every
      checkout establishes it for its own order. */
  lemma {:induction false} OrderIntegrity(init: Db, history: seq<Event>)
    requires Integrity(init) && Replay(init, history).Some?
    ensures Integrity(Replay(init, history).value)
  {
    if history != [] {
      var past, ev := history[..|history| - 1], history[|history| - 1];
      OrderIntegrity(init, past);
      var db := Replay(init, past).value;
      if ev.Bought? {
        PurchaseKeepsIntegrity(db, ev);
      }
    }
  }

  /** No transaction removes an order or changes what it costs. */
  lemma TotalsFixed(db: Db, ev: Event)
    requires Accepts(db, ev)
    ensures db.orders.Keys <= Perform(db, ev).orders.Keys
    ensures forall oid :: oid in db.orders ==>
              Perform(db, ev).orders[oid].total == db.orders[oid].total
              && Perform(db, ev).orders[oid].user == db.orders[oid].user
  {}

  // ----- the order and payment state machine -----

  /** The order was created by a wallet checkout of this history. */
  predicate BoughtByWallet(history: seq<Event>, oid: nat) {
    exists i | 0 <= i < |history| :: history[i].Bought? && history[i].oid == oid && history[i].tender == ByWallet
  }

  /** How many times process_payment committed for the order. */
  function TimesPaid(history: seq<Event>, oid: nat): nat {
    if history == [] then 0 else
      var ev := history[|history| - 1];
      TimesPaid(history[..|history| - 1], oid) + if ev.Paid? && ev.oid == oid then 1 else 0
  }

  predicate NoStatusUpdates(history: seq<Event>) {
    forall i :: 0 <= i < |history| ==> !history[i].StatusSet?
  }

  lemma OnePaymentFurther(history: seq<Event>, ev: Event, oid: nat)
    ensures TimesPaid([], oid) == 0
    ensures TimesPaid(history + [ev], oid) == TimesPaid(history, oid) + if ev.Paid? && ev.oid == oid then 1 else 0
  {
    assert (history + [ev])[..|history|] == history;
  }

  lemma WalletPrefix(history: seq<Event>, oid: nat)
    requires history != []
    ensures var past, ev := history[..|history| - 1], history[|history| - 1];
            BoughtByWallet(history, oid) <==>
            BoughtByWallet(past, oid) || (ev.Bought? && ev.oid == oid && ev.tender == ByWallet)
  {
    var past := history[..|history| - 1];
    if BoughtByWallet(past, oid) {
      var i :| 0 <= i < |past| && past[i].Bought? && past[i].oid == oid && past[i].tender == ByWallet;
      assert history[i] == past[i];
    }
    if BoughtByWallet(history, oid) {
      var i :| 0 <= i < |history| && history[i].Bought? && history[i].oid == oid && history[i].tender == ByWallet;
      assert i < |past| ==> past[i] == history[i];
    }
  }

  /** A payment is COMPLETED exactly when its order was bought by wallet or process_payment committed for it
      (`times` times), never both and never twice. */
  ghost predicate PaidOnce(db: Db, oid: nat, times: nat, byWallet: bool) {
    && db.orders.Keys == db.payments.Keys
    && times + (if byWallet then 1 else 0) <= 1
    && (times == 1 || byWallet ==> oid in db.payments && db.payments[oid].status == Completed)
    && (oid in db.payments ==> db.payments[oid].status == if times == 1 || byWallet then Completed else Awaiting)
  }

  lemma PaidOnceStep(db: Db, ev: Event, oid: nat, times: nat, byWallet: bool)
    requires PaidOnce(db, oid, times, byWallet) && Accepts(db, ev)
    ensures PaidOnce(Perform(db, ev), oid, times + if ev.Paid? && ev.oid == oid then 1 else 0,
                     byWallet || (ev.Bought? && ev.oid == oid && ev.tender == ByWallet))
  {}

  /** Main result, status updates included: after every history each payment is completed at most once. */
  lemma {:induction false} PaymentCompletesOnce(init: Db, history: seq<Event>, oid: nat)
    requires init.orders == map[] && init.payments == map[] && Replay(init, history).Some?
    ensures PaidOnce(Replay(init, history).value, oid, TimesPaid(history, oid), BoughtByWallet(history, oid))
  {
    if history != [] {
      var past, ev := history[..|history| - 1], history[|history| - 1];
      PaymentCompletesOnce(init, past, oid);
      WalletPrefix(history, oid);
      PaidOnceStep(Replay(init, past).value, ev, oid, TimesPaid(past, oid), BoughtByWallet(past, oid));
    }
  }

  lemma CompletedStep(db: Db, ev: Event, oid: nat)
    requires Accepts(db, ev) && oid in db.payments && db.payments[oid].status == Completed
    ensures oid in Perform(db, ev).payments && Perform(db, ev).payments[oid] == db.payments[oid]
  {}

  /** A completed payment stays completed, with its amount and method, whatever commits next. */
  lemma {:induction false} CompletedStays(db: Db, more: seq<Event>, oid: nat)
    requires oid in db.payments && db.payments[oid].status == Completed && Replay(db, more).Some?
    ensures var db' := Replay(db, more).value;
            oid in db'.payments && db'.payments[oid] == db.payments[oid]
  {
    if more != [] {
      CompletedStays(db, more[..|more| - 1], oid);
      CompletedStep(Replay(db, more[..|more| - 1]).value, more[|more| - 1], oid);
    }
  }

  /** The states an order and its payment can be in together when nobody sets statuses by hand. */
  ghost predicate InStep(db: Db, oid: nat, byWallet: bool) {
    && db.orders.Keys == db.payments.Keys
    && (byWallet ==> oid in db.orders)
    && (oid in db.orders ==>
        if byWallet
        then db.payments[oid].status == Completed && db.orders[oid].status in {Confirmed, Cancelled}
        else db.orders[oid].status in {Confirmed, Processing, Cancelled}
             && (db.payments[oid].status == Completed <==> db.orders[oid].status == Processing))
  }

  lemma InStepKept(db: Db, ev: Event, oid: nat, byWallet: bool)
    requires InStep(db, oid, byWallet) && Accepts(db, ev) && !ev.StatusSet?
    ensures InStep(Perform(db, ev), oid, byWallet || (ev.Bought? && ev.oid == oid && ev.tender == ByWallet))
  {}

  lemma {:induction false} OrdersInStep(init: Db, history: seq<Event>, oid: nat)
    requires init.orders == map[] && init.payments == map[] && Replay(init, history).Some?
    requires NoStatusUpdates(history)
    ensures InStep(Replay(init, history).value, oid, BoughtByWallet(history, oid))
  {
    if history != [] {
      var past, ev := history[..|history| - 1], history[|history| - 1];
      OrdersInStep(init, past, oid);
      WalletPrefix(history, oid);
      InStepKept(Replay(init, past).value, ev, oid, BoughtByWallet(past, oid));
    }
  }

  /** Main result: without administrative status updates, an order is both CANCELLED and paid exactly when it
      was bought by wallet and then cancelled; a card order never is. */
  lemma CancelledAndPaid(init: Db, history: seq<Event>, oid: nat)
    requires init.orders == map[] && init.payments == map[] && Replay(init, history).Some?
    requires NoStatusUpdates(history) && oid in Replay(init, history).value.orders
    ensures oid in Replay(init, history).value.payments
    ensures var db := Replay(init, history).value;
            db.orders[oid].status == Cancelled && db.payments[oid].status == Completed <==>
            BoughtByWallet(history, oid) && exists i :: 0 <= i < |history| && history[i] == Cancelling(oid)
  {
    OrdersInStep(init, history, oid);
    CancelledByRequest(init, history, oid);
  }

  /** An order is CANCELLED exactly when a cancellation of it committed. */
  lemma {:induction false} CancelledByRequest(init: Db, history: seq<Event>, oid: nat)
    requires init.orders == map[] && Replay(init, history).Some? && NoStatusUpdates(history)
    ensures var db := Replay(init, history).value;
            oid in db.orders && db.orders[oid].status == Cancelled <==>
            exists i :: 0 <= i < |history| && history[i] == Cancelling(oid)
  {
    if history != [] {
      var past, ev := history[..|history| - 1], history[|history| - 1];
      CancelledByRequest(init, past, oid);
      CancelStep(Replay(init, past).value, ev, oid);
      assert forall i :: 0 <= i < |past| ==> past[i] == history[i];
      assert history[|past|] == ev;
    }
  }

  lemma CancelStep(db: Db, ev: Event, oid: nat)
    requires Accepts(db, ev) && !ev.StatusSet?
    ensures oid in Perform(db, ev).orders && Perform(db, ev).orders[oid].status == Cancelled <==>
            (oid in db.orders && db.orders[oid].status == Cancelled) || ev == Cancelling(oid)
  {}

  /** The claim "never both CANCELLED and paid" fails for wallet orders: buying by wallet and cancelling is enough,
      and the cancellation gives back neither the money nor the stock. */
  lemma WalletOrderCancelledThoughPaid()
    ensures exists init, history :: Replay(init, history).Some?
              && 1 in Replay(init, history).value.orders && 1 in Replay(init, history).value.payments
              && 5 in Replay(init, history).value.products && 9 in Replay(init, history).value.wallets
              && Replay(init, history).value.orders[1].status == Cancelled
              && Replay(init, history).value.payments[1].status == Completed
              && Replay(init, history).value.products[5].stock == 0
              && Replay(init, history).value.wallets[9] == 0
  {
    var init := Db(map[5 := Product(1, 0, 100, true)], map[9 := 100], map[3 := CartRow(9, 5, 1, 0, 0)],
                   map[3 := 9], map[], [], map[], []);
    var lines := [Line(3, 5, 1)];
    var buy := Bought(ByWallet, 9, lines, 1, {3});
    assert lines[..0] == [];
    assert Total(init.products, lines) == 100;
    assert Accepts(init, buy);
    var bought := Perform(init, buy);
    assert bought.orders[1] == Order(9, Confirmed, 100) && bought.payments[1] == Payment(100, Completed, WalletBalance);
    assert bought.products[5].stock == 0 && bought.wallets[9] == 0;
    CancelAfter(init, buy, bought, 1);
  }

  lemma CancelAfter(init: Db, buy: Event, bought: Db, oid: nat)
    requires Accepts(init, buy) && Perform(init, buy) == bought && Accepts(bought, Cancelling(oid))
    ensures Replay(init, [buy, Cancelling(oid)]) == Some(Perform(bought, Cancelling(oid)))
  {
    ReplayStep(init, [], buy);
    assert [] + [buy] == [buy];
    ReplayStep(init, [buy], Cancelling(oid));
    assert [buy] + [Cancelling(oid)] == [buy, Cancelling(oid)];
  }
}
