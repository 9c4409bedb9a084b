/** The serial reference spelled out on the rows themselves: what each transaction requires of them and leaves in them.
    */
module RowByRow {
  import opened Schema
  import opened Serial

  // ----- a sale -----

  /** The line that stops the validation loop is the first that cannot be served, and the reason is its own: the product
      is gone, or too little of it is left. */
  lemma {:induction false} RefusalReason(products: map<nat, Product>, lines: seq<Line>) returns (i: int)
    requires Refusal(products, lines).Some?
    ensures 0 <= i < |lines|
    ensures lines[i].pid !in products ==> Refusal(products, lines) == Some(Unavailable(lines[i].pid))
    ensures lines[i].pid in products ==>
              products[lines[i].pid].stock < lines[i].qty && Refusal(products, lines) == Some(OutOfStock(lines[i].pid))
    ensures forall k :: 0 <= k < i ==> lines[k].pid in products && products[lines[k].pid].stock >= lines[k].qty
  {
    var n := |lines| - 1;
    if Refusal(products, lines[..n]).Some? {
      i := RefusalReason(products, lines[..n]);
      assert forall k :: 0 <= k <= i ==> lines[..n][k] == lines[k];
    } else {
      i := n;
      assert forall k :: 0 <= k < n ==> lines[..n][k] == lines[k];
    }
  }

  /** The order items and the log entries, line by line. */
  lemma {:induction false} SaleRowByRow(products: map<nat, Product>, lines: seq<Line>, oid: nat)
    requires Stocked(products, lines)
    ensures |ItemsOf(oid, products, lines)| == |SaleLog(lines)| == |lines|
    ensures forall i :: 0 <= i < |lines| ==>
              ItemsOf(oid, products, lines)[i] == ItemRow(oid, lines[i].pid, lines[i].qty, products[lines[i].pid].price)
    ensures forall i :: 0 <= i < |lines| ==> SaleLog(lines)[i] == LogEntry(lines[i].pid, 0 - lines[i].qty, Purchase)
  {
    if lines != [] {
      var n := |lines| - 1;
      SaleRowByRow(products, lines[..n], oid);
      assert forall i :: 0 <= i < n ==> lines[..n][i] == lines[i];
      assert ItemsOf(oid, products, lines)[..n] == ItemsOf(oid, products, lines[..n]);
      assert SaleLog(lines)[..n] == SaleLog(lines[..n]);
    }
  }

  /** The deduction loop, product by product. */
  lemma SoldRow(products: map<nat, Product>, lines: seq<Line>, pid: nat)
    requires Stocked(products, lines) && Distinct(lines) && pid in products
    ensures (forall i :: 0 <= i < |lines| ==> lines[i].pid != pid) ==> Sell(products, lines)[pid] == products[pid]
    ensures var p := products[pid];
            forall i :: 0 <= i < |lines| && lines[i].pid == pid ==>
              Sell(products, lines)[pid] == Product(p.stock - lines[i].qty, p.version + 1, p.price, p.active)
  {
    SellAt(products, lines, pid);
  }

  /** The total is the sum of price times quantity. */
  lemma TotalIsSum(products: map<nat, Product>, lines: seq<Line>)
    requires Stocked(products, lines)
    ensures Total(products, lines[..0]) == 0 && lines[..|lines|] == lines
    ensures forall i :: 0 <= i < |lines| ==>
              Total(products, lines[..i + 1])
              == Total(products, lines[..i]) + products[lines[i].pid].price * lines[i].qty
  {
    forall i | 0 <= i < |lines|
      ensures Total(products, lines[..i + 1])
              == Total(products, lines[..i]) + products[lines[i].pid].price * lines[i].qty
    {
      OneMore(products, lines, i, 0);
    }
  }

  // ----- what each transaction requires and writes -----

  /** A checkout, by card or by wallet. */
  lemma PurchaseRows(db: Db, ev: Event)
    requires ev.Bought? && Accepts(db, ev)
    ensures ev.lines != [] && forall i :: 0 <= i < |ev.lines| ==>
              ev.lines[i].pid in db.products && db.products[ev.lines[i].pid].stock >= ev.lines[i].qty
    ensures ev.oid !in db.orders && ev.oid !in db.payments
    ensures var db', total := Perform(db, ev), Total(db.products, ev.lines);
            && db'.orders == db.orders[ev.oid := Order(ev.user, Confirmed, total)]
            && (ev.tender == ByCard ==>
                  && db'.payments == db.payments[ev.oid := Payment(total, Awaiting, CreditCard)]
                  && db'.wallets == db.wallets)
            && (ev.tender == ByWallet ==>
                  && db'.payments == db.payments[ev.oid := Payment(total, Completed, WalletBalance)]
                  && ev.user in db.wallets && db.wallets[ev.user] >= total
                  && db'.wallets == db.wallets[ev.user := db.wallets[ev.user] - total])
            && db'.owners == db.owners
            && (forall id :: id in db'.carts <==> id in db.carts && id !in ev.gone)
            && (forall id :: id in db'.carts ==> db'.carts[id] == db.carts[id])
    ensures var items, n := Perform(db, ev).items, |db.items|;
            && |items| == n + |ev.lines| && items[..n] == db.items
            && forall i :: 0 <= i < |ev.lines| ==>
                 items[n + i]
                 == ItemRow(ev.oid, ev.lines[i].pid, ev.lines[i].qty, db.products[ev.lines[i].pid].price)
    ensures var log, n := Perform(db, ev).log, |db.log|;
            && |log| == n + |ev.lines| && log[..n] == db.log
            && forall i :: 0 <= i < |ev.lines| ==>
                 log[n + i] == LogEntry(ev.lines[i].pid, 0 - ev.lines[i].qty, Purchase)
  {
    SaleRowByRow(db.products, ev.lines, ev.oid);
  }

  /** The product rows after a checkout. */
  lemma PurchasedProducts(db: Db, ev: Event, pid: nat)
    requires ev.Bought? && Accepts(db, ev)
    ensures pid in Perform(db, ev).products <==> pid in db.products
    ensures pid in db.products && (forall i :: 0 <= i < |ev.lines| ==> ev.lines[i].pid != pid) ==>
              Perform(db, ev).products[pid] == db.products[pid]
    ensures pid in db.products ==>
              var p := db.products[pid];
              forall i :: 0 <= i < |ev.lines| && ev.lines[i].pid == pid ==>
                Perform(db, ev).products[pid] == Product(p.stock - ev.lines[i].qty, p.version + 1, p.price, p.active)
  {
    if pid in db.products {
      SoldRow(db.products, ev.lines, pid);
    }
  }

  /** Stock and price changes. */
  lemma ProductRows(db: Db, ev: Event)
    requires Accepts(db, ev) && (ev.Restocked? || ev.Deducted? || ev.Edited?)
    ensures ev.pid in db.products
    ensures var db', p := Perform(db, ev), db.products[ev.pid];
            && (ev.Restocked? ==>
                  && ev.amount >= 1
                  && db' == db.(products := db.products[ev.pid := Product(p.stock + ev.amount, p.version + 1,
                                                                        p.price, p.active)],
                                log := db.log + [LogEntry(ev.pid, ev.amount, Restocking)]))
            && (ev.Deducted? ==>
                  && p.stock >= ev.units
                  && db' == db.(products := db.products[ev.pid := Product(p.stock - ev.units, p.version + 1,
                                                                        p.price, p.active)],
                                log := db.log + [LogEntry(ev.pid, 0 - ev.units, Purchase)]))
            && (ev.Edited? ==>
                  db' == db.(products := db.products[ev.pid := Product(p.stock, p.version, ev.price, ev.active)]))
  {}

  /** Payment, cancellation and status changes. */
  lemma OrderRows(db: Db, ev: Event)
    requires Accepts(db, ev) && (ev.Paid? || ev.Cancelling? || ev.StatusSet?)
    ensures ev.oid in db.orders
    ensures var db', o := Perform(db, ev), db.orders[ev.oid];
            && (ev.Paid? ==>
                  && ev.oid in db.payments && o.status != Cancelled && db.payments[ev.oid].status != Completed
                  && db' == db.(orders := db.orders[ev.oid := Order(o.user, Processing, o.total)],
                                payments := db.payments[ev.oid := Payment(db.payments[ev.oid].amount,
                                                                          Completed, ev.how)]))
            && (ev.Cancelling? ==>
                  && (o.status == Pending || o.status == Confirmed)
                  && db' == db.(orders := db.orders[ev.oid := Order(o.user, Cancelled, o.total)]))
            && (ev.StatusSet? ==> db' == db.(orders := db.orders[ev.oid := Order(o.user, ev.status, o.total)]))
  {}

  /** Cart edits. */
  lemma CartRows(db: Db, ev: Event)
    requires Accepts(db, ev) && (ev.RowAdded? || ev.RowBumped? || ev.RowSet? || ev.RowsDeleted?)
    ensures var db' := Perform(db, ev);
            && (ev.RowAdded? ==>
                  && ev.id !in db.owners
                  && (forall k :: k in db.carts ==> db.carts[k].user != ev.row.user || db.carts[k].pid != ev.row.pid)
                  && db' == db.(carts := db.carts[ev.id := ev.row], owners := db.owners[ev.id := ev.row.user]))
            && (ev.RowBumped? ==>
                  && ev.id in db.carts
                  && var r := db.carts[ev.id];
                     r.qty + ev.extra >= 0
                     && db' == db.(carts := db.carts[ev.id := CartRow(r.user, r.pid, r.qty + ev.extra,
                                                                      r.version + 1, r.touched)]))
            && (ev.RowSet? ==>
                  && ev.id in db.carts
                  && var r := db.carts[ev.id];
                     db' == db.(carts := db.carts[ev.id := CartRow(r.user, r.pid, ev.qty, r.version + 1, ev.at)]))
            && (ev.RowsDeleted? ==> ev.ids <= db.carts.Keys && db' == db.(carts := db.carts - ev.ids))
  {}

  // ----- the cart query -----

  /** The lines of a cart are its owner's rows, each once, with the product and the quantity that the row has. */
  lemma CartLines(carts: map<nat, CartRow>, user: nat, lines: seq<Line>, id: nat)
    requires IsCart(carts, user, lines)
    ensures id in carts && carts[id].user == user <==> exists i :: 0 <= i < |lines| && lines[i].row == id
    ensures forall i :: 0 <= i < |lines| && lines[i].row == id ==>
              && id in carts && lines[i] == Line(id, carts[id].pid, carts[id].qty)
              && forall j :: 0 <= j < |lines| && lines[j].row == id ==> j == i
  {
    if id in carts && carts[id].user == user {
      assert id in RowsOf(carts, user);
    }
  }
}
