/** What each service does when it runs alone, one committed transaction at a time.
    This is the reference the interleaved engine and the service methods are compared with. */
module Serial {
  import opened Schema

  datatype Tender = ByCard | ByWallet

  /** One committed transaction, with the inputs it acted on. `at` is the time of a cart edit; an optimistic add has
      one too, but does not store it in the row. */
  datatype Event =
    | Bought(tender: Tender, user: nat, lines: seq<Line>, oid: nat, gone: set<nat>)
    | Restocked(pid: nat, amount: nat)
    | Deducted(pid: nat, units: int)
    | Edited(pid: nat, price: int, active: bool)
    | Paid(oid: nat, how: PaymentMethod)
    | Cancelling(oid: nat)
    | StatusSet(oid: nat, status: OrderStatus)
    | RowAdded(id: nat, row: CartRow)
    | RowBumped(id: nat, extra: int, at: nat)
    | RowSet(id: nat, qty: nat, at: nat)
    | RowsDeleted(ids: set<nat>)

  datatype Reason =
    | EmptyCart | Unavailable(pid: nat) | OutOfStock(pid: nat) | LowBalance
    | NotFound | OrderCancelled | AlreadyPaid | NotCancellable | BadRow

  /** One deduction or restock of a product row: the version moves by one. */
  function Taken(p: Product, units: int): Product {
    p.(stock := p.stock - units, version := p.version + 1)
  }

  predicate Stocked(products: map<nat, Product>, lines: seq<Line>) {
    forall i :: 0 <= i < |lines| ==> lines[i].pid in products
  }

  /** The validation loop: the first line the stock cannot serve, if any. */
  function Refusal(products: map<nat, Product>, lines: seq<Line>): (r: Option<Reason>)
    ensures r.None? <==>
            forall i :: 0 <= i < |lines| ==>
              lines[i].pid in products && products[lines[i].pid].stock >= lines[i].qty
  {
    if lines == [] then None else
      var l, before := lines[|lines| - 1], Refusal(products, lines[..|lines| - 1]);
      if before.Some? then before
      else if l.pid !in products then Some(Unavailable(l.pid))
      else if products[l.pid].stock < l.qty then Some(OutOfStock(l.pid))
      else None
  }

  /** The deduction loop. */
  function Sell(products: map<nat, Product>, lines: seq<Line>): (sold: map<nat, Product>)
    requires Stocked(products, lines)
    ensures sold.Keys == products.Keys
  {
    if lines == [] then products else
      var l, rest := lines[|lines| - 1], Sell(products, lines[..|lines| - 1]);
      rest[l.pid := Taken(rest[l.pid], l.qty)]
  }

  function Total(products: map<nat, Product>, lines: seq<Line>): int
    requires Stocked(products, lines)
  {
    if lines == [] then 0 else
      var l := lines[|lines| - 1];
      Total(products, lines[..|lines| - 1]) + products[l.pid].price * l.qty
  }

  function SaleLog(lines: seq<Line>): (log: seq<LogEntry>)
    ensures |log| == |lines|
  {
    if lines == [] then [] else
      var l := lines[|lines| - 1];
      SaleLog(lines[..|lines| - 1]) + [LogEntry(l.pid, 0 - l.qty, Purchase)]
  }

  function ItemsOf(oid: nat, products: map<nat, Product>, lines: seq<Line>): (items: seq<ItemRow>)
    requires Stocked(products, lines)
    ensures |items| == |lines|
  {
    if lines == [] then [] else
      var l := lines[|lines| - 1];
      ItemsOf(oid, products, lines[..|lines| - 1]) + [ItemRow(oid, l.pid, l.qty, products[l.pid].price)]
  }

  function OpeningPayment(tender: Tender, total: int): Payment {
    match tender
    case ByCard => Payment(total, Awaiting, CreditCard)
    case ByWallet => Payment(total, Completed, WalletBalance)
  }

  /** The checks under which a service, run alone on `db`, commits. */
  predicate Accepts(db: Db, ev: Event) {
    match ev
    case Bought(tender, user, lines, oid, gone) =>
      && lines != [] && Distinct(lines) && Refusal(db.products, lines).None?
      && oid !in db.orders && oid !in db.payments && gone <= db.carts.Keys
      && (tender == ByWallet ==> user in db.wallets && db.wallets[user] >= Total(db.products, lines))
    case Restocked(pid, amount) => pid in db.products && amount >= 1
    case Deducted(pid, units) => pid in db.products && db.products[pid].stock >= units
    case Edited(pid, _, _) => pid in db.products
    case Paid(oid, _) =>
      && oid in db.orders && oid in db.payments
      && db.orders[oid].status != Cancelled && db.payments[oid].status != Completed
    case Cancelling(oid) => oid in db.orders && db.orders[oid].status in {Pending, Confirmed}
    case StatusSet(oid, _) => oid in db.orders
    case RowAdded(id, row) => id !in db.owners && !HasRow(db.carts, row.user, row.pid)
    case RowBumped(id, extra, _) => id in db.carts && db.carts[id].qty + extra >= 0
    case RowSet(id, _, _) => id in db.carts
    case RowsDeleted(ids) => ids <= db.carts.Keys
  }

  /** Units arrive, or leave when the amount is negative: the service itself does not check. */
  function Supplied(db: Db, pid: nat, amount: int): Db
    requires pid in db.products
  {
    db.(products := db.products[pid := Taken(db.products[pid], 0 - amount)],
        log := db.log + [LogEntry(pid, amount, Restocking)])
  }

  /** An optimistic add: the timestamp stays. */
  function Bumped(row: CartRow, extra: int): CartRow
    requires row.qty + extra >= 0
  {
    row.(qty := row.qty + extra, version := row.version + 1)
  }

  /** An exact quantity change. */
  function SetTo(row: CartRow, qty: nat, at: nat): CartRow {
    row.(qty := qty, version := row.version + 1, touched := at)
  }

  /** The tables after the service ran alone. */
  function Perform(db: Db, ev: Event): Db
    requires Accepts(db, ev)
  {
    match ev
    case Bought(tender, user, lines, oid, gone) =>
      var total := Total(db.products, lines);
      db.(products := Sell(db.products, lines),
          wallets := if tender == ByWallet then db.wallets[user := db.wallets[user] - total] else db.wallets,
          carts := db.carts - gone,
          orders := db.orders[oid := Order(user, Confirmed, total)],
          items := db.items + ItemsOf(oid, db.products, lines),
          payments := db.payments[oid := OpeningPayment(tender, total)],
          log := db.log + SaleLog(lines))
    case Restocked(pid, amount) =>
      Supplied(db, pid, amount)
    case Deducted(pid, units) =>
      db.(products := db.products[pid := Taken(db.products[pid], units)],
          log := db.log + [LogEntry(pid, -units, Purchase)])
    case Edited(pid, price, active) =>
      db.(products := db.products[pid := db.products[pid].(price := price, active := active)])
    case Paid(oid, how) =>
      db.(payments := db.payments[oid := db.payments[oid].(status := Completed, how := how)],
          orders := db.orders[oid := db.orders[oid].(status := Processing)])
    case Cancelling(oid) =>
      db.(orders := db.orders[oid := db.orders[oid].(status := Cancelled)])
    case StatusSet(oid, status) =>
      db.(orders := db.orders[oid := db.orders[oid].(status := status)])
    case RowAdded(id, row) =>
      db.(carts := db.carts[id := row], owners := db.owners[id := row.user])
    case RowBumped(id, extra, _) => db.(carts := db.carts[id := Bumped(db.carts[id], extra)])
    case RowSet(id, qty, at) => db.(carts := db.carts[id := SetTo(db.carts[id], qty, at)])
    case RowsDeleted(ids) =>
      db.(carts := db.carts - ids)
  }

  /** Run the transactions one after another; None if one of them would have been refused. */
  function Replay(db: Db, history: seq<Event>): Option<Db> {
    if history == [] then Some(db) else
      var before, ev := Replay(db, history[..|history| - 1]), history[|history| - 1];
      if before.Some? && Accepts(before.value, ev) then Some(Perform(before.value, ev)) else None
  }

  /** Every prefix of a history that replays does so too, and its last event is accepted. */
  lemma ReplayStep(db: Db, history: seq<Event>, ev: Event)
    ensures Replay(db, history + [ev]) ==
            if Replay(db, history).Some? && Accepts(Replay(db, history).value, ev)
            then Some(Perform(Replay(db, history).value, ev)) else None
  {
    assert (history + [ev])[..|history|] == history;
  }

  /** Others' committed transactions, as a caller in between sees them: those that are refused leave no trace. */
  function Absorb(db: Db, events: seq<Event>): Db {
    if events == [] then db else
      var before, ev := Absorb(db, events[..|events| - 1]), events[|events| - 1];
      if Accepts(before, ev) then Perform(before, ev) else before
  }

  /** Of the transactions others attempt, exactly those that their services accept take effect, one after another. */
  lemma AbsorbStep(db: Db, events: seq<Event>, ev: Event)
    ensures Absorb(db, []) == db
    ensures Absorb(db, events + [ev]) ==
            if Accepts(Absorb(db, events), ev) then Perform(Absorb(db, events), ev) else Absorb(db, events)
  {
    assert (events + [ev])[..|events|] == events;
  }

  // ----- the loops, one line further -----

  lemma OneMore(products: map<nat, Product>, lines: seq<Line>, i: nat, oid: nat)
    requires Stocked(products, lines) && i < |lines|
    ensures Sell(products, lines[..i + 1])
            == var sold := Sell(products, lines[..i]); sold[lines[i].pid := Taken(sold[lines[i].pid], lines[i].qty)]
    ensures Total(products, lines[..i + 1]) == Total(products, lines[..i]) + products[lines[i].pid].price * lines[i].qty
    ensures SaleLog(lines[..i + 1]) == SaleLog(lines[..i]) + [LogEntry(lines[i].pid, 0 - lines[i].qty, Purchase)]
    ensures ItemsOf(oid, products, lines[..i + 1])
            == ItemsOf(oid, products, lines[..i])
               + [ItemRow(oid, lines[i].pid, lines[i].qty, products[lines[i].pid].price)]
  {
    assert lines[..i + 1][..i] == lines[..i];
  }

  // ----- the deduction loop, product by product -----

  /** A product the lines do not mention keeps its row; one they mention once loses that line's quantity. */
  lemma {:induction false} SellAt(products: map<nat, Product>, lines: seq<Line>, pid: nat)
    requires Stocked(products, lines) && Distinct(lines) && pid in products
    ensures (forall i :: 0 <= i < |lines| ==> lines[i].pid != pid) ==> Sell(products, lines)[pid] == products[pid]
    ensures forall i :: 0 <= i < |lines| && lines[i].pid == pid ==>
              Sell(products, lines)[pid] == Taken(products[pid], lines[i].qty)
  {
    if lines != [] {
      SellAt(products, lines[..|lines| - 1], pid);
    }
  }

  /** Deducting changes neither prices nor what is on sale. */
  lemma {:induction false} SellKeepsPrice(products: map<nat, Product>, lines: seq<Line>, pid: nat)
    requires Stocked(products, lines) && pid in products
    ensures Sell(products, lines)[pid].price == products[pid].price
    ensures Sell(products, lines)[pid].active == products[pid].active
  {
    if lines != [] {
      SellKeepsPrice(products, lines[..|lines| - 1], pid);
    }
  }

  /** Pricing reads only the prices of the lines' products. */
  lemma {:induction false} TotalLocal(products: map<nat, Product>, products': map<nat, Product>, oid: nat,
                                      lines: seq<Line>)
    requires Stocked(products, lines) && Stocked(products', lines)
    requires forall i :: 0 <= i < |lines| ==> products[lines[i].pid].price == products'[lines[i].pid].price
    ensures Total(products, lines) == Total(products', lines)
    ensures ItemsOf(oid, products, lines) == ItemsOf(oid, products', lines)
  {
    if lines != [] {
      var l := lines[|lines| - 1];
      assert products[l.pid].price == products'[l.pid].price;
      TotalLocal(products, products', oid, lines[..|lines| - 1]);
    }
  }

  /** Once every line was validated against the locked rows, no deduction can fail: a cart names a product once. */
  lemma ValidatedNeverFails(products: map<nat, Product>, lines: seq<Line>, i: nat)
    requires Distinct(lines) && Refusal(products, lines).None? && i < |lines|
    ensures Sell(products, lines[..i])[lines[i].pid] == products[lines[i].pid]
    ensures Sell(products, lines[..i])[lines[i].pid].stock >= lines[i].qty
  {
    SellAt(products, lines[..i], lines[i].pid);
  }

  /** Selling from copies of just the locked rows and writing those back is selling from the table. */
  lemma {:induction false} SellFromCopies(table: map<nat, Product>, copies: map<nat, Product>, lines: seq<Line>)
    requires copies.Keys <= table.Keys && (forall p :: p in copies ==> copies[p] == table[p])
    requires Stocked(copies, lines)
    ensures Stocked(table, lines) && table + Sell(copies, lines) == Sell(table, lines)
  {
    if lines == [] {
      assert table + copies == table;
    } else {
      SellFromCopies(table, copies, lines[..|lines| - 1]);
    }
  }
}
