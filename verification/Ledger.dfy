/** The inventory log explains the stock, and units are conserved, over every history. */
module Ledger {
  import opened Schema
  import opened Serial

  /** The sum of a product's logged changes. */
  function Net(log: seq<LogEntry>, pid: nat): int {
    if log == [] then 0 else
      var e := log[|log| - 1];
      Net(log[..|log| - 1], pid) + if e.pid == pid then e.change else 0
  }

  /** How many times a product's stock was written. */
  function Entries(log: seq<LogEntry>, pid: nat): nat {
    if log == [] then 0 else
      Entries(log[..|log| - 1], pid) + if log[|log| - 1].pid == pid then 1 else 0
  }

  /** The units of a product in all order items ever created. */
  function Ordered(items: seq<ItemRow>, pid: nat): nat {
    if items == [] then 0 else
      var e := items[|items| - 1];
      Ordered(items[..|items| - 1], pid) + if e.pid == pid then e.qty else 0
  }

  /** The units restocked by a history. */
  function RestockedUnits(history: seq<Event>, pid: nat): int {
    if history == [] then 0 else
      var ev := history[|history| - 1];
      RestockedUnits(history[..|history| - 1], pid)
      + if ev.Restocked? && ev.pid == pid then ev.amount else 0
  }

  /** The units taken by a history's standalone optimistic deductions. */
  function DeductedUnits(history: seq<Event>, pid: nat): int {
    if history == [] then 0 else
      var ev := history[|history| - 1];
      DeductedUnits(history[..|history| - 1], pid)
      + if ev.Deducted? && ev.pid == pid then ev.units else 0
  }

  /** The sums, one entry, item or transaction further. */
  lemma OneFurther(log: seq<LogEntry>, e: LogEntry, items: seq<ItemRow>, item: ItemRow,
                   history: seq<Event>, ev: Event, pid: nat)
    ensures Net([], pid) == 0 && Net(log + [e], pid) == Net(log, pid) + if e.pid == pid then e.change else 0
    ensures Entries([], pid) == 0 && Entries(log + [e], pid) == Entries(log, pid) + if e.pid == pid then 1 else 0
    ensures Ordered([], pid) == 0
    ensures Ordered(items + [item], pid) == Ordered(items, pid) + if item.pid == pid then item.qty else 0
    ensures RestockedUnits([], pid) == DeductedUnits([], pid) == 0
    ensures RestockedUnits(history + [ev], pid)
            == RestockedUnits(history, pid) + if ev.Restocked? && ev.pid == pid then ev.amount else 0
    ensures DeductedUnits(history + [ev], pid)
            == DeductedUnits(history, pid) + if ev.Deducted? && ev.pid == pid then ev.units else 0
  {
    assert (log + [e])[..|log|] == log && (items + [item])[..|items|] == items;
    assert (history + [ev])[..|history|] == history;
  }

  lemma {:induction false} LogAppend(a: seq<LogEntry>, b: seq<LogEntry>, pid: nat)
    ensures Net(a + b, pid) == Net(a, pid) + Net(b, pid)
    ensures Entries(a + b, pid) == Entries(a, pid) + Entries(b, pid)
  {
    if b == [] {
      assert a + b == a;
    } else {
      assert (a + b)[..|a + b| - 1] == a + b[..|b| - 1];
      LogAppend(a, b[..|b| - 1], pid);
    }
  }

  lemma {:induction false} ItemsAppend(a: seq<ItemRow>, b: seq<ItemRow>, pid: nat)
    ensures Ordered(a + b, pid) == Ordered(a, pid) + Ordered(b, pid)
  {
    if b == [] {
      assert a + b == a;
    } else {
      assert (a + b)[..|a + b| - 1] == a + b[..|b| - 1];
      ItemsAppend(a, b[..|b| - 1], pid);
    }
  }

  /** What the deduction loop logs is what it took, and what the order's items carry. */
  lemma {:induction false} SaleExplained(products: map<nat, Product>, lines: seq<Line>, oid: nat, pid: nat)
    requires Stocked(products, lines) && pid in products
    ensures Sell(products, lines)[pid].stock == products[pid].stock + Net(SaleLog(lines), pid)
    ensures Sell(products, lines)[pid].version == products[pid].version + Entries(SaleLog(lines), pid)
    ensures Ordered(ItemsOf(oid, products, lines), pid) == -Net(SaleLog(lines), pid)
  {
    if lines != [] {
      SaleExplained(products, lines[..|lines| - 1], oid, pid);
    }
  }

  /** One committed transaction keeps stock minus log, version minus log length, and stock >= 0. */
  lemma LedgerStep(db: Db, ev: Event, pid: nat)
    requires Accepts(db, ev) && pid in db.products
    ensures var db' := Perform(db, ev);
            && db'.products.Keys == db.products.Keys
            && db'.products[pid].stock - Net(db'.log, pid) == db.products[pid].stock - Net(db.log, pid)
            && db'.products[pid].version - Entries(db'.log, pid) == db.products[pid].version - Entries(db.log, pid)
            && (db.products[pid].stock >= 0 ==> db'.products[pid].stock >= 0)
  {
    var db' := Perform(db, ev);
    if ev.Bought? {
      SaleExplained(db.products, ev.lines, ev.oid, pid);
      LogAppend(db.log, SaleLog(ev.lines), pid);
      SellAt(db.products, ev.lines, pid);
    } else if |db'.log| > |db.log| {
      assert db'.log[..|db'.log| - 1] == db.log;
    }
  }

  /** Main result: after any history, each product's stock is its initial stock plus the changes logged
      for it, its version has moved once per entry, and stock never becomes negative. */
  lemma {:induction false} LedgerExplainsStock(init: Db, history: seq<Event>, pid: nat)
    requires Replay(init, history).Some? && pid in init.products
    ensures var db := Replay(init, history).value;
            && db.products.Keys == init.products.Keys
            && db.products[pid].stock == init.products[pid].stock + Net(db.log, pid) - Net(init.log, pid)
            && db.products[pid].version == init.products[pid].version + Entries(db.log, pid) - Entries(init.log, pid)
            && (init.products[pid].stock >= 0 ==> db.products[pid].stock >= 0)
  {
    if history != [] {
      var past := history[..|history| - 1];
      LedgerExplainsStock(init, past, pid);
      LedgerStep(Replay(init, past).value, history[|history| - 1], pid);
    }
  }

  /** The contribution of one transaction to the unit balance of a product. */
  lemma UnitsStep(db: Db, ev: Event, pid: nat)
    requires Accepts(db, ev) && pid in db.products
    ensures pid in Perform(db, ev).products
    ensures Perform(db, ev).products[pid].stock + Ordered(Perform(db, ev).items, pid)
            == db.products[pid].stock + Ordered(db.items, pid)
               + (if ev.Restocked? && ev.pid == pid then ev.amount else 0)
               - (if ev.Deducted? && ev.pid == pid then ev.units else 0)
  {
    if ev.Bought? {
      SaleExplained(db.products, ev.lines, ev.oid, pid);
      ItemsAppend(db.items, ItemsOf(ev.oid, db.products, ev.lines), pid);
    }
  }

  /** Main result: initial stock plus everything restocked is the current stock plus the units in every order
      item ever created, cancelled orders included, plus the units of standalone deductions. */
  lemma {:induction false} UnitsConserved(init: Db, history: seq<Event>, pid: nat)
    requires Replay(init, history).Some? && pid in init.products
    ensures pid in Replay(init, history).value.products
    ensures var db := Replay(init, history).value;
            init.products[pid].stock + RestockedUnits(history, pid)
            == db.products[pid].stock + Ordered(db.items, pid) - Ordered(init.items, pid) + DeductedUnits(history, pid)
  {
    if history != [] {
      var past, ev := history[..|history| - 1], history[|history| - 1];
      UnitsConserved(init, past, pid);
      UnitsStep(Replay(init, past).value, ev, pid);
    }
  }
}
