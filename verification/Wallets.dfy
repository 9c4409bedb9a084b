/** Wallet balances over every history. */
module Wallets {
  import opened Schema
  import opened Serial
  import opened Orders

  /** The sum of a user's wallet order totals, read from the orders table. */
  function Spent(history: seq<Event>, orders: map<nat, Order>, user: nat): int {
    if history == [] then 0 else
      var ev := history[|history| - 1];
      Spent(history[..|history| - 1], orders, user)
      + if ev.Bought? && ev.tender == ByWallet && ev.user == user && ev.oid in orders then orders[ev.oid].total else 0
  }

  /** The sum, one transaction further. */
  lemma OneSpendingFurther(history: seq<Event>, ev: Event, orders: map<nat, Order>, user: nat)
    ensures Spent([], orders, user) == 0
    ensures Spent(history + [ev], orders, user)
            == Spent(history, orders, user)
               + if ev.Bought? && ev.tender == ByWallet && ev.user == user && ev.oid in orders
                 then orders[ev.oid].total else 0
  {
    assert (history + [ev])[..|history|] == history;
  }

  predicate AllCreated(history: seq<Event>, orders: map<nat, Order>) {
    forall i :: 0 <= i < |history| && history[i].Bought? ==> history[i].oid in orders
  }

  lemma {:induction false} SpentFixed(history: seq<Event>, orders: map<nat, Order>, orders': map<nat, Order>, user: nat)
    requires AllCreated(history, orders) && orders.Keys <= orders'.Keys
    requires forall oid :: oid in orders ==> orders'[oid].total == orders[oid].total
    ensures Spent(history, orders', user) == Spent(history, orders, user)
  {
    if history != [] {
      var ev := history[|history| - 1];
      assert ev.Bought? ==> ev.oid in orders;
      SpentFixed(history[..|history| - 1], orders, orders', user);
    }
  }

  /** What one transaction does to one wallet. */
  lemma WalletStep(db: Db, ev: Event, user: nat)
    requires Accepts(db, ev) && user in db.wallets
    ensures var db' := Perform(db, ev);
            && db'.wallets.Keys == db.wallets.Keys
            && (ev.Bought? ==> ev.oid in db'.orders)
            && db'.wallets[user] == db.wallets[user]
               - (if ev.Bought? && ev.tender == ByWallet && ev.user == user then db'.orders[ev.oid].total else 0)
            && (db.wallets[user] >= 0 ==> db'.wallets[user] >= 0)
  {}

  /** Main result: a wallet holds its initial balance minus the totals of that user's wallet orders, and never
      goes below zero. */
  lemma {:induction false} BalanceExplained(init: Db, history: seq<Event>, user: nat)
    requires Replay(init, history).Some? && user in init.wallets
    ensures var db := Replay(init, history).value;
            && user in db.wallets
            && AllCreated(history, db.orders)
            && db.wallets[user] == init.wallets[user] - Spent(history, db.orders, user)
            && (init.wallets[user] >= 0 ==> db.wallets[user] >= 0)
  {
    if history != [] {
      var past, ev := history[..|history| - 1], history[|history| - 1];
      BalanceExplained(init, past, user);
      var db := Replay(init, past).value;
      TotalsFixed(db, ev);
      WalletStep(db, ev, user);
      SpentFixed(past, db.orders, Perform(db, ev).orders, user);
    }
  }
}
