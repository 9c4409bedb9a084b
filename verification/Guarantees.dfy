/** What the shop can rely on: the serial results, carried over to every run of interleaved transactions. */
module Guarantees {
  import opened Schema
  import opened Serial
  import opened Ledger
  import opened Orders
  import opened Wallets
  import opened Evolution
  import opened Engine
  import opened Serializable

  function Last(run: seq<State>): State
    requires run != []
  {
    run[|run| - 1]
  }

  // ----- who is in the history -----

  /** `order` names the committed transactions in commit order: the k-th one committed the k-th event of the history,
      an event it was asked for, and nobody else committed anything. */
  ghost predicate CommitOrder(s: State, order: seq<nat>) {
    && |order| == |s.history|
    && (forall i, j :: 0 <= i < j < |order| ==> order[i] != order[j])
    && (forall k :: 0 <= k < |order| ==>
          && order[k] in s.txns && s.txns[order[k]].pc == Finished(Committed(s.history[k]))
          && Serves(s.txns[order[k]].req, s.history[k]))
    && (forall t :: t in s.txns && s.txns[t].pc.Finished? && s.txns[t].pc.outcome.Committed? ==> t in order)
  }

  lemma LockedMovesDoNotCommit(s: State, t: nat, x: Txn, x': Txn)
    requires LockedPc(x.pc) && LockedMoves(s, t, x, x')
    ensures x'.pc.Finished? ==> !x'.pc.outcome.Committed?
  {}

  lemma OptimisticMovesDoNotCommit(s: State, t: nat, x: Txn, x': Txn)
    requires OptimisticPc(x.pc) && OptimisticMoves(s, t, x, x')
    ensures x'.pc.Finished? ==> !x'.pc.outcome.Committed?
  {}

  lemma StartMovesDoNotCommit(s: State, t: nat, x: Txn, x': Txn)
    requires StartMoves(s, t, x, x')
    ensures x'.pc.Finished? ==> !x'.pc.outcome.Committed?
  {}

  lemma CheckoutMovesDoNotCommit(s: State, t: nat, x: Txn, x': Txn)
    requires x.req.Checkout? && CheckoutPc(x.pc) && CheckoutMoves(s, t, x, x')
    ensures x'.pc.Finished? ==> !x'.pc.outcome.Committed?
  {}

  /** A step before the commit never finishes a transaction as committed, and a finished one takes no step. */
  lemma MovesDoNotCommit(s: State, t: nat, x: Txn, x': Txn)
    requires Moves(s, t, x, x')
    ensures !x.pc.Finished? && (x'.pc.Finished? ==> !x'.pc.outcome.Committed?)
  {
    if x.pc.Start? {
      StartMovesDoNotCommit(s, t, x, x');
    } else if CheckoutPc(x.pc) {
      CheckoutMovesDoNotCommit(s, t, x, x');
    } else if OptimisticPc(x.pc) {
      OptimisticMovesDoNotCommit(s, t, x, x');
    } else {
      LockedMovesDoNotCommit(s, t, x, x');
    }
  }

  /** A step that does not commit keeps the order as it is. */
  lemma OrderKept(s: State, s': State, t: nat, order: seq<nat>)
    requires CommitOrder(s, order) && (Works(s, s', t) || Crashes(s, s', t) || Arrives(s, s', t))
    ensures CommitOrder(s', order)
  {
    if Works(s, s', t) {
      MovesDoNotCommit(s, t, s.txns[t], s'.txns[t]);
    }
    assert forall k :: 0 <= k < |order| ==> order[k] != t;
  }

  lemma OrderExtended(s: State, s': State, t: nat, order: seq<nat>)
    requires CommitOrder(s, order) && Commits(s, s', t) && Serves(s.txns[t].req, s.txns[t].pc.ev)
    ensures CommitOrder(s', order + [t])
  {
    assert forall k :: 0 <= k < |order| ==> order[k] != t;
    forall u | u in s'.txns && s'.txns[u].pc.Finished? && s'.txns[u].pc.outcome.Committed? ensures u in order + [t] {
      assert u == t || u in order;
    }
  }

  /** Main result: the history of every run lists exactly the committed transactions, each once, in commit order, and
      replaying it one after another gives the committed tables: a transaction that was refused, lost a conflict
      or crashed has no part in them. */
  lemma {:induction false} HistoryIsTheCommits(init: Db, run: seq<State>) returns (order: seq<nat>)
    requires CartsOk(init) && Run(init, run)
    ensures CommitOrder(Last(run), order)
    ensures Replay(init, Last(run).history) == Some(Last(run).db)
  {
    RunsAreSerializable(init, run);
    if |run| == 1 {
      order := [];
    } else {
      var before := run[..|run| - 1];
      order := HistoryIsTheCommits(init, before);
      RunsAreSerializable(init, before);
      var s, s' := Last(before), Last(run);
      assert Step(s, s');
      var t :| Works(s, s', t) || Commits(s, s', t) || Crashes(s, s', t) || Arrives(s, s', t);
      if Commits(s, s', t) {
        CommitIsAtomic(init, s, s', t);
        OrderExtended(s, s', t, order);
        order := order + [t];
      } else {
        OrderKept(s, s', t, order);
      }
    }
  }

  // ----- stock, units, orders, payments, wallets -----

  /** Main result: no lost update and no oversell. Whatever mix of locked and optimistic writers runs at once, every
      product's stock is its initial stock plus its logged changes, its version counts its log entries, and
      stock never goes below zero. */
  lemma StockIsExplained(init: Db, run: seq<State>, pid: nat)
    requires CartsOk(init) && Run(init, run) && pid in init.products
    ensures var db := Last(run).db;
            && db.products.Keys == init.products.Keys
            && db.products[pid].stock == init.products[pid].stock + Net(db.log, pid) - Net(init.log, pid)
            && db.products[pid].version == init.products[pid].version + Entries(db.log, pid) - Entries(init.log, pid)
            && (init.products[pid].stock >= 0 ==> db.products[pid].stock >= 0)
  {
    RunsAreSerializable(init, run);
    LedgerExplainsStock(init, Last(run).history, pid);
  }

  /** Main result: units are neither made nor lost, cancelled orders included. */
  lemma UnitsAddUp(init: Db, run: seq<State>, pid: nat)
    requires CartsOk(init) && Run(init, run) && pid in init.products
    ensures var db, history := Last(run).db, Last(run).history;
            && pid in db.products
            && init.products[pid].stock + RestockedUnits(history, pid)
               == db.products[pid].stock + Ordered(db.items, pid) - Ordered(init.items, pid)
                  + DeductedUnits(history, pid)
  {
    RunsAreSerializable(init, run);
    UnitsConserved(init, Last(run).history, pid);
  }

  /** Main result: every order anybody can see has its items and exactly one payment, and all three agree on the
      amount. */
  lemma OrdersAreWhole(init: Db, run: seq<State>)
    requires CartsOk(init) && Integrity(init) && Run(init, run)
    ensures Integrity(Last(run).db)
  {
    RunsAreSerializable(init, run);
    OrderIntegrity(init, Last(run).history);
  }

  /** Main result: concurrent payments of an order complete it at most once, status updates or not. */
  lemma PaymentsCompleteOnce(init: Db, run: seq<State>, oid: nat)
    requires CartsOk(init) && init.orders == map[] && init.payments == map[] && Run(init, run)
    ensures var db, history := Last(run).db, Last(run).history;
            && TimesPaid(history, oid) <= 1 && (BoughtByWallet(history, oid) ==> TimesPaid(history, oid) == 0)
            && (oid in db.payments && db.payments[oid].status == Completed <==>
                TimesPaid(history, oid) == 1 || BoughtByWallet(history, oid))
  {
    RunsAreSerializable(init, run);
    PaymentCompletesOnce(init, Last(run).history, oid);
  }

  /** Main result: however payments and cancellations race, no card order is ever both CANCELLED and paid. */
  lemma CardOrdersAreNotPaidAndCancelled(init: Db, run: seq<State>, oid: nat)
    requires CartsOk(init) && init.orders == map[] && init.payments == map[] && Run(init, run)
    requires NoStatusUpdates(Last(run).history) && !BoughtByWallet(Last(run).history, oid)
    requires oid in Last(run).db.orders && Last(run).db.orders[oid].status == Cancelled
    ensures oid in Last(run).db.payments && Last(run).db.payments[oid].status != Completed
  {
    RunsAreSerializable(init, run);
    CancelledAndPaid(init, Last(run).history, oid);
  }

  /** Main result: a wallet loses exactly the totals of its user's wallet orders and never goes below zero. */
  lemma WalletsAddUp(init: Db, run: seq<State>, user: nat)
    requires CartsOk(init) && Run(init, run) && user in init.wallets
    ensures var db, history := Last(run).db, Last(run).history;
            && user in db.wallets
            && db.wallets[user] == init.wallets[user] - Spent(history, db.orders, user)
            && (init.wallets[user] >= 0 ==> db.wallets[user] >= 0)
  {
    RunsAreSerializable(init, run);
    BalanceExplained(init, Last(run).history, user);
  }

  // ----- versions -----

  lemma {:induction false} ReplaySplit(init: Db, a: seq<Event>, b: seq<Event>)
    requires Replay(init, a + b).Some?
    ensures Replay(init, a).Some? && Replay(Replay(init, a).value, b) == Replay(init, a + b)
  {
    if b == [] {
      assert a + b == a;
    } else {
      var past, ev := b[..|b| - 1], b[|b| - 1];
      assert a + b == (a + past) + [ev] && b == past + [ev];
      ReplayStep(init, a + past, ev);
      ReplaySplit(init, a, past);
      ReplayStep(Replay(init, a).value, past, ev);
    }
  }

  lemma ShorterRun(init: Db, run: seq<State>)
    requires Run(init, run) && |run| > 1
    ensures Run(init, run[..|run| - 1]) && Step(run[|run| - 2], run[|run| - 1])
  {
    var before := run[..|run| - 1];
    forall j | 0 < j < |before| ensures Step(before[j - 1], before[j]) {
      assert before[j - 1] == run[j - 1] && before[j] == run[j];
    }
  }

  lemma {:induction false} HistoryGrows(init: Db, run: seq<State>, i: nat)
    requires Run(init, run) && i < |run|
    ensures run[i].history <= Last(run).history
  {
    if i < |run| - 1 {
      HistoryGrows(init, run[..|run| - 1], i);
      assert Step(run[|run| - 2], run[|run| - 1]);
    }
  }

  lemma MomentReplays(init: Db, run: seq<State>, i: nat)
    requires CartsOk(init) && Run(init, run) && i < |run|
    ensures CartsOk(run[i].db) && Replay(init, run[i].history) == Some(run[i].db)
  {
    MomentHolds(init, run, i);
  }

  /** What was committed between two moments of a run leads from the one's tables to the other's. */
  lemma HistoryBetween(init: Db, run: seq<State>, i: nat) returns (more: seq<Event>)
    requires CartsOk(init) && Run(init, run) && i < |run|
    ensures Last(run).history == run[i].history + more
    ensures CartsOk(run[i].db) && Replay(run[i].db, more) == Some(Last(run).db)
  {
    MomentReplays(init, run, i);
    MomentReplays(init, run, |run| - 1);
    HistoryGrows(init, run, i);
    more := SuffixReplays(init, run[i].history, Last(run).history);
  }

  lemma SuffixReplays(init: Db, earlier: seq<Event>, later: seq<Event>) returns (more: seq<Event>)
    requires earlier <= later && Replay(init, later).Some?
    ensures earlier + more == later
    ensures Replay(init, earlier).Some? && Replay(Replay(init, earlier).value, more) == Replay(init, later)
  {
    more := later[|earlier|..];
    assert earlier + more == later;
    ReplaySplit(init, earlier, more);
  }

  /** Main result: the compare-and-set of carts and stock has no ABA. At any two moments of a run, a cart row id with
      the same version is the same row with the same quantity, the same product version means the same stock,
      and a deleted row id never comes back. */
  lemma SameVersionSameRow(init: Db, run: seq<State>, i: nat, id: nat, pid: nat)
    requires CartsOk(init) && Run(init, run) && i < |run|
    ensures var db, db' := run[i].db, Last(run).db;
            && (id in db.carts && id in db'.carts && db'.carts[id].version == db.carts[id].version ==>
                  db'.carts[id] == db.carts[id])
            && (id in db.owners && id !in db.carts ==> id !in db'.carts)
            && (pid in db.products ==> pid in db'.products)
            && (pid in db.products && db'.products[pid].version == db.products[pid].version ==>
                  db'.products[pid].stock == db.products[pid].stock)
  {
    var more := HistoryBetween(init, run, i);
    NoAba(run[i].db, more, id, pid);
  }
}
