/** What each service leaves in the tables when it commits, in whatever interleaving: on the rows as they are at that
    moment, and for the caller who asked. */
module Commits {
  import opened Schema
  import opened Serial
  import opened Orders
  import opened Engine
  import opened Serializable
  import opened Guarantees
  import opened CartRuns
  import opened CartReads
  import opened RowByRow

  // ----- whose orders are paid and cancelled -----

  /** Staff, and calls without a payer, may pay any order, others their own. */
  predicate MayPay(payer: Option<Actor>, user: nat) {
    payer.Some? && !payer.value.staff ==> payer.value.user == user
  }

  ghost predicate OwnOrder(db: Db, oid: nat, user: nat) {
    oid in db.orders && db.orders[oid].user == user
  }

  /** A payment or cancellation that got past its check of the caller is for an order of that caller. */
  ghost predicate Entitled(db: Db, x: Txn) {
    match (x.req, x.pc)
    case (Pay(oid, _, _), OrderLocked(o)) => OwnOrder(db, oid, o.user)
    case (Pay(oid, _, payer), PaymentLocked(o, _)) => OwnOrder(db, oid, o.user) && MayPay(payer, o.user)
    case (Pay(oid, _, payer), Ready(_)) => oid in db.orders && MayPay(payer, db.orders[oid].user)
    case (Cancel(oid, owner), OrderLocked(o)) => OwnOrder(db, oid, o.user) && (owner.Some? ==> owner.value == o.user)
    case (Cancel(oid, owner), Ready(_)) => oid in db.orders && (owner.Some? ==> owner.value == db.orders[oid].user)
    case _ => true
  }

  ghost predicate UsersKept(db: Db, db': Db) {
    forall oid :: oid in db.orders ==> oid in db'.orders && db'.orders[oid].user == db.orders[oid].user
  }

  lemma EntitledStable(db: Db, db': Db, x: Txn)
    requires UsersKept(db, db') && Entitled(db, x)
    ensures Entitled(db', x)
  {}

  lemma StartEntitles(s: State, t: nat, x: Txn, x': Txn)
    requires x.pc.Start? && StartMoves(s, t, x, x')
    ensures Entitled(s.db, x')
  {}

  lemma LockedEntitles(s: State, t: nat, x: Txn, x': Txn)
    requires LockedPc(x.pc) && Entitled(s.db, x) && LockedMoves(s, t, x, x')
    ensures Entitled(s.db, x')
  {}

  lemma CheckoutEntitles(s: State, t: nat, x: Txn, x': Txn)
    requires x.req.Checkout? && CheckoutPc(x.pc) && CheckoutMoves(s, t, x, x')
    ensures Entitled(s.db, x')
  {}

  lemma OptimisticEntitles(s: State, t: nat, x: Txn, x': Txn)
    requires OptimisticPc(x.pc) && OptimisticMoves(s, t, x, x')
    ensures Entitled(s.db, x')
  {}

  lemma MoveEntitles(s: State, t: nat, x: Txn, x': Txn)
    requires Entitled(s.db, x) && Moves(s, t, x, x')
    ensures Entitled(s.db, x')
  {
    if x.pc.Start? {
      StartEntitles(s, t, x, x');
    } else if CheckoutPc(x.pc) {
      CheckoutEntitles(s, t, x, x');
    } else if OptimisticPc(x.pc) {
      OptimisticEntitles(s, t, x, x');
    } else {
      LockedEntitles(s, t, x, x');
    }
  }

  ghost predicate AllEntitled(s: State) {
    forall t :: t in s.txns ==> Entitled(s.db, s.txns[t])
  }

  lemma CommitKeepsEntitled(s: State, s': State, t: nat)
    requires AllEntitled(s) && Commits(s, s', t) && UsersKept(s.db, s'.db)
    ensures AllEntitled(s')
  {
    forall u | u in s'.txns && u != t ensures Entitled(s'.db, s'.txns[u]) {
      EntitledStable(s.db, s'.db, s.txns[u]);
    }
  }

  lemma WorkKeepsEntitled(s: State, s': State, t: nat)
    requires AllEntitled(s) && (Works(s, s', t) || Crashes(s, s', t) || Arrives(s, s', t))
    ensures AllEntitled(s')
  {
    if Works(s, s', t) {
      MoveEntitles(s, t, s.txns[t], s'.txns[t]);
    }
    forall u | u in s'.txns && u != t ensures Entitled(s'.db, s'.txns[u]) {
      assert u in s.txns && s'.txns[u] == s.txns[u] && s'.db == s.db;
    }
  }

  lemma StepKeepsEntitled(init: Db, s: State, s': State)
    requires Inv(init, s) && AllEntitled(s) && Step(s, s')
    ensures AllEntitled(s')
  {
    var t :| Works(s, s', t) || Commits(s, s', t) || Crashes(s, s', t) || Arrives(s, s', t);
    if Commits(s, s', t) {
      CommitIsAtomic(init, s, s', t);
      TotalsFixed(s.db, s.txns[t].pc.ev);
      CommitKeepsEntitled(s, s', t);
    } else {
      WorkKeepsEntitled(s, s', t);
    }
  }

  lemma {:induction false} RunEntitles(init: Db, run: seq<State>, i: nat)
    requires CartsOk(init) && Run(init, run) && i < |run|
    ensures AllEntitled(run[i])
  {
    if i > 0 {
      RunEntitles(init, run, i - 1);
      MomentHolds(init, run, i - 1);
      StepKeepsEntitled(init, run[i - 1], run[i]);
    }
  }

  // ----- what a commit leaves -----

  /** Main result: when a quantity change commits, the user's row of the product holds exactly the requested quantity,
      whatever it held before, one version on and with the time of the change; nothing else changes. */
  lemma SetLeavesTheQuantity(init: Db, run: seq<State>, s': State, t: nat) returns (id: nat, at: nat)
    requires CartsOk(init) && Run(init, run) && Commits(Last(run), s', t)
    requires Last(run).txns[t].req.CartSet? && Last(run).txns[t].req.qty > 0
    ensures var db, req := Last(run).db, Last(run).txns[t].req;
            && id in db.carts && db.carts[id].user == req.user && db.carts[id].pid == req.pid
            && s'.db == db.(carts := db.carts[id := CartRow(req.user, req.pid, req.qty, db.carts[id].version + 1, at)])
  {
    CommitIsAimed(init, run, s', t);
    var db, ev := Last(run).db, Last(run).txns[t].pc.ev;
    SettingEvent(db, Last(run).txns[t].req, ev);
    CartRows(db, ev);
    id, at := ev.id, ev.at;
  }

  lemma SettingEvent(db: Db, req: Request, ev: Event)
    requires req.CartSet? && req.qty > 0 && Serves(req, ev) && Accepts(db, ev) && AimedEvent(db, req, ev)
    ensures ev.RowSet? && ev.qty == req.qty && ev.id in db.carts
    ensures db.carts[ev.id].user == req.user && db.carts[ev.id].pid == req.pid
  {}

  /** Main result: a restock adds its units, an optimistic deduction takes its units from a stock that suffices, an edit
      replaces price and active flag; version and log move with every stock write. */
  lemma StockWritersCommit(init: Db, run: seq<State>, s': State, t: nat)
    requires CartsOk(init) && Run(init, run) && Commits(Last(run), s', t)
    ensures var db, req := Last(run).db, Last(run).txns[t].req;
            && (req.Restock? ==>
                  && req.pid in db.products
                  && s'.db == db.(products := db.products[req.pid := Product(db.products[req.pid].stock + req.amount,
                                    db.products[req.pid].version + 1, db.products[req.pid].price,
                                    db.products[req.pid].active)],
                                  log := db.log + [LogEntry(req.pid, req.amount, Restocking)]))
            && (req.Deduct? ==>
                  && req.pid in db.products && db.products[req.pid].stock >= req.units
                  && s'.db == db.(products := db.products[req.pid := Product(db.products[req.pid].stock - req.units,
                                    db.products[req.pid].version + 1, db.products[req.pid].price,
                                    db.products[req.pid].active)],
                                  log := db.log + [LogEntry(req.pid, 0 - req.units, Purchase)]))
            && (req.Edit? ==>
                  && req.pid in db.products
                  && s'.db == db.(products := db.products[req.pid := Product(db.products[req.pid].stock,
                                    db.products[req.pid].version, req.price, req.active)]))
  {
    CommitIsServed(init, run, s', t);
    var ev := Last(run).txns[t].pc.ev;
    if ev.Restocked? || ev.Deducted? || ev.Edited? {
      ProductRows(Last(run).db, ev);
    }
  }

  /** Main result: a payment completes the pending payment of an order that is not cancelled and that the payer may pay,
      with the requested method; a cancellation cancels an order that is PENDING or CONFIRMED and its owner's; a status
      update sets the requested status; nothing else changes. */
  lemma OrderWritersCommit(init: Db, run: seq<State>, s': State, t: nat)
    requires CartsOk(init) && Run(init, run) && Commits(Last(run), s', t)
    ensures var db, req := Last(run).db, Last(run).txns[t].req;
            && (req.Pay? ==>
                  && req.oid in db.orders && req.oid in db.payments
                  && (req.payer.Some? && !req.payer.value.staff ==> req.payer.value.user == db.orders[req.oid].user)
                  && db.orders[req.oid].status != Cancelled && db.payments[req.oid].status != Completed
                  && s'.db == db.(orders := db.orders[req.oid := Order(db.orders[req.oid].user, Processing,
                                                                          db.orders[req.oid].total)],
                                  payments := db.payments[req.oid := Payment(db.payments[req.oid].amount, Completed,
                                                                             req.how)]))
            && (req.Cancel? ==>
                  && req.oid in db.orders && (req.owner.Some? ==> req.owner.value == db.orders[req.oid].user)
                  && (db.orders[req.oid].status == Pending || db.orders[req.oid].status == Confirmed)
                  && s'.db == db.(orders := db.orders[req.oid := Order(db.orders[req.oid].user, Cancelled,
                                                                          db.orders[req.oid].total)]))
            && (req.SetStatus? ==>
                  && req.oid in db.orders
                  && s'.db == db.(orders := db.orders[req.oid := Order(db.orders[req.oid].user, req.status,
                                                                          db.orders[req.oid].total)]))
  {
    CommitIsServed(init, run, s', t);
    RunEntitles(init, run, |run| - 1);
    var ev := Last(run).txns[t].pc.ev;
    assert Entitled(Last(run).db, Last(run).txns[t]);
    if ev.Paid? || ev.Cancelling? || ev.StatusSet? {
      OrderRows(Last(run).db, ev);
    }
  }

  /** The purchase that a committing checkout makes, and the moment at which it read the cart. */
  lemma CheckoutEvent(init: Db, run: seq<State>, s': State, t: nat) returns (ev: Event, i: nat)
    requires CartsOk(init) && Run(init, run) && Commits(Last(run), s', t) && Last(run).txns[t].req.Checkout?
    ensures ev.Bought? && Last(run).txns[t].req == Checkout(ev.tender, ev.user)
    ensures Accepts(Last(run).db, ev) && s'.db == Perform(Last(run).db, ev)
    ensures ReadAt(run, i, t, Last(run).txns[t].req.tender, Last(run).txns[t].req.user, ev.lines)
    ensures forall id :: id in ev.gone ==> id in Last(run).db.carts && Last(run).db.carts[id].user == ev.user
  {
    CommitIsServed(init, run, s', t);
    ev := Last(run).txns[t].pc.ev;
    i := ReadyWasRead(init, run, t);
    CheckoutReady(init, run, t);
  }

  /** Main result: a committing checkout bills the lines it read, each of which can be served: the order, its payment
      and, by wallet, the debit carry their total at the prices of this moment. */
  lemma CheckoutCommits(init: Db, run: seq<State>, s': State, t: nat) returns (lines: seq<Line>, total: int, oid: nat)
    requires CartsOk(init) && Run(init, run) && Commits(Last(run), s', t) && Last(run).txns[t].req.Checkout?
    ensures exists i :: ReadAt(run, i, t, Last(run).txns[t].req.tender, Last(run).txns[t].req.user, lines)
    ensures Stocked(Last(run).db.products, lines) && total == Total(Last(run).db.products, lines)
    ensures forall k :: 0 <= k < |lines| ==> Last(run).db.products[lines[k].pid].stock >= lines[k].qty
    ensures oid !in Last(run).db.orders
    ensures s'.db.orders == Last(run).db.orders[oid := Order(Last(run).txns[t].req.user, Confirmed, total)]
    ensures Last(run).txns[t].req.tender == ByCard ==>
              && s'.db.payments == Last(run).db.payments[oid := Payment(total, Awaiting, CreditCard)]
              && s'.db.wallets == Last(run).db.wallets
    ensures Last(run).txns[t].req.tender == ByWallet ==>
              && s'.db.payments == Last(run).db.payments[oid := Payment(total, Completed, WalletBalance)]
              && DebitedBy(Last(run).db.wallets, s'.db.wallets, Last(run).txns[t].req.user, total)
  {
    var ev, i := CheckoutEvent(init, run, s', t);
    lines, oid := ev.lines, ev.oid;
    total := SaleBooked(Last(run).db, ev, s'.db);
  }

  /** The user's wallet held enough, and holds that much less; the others are as they were. */
  predicate DebitedBy(wallets: map<nat, int>, wallets': map<nat, int>, user: nat, total: int) {
    user in wallets && wallets[user] >= total && wallets' == wallets[user := wallets[user] - total]
  }

  lemma SaleBooked(db: Db, ev: Event, db': Db) returns (total: int)
    requires ev.Bought? && Accepts(db, ev) && db' == Perform(db, ev)
    ensures Stocked(db.products, ev.lines) && total == Total(db.products, ev.lines)
    ensures forall k :: 0 <= k < |ev.lines| ==> db.products[ev.lines[k].pid].stock >= ev.lines[k].qty
    ensures ev.oid !in db.orders && db'.orders == db.orders[ev.oid := Order(ev.user, Confirmed, total)]
    ensures ev.tender == ByCard ==>
              db'.payments == db.payments[ev.oid := Payment(total, Awaiting, CreditCard)] && db'.wallets == db.wallets
    ensures ev.tender == ByWallet ==>
              && db'.payments == db.payments[ev.oid := Payment(total, Completed, WalletBalance)]
              && DebitedBy(db.wallets, db'.wallets, ev.user, total)
  {
    PurchaseRows(db, ev);
    total := Total(db.products, ev.lines);
  }

  /** Main result: it takes rows out of the cart table, only its user's, and leaves the others as they are. */
  lemma CheckoutEmpties(init: Db, run: seq<State>, s': State, t: nat)
    requires CartsOk(init) && Run(init, run) && Commits(Last(run), s', t) && Last(run).txns[t].req.Checkout?
    ensures s'.db.owners == Last(run).db.owners
    ensures forall id :: id in s'.db.carts ==> id in Last(run).db.carts && s'.db.carts[id] == Last(run).db.carts[id]
    ensures forall id :: id in Last(run).db.carts && id !in s'.db.carts ==>
              Last(run).db.carts[id].user == Last(run).txns[t].req.user
  {
    var ev, i := CheckoutEvent(init, run, s', t);
    PurchaseRows(Last(run).db, ev);
  }

  /** Main result: in the same commit each product of the lines loses exactly its line's quantity, with one version
      more, and other products stay as they are. */
  lemma CheckoutSells(init: Db, run: seq<State>, s': State, t: nat, pid: nat) returns (lines: seq<Line>, i: nat)
    requires CartsOk(init) && Run(init, run) && Commits(Last(run), s', t) && Last(run).txns[t].req.Checkout?
    ensures var req := Last(run).txns[t].req; ReadAt(run, i, t, req.tender, req.user, lines)
    ensures pid in s'.db.products <==> pid in Last(run).db.products
    ensures pid in Last(run).db.products && (forall k :: 0 <= k < |lines| ==> lines[k].pid != pid) ==>
              s'.db.products[pid] == Last(run).db.products[pid]
    ensures pid in Last(run).db.products ==>
              var p := Last(run).db.products[pid];
              forall k :: 0 <= k < |lines| && lines[k].pid == pid ==>
                s'.db.products[pid] == Product(p.stock - lines[k].qty, p.version + 1, p.price, p.active)
  {
    var ev;
    ev, i := CheckoutEvent(init, run, s', t);
    lines := ev.lines;
    PurchasedProducts(Last(run).db, ev, pid);
  }
}
