/** Every run of the engine is equivalent to running its committed transactions one after another, in commit
    order: the committed tables are exactly what that serial history produces, and transactions that were
    refused, lost a conflict or crashed leave no trace. */
module Serializable {
  import opened Schema
  import opened Serial
  import opened Evolution
  import opened Engine

  // ----- what one committed transaction reads and writes -----

  function Pick(products: map<nat, Product>, pids: set<nat>): map<nat, Product> {
    map p | p in pids && p in products :: products[p]
  }

  function UserKeys(tender: Tender, user: nat): set<Key> {
    if tender == ByWallet then {UserKey(user)} else {}
  }

  function ProductKeys(pids: set<nat>): set<Key> {
    set p | p in pids :: ProductKey(p)
  }

  /** The keys that cover everything a transaction's effect depends on or changes. */
  function Footprint(ev: Event): set<Key> {
    match ev
    case Bought(tender, user, lines, oid, gone) =>
      UserKeys(tender, user) + ProductKeys(Pids(lines)) + {OrderKey(oid), PaymentKey(oid)} + RowKeys(gone)
    case Restocked(pid, _) => {ProductKey(pid)}
    case Deducted(pid, _) => {ProductKey(pid)}
    case Edited(pid, _, _) => {ProductKey(pid)}
    case Paid(oid, _) => {OrderKey(oid), PaymentKey(oid)}
    case Cancelling(oid) => {OrderKey(oid)}
    case StatusSet(oid, _) => {OrderKey(oid)}
    case RowAdded(id, row) => {SlotKey(row.user, row.pid), RowKey(id)}
    case RowBumped(id, _, _) => {RowKey(id)}
    case RowSet(id, _, _) => {RowKey(id)}
    case RowsDeleted(ids) => RowKeys(ids)
  }

  lemma StockedPick(products: map<nat, Product>, lines: seq<Line>)
    requires Stocked(products, lines)
    ensures Stocked(Pick(products, Pids(lines)), lines)
  {
    forall i | 0 <= i < |lines| ensures lines[i].pid in Pick(products, Pids(lines)) {
      assert lines[i].pid in Pids(lines);
    }
  }

  /** The rows a checkout writes, computed from its copies of the product rows and the wallet balance. */
  function SaleWrites(rows: map<nat, Product>, tender: Tender, user: nat, balance: int, lines: seq<Line>, oid: nat,
                      gone: set<nat>): Writes
    requires Stocked(rows, lines)
  {
    var total := Total(rows, lines);
    Writes(Sell(rows, lines), if tender == ByWallet then map[user := balance - total] else map[], map[], gone,
           map[oid := Order(user, Confirmed, total)], ItemsOf(oid, rows, lines),
           map[oid := OpeningPayment(tender, total)], SaleLog(lines))
  }

  /** The rows a transaction that runs alone would write. */
  function Effect(db: Db, ev: Event): Writes
    requires Accepts(db, ev)
  {
    match ev
    case Bought(tender, user, lines, oid, gone) =>
      StockedPick(db.products, lines);
      SaleWrites(Pick(db.products, Pids(lines)), tender, user, if tender == ByWallet then db.wallets[user] else 0,
                 lines, oid, gone)
    case Restocked(pid, amount) =>
      NO_WRITES.(products := map[pid := Taken(db.products[pid], 0 - amount)],
                 log := [LogEntry(pid, amount, Restocking)])
    case Deducted(pid, units) =>
      NO_WRITES.(products := map[pid := Taken(db.products[pid], units)], log := [LogEntry(pid, 0 - units, Purchase)])
    case Edited(pid, price, active) =>
      NO_WRITES.(products := map[pid := db.products[pid].(price := price, active := active)])
    case Paid(oid, how) =>
      NO_WRITES.(payments := map[oid := db.payments[oid].(status := Completed, how := how)],
                 orders := map[oid := db.orders[oid].(status := Processing)])
    case Cancelling(oid) => NO_WRITES.(orders := map[oid := db.orders[oid].(status := Cancelled)])
    case StatusSet(oid, status) => NO_WRITES.(orders := map[oid := db.orders[oid].(status := status)])
    case RowAdded(id, row) => NO_WRITES.(carts := map[id := row])
    case RowBumped(id, extra, _) => NO_WRITES.(carts := map[id := Bumped(db.carts[id], extra)])
    case RowSet(id, qty, at) => NO_WRITES.(carts := map[id := SetTo(db.carts[id], qty, at)])
    case RowsDeleted(ids) => NO_WRITES.(gone := ids)
  }

  lemma NothingWritten<V>(m: map<nat, V>)
    ensures m + map[] == m && m - {} == m
  {}

  lemma OneWritten<V>(m: map<nat, V>, k: nat, v: V)
    ensures m + map[k := v] == m[k := v]
  {}

  lemma NoneEnrolled(owners: map<nat, nat>)
    ensures Enrol(owners, map[]) == owners
  {}

  lemma OneEnrolled(owners: map<nat, nat>, id: nat, row: CartRow)
    ensures Enrol(owners, map[id := row]) == owners[id := row.user]
  {
    assert (map i | i in map[id := row] :: map[id := row][i].user) == map[id := row.user];
  }

  /** A checkout's writes, computed from copies of the locked rows, are those computed from the table. */
  lemma SaleFromCopies(db: Db, lines: seq<Line>, oid: nat)
    requires Stocked(db.products, lines)
    ensures var rows := Pick(db.products, Pids(lines));
            && Stocked(rows, lines)
            && db.products + Sell(rows, lines) == Sell(db.products, lines)
            && Total(rows, lines) == Total(db.products, lines)
            && ItemsOf(oid, rows, lines) == ItemsOf(oid, db.products, lines)
  {
    var rows := Pick(db.products, Pids(lines));
    StockedPick(db.products, lines);
    SellFromCopies(db.products, rows, lines);
    TotalLocal(rows, db.products, oid, lines);
  }

  lemma SaleInstalled(db: Db, w: Writes, user: nat, oid: nat)
    requires w.carts == map[] && w.orders.Keys == {oid} && w.payments.Keys == {oid} && w.wallets.Keys <= {user}
    ensures Install(db, w) ==
            Db(db.products + w.products, if user in w.wallets then db.wallets[user := w.wallets[user]] else db.wallets,
               db.carts - w.gone, db.owners, db.orders[oid := w.orders[oid]], db.items + w.items,
               db.payments[oid := w.payments[oid]], db.log + w.log)
  {
    NothingWritten(db.carts);
    NoneEnrolled(db.owners);
    assert w.orders == map[oid := w.orders[oid]] && w.payments == map[oid := w.payments[oid]];
    OneWritten(db.orders, oid, w.orders[oid]);
    OneWritten(db.payments, oid, w.payments[oid]);
  }

  lemma PurchaseWrites(db: Db, ev: Event)
    requires ev.Bought? && Accepts(db, ev)
    ensures var w, total := Effect(db, ev), Total(db.products, ev.lines);
            && db.products + w.products == Sell(db.products, ev.lines) && w.carts == map[] && w.gone == ev.gone
            && w.wallets == (if ev.tender == ByWallet then map[ev.user := db.wallets[ev.user] - total] else map[])
            && w.orders == map[ev.oid := Order(ev.user, Confirmed, total)]
            && w.items == ItemsOf(ev.oid, db.products, ev.lines)
            && w.payments == map[ev.oid := OpeningPayment(ev.tender, total)]
            && w.log == SaleLog(ev.lines)
  {
    SaleFromCopies(db, ev.lines, ev.oid);
  }

  lemma WritesArePurchase(db: Db, w: Writes, ev: Event)
    requires ev.Bought? && Accepts(db, ev)
    requires var total := Total(db.products, ev.lines);
             && db.products + w.products == Sell(db.products, ev.lines) && w.carts == map[] && w.gone == ev.gone
             && w.wallets == (if ev.tender == ByWallet then map[ev.user := db.wallets[ev.user] - total] else map[])
             && w.orders == map[ev.oid := Order(ev.user, Confirmed, total)]
             && w.items == ItemsOf(ev.oid, db.products, ev.lines)
             && w.payments == map[ev.oid := OpeningPayment(ev.tender, total)]
             && w.log == SaleLog(ev.lines)
    ensures Install(db, w) == Perform(db, ev)
  {
    SaleInstalled(db, w, ev.user, ev.oid);
  }

  lemma PurchaseIsPerform(db: Db, ev: Event)
    requires ev.Bought? && Accepts(db, ev)
    ensures Install(db, Effect(db, ev)) == Perform(db, ev)
  {
    PurchaseWrites(db, ev);
    WritesArePurchase(db, Effect(db, ev), ev);
  }

  lemma EmptyWrites(db: Db)
    ensures db.products + map[] == db.products && db.wallets + map[] == db.wallets
    ensures db.carts + map[] - {} == db.carts && Enrol(db.owners, map[]) == db.owners
    ensures db.orders + map[] == db.orders && db.payments + map[] == db.payments
    ensures db.items + [] == db.items && db.log + [] == db.log
  {
    NothingWritten(db.products);
    NothingWritten(db.wallets);
    NothingWritten(db.carts);
    NothingWritten(db.orders);
    NothingWritten(db.payments);
    NoneEnrolled(db.owners);
  }

  lemma OneRowInstalled(db: Db, id: nat, row: CartRow)
    ensures Install(db, NO_WRITES.(carts := map[id := row]))
            == db.(carts := db.carts[id := row], owners := db.owners[id := row.user])
  {
    EmptyWrites(db);
    OneEnrolled(db.owners, id, row);
    OneWritten(db.carts, id, row);
    NothingWritten(db.carts[id := row]);
  }

  lemma AddedEffect(db: Db, ev: Event)
    requires Accepts(db, ev) && ev.RowAdded?
    ensures Install(db, Effect(db, ev)) == Perform(db, ev)
  {
    OneRowInstalled(db, ev.id, ev.row);
  }

  lemma ChangedInstalled(db: Db, id: nat, row: CartRow)
    requires CartsOk(db) && id in db.carts && row.user == db.carts[id].user
    ensures Install(db, NO_WRITES.(carts := map[id := row])) == db.(carts := db.carts[id := row])
  {
    OneRowInstalled(db, id, row);
    assert db.owners[id := row.user] == db.owners;
  }

  lemma ChangedEffect(db: Db, ev: Event)
    requires CartsOk(db) && Accepts(db, ev) && (ev.RowBumped? || ev.RowSet?)
    ensures Install(db, Effect(db, ev)) == Perform(db, ev)
  {
    var row := db.carts[ev.id];
    ChangedInstalled(db, ev.id, if ev.RowBumped? then Bumped(row, ev.extra) else SetTo(row, ev.qty, ev.at));
  }

  lemma PlainEffect(db: Db, ev: Event)
    requires Accepts(db, ev) && !ev.Bought? && !ev.RowAdded? && !ev.RowBumped? && !ev.RowSet?
    ensures Install(db, Effect(db, ev)) == Perform(db, ev)
  {
    EmptyWrites(db);
    match ev
    case Restocked(pid, amount) => OneWritten(db.products, pid, Taken(db.products[pid], 0 - amount));
    case Deducted(pid, units) => OneWritten(db.products, pid, Taken(db.products[pid], units));
    case Edited(pid, price, active) =>
      OneWritten(db.products, pid, db.products[pid].(price := price, active := active));
    case Paid(oid, how) =>
      OneWritten(db.payments, oid, db.payments[oid].(status := Completed, how := how));
      OneWritten(db.orders, oid, db.orders[oid].(status := Processing));
    case Cancelling(oid) => OneWritten(db.orders, oid, db.orders[oid].(status := Cancelled));
    case StatusSet(oid, status) => OneWritten(db.orders, oid, db.orders[oid].(status := status));
    case RowsDeleted(ids) => NothingWritten(db.carts);
  }

  /** Installing those rows is the same as running the service alone. */
  lemma EffectIsPerform(db: Db, ev: Event)
    requires CartsOk(db) && Accepts(db, ev)
    ensures Install(db, Effect(db, ev)) == Perform(db, ev)
  {
    if ev.Bought? {
      PurchaseIsPerform(db, ev);
    } else if ev.RowAdded? {
      AddedEffect(db, ev);
    } else if ev.RowBumped? || ev.RowSet? {
      ChangedEffect(db, ev);
    } else {
      PlainEffect(db, ev);
    }
  }

  /** The row behind a key is the same in both states; a free cart slot stays free. */
  ghost predicate Same(db: Db, db': Db, k: Key) {
    match k
    case UserKey(u) => (u in db.wallets <==> u in db'.wallets) && (u in db.wallets ==> db'.wallets[u] == db.wallets[u])
    case ProductKey(p) =>
      && (p in db.products <==> p in db'.products) && (p in db.products ==> db'.products[p] == db.products[p])
    case OrderKey(o) => (o in db.orders <==> o in db'.orders) && (o in db.orders ==> db'.orders[o] == db.orders[o])
    case PaymentKey(o) =>
      && (o in db.payments <==> o in db'.payments) && (o in db.payments ==> db'.payments[o] == db.payments[o])
    case SlotKey(u, p) => !HasRow(db.carts, u, p) ==> !HasRow(db'.carts, u, p)
    case RowKey(id) =>
      && (id in db.carts <==> id in db'.carts) && (id in db.carts ==> db'.carts[id] == db.carts[id])
      && (id in db.owners <==> id in db'.owners)
  }

  ghost predicate AllSame(db: Db, db': Db, keys: set<Key>) {
    forall k :: k in keys ==> Same(db, db', k)
  }

  lemma PurchaseFrame(db: Db, ev: Event, k: Key)
    requires CartsOk(db) && Accepts(db, ev) && k !in Footprint(ev) && ev.Bought?
    ensures Same(db, Perform(db, ev), k)
  {
    match k
    case ProductKey(p) =>
      if p in db.products {
        assert forall i :: 0 <= i < |ev.lines| ==> ev.lines[i].pid != p by {
          assert forall i :: 0 <= i < |ev.lines| ==> ev.lines[i].pid in Pids(ev.lines);
        }
        SellAt(db.products, ev.lines, p);
      }
    case RowKey(id) => RowKeysHold(ev, id);
    case _ =>
  }

  lemma CartFrame(db: Db, ev: Event, k: Key)
    requires CartsOk(db) && Accepts(db, ev) && k !in Footprint(ev)
    requires ev.RowAdded? || ev.RowBumped? || ev.RowSet? || ev.RowsDeleted?
    ensures Same(db, Perform(db, ev), k)
  {
    if k.RowKey? {
      RowKeysHold(ev, k.id);
    }
  }

  /** A transaction changes nothing outside its footprint. */
  lemma Frame(db: Db, ev: Event, k: Key)
    requires CartsOk(db) && Accepts(db, ev) && k !in Footprint(ev)
    ensures Same(db, Perform(db, ev), k)
  {
    if ev.Bought? {
      PurchaseFrame(db, ev, k);
    } else if ev.RowAdded? || ev.RowBumped? || ev.RowSet? || ev.RowsDeleted? {
      CartFrame(db, ev, k);
    }
  }

  lemma RowKeysHold(ev: Event, id: nat)
    ensures ev.Bought? && id in ev.gone ==> RowKey(id) in Footprint(ev)
    ensures ev.RowsDeleted? && id in ev.ids ==> RowKey(id) in Footprint(ev)
  {}

  lemma PickSame(db: Db, db': Db, pids: set<nat>)
    requires AllSame(db, db', ProductKeys(pids))
    ensures Pick(db'.products, pids) == Pick(db.products, pids)
  {
    forall p | p in pids ensures Same(db, db', ProductKey(p)) {
      assert ProductKey(p) in ProductKeys(pids);
    }
  }

  lemma RefusalPick(products: map<nat, Product>, lines: seq<Line>)
    ensures Refusal(Pick(products, Pids(lines)), lines).None? <==> Refusal(products, lines).None?
  {
    assert forall i :: 0 <= i < |lines| ==> lines[i].pid in Pids(lines);
  }

  lemma RowsSame(db: Db, db': Db, ids: set<nat>)
    requires ids <= db.carts.Keys && AllSame(db, db', RowKeys(ids))
    ensures ids <= db'.carts.Keys
  {
    forall id | id in ids ensures id in db'.carts {
      assert RowKey(id) in RowKeys(ids);
      assert Same(db, db', RowKey(id));
    }
  }

  lemma PurchaseLocal(db: Db, db': Db, ev: Event)
    requires ev.Bought? && Accepts(db, ev) && AllSame(db, db', Footprint(ev))
    ensures Accepts(db', ev) && Effect(db', ev) == Effect(db, ev)
  {
    var Bought(tender, user, lines, oid, gone) := ev;
    assert ProductKeys(Pids(lines)) <= Footprint(ev) && RowKeys(gone) <= Footprint(ev);
    PickSame(db, db', Pids(lines));
    RowsSame(db, db', gone);
    RefusalPick(db.products, lines);
    RefusalPick(db'.products, lines);
    TotalPick(db.products, lines);
    TotalPick(db'.products, lines);
    assert Same(db, db', OrderKey(oid)) && Same(db, db', PaymentKey(oid));
    if tender == ByWallet {
      assert Same(db, db', UserKey(user));
    }
  }

  lemma TotalPick(products: map<nat, Product>, lines: seq<Line>)
    requires Stocked(products, lines)
    ensures Stocked(Pick(products, Pids(lines)), lines)
    ensures Total(Pick(products, Pids(lines)), lines) == Total(products, lines)
  {
    StockedPick(products, lines);
    TotalLocal(Pick(products, Pids(lines)), products, 0, lines);
  }

  /** Acceptance and effect depend only on the footprint. */
  lemma EffectLocal(db: Db, db': Db, ev: Event)
    requires Accepts(db, ev) && AllSame(db, db', Footprint(ev))
    ensures Accepts(db', ev) && Effect(db', ev) == Effect(db, ev)
  {
    match ev
    case Bought(_, _, _, _, _) => PurchaseLocal(db, db', ev);
    case RowsDeleted(ids) => RowsSame(db, db', ids);
    case RowAdded(id, row) =>
      assert Same(db, db', RowKey(id)) && Same(db, db', SlotKey(row.user, row.pid));
    case RowBumped(id, _, _) => assert Same(db, db', RowKey(id));
    case RowSet(id, _, _) => assert Same(db, db', RowKey(id));
    case Restocked(pid, _) => assert Same(db, db', ProductKey(pid));
    case Deducted(pid, _) => assert Same(db, db', ProductKey(pid));
    case Edited(pid, _, _) => assert Same(db, db', ProductKey(pid));
    case Paid(oid, _) => assert Same(db, db', OrderKey(oid)) && Same(db, db', PaymentKey(oid));
    case Cancelling(oid) => assert Same(db, db', OrderKey(oid));
    case StatusSet(oid, _) => assert Same(db, db', OrderKey(oid));
  }

  // ----- what every transaction knows -----

  ghost predicate BalanceKnown(db: Db, req: Request, balance: int)
    requires req.Checkout?
  {
    req.tender == ByWallet ==> req.user in db.wallets && db.wallets[req.user] == balance
  }

  /** The lines were read from rows issued to the user. */
  ghost predicate OwnLines(db: Db, lines: seq<Line>, user: nat) {
    forall i :: 0 <= i < |lines| ==> lines[i].row in db.owners && db.owners[lines[i].row] == user
  }

  ghost predicate Shopping(db: Db, req: Request, lines: seq<Line>) {
    req.Checkout? && lines != [] && Distinct(lines) && OwnLines(db, lines, req.user)
  }

  /** A checkout deletes only rows of its user, and no row it bills stays live. */
  ghost predicate Emptied(db: Db, ev: Event)
    requires ev.Bought?
  {
    && (forall id :: id in ev.gone ==> id in db.owners && db.owners[id] == ev.user)
    && (forall i :: 0 <= i < |ev.lines| ==> ev.lines[i].row in ev.gone || ev.lines[i].row !in db.carts)
  }

  /** The committed event is the one the request asked for. */
  ghost predicate Serves(req: Request, ev: Event) {
    match ev
    case Bought(tender, user, _, _, _) => req == Checkout(tender, user)
    case Restocked(pid, amount) => req == Restock(pid, amount)
    case Deducted(pid, units) => req == Deduct(pid, units)
    case Edited(pid, price, active) => req == Edit(pid, price, active)
    case Paid(oid, how) => req.Pay? && req.oid == oid && req.how == how
    case Cancelling(oid) => req.Cancel? && req.oid == oid
    case StatusSet(oid, status) => req == SetStatus(oid, status)
    case RowAdded(_, row) =>
      req.CartAdd? && row.user == req.user && row.pid == req.pid && row.qty == req.extra && row.version == 0
    case RowBumped(_, extra, _) => req.CartAdd? && req.extra == extra
    case RowSet(_, qty, _) => req.CartSet? && req.qty == qty && qty > 0
    case RowsDeleted(_) => req.CartSet? || req.CartRemove? || req.CartClear? || req.CartPurge?
  }

  /** The lines passed validation against current copies of the locked rows and balance. */
  ghost predicate Validated(db: Db, req: Request, lines: seq<Line>, rows: map<nat, Product>)
    requires req.Checkout?
  {
    && rows == Pick(db.products, Pids(lines)) && Refusal(rows, lines).None?
    && (req.tender == ByWallet ==> req.user in db.wallets && db.wallets[req.user] >= Total(rows, lines))
  }

  /** The product writes of a checkout that has deducted its first `done` lines. */
  ghost predicate Deducting(rows: map<nat, Product>, lines: seq<Line>, done: nat, w: Writes) {
    && done <= |lines| && Stocked(rows, lines)
    && w.products == Sell(rows, lines[..done]) && w.log == SaleLog(lines[..done])
    && w.carts == map[] && w.gone == {}
  }

  ghost predicate SoldSoFar(db: Db, req: Request, lines: seq<Line>, rows: map<nat, Product>, done: nat, w: Writes)
    requires req.Checkout?
  {
    && Validated(db, req, lines, rows) && Deducting(rows, lines, done, w)
    && w.wallets == (if req.tender == ByWallet then map[req.user := db.wallets[req.user] - Total(rows, lines)]
                     else map[])
  }

  ghost predicate SellingGood(db: Db, req: Request, held: set<Key>, w: Writes, lines: seq<Line>,
                              rows: map<nat, Product>, done: nat) {
    && Shopping(db, req, lines) && SoldSoFar(db, req, lines, rows, done, w)
    && w.orders == map[] && w.items == [] && w.payments == map[]
    && held == UserKeys(req.tender, req.user) + ProductKeys(Pids(lines))
  }

  /** A transaction's private state against the committed tables: the copies it holds under a key are current,
      its snapshots are older versions, its keys are exactly those it needs, and a transaction about to commit
      will have exactly the effect of running alone now. */
  ghost predicate Good(db: Db, x: Txn) {
    match x.pc
    case Start => x.held == {} && x.w == NO_WRITES && Admissible(x.req)
    case UserLocked(balance) =>
      && x.req.Checkout? && x.req.tender == ByWallet && BalanceKnown(db, x.req, balance)
      && x.held == {UserKey(x.req.user)} && x.w == NO_WRITES
    case Locking(balance, lines, todo, rows) =>
      && Shopping(db, x.req, lines) && BalanceKnown(db, x.req, balance)
      && Ascending(todo) && Elements(todo) <= Pids(lines)
      && rows == Pick(db.products, Pids(lines) - Elements(todo))
      && (forall p, i :: p in rows && 0 <= i < |todo| ==> p < todo[i])
      && x.held == UserKeys(x.req.tender, x.req.user) + ProductKeys(rows.Keys) && x.w == NO_WRITES
    case Selling(lines, rows, done) => SellingGood(db, x.req, x.held, x.w, lines, rows, done)
    case Billed(lines, rows, oid) =>
      && Shopping(db, x.req, lines) && SoldSoFar(db, x.req, lines, rows, |lines|, x.w)
      && oid !in db.orders && oid !in db.payments
      && x.w.orders == map[oid := Order(x.req.user, Confirmed, Total(rows, lines))]
      && x.w.items == ItemsOf(oid, rows, lines)
      && x.w.payments == map[oid := OpeningPayment(x.req.tender, Total(rows, lines))]
      && x.held == UserKeys(x.req.tender, x.req.user) + ProductKeys(Pids(lines)) + {OrderKey(oid), PaymentKey(oid)}
    case ProductLocked(p) =>
      && (x.req.Restock? || x.req.Edit?) && Admissible(x.req)
      && x.req.pid in db.products && db.products[x.req.pid] == p
      && x.held == {ProductKey(x.req.pid)} && x.w == NO_WRITES
    case Snapped(seen) =>
      && x.req.Deduct? && seen.stock >= x.req.units
      && x.req.pid in db.products && ProductGrows(seen, db.products[x.req.pid])
      && x.held == {} && x.w == NO_WRITES
    case OrderLocked(o) =>
      && (x.req.Pay? || x.req.Cancel? || x.req.SetStatus?)
      && x.req.oid in db.orders && db.orders[x.req.oid] == o
      && x.held == {OrderKey(x.req.oid)} && x.w == NO_WRITES
    case PaymentLocked(o, p) =>
      && x.req.Pay? && x.req.oid in db.orders && db.orders[x.req.oid] == o
      && x.req.oid in db.payments && db.payments[x.req.oid] == p
      && x.held == {OrderKey(x.req.oid), PaymentKey(x.req.oid)} && x.w == NO_WRITES
    case ItemWanted => x.req.CartAdd? && x.held == {} && x.w == NO_WRITES
    case RowRead(id, row) =>
      && x.req.CartAdd? && id in db.owners && (id in db.carts ==> RowGrows(row, db.carts[id]))
      && x.held == {} && x.w == NO_WRITES
    case RowAbsent => x.req.CartAdd? && x.held == {} && x.w == NO_WRITES
    case RowLocked(id, row) =>
      && (x.req.CartSet? || x.req.CartRemove?)
      && id in db.carts && db.carts[id] == row && x.held == {RowKey(id)} && x.w == NO_WRITES
    case Ready(ev) =>
      && Serves(x.req, ev) && Accepts(db, ev) && x.w == Effect(db, ev) && x.held == Footprint(ev)
      && (ev.Bought? ==> Shopping(db, x.req, ev.lines) && Emptied(db, ev))
    case Finished(_) => x.held == {} && x.w == NO_WRITES
  }

  ghost predicate Exclusive(txns: map<nat, Txn>) {
    forall t, u :: t in txns && u in txns && t != u ==> txns[t].held !! txns[u].held
  }

  ghost predicate Inv(init: Db, s: State) {
    && CartsOk(s.db)
    && Exclusive(s.txns)
    && (forall t :: t in s.txns ==> Good(s.db, s.txns[t]))
    && Replay(init, s.history) == Some(s.db)
  }

  // ----- what others commit does not disturb a transaction -----

  lemma ShoppingStable(db: Db, db': Db, req: Request, lines: seq<Line>)
    requires Evolves(db, db') && Shopping(db, req, lines)
    ensures Shopping(db', req, lines)
  {}

  lemma LockingStable(db: Db, db': Db, x: Txn)
    requires Good(db, x) && AllSame(db, db', x.held) && Evolves(db, db') && x.pc.Locking?
    ensures Good(db', x)
  {
    var Locking(balance, lines, todo, rows) := x.pc;
    ShoppingStable(db, db', x.req, lines);
    if x.req.tender == ByWallet {
      assert Same(db, db', UserKey(x.req.user));
    }
    var seen := Pids(lines) - Elements(todo);
    forall p | p in seen && p in db.products ensures db'.products[p] == db.products[p] {
      assert p in rows.Keys;
      assert Same(db, db', ProductKey(p));
    }
    assert Pick(db'.products, seen) == Pick(db.products, seen);
  }

  lemma SoldStable(db: Db, db': Db, req: Request, lines: seq<Line>, rows: map<nat, Product>, done: nat, w: Writes)
    requires req.Checkout? && SoldSoFar(db, req, lines, rows, done, w)
    requires AllSame(db, db', UserKeys(req.tender, req.user) + ProductKeys(Pids(lines)))
    ensures SoldSoFar(db', req, lines, rows, done, w)
  {
    PickSame(db, db', Pids(lines));
    if req.tender == ByWallet {
      assert Same(db, db', UserKey(req.user));
    }
  }

  lemma SaleStable(db: Db, db': Db, x: Txn)
    requires Good(db, x) && AllSame(db, db', x.held) && Evolves(db, db') && (x.pc.Selling? || x.pc.Billed?)
    ensures Good(db', x)
  {
    ShoppingStable(db, db', x.req, x.pc.lines);
    SoldStable(db, db', x.req, x.pc.lines, x.pc.rows, if x.pc.Selling? then x.pc.done else |x.pc.lines|, x.w);
    if x.pc.Billed? {
      assert Same(db, db', OrderKey(x.pc.oid)) && Same(db, db', PaymentKey(x.pc.oid));
    }
  }

  lemma ReadyStable(db: Db, db': Db, x: Txn)
    requires Good(db, x) && AllSame(db, db', x.held) && Evolves(db, db') && x.pc.Ready?
    ensures Good(db', x)
  {
    EffectLocal(db, db', x.pc.ev);
    if x.pc.ev.Bought? {
      ShoppingStable(db, db', x.req, x.pc.ev.lines);
    }
  }

  lemma SnapshotStable(db: Db, db': Db, x: Txn)
    requires Good(db, x) && Evolves(db, db') && OptimisticPc(x.pc)
    ensures Good(db', x)
  {
    if x.pc.Snapped? {
      assert ProductGrows(db.products[x.req.pid], db'.products[x.req.pid]);
    }
  }

  lemma RowsStable(db: Db, db': Db, x: Txn)
    requires Good(db, x) && AllSame(db, db', x.held) && LockedPc(x.pc)
    ensures Good(db', x)
  {
    match x.pc
    case ProductLocked(_) => assert Same(db, db', ProductKey(x.req.pid));
    case OrderLocked(_) => assert Same(db, db', OrderKey(x.req.oid));
    case PaymentLocked(_, _) => assert Same(db, db', OrderKey(x.req.oid)) && Same(db, db', PaymentKey(x.req.oid));
    case RowLocked(id, _) => assert Same(db, db', RowKey(id));
    case _ =>
  }

  lemma GoodStable(db: Db, db': Db, x: Txn)
    requires Good(db, x) && AllSame(db, db', x.held) && Evolves(db, db')
    ensures Good(db', x)
  {
    if x.pc.Locking? {
      LockingStable(db, db', x);
    } else if x.pc.Selling? || x.pc.Billed? {
      SaleStable(db, db', x);
    } else if x.pc.Ready? {
      ReadyStable(db, db', x);
    } else if x.pc.UserLocked? {
      assert Same(db, db', UserKey(x.req.user));
    } else if OptimisticPc(x.pc) {
      SnapshotStable(db, db', x);
    } else if LockedPc(x.pc) {
      RowsStable(db, db', x);
    }
  }

  /** A transaction that shares no key with the one that commits still stands. */
  lemma OtherStands(db: Db, ev: Event, held: set<Key>, y: Txn)
    requires CartsOk(db) && Accepts(db, ev) && Footprint(ev) <= held && held !! y.held && Good(db, y)
    ensures Good(Perform(db, ev), y)
  {
    EvolvesStep(db, ev);
    forall k | k in y.held ensures Same(db, Perform(db, ev), k) {
      Frame(db, ev, k);
    }
    GoodStable(db, Perform(db, ev), y);
  }

  /** A commit is a serial step. */
  lemma CommitIsSerial(init: Db, s: State, s': State, t: nat)
    requires Inv(init, s) && Commits(s, s', t)
    ensures Accepts(s.db, s.txns[t].pc.ev) && Footprint(s.txns[t].pc.ev) <= s.txns[t].held
    ensures s'.db == Perform(s.db, s.txns[t].pc.ev) && Replay(init, s'.history) == Some(s'.db) && CartsOk(s'.db)
  {
    var ev := s.txns[t].pc.ev;
    EffectIsPerform(s.db, ev);
    EvolvesStep(s.db, ev);
    ReplayStep(init, s.history, ev);
  }

  /** A commit is a serial step, and every other transaction still stands. */
  lemma CommitKeepsInv(init: Db, s: State, s': State, t: nat)
    requires Inv(init, s) && Commits(s, s', t)
    ensures Inv(init, s')
  {
    CommitIsSerial(init, s, s', t);
    forall u | u in s'.txns ensures Good(s'.db, s'.txns[u]) {
      if u != t {
        OtherStands(s.db, s.txns[t].pc.ev, s.txns[t].held, s.txns[u]);
      }
    }
  }

  // ----- a transaction's own steps -----

  predicate CartEdit(req: Request) {
    req.CartAdd? || req.CartSet? || req.CartRemove? || req.CartClear? || req.CartPurge?
  }

  lemma StartGood(s: State, t: nat, x: Txn, x': Txn)
    requires CartsOk(s.db) && Good(s.db, x) && x.pc.Start? && StartMoves(s, t, x, x')
    ensures Good(s.db, x')
  {
    if x.req.Checkout? {
      CheckoutStartGood(s, t, x, x');
    } else if CartEdit(x.req) {
      CartStartGood(s, t, x, x');
    } else {
      ShopStartGood(s, t, x, x');
    }
  }

  lemma CheckoutStartGood(s: State, t: nat, x: Txn, x': Txn)
    requires CartsOk(s.db) && Good(s.db, x) && x.pc.Start? && StartMoves(s, t, x, x') && x.req.Checkout?
    ensures Good(s.db, x')
  {
    if x.req.tender == ByCard {
      ReadsCartGood(s.db, x, x', x.req.user, 0);
    }
  }

  lemma CartStartGood(s: State, t: nat, x: Txn, x': Txn)
    requires CartsOk(s.db) && Good(s.db, x) && x.pc.Start? && StartMoves(s, t, x, x') && CartEdit(x.req)
    ensures Good(s.db, x')
  {}

  lemma ShopStartGood(s: State, t: nat, x: Txn, x': Txn)
    requires Good(s.db, x) && x.pc.Start? && StartMoves(s, t, x, x')
    requires x.req.Restock? || x.req.Edit? || x.req.Deduct? || x.req.Pay? || x.req.Cancel? || x.req.SetStatus?
    ensures Good(s.db, x')
  {}

  lemma CartIsShopping(db: Db, req: Request, lines: seq<Line>)
    requires CartsOk(db) && req.Checkout? && IsCart(db.carts, req.user, lines) && lines != []
    ensures Shopping(db, req, lines)
  {
    CartIsDistinct(db, req.user, lines);
    assert OwnLines(db, lines, req.user);
  }

  /** Nothing is locked yet. */
  lemma NothingPicked(products: map<nat, Product>, lines: seq<Line>)
    ensures Pids(lines) - Elements(SortedPids(lines)) == {}
    ensures Pick(products, Pids(lines) - Elements(SortedPids(lines))) == map[] && ProductKeys({}) == {}
  {
    assert Pids(lines) - Elements(SortedPids(lines)) == {};
  }

  lemma ReadsCartGood(db: Db, x: Txn, x': Txn, user: nat, balance: int)
    requires CartsOk(db) && x.req.Checkout? && x.req.user == user && ReadsCart(db, x, x', user, balance)
    requires BalanceKnown(db, x.req, balance) && x.held == UserKeys(x.req.tender, user) && x.w == NO_WRITES
    ensures Good(db, x')
  {
    var lines :| IsCart(db.carts, user, lines) &&
      x' == if lines == [] then Refuse(x, EmptyCart)
            else x.(pc := Locking(balance, lines, SortedPids(lines), map[]));
    if lines != [] {
      CartIsShopping(db, x.req, lines);
      NothingPicked(db.products, lines);
    }
  }

  lemma NextElement(todo: seq<nat>)
    requires todo != [] && Ascending(todo)
    ensures Ascending(todo[1..])
    ensures Elements(todo) == Elements(todo[1..]) + {todo[0]} && todo[0] !in Elements(todo[1..])
  {
    assert forall i :: 0 <= i < |todo[1..]| ==> todo[1..][i] == todo[i + 1];
    assert forall i :: 0 < i < |todo| ==> todo[i] == todo[1..][i - 1];
  }

  /** One more product locked, or skipped because it does not exist. */
  lemma PickOneMore(products: map<nat, Product>, pids: set<nat>, p: nat)
    requires p !in pids
    ensures p in products ==> Pick(products, pids + {p}) == Pick(products, pids)[p := products[p]]
    ensures p !in products ==> Pick(products, pids + {p}) == Pick(products, pids)
    ensures p in products ==>
              ProductKeys(Pick(products, pids + {p}).Keys) == ProductKeys(Pick(products, pids).Keys) + {ProductKey(p)}
  {}

  lemma NextLockGood(s: State, t: nat, x: Txn, x': Txn)
    requires Good(s.db, x) && x.pc.Locking? && x.pc.todo != [] && LockingMoves(s, t, x, x')
    ensures Good(s.db, x')
  {
    var Locking(balance, lines, todo, rows) := x.pc;
    var p, before := todo[0], Pids(lines) - Elements(todo);
    NextElement(todo);
    assert Pids(lines) - Elements(todo[1..]) == before + {p};
    PickOneMore(s.db.products, before, p);
    assert forall i :: 0 <= i < |todo[1..]| ==> todo[1..][i] == todo[i + 1];
  }

  lemma ValidatedGood(s: State, t: nat, x: Txn, x': Txn)
    requires Good(s.db, x) && x.pc.Locking? && x.pc.todo == [] && LockingMoves(s, t, x, x')
    ensures Good(s.db, x')
  {
    var Locking(balance, lines, todo, rows) := x.pc;
    assert Pids(lines) - Elements(todo) == Pids(lines);
    if x'.pc.Selling? {
      assert lines[..0] == [];
      assert rows.Keys == Pids(lines);
    }
  }

  /** The writes after one more line is deducted. */
  function TakeLine(w: Writes, l: Line): Writes
    requires l.pid in w.products
  {
    w.(products := w.products[l.pid := Taken(w.products[l.pid], l.qty)],
       log := w.log + [LogEntry(l.pid, 0 - l.qty, Purchase)])
  }

  lemma NextDeduction(rows: map<nat, Product>, lines: seq<Line>, done: nat, w: Writes)
    requires Refusal(rows, lines).None? && Distinct(lines) && done < |lines| && Deducting(rows, lines, done, w)
    ensures lines[done].pid in w.products && w.products[lines[done].pid].stock >= lines[done].qty
    ensures Deducting(rows, lines, done + 1, TakeLine(w, lines[done]))
  {
    ValidatedNeverFails(rows, lines, done);
    OneMore(rows, lines, done, 0);
  }

  lemma SoldOneMore(db: Db, req: Request, lines: seq<Line>, rows: map<nat, Product>, done: nat, w: Writes)
    requires req.Checkout? && Distinct(lines) && done < |lines| && SoldSoFar(db, req, lines, rows, done, w)
    ensures lines[done].pid in w.products && w.products[lines[done].pid].stock >= lines[done].qty
    ensures SoldSoFar(db, req, lines, rows, done + 1, TakeLine(w, lines[done]))
  {
    NextDeduction(rows, lines, done, w);
  }

  lemma DeductingGood(db: Db, req: Request, held: set<Key>, w: Writes, lines: seq<Line>, rows: map<nat, Product>,
                      done: nat)
    requires SellingGood(db, req, held, w, lines, rows, done) && done < |lines|
    ensures lines[done].pid in w.products && w.products[lines[done].pid].stock >= lines[done].qty
    ensures SellingGood(db, req, held, TakeLine(w, lines[done]), lines, rows, done + 1)
  {
    SoldOneMore(db, req, lines, rows, done, w);
  }

  /** The order is priced the same before and after the deductions. */
  lemma PricedAlike(rows: map<nat, Product>, lines: seq<Line>, oid: nat)
    requires Stocked(rows, lines)
    ensures Stocked(Sell(rows, lines), lines)
    ensures Total(Sell(rows, lines), lines) == Total(rows, lines)
    ensures ItemsOf(oid, Sell(rows, lines), lines) == ItemsOf(oid, rows, lines)
  {
    forall i | 0 <= i < |lines| ensures Sell(rows, lines)[lines[i].pid].price == rows[lines[i].pid].price {
      SellKeepsPrice(rows, lines, lines[i].pid);
    }
    TotalLocal(Sell(rows, lines), rows, oid, lines);
  }

  lemma BillingGood(s: State, t: nat, x: Txn, x': Txn)
    requires Good(s.db, x) && x.pc.Selling? && SellingMoves(s, t, x, x') && x.pc.done == |x.pc.lines|
    ensures Good(s.db, x')
  {
    var Selling(lines, rows, done) := x.pc;
    assert lines[..done] == lines;
    PricedAlike(rows, lines, x'.pc.oid);
  }

  /** Everything a checkout validated still holds when it empties the cart. */
  lemma BilledAccepts(db: Db, x: Txn, gone: set<nat>)
    requires Good(db, x) && x.pc.Billed? && gone <= db.carts.Keys
    ensures Accepts(db, Bought(x.req.tender, x.req.user, x.pc.lines, x.pc.oid, gone))
  {
    var lines := x.pc.lines;
    RefusalPick(db.products, lines);
    StockedPick(db.products, lines);
    TotalLocal(x.pc.rows, db.products, x.pc.oid, lines);
  }

  lemma BilledWrites(db: Db, x: Txn, gone: set<nat>)
    requires Good(db, x) && x.pc.Billed?
    requires Accepts(db, Bought(x.req.tender, x.req.user, x.pc.lines, x.pc.oid, gone))
    ensures x.w.(gone := gone) == Effect(db, Bought(x.req.tender, x.req.user, x.pc.lines, x.pc.oid, gone))
  {
    assert x.pc.lines[..|x.pc.lines|] == x.pc.lines;
  }

  lemma BilledHolds(db: Db, x: Txn, gone: set<nat>)
    requires CartsOk(db) && Good(db, x) && x.pc.Billed? && gone == RowsOf(db.carts, x.req.user)
    ensures var ev := Bought(x.req.tender, x.req.user, x.pc.lines, x.pc.oid, gone);
            Shopping(db, x.req, ev.lines) && Emptied(db, ev) && x.held + RowKeys(gone) == Footprint(ev)
  {}

  lemma BilledGood(s: State, t: nat, x: Txn, x': Txn)
    requires CartsOk(s.db) && Good(s.db, x) && x.pc.Billed? && EmptyingMoves(s, t, x, x')
    ensures Good(s.db, x')
  {
    var gone := RowsOf(s.db.carts, x.req.user);
    BilledAccepts(s.db, x, gone);
    BilledWrites(s.db, x, gone);
    BilledHolds(s.db, x, gone);
  }

  lemma OptimisticGood(s: State, t: nat, x: Txn, x': Txn)
    requires CartsOk(s.db) && Good(s.db, x) && OptimisticPc(x.pc) && OptimisticMoves(s, t, x, x')
    ensures Good(s.db, x')
  {}

  lemma LockedGood(s: State, t: nat, x: Txn, x': Txn)
    requires Good(s.db, x) && LockedPc(x.pc) && LockedMoves(s, t, x, x')
    ensures Good(s.db, x')
  {
    if x.req.Restock? || x.req.Edit? {
      ProductLockedGood(s, t, x, x');
    } else if x.req.CartSet? || x.req.CartRemove? {
      RowLockedGood(s, t, x, x');
    } else {
      OrderLockedGood(s, t, x, x');
    }
  }

  lemma ProductLockedGood(s: State, t: nat, x: Txn, x': Txn)
    requires Good(s.db, x) && LockedPc(x.pc) && LockedMoves(s, t, x, x') && (x.req.Restock? || x.req.Edit?)
    ensures Good(s.db, x')
  {}

  lemma RowLockedGood(s: State, t: nat, x: Txn, x': Txn)
    requires Good(s.db, x) && LockedPc(x.pc) && LockedMoves(s, t, x, x') && (x.req.CartSet? || x.req.CartRemove?)
    ensures Good(s.db, x')
  {}

  lemma OrderLockedGood(s: State, t: nat, x: Txn, x': Txn)
    requires Good(s.db, x) && LockedPc(x.pc) && LockedMoves(s, t, x, x')
    requires x.req.Pay? || x.req.Cancel? || x.req.SetStatus?
    ensures Good(s.db, x')
  {}

  lemma LockingGood(s: State, t: nat, x: Txn, x': Txn)
    requires Good(s.db, x) && x.pc.Locking? && LockingMoves(s, t, x, x')
    ensures Good(s.db, x')
  {
    if x.pc.todo != [] {
      NextLockGood(s, t, x, x');
    } else {
      ValidatedGood(s, t, x, x');
    }
  }

  lemma DeductMoveGood(s: State, t: nat, x: Txn, x': Txn)
    requires Good(s.db, x) && x.pc.Selling? && x.pc.done < |x.pc.lines| && SellingMoves(s, t, x, x')
    ensures Good(s.db, x')
  {
    var Selling(lines, rows, done) := x.pc;
    DeductingGood(s.db, x.req, x.held, x.w, lines, rows, done);
    assert x' == x.(pc := Selling(lines, rows, done + 1), w := TakeLine(x.w, lines[done]));
  }

  lemma SellingMoveGood(s: State, t: nat, x: Txn, x': Txn)
    requires Good(s.db, x) && x.pc.Selling? && SellingMoves(s, t, x, x')
    ensures Good(s.db, x')
  {
    if x.pc.done < |x.pc.lines| {
      DeductMoveGood(s, t, x, x');
    } else {
      BillingGood(s, t, x, x');
    }
  }

  lemma CheckoutGood(s: State, t: nat, x: Txn, x': Txn)
    requires CartsOk(s.db) && Good(s.db, x) && x.req.Checkout? && CheckoutPc(x.pc) && CheckoutMoves(s, t, x, x')
    ensures Good(s.db, x')
  {
    if x.pc.UserLocked? {
      ReadsCartGood(s.db, x, x', x.req.user, x.pc.balance);
    } else if x.pc.Locking? {
      LockingGood(s, t, x, x');
    } else if x.pc.Selling? {
      SellingMoveGood(s, t, x, x');
    } else {
      BilledGood(s, t, x, x');
    }
  }

  lemma MovesGood(s: State, t: nat, x: Txn, x': Txn)
    requires CartsOk(s.db) && Good(s.db, x) && Moves(s, t, x, x')
    ensures Good(s.db, x')
  {
    if x.pc.Start? {
      StartGood(s, t, x, x');
    } else if CheckoutPc(x.pc) {
      CheckoutGood(s, t, x, x');
    } else if OptimisticPc(x.pc) {
      OptimisticGood(s, t, x, x');
    } else {
      LockedGood(s, t, x, x');
    }
  }

  /** A step takes only keys nobody else holds. */
  lemma MovesExclusive(s: State, t: nat, x: Txn, x': Txn)
    requires Moves(s, t, x, x')
    ensures x'.held <= x.held || Free(s, t, x'.held - x.held)
    ensures x'.req == x.req
  {}

  lemma WorkKeepsInv(init: Db, s: State, s': State, t: nat)
    requires Inv(init, s) && Works(s, s', t)
    ensures Inv(init, s')
  {
    MovesGood(s, t, s.txns[t], s'.txns[t]);
    MovesExclusive(s, t, s.txns[t], s'.txns[t]);
    forall u | u in s.txns && u != t ensures s'.txns[t].held !! s'.txns[u].held {
      assert s.txns[t].held !! s.txns[u].held;
    }
  }

  lemma CrashKeepsInv(init: Db, s: State, s': State, t: nat)
    requires Inv(init, s) && (Crashes(s, s', t) || Arrives(s, s', t))
    ensures Inv(init, s')
  {
    forall u | u in s'.txns ensures Good(s'.db, s'.txns[u]) {
      assert u != t ==> s'.txns[u] == s.txns[u];
    }
  }

  lemma StepKeepsInv(init: Db, s: State, s': State)
    requires Inv(init, s) && Step(s, s')
    ensures Inv(init, s')
  {
    var t :| Works(s, s', t) || Commits(s, s', t) || Crashes(s, s', t) || Arrives(s, s', t);
    if Works(s, s', t) {
      WorkKeepsInv(init, s, s', t);
    } else if Commits(s, s', t) {
      CommitKeepsInv(init, s, s', t);
    } else {
      CrashKeepsInv(init, s, s', t);
    }
  }

  lemma StartHolds(init: Db)
    requires CartsOk(init)
    ensures Inv(init, State(init, map[], []))
  {}

  lemma {:induction false} RunKeepsInv(init: Db, run: seq<State>)
    requires CartsOk(init) && Run(init, run)
    ensures Inv(init, run[|run| - 1])
  {
    if |run| == 1 {
      StartHolds(init);
    } else {
      RunKeepsInv(init, run[..|run| - 1]);
      StepKeepsInv(init, run[|run| - 2], run[|run| - 1]);
    }
  }

  lemma MomentHolds(init: Db, run: seq<State>, i: nat)
    requires CartsOk(init) && Run(init, run) && i < |run|
    ensures Inv(init, run[i])
  {
    RunKeepsInv(init, run[..i + 1]);
  }

  /** Main result: in every reachable state of every run, the committed tables equal the serial history. */
  lemma RunsAreSerializable(init: Db, run: seq<State>)
    requires CartsOk(init) && Run(init, run)
    ensures Inv(init, run[|run| - 1])
    ensures Replay(init, run[|run| - 1].history) == Some(run[|run| - 1].db)
  {
    RunKeepsInv(init, run);
  }

  /** Main result: a transaction that commits changes the tables exactly as its service would, run alone on the
      tables as they are at that moment. */
  lemma CommitIsAtomic(init: Db, s: State, s': State, t: nat)
    requires Inv(init, s) && Commits(s, s', t)
    ensures Serves(s.txns[t].req, s.txns[t].pc.ev) && Accepts(s.db, s.txns[t].pc.ev)
    ensures s'.db == Perform(s.db, s.txns[t].pc.ev) && s'.history == s.history + [s.txns[t].pc.ev]
  {
    CommitIsSerial(init, s, s', t);
    assert Good(s.db, s.txns[t]);
  }

  /** The deduction inside a checkout never fails: validation under the locks has already decided. */
  lemma DeductionNeverFails(s: State, t: nat, x: Txn, x': Txn)
    requires Good(s.db, x) && x.pc.Selling? && Moves(s, t, x, x')
    ensures !x'.pc.Finished?
  {
    if x.pc.done < |x.pc.lines| {
      ValidatedNeverFails(x.pc.rows, x.pc.lines, x.pc.done);
    }
  }
}
