/** The services as interleaved transactions under PostgreSQL's READ COMMITTED level.
    A transaction reads committed rows, takes exclusive row keys one at a time and keeps them until it ends,
    collects its writes privately, and makes them visible all at once when it commits. Any number of
    transactions run at once; each step below is one atomic action of one of them. */
module Engine {
  import opened Schema
  import opened Serial

  /** What can be locked: an existing row, a row being inserted, or the unique (user, product) cart slot. */
  datatype Key =
    | UserKey(user: nat) | ProductKey(pid: nat) | OrderKey(oid: nat) | PaymentKey(oid: nat)
    | SlotKey(user: nat, pid: nat) | RowKey(id: nat)

  /** The private, uncommitted writes of a transaction. */
  datatype Writes = Writes(
    products: map<nat, Product>, wallets: map<nat, int>, carts: map<nat, CartRow>, gone: set<nat>,
    orders: map<nat, Order>, items: seq<ItemRow>, payments: map<nat, Payment>, log: seq<LogEntry>)

  const NO_WRITES := Writes(map[], map[], map[], {}, map[], [], map[], [])

  function Enrol(owners: map<nat, nat>, carts: map<nat, CartRow>): map<nat, nat> {
    owners + (map id | id in carts :: carts[id].user)
  }

  /** Commit: written rows replace or join the committed ones. */
  function Install(db: Db, w: Writes): Db {
    Db(db.products + w.products, db.wallets + w.wallets, db.carts + w.carts - w.gone,
       Enrol(db.owners, w.carts),
       db.orders + w.orders, db.items + w.items, db.payments + w.payments, db.log + w.log)
  }

  datatype Actor = Actor(user: nat, staff: bool)

  /** One service call. */
  datatype Request =
    | Checkout(tender: Tender, user: nat)
    | Restock(pid: nat, amount: nat)
    | Deduct(pid: nat, units: int)
    | Edit(pid: nat, price: int, active: bool)
    | Pay(oid: nat, how: PaymentMethod, payer: Option<Actor>)
    | Cancel(oid: nat, owner: Option<nat>)
    | SetStatus(oid: nat, status: OrderStatus)
    | CartAdd(user: nat, pid: nat, extra: int)
    | CartSet(user: nat, pid: nat, qty: int)
    | CartRemove(user: nat, pid: nat)
    | CartClear(user: nat)
    | CartPurge(ids: set<nat>)

  datatype Outcome =
    | Committed(ev: Event) | Refused(reason: Reason) | Conflict | NothingToDo | Crashed

  /** How far a transaction got, with the values it has read. */
  datatype Pc =
    | Start
    | UserLocked(balance: int)
    | Locking(balance: int, lines: seq<Line>, todo: seq<nat>, rows: map<nat, Product>)
    | Selling(lines: seq<Line>, rows: map<nat, Product>, done: nat)
    | Billed(lines: seq<Line>, rows: map<nat, Product>, oid: nat)
    | ProductLocked(product: Product)
    | Snapped(seen: Product)
    | OrderLocked(order: Order)
    | PaymentLocked(order: Order, payment: Payment)
    | ItemWanted
    | RowRead(id: nat, row: CartRow)
    | RowAbsent
    | RowLocked(id: nat, row: CartRow)
    | Ready(ev: Event)
    | Finished(outcome: Outcome)

  datatype Txn = Txn(req: Request, held: set<Key>, w: Writes, pc: Pc)

  datatype State = State(db: Db, txns: map<nat, Txn>, history: seq<Event>)

  // ----- sorted product ids -----

  predicate Ascending(s: seq<nat>) {
    forall i, j :: 0 <= i < j < |s| ==> s[i] < s[j]
  }

  function Elements(s: seq<nat>): set<nat> {
    set i | 0 <= i < |s| :: s[i]
  }

  function Pids(lines: seq<Line>): set<nat> {
    set i | 0 <= i < |lines| :: lines[i].pid
  }

  lemma ElementsAppend(a: seq<nat>, b: seq<nat>)
    ensures Elements(a + b) == Elements(a) + Elements(b)
  {
    assert forall i :: 0 <= i < |a| ==> (a + b)[i] == a[i];
    assert forall i :: 0 <= i < |b| ==> (a + b)[|a| + i] == b[i];
  }

  lemma ElementsMore(s: seq<nat>, x: nat)
    ensures Elements(s + [x]) == Elements(s) + {x}
  {
    ElementsAppend(s, [x]);
    assert Elements([x]) == {x} by {
      assert [x][0] == x;
    }
  }

  lemma LastElement(s: seq<nat>)
    requires s != []
    ensures Elements(s) == Elements(s[..|s| - 1]) + {s[|s| - 1]}
  {
    assert s == s[..|s| - 1] + [s[|s| - 1]];
    ElementsMore(s[..|s| - 1], s[|s| - 1]);
  }

  /** All elements of r come before the last one of s. */
  lemma InsertedBefore(s: seq<nat>, x: nat, r: seq<nat>)
    requires s != [] && Ascending(s) && x < s[|s| - 1] && Elements(r) == Elements(s[..|s| - 1]) + {x} && Ascending(r)
    ensures Ascending(r + [s[|s| - 1]])
  {
    forall i | 0 <= i < |r| ensures r[i] < s[|s| - 1] {
      assert r[i] in Elements(r);
    }
  }

  function Insert(s: seq<nat>, x: nat): (r: seq<nat>)
    ensures Elements(r) == Elements(s) + {x}
    ensures Ascending(s) && x !in Elements(s) ==> Ascending(r)
  {
    if s == [] then
      ElementsMore([], x);
      assert [] + [x] == [x];
      [x]
    else
      LastElement(s);
      if x > s[|s| - 1] then
        ElementsMore(s, x);
        s + [x]
      else
        var r := Insert(s[..|s| - 1], x);
        ElementsMore(r, s[|s| - 1]);
        assert Ascending(s) && x !in Elements(s) ==> Ascending(r + [s[|s| - 1]]) by {
          if Ascending(s) && x !in Elements(s) {
            InsertedBefore(s, x, r);
          }
        }
        r + [s[|s| - 1]]
  }

  lemma {:induction false} InsertLength(s: seq<nat>, x: nat)
    ensures |Insert(s, x)| == |s| + 1
  {
    if s != [] && x <= s[|s| - 1] {
      InsertLength(s[..|s| - 1], x);
    }
  }

  lemma LastPid(lines: seq<Line>)
    requires lines != []
    ensures Pids(lines) == Pids(lines[..|lines| - 1]) + {lines[|lines| - 1].pid}
  {
    assert forall i :: 0 <= i < |lines| - 1 ==> lines[i] == lines[..|lines| - 1][i];
  }

  /** The order in which a checkout locks the products of its cart. */
  function SortedPids(lines: seq<Line>): (r: seq<nat>)
    ensures Elements(r) == Pids(lines)
    ensures Distinct(lines) ==> Ascending(r)
  {
    if lines == [] then [] else
      LastPid(lines);
      Insert(SortedPids(lines[..|lines| - 1]), lines[|lines| - 1].pid)
  }

  // ----- steps -----

  /** No other transaction holds any of the keys. */
  ghost predicate Free(s: State, t: nat, keys: set<Key>) {
    forall u :: u in s.txns && u != t ==> s.txns[u].held !! keys
  }

  function RowKeys(ids: set<nat>): set<Key> {
    set id | id in ids :: RowKey(id)
  }

  /** End without effect: uncommitted writes are dropped and all keys released. */
  function Finish(x: Txn, outcome: Outcome): Txn {
    x.(held := {}, w := NO_WRITES, pc := Finished(outcome))
  }

  function Refuse(x: Txn, reason: Reason): Txn {
    Finish(x, Refused(reason))
  }

  /** Take the keys and go on; blocked while another transaction holds one of them. */
  ghost predicate Takes(s: State, t: nat, x: Txn, x': Txn, keys: set<Key>, w: Writes, pc: Pc) {
    Free(s, t, keys) && x' == x.(held := x.held + keys, w := w, pc := pc)
  }

  ghost predicate RowAt(carts: map<nat, CartRow>, id: nat, user: nat, pid: nat) {
    id in carts && carts[id].user == user && carts[id].pid == pid
  }

  ghost predicate ReadsCart(db: Db, x: Txn, x': Txn, user: nat, balance: int) {
    exists lines :: IsCart(db.carts, user, lines) &&
      x' == if lines == [] then Refuse(x, EmptyCart)
            else x.(pc := Locking(balance, lines, SortedPids(lines), map[]))
  }

  ghost predicate StartMoves(s: State, t: nat, x: Txn, x': Txn) {
    var db := s.db;
    match x.req
    case Checkout(ByCard, user) => ReadsCart(db, x, x', user, 0)
    case Checkout(ByWallet, user) =>
      if user !in db.wallets then x' == Refuse(x, NotFound)
      else Takes(s, t, x, x', {UserKey(user)}, x.w, UserLocked(db.wallets[user]))
    case Restock(pid, _) =>
      if pid !in db.products then x' == Refuse(x, NotFound)
      else Takes(s, t, x, x', {ProductKey(pid)}, x.w, ProductLocked(db.products[pid]))
    case Edit(pid, _, _) =>
      if pid !in db.products then x' == Refuse(x, NotFound)
      else Takes(s, t, x, x', {ProductKey(pid)}, x.w, ProductLocked(db.products[pid]))
    case Deduct(pid, units) =>
      if pid !in db.products || !db.products[pid].active then x' == Finish(x, Conflict)
      else if db.products[pid].stock < units then x' == Refuse(x, OutOfStock(pid))
      else x' == x.(pc := Snapped(db.products[pid]))
    case Pay(oid, _, _) =>
      if oid !in db.orders then x' == Refuse(x, NotFound)
      else Takes(s, t, x, x', {OrderKey(oid)}, x.w, OrderLocked(db.orders[oid]))
    case SetStatus(oid, _) =>
      if oid !in db.orders then x' == Refuse(x, NotFound)
      else Takes(s, t, x, x', {OrderKey(oid)}, x.w, OrderLocked(db.orders[oid]))
    case Cancel(oid, owner) =>
      if oid !in db.orders || (owner.Some? && db.orders[oid].user != owner.value) then x' == Refuse(x, NotFound)
      else Takes(s, t, x, x', {OrderKey(oid)}, x.w, OrderLocked(db.orders[oid]))
    case CartAdd(_, pid, extra) =>
      if pid !in db.products || !db.products[pid].active then x' == Refuse(x, NotFound)
      else if db.products[pid].stock < extra then x' == Refuse(x, OutOfStock(pid))
      else x' == x.(pc := ItemWanted)
    case CartSet(user, pid, qty) =>
      if HasRow(db.carts, user, pid)
      then exists id :: RowAt(db.carts, id, user, pid)
             && Takes(s, t, x, x', {RowKey(id)}, x.w, RowLocked(id, db.carts[id]))
      else x' == if qty <= 0 then Finish(x, NothingToDo) else Refuse(x, NotFound)
    case CartRemove(user, pid) =>
      if HasRow(db.carts, user, pid)
      then exists id :: RowAt(db.carts, id, user, pid)
             && Takes(s, t, x, x', {RowKey(id)}, x.w, RowLocked(id, db.carts[id]))
      else x' == Finish(x, NothingToDo)
    case CartClear(user) =>
      var gone := RowsOf(db.carts, user);
      Takes(s, t, x, x', RowKeys(gone), x.w.(gone := gone), Ready(RowsDeleted(gone)))
    case CartPurge(ids) =>
      var gone := ids * db.carts.Keys;
      Takes(s, t, x, x', RowKeys(gone), x.w.(gone := gone), Ready(RowsDeleted(gone)))
  }

  /** Checkout: lock the next product, or validate every line against the locked rows. */
  ghost predicate LockingMoves(s: State, t: nat, x: Txn, x': Txn)
    requires x.req.Checkout? && x.pc.Locking?
  {
    var Locking(balance, lines, todo, rows) := x.pc;
    if todo != [] then
      if todo[0] in s.db.products
      then Takes(s, t, x, x', {ProductKey(todo[0])}, x.w,
                 Locking(balance, lines, todo[1..], rows[todo[0] := s.db.products[todo[0]]]))
      else x' == x.(pc := Locking(balance, lines, todo[1..], rows))
    else if Refusal(rows, lines).Some? then x' == Refuse(x, Refusal(rows, lines).value)
    else if x.req.tender == ByWallet && balance < Total(rows, lines) then x' == Refuse(x, LowBalance)
    else x' == x.(pc := Selling(lines, rows, 0),
                  w := NO_WRITES.(products := rows,
                                  wallets := if x.req.tender == ByWallet
                                             then map[x.req.user := balance - Total(rows, lines)] else map[]))
  }

  /** Checkout: deduct the next line from the locked copy, or create the order with its items and payment.
      A card checkout prices the order after deducting, a wallet checkout before. */
  ghost predicate SellingMoves(s: State, t: nat, x: Txn, x': Txn)
    requires x.req.Checkout? && x.pc.Selling?
  {
    var Selling(lines, rows, done) := x.pc;
    if done < |lines| then
      && lines[done].pid in x.w.products
      && var l, p := lines[done], x.w.products[lines[done].pid];
         x' == if p.stock < l.qty then Refuse(x, OutOfStock(l.pid))
               else x.(pc := Selling(lines, rows, done + 1),
                       w := x.w.(products := x.w.products[l.pid := Taken(p, l.qty)],
                                 log := x.w.log + [LogEntry(l.pid, 0 - l.qty, Purchase)]))
    else
      && Stocked(x.w.products, lines) && Stocked(rows, lines)
      && var total := Total(if x.req.tender == ByCard then x.w.products else rows, lines);
         exists oid :: oid !in s.db.orders && oid !in s.db.payments &&
           Takes(s, t, x, x', {OrderKey(oid), PaymentKey(oid)},
                 x.w.(orders := map[oid := Order(x.req.user, Confirmed, total)],
                      items := ItemsOf(oid, x.w.products, lines),
                      payments := map[oid := OpeningPayment(x.req.tender, total)]),
                 Billed(lines, rows, oid))
  }

  ghost predicate LockedMoves(s: State, t: nat, x: Txn, x': Txn)
    requires x.pc.ProductLocked? || x.pc.OrderLocked? || x.pc.PaymentLocked? || x.pc.RowLocked?
  {
    match (x.req, x.pc)
    case (Restock(pid, amount), ProductLocked(p)) =>
      x' == x.(w := x.w.(products := map[pid := p.(stock := p.stock + amount, version := p.version + 1)],
                         log := [LogEntry(pid, amount, Restocking)]),
               pc := Ready(Restocked(pid, amount)))
    case (Edit(pid, price, active), ProductLocked(p)) =>
      x' == x.(w := x.w.(products := map[pid := p.(price := price, active := active)]),
               pc := Ready(Edited(pid, price, active)))
    case (Pay(oid, _, payer), OrderLocked(o)) =>
      if payer.Some? && !payer.value.staff && o.user != payer.value.user then x' == Refuse(x, NotFound)
      else if oid !in s.db.payments then x' == Refuse(x, NotFound)
      else Takes(s, t, x, x', {PaymentKey(oid)}, x.w, PaymentLocked(o, s.db.payments[oid]))
    case (Pay(oid, how, _), PaymentLocked(o, p)) =>
      x' == if o.status == Cancelled then Refuse(x, OrderCancelled)
            else if p.status == Completed then Refuse(x, AlreadyPaid)
            else x.(w := x.w.(payments := map[oid := p.(status := Completed, how := how)],
                              orders := map[oid := o.(status := Processing)]),
                    pc := Ready(Paid(oid, how)))
    case (Cancel(oid, _), OrderLocked(o)) =>
      x' == if o.status !in {Pending, Confirmed} then Refuse(x, NotCancellable)
            else x.(w := x.w.(orders := map[oid := o.(status := Cancelled)]), pc := Ready(Cancelling(oid)))
    case (SetStatus(oid, status), OrderLocked(o)) =>
      x' == x.(w := x.w.(orders := map[oid := o.(status := status)]), pc := Ready(StatusSet(oid, status)))
    case (CartSet(_, _, qty), RowLocked(id, row)) =>
      if qty <= 0 then x' == x.(w := x.w.(gone := {id}), pc := Ready(RowsDeleted({id})))
      else exists at :: x' == x.(w := x.w.(carts := map[id := SetTo(row, qty, at)]),
                                 pc := Ready(RowSet(id, qty, at)))
    case (CartRemove(_, _), RowLocked(id, row)) =>
      x' == x.(w := x.w.(gone := {id}), pc := Ready(RowsDeleted({id})))
    case _ => false
  }

  /** Optimistic writers: the conditional UPDATE matches only if the version is still the one read; the INSERT
      fails if the slot is taken. A row another transaction holds makes them wait. */
  ghost predicate OptimisticMoves(s: State, t: nat, x: Txn, x': Txn)
    requires x.pc.Snapped? || x.pc.ItemWanted? || x.pc.RowRead? || x.pc.RowAbsent?
  {
    var db := s.db;
    match (x.req, x.pc)
    case (Deduct(pid, units), Snapped(seen)) =>
      if pid in db.products && db.products[pid].version == seen.version && db.products[pid].stock >= units
      then Takes(s, t, x, x', {ProductKey(pid)},
                 x.w.(products := map[pid := db.products[pid].(stock := seen.stock - units,
                                                               version := seen.version + 1)],
                      log := [LogEntry(pid, 0 - units, Purchase)]),
                 Ready(Deducted(pid, units)))
      else x' == Finish(x, Conflict)
    case (CartAdd(user, pid, _), ItemWanted) =>
      if HasRow(db.carts, user, pid)
      then exists id :: RowAt(db.carts, id, user, pid) && x' == x.(pc := RowRead(id, db.carts[id]))
      else x' == x.(pc := RowAbsent)
    case (CartAdd(_, _, extra), RowRead(id, seen)) =>
      if id in db.carts && db.carts[id].version == seen.version
      then if seen.qty + extra < 0 then x' == Refuse(x, BadRow)
           else exists at ::
                  Takes(s, t, x, x', {RowKey(id)},
                        x.w.(carts := map[id := db.carts[id].(qty := seen.qty + extra, version := seen.version + 1)]),
                        Ready(RowBumped(id, extra, at)))
      else x' == Finish(x, Conflict)
    case (CartAdd(user, pid, extra), RowAbsent) =>
      if extra < 0 then x' == Refuse(x, BadRow)
      else if HasRow(db.carts, user, pid)
      then exists id :: RowAt(db.carts, id, user, pid) && Free(s, t, {RowKey(id)}) && x' == Refuse(x, BadRow)
      else exists id, at :: id !in db.owners &&
             Takes(s, t, x, x', {SlotKey(user, pid), RowKey(id)},
                   x.w.(carts := map[id := CartRow(user, pid, extra, 0, at)]),
                   Ready(RowAdded(id, CartRow(user, pid, extra, 0, at))))
    case _ => false
  }

  /** Checkout: the final DELETE takes all rows the user has by now. */
  ghost predicate EmptyingMoves(s: State, t: nat, x: Txn, x': Txn)
    requires x.req.Checkout? && x.pc.Billed?
  {
    var gone := RowsOf(s.db.carts, x.req.user);
    Takes(s, t, x, x', RowKeys(gone), x.w.(gone := gone),
          Ready(Bought(x.req.tender, x.req.user, x.pc.lines, x.pc.oid, gone)))
  }

  predicate CheckoutPc(pc: Pc) {
    pc.UserLocked? || pc.Locking? || pc.Selling? || pc.Billed?
  }

  predicate OptimisticPc(pc: Pc) {
    pc.Snapped? || pc.ItemWanted? || pc.RowRead? || pc.RowAbsent?
  }

  predicate LockedPc(pc: Pc) {
    pc.ProductLocked? || pc.OrderLocked? || pc.PaymentLocked? || pc.RowLocked?
  }

  ghost predicate CheckoutMoves(s: State, t: nat, x: Txn, x': Txn)
    requires x.req.Checkout? && CheckoutPc(x.pc)
  {
    match x.pc
    case UserLocked(balance) => ReadsCart(s.db, x, x', x.req.user, balance)
    case Locking(_, _, _, _) => LockingMoves(s, t, x, x')
    case Selling(_, _, _) => SellingMoves(s, t, x, x')
    case Billed(_, _, _) => EmptyingMoves(s, t, x, x')
  }

  /** One step of a transaction before it commits: it changes only its own private state. */
  ghost predicate Moves(s: State, t: nat, x: Txn, x': Txn) {
    if x.pc.Start? then StartMoves(s, t, x, x')
    else if CheckoutPc(x.pc) then x.req.Checkout? && CheckoutMoves(s, t, x, x')
    else if OptimisticPc(x.pc) then OptimisticMoves(s, t, x, x')
    else LockedPc(x.pc) && LockedMoves(s, t, x, x')
  }

  ghost predicate Works(s: State, s': State, t: nat) {
    t in s.txns && t in s'.txns && s' == s.(txns := s.txns[t := s'.txns[t]]) && Moves(s, t, s.txns[t], s'.txns[t])
  }

  ghost predicate Commits(s: State, s': State, t: nat) {
    && t in s.txns && s.txns[t].pc.Ready?
    && s' == State(Install(s.db, s.txns[t].w), s.txns[t := Finish(s.txns[t], Committed(s.txns[t].pc.ev))],
                   s.history + [s.txns[t].pc.ev])
  }

  /** An exception, a lost connection or a killed worker at any point: the transaction rolls back. */
  ghost predicate Crashes(s: State, s': State, t: nat) {
    t in s.txns && !s.txns[t].pc.Finished? && s' == s.(txns := s.txns[t := Finish(s.txns[t], Crashed)])
  }

  /** The guard of the restock view. */
  predicate Admissible(req: Request) {
    req.Restock? ==> req.amount >= 1
  }

  /** A new call arrives. A task delivered twice or queued again is just another call. */
  ghost predicate Arrives(s: State, s': State, t: nat) {
    t !in s.txns && exists req :: Admissible(req) && s' == s.(txns := s.txns[t := Txn(req, {}, NO_WRITES, Start)])
  }

  ghost predicate Step(s: State, s': State) {
    exists t :: Works(s, s', t) || Commits(s, s', t) || Crashes(s, s', t) || Arrives(s, s', t)
  }

  /** Any call may arrive at any time, restocks with a positive amount, and any unfinished transaction may crash. */
  lemma AnythingMayHappen(s: State, t: nat, req: Request)
    ensures t !in s.txns && (req.Restock? ==> req.amount >= 1) ==>
              Step(s, State(s.db, s.txns[t := Txn(req, {}, NO_WRITES, Start)], s.history))
    ensures t in s.txns && !s.txns[t].pc.Finished? ==>
              Step(s, State(s.db, s.txns[t := Txn(s.txns[t].req, {}, NO_WRITES, Finished(Crashed))], s.history))
  {
    if t !in s.txns && (req.Restock? ==> req.amount >= 1) {
      assert Admissible(req);
      assert Arrives(s, State(s.db, s.txns[t := Txn(req, {}, NO_WRITES, Start)], s.history), t);
    } else if t in s.txns && !s.txns[t].pc.Finished? {
      assert Crashes(s, State(s.db, s.txns[t := Txn(s.txns[t].req, {}, NO_WRITES, Finished(Crashed))], s.history), t);
    }
  }

  ghost predicate Run(init: Db, run: seq<State>) {
    && run != [] && run[0] == State(init, map[], [])
    && forall i :: 0 < i < |run| ==> Step(run[i - 1], run[i])
  }
}
