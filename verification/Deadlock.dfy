/** Deadlock freedom over the explicit row locks: every service acquires user, then products by ascending id,
    then order, then payment, then cart rows. */
module Deadlock {
  import opened Schema
  import opened Serial
  import opened Engine
  import opened Serializable

  /** The place of a key in the global lock order. */
  function Class(k: Key): nat {
    match k
    case UserKey(_) => 0
    case ProductKey(_) => 1
    case OrderKey(_) => 2
    case PaymentKey(_) => 3
    case SlotKey(_, _) => 4
    case RowKey(_) => 5
  }

  predicate Before(k: Key, k': Key) {
    Class(k) < Class(k') || (k.ProductKey? && k'.ProductKey? && k.pid < k'.pid)
  }

  function RowsAt(carts: map<nat, CartRow>, user: nat, pid: nat): set<Key> {
    set id | id in carts && carts[id].user == user && carts[id].pid == pid :: RowKey(id)
  }

  /** The keys a transaction's next step must find free. */
  ghost function Needs(db: Db, x: Txn): set<Key> {
    match x.pc
    case Start =>
      (match x.req
       case Checkout(tender, user) => if user in db.wallets then UserKeys(tender, user) else {}
       case Restock(pid, _) => if pid in db.products then {ProductKey(pid)} else {}
       case Edit(pid, _, _) => if pid in db.products then {ProductKey(pid)} else {}
       case Deduct(_, _) => {}
       case Pay(oid, _, _) => if oid in db.orders then {OrderKey(oid)} else {}
       case SetStatus(oid, _) => if oid in db.orders then {OrderKey(oid)} else {}
       case Cancel(oid, owner) =>
         if oid in db.orders && (owner.Some? ==> db.orders[oid].user == owner.value) then {OrderKey(oid)} else {}
       case CartAdd(_, _, _) => {}
       case CartSet(user, pid, _) => RowsAt(db.carts, user, pid)
       case CartRemove(user, pid) => RowsAt(db.carts, user, pid)
       case CartClear(user) => RowKeys(RowsOf(db.carts, user))
       case CartPurge(ids) => RowKeys(ids * db.carts.Keys))
    case Locking(_, _, todo, _) => if todo != [] && todo[0] in db.products then {ProductKey(todo[0])} else {}
    case Billed(_, _, _) => if x.req.Checkout? then RowKeys(RowsOf(db.carts, x.req.user)) else {}
    case Snapped(seen) =>
      if x.req.Deduct? && x.req.pid in db.products && db.products[x.req.pid].version == seen.version
      then {ProductKey(x.req.pid)} else {}
    case OrderLocked(_) => if x.req.Pay? then {PaymentKey(x.req.oid)} else {}
    case RowRead(id, row) => if id in db.carts && db.carts[id].version == row.version then {RowKey(id)} else {}
    case RowAbsent =>
      if !x.req.CartAdd? then {}
      else if HasRow(db.carts, x.req.user, x.req.pid) then RowsAt(db.carts, x.req.user, x.req.pid)
      else {SlotKey(x.req.user, x.req.pid)}
    case _ => {}
  }

  /** Transaction t's next step is blocked by a key u holds: an edge of the wait-for graph. */
  ghost predicate WaitsFor(s: State, t: nat, u: nat) {
    t in s.txns && u in s.txns && t != u && Needs(s.db, s.txns[t]) * s.txns[u].held != {}
  }

  /** The transaction has a next step of its own, other than crashing. */
  ghost predicate CanStep(s: State, t: nat) {
    exists s' :: Works(s, s', t) || Commits(s, s', t)
  }

  /** Everything a transaction holds comes before everything it asks for next. */
  lemma AcquiresInOrder(db: Db, x: Txn, k: Key, k': Key)
    requires Good(db, x) && k in x.held && k' in Needs(db, x)
    ensures Before(k, k')
  {}

  // ----- no cycle -----

  ghost predicate WaitChain(s: State, chain: seq<nat>) {
    |chain| >= 2 && forall i :: 0 < i < |chain| ==> WaitsFor(s, chain[i - 1], chain[i])
  }

  /** The transaction holds nothing that comes after what it waits for. */
  ghost predicate LocksInOrder(db: Db, x: Txn) {
    forall k, k' :: k in x.held && k' in Needs(db, x) ==> Before(k, k')
  }

  lemma AllLockInOrder(init: Db, run: seq<State>)
    requires CartsOk(init) && Run(init, run)
    ensures var s := run[|run| - 1]; forall t :: t in s.txns ==> LocksInOrder(s.db, s.txns[t])
  {
    RunsAreSerializable(init, run);
    var s := run[|run| - 1];
    forall t | t in s.txns ensures LocksInOrder(s.db, s.txns[t]) {
      forall k, k' | k in s.txns[t].held && k' in Needs(s.db, s.txns[t]) ensures Before(k, k') {
        AcquiresInOrder(s.db, s.txns[t], k, k');
      }
    }
  }

  lemma OneWait(s: State, t: nat, u: nat) returns (k: Key)
    requires WaitsFor(s, t, u)
    ensures k in Needs(s.db, s.txns[t]) && k in s.txns[u].held
  {
    k :| k in Needs(s.db, s.txns[t]) * s.txns[u].held;
  }

  lemma {:induction false} WaitChainGrows(s: State, chain: seq<nat>) returns (first: Key, last: Key)
    requires forall t :: t in s.txns ==> LocksInOrder(s.db, s.txns[t])
    requires WaitChain(s, chain)
    ensures chain[0] in s.txns && chain[|chain| - 1] in s.txns
    ensures first in Needs(s.db, s.txns[chain[0]]) && last in s.txns[chain[|chain| - 1]].held
    ensures first == last || Before(first, last)
  {
    var n := |chain|;
    assert WaitsFor(s, chain[n - 2], chain[n - 1]);
    last := OneWait(s, chain[n - 2], chain[n - 1]);
    first := last;
    if n > 2 {
      var before;
      first, before := WaitChainGrows(s, chain[..n - 1]);
      assert LocksInOrder(s.db, s.txns[chain[n - 2]]);
      assert Before(before, last);
    }
  }

  /** Main result: the wait-for graph of every reachable state is acyclic. */
  lemma NoWaitCycle(init: Db, run: seq<State>, chain: seq<nat>)
    requires CartsOk(init) && Run(init, run) && WaitChain(run[|run| - 1], chain)
    ensures chain[0] != chain[|chain| - 1]
  {
    var s := run[|run| - 1];
    AllLockInOrder(init, run);
    var first, last := WaitChainGrows(s, chain);
    assert LocksInOrder(s.db, s.txns[chain[0]]);
  }

  // ----- a transaction nobody blocks can step -----

  function AllHeld(txns: map<nat, Txn>): set<Key> {
    set t, k | t in txns && k in txns[t].held :: k
  }

  lemma FreshOrder(s: State, t: nat) returns (oid: nat)
    ensures oid !in s.db.orders && oid !in s.db.payments && Free(s, t, {OrderKey(oid), PaymentKey(oid)})
  {
    var orders := set k | k in AllHeld(s.txns) && k.OrderKey? :: k.oid;
    var payments := set k | k in AllHeld(s.txns) && k.PaymentKey? :: k.oid;
    oid := FreshNat(s.db.orders.Keys + s.db.payments.Keys + orders + payments);
    assert OrderKey(oid) !in AllHeld(s.txns) && PaymentKey(oid) !in AllHeld(s.txns) by {
      assert forall k :: k in AllHeld(s.txns) && k.OrderKey? ==> k.oid in orders;
      assert forall k :: k in AllHeld(s.txns) && k.PaymentKey? ==> k.oid in payments;
    }
    assert forall u, k :: u in s.txns && k in s.txns[u].held ==> k in AllHeld(s.txns);
  }

  lemma FreshRow(s: State, t: nat) returns (id: nat)
    ensures id !in s.db.owners && Free(s, t, {RowKey(id)})
  {
    var rows := set k | k in AllHeld(s.txns) && k.RowKey? :: k.id;
    id := FreshNat(s.db.owners.Keys + rows);
    assert RowKey(id) !in AllHeld(s.txns) by {
      assert forall k :: k in AllHeld(s.txns) && k.RowKey? ==> k.id in rows;
    }
    assert forall u, k :: u in s.txns && k in s.txns[u].held ==> k in AllHeld(s.txns);
  }

  /** Every user's cart can be listed. */
  lemma {:induction false} CartCanBeRead(carts: map<nat, CartRow>, user: nat, ids: set<nat>) returns (lines: seq<Line>)
    requires ids <= RowsOf(carts, user)
    ensures forall i, j :: 0 <= i < j < |lines| ==> lines[i].row != lines[j].row
    ensures forall i :: 0 <= i < |lines| ==>
              && lines[i].row in ids
              && lines[i] == Line(lines[i].row, carts[lines[i].row].pid, carts[lines[i].row].qty)
    ensures forall id :: id in ids ==> exists i :: 0 <= i < |lines| && lines[i].row == id
  {
    if ids == {} {
      lines := [];
    } else {
      var id :| id in ids;
      var rest := CartCanBeRead(carts, user, ids - {id});
      lines := rest + [Line(id, carts[id].pid, carts[id].qty)];
      forall k | k in ids ensures exists i :: 0 <= i < |lines| && lines[i].row == k {
        if k == id {
          assert lines[|rest|].row == id;
        } else {
          assert k in ids - {id};
          var i :| 0 <= i < |rest| && rest[i].row == k;
          assert lines[i].row == k;
        }
      }
    }
  }

  lemma CartReadable(db: Db, x: Txn, user: nat, balance: int) returns (x': Txn)
    ensures ReadsCart(db, x, x', user, balance)
  {
    var lines := CartCanBeRead(db.carts, user, RowsOf(db.carts, user));
    assert IsCart(db.carts, user, lines);
    x' := if lines == [] then Refuse(x, EmptyCart)
          else x.(pc := Locking(balance, lines, SortedPids(lines), map[]));
  }

  lemma StartUnblocked(s: State, t: nat, x: Txn) returns (x': Txn)
    requires Good(s.db, x) && x.pc.Start? && Free(s, t, Needs(s.db, x))
    ensures StartMoves(s, t, x, x')
  {
    var db := s.db;
    match x.req
    case Checkout(tender, user) =>
      if tender == ByCard { x' := CartReadable(db, x, user, 0); }
      else if user !in db.wallets { x' := Refuse(x, NotFound); }
      else { x' := x.(held := x.held + {UserKey(user)}, pc := UserLocked(db.wallets[user])); }
    case Restock(pid, _) =>
      x' := if pid !in db.products then Refuse(x, NotFound)
            else x.(held := x.held + {ProductKey(pid)}, pc := ProductLocked(db.products[pid]));
    case Edit(pid, _, _) =>
      x' := if pid !in db.products then Refuse(x, NotFound)
            else x.(held := x.held + {ProductKey(pid)}, pc := ProductLocked(db.products[pid]));
    case Deduct(pid, units) =>
      x' := if pid !in db.products || !db.products[pid].active then Finish(x, Conflict)
            else if db.products[pid].stock < units then Refuse(x, OutOfStock(pid))
            else x.(pc := Snapped(db.products[pid]));
    case Pay(oid, _, _) =>
      x' := if oid !in db.orders then Refuse(x, NotFound)
            else x.(held := x.held + {OrderKey(oid)}, pc := OrderLocked(db.orders[oid]));
    case SetStatus(oid, _) =>
      x' := if oid !in db.orders then Refuse(x, NotFound)
            else x.(held := x.held + {OrderKey(oid)}, pc := OrderLocked(db.orders[oid]));
    case Cancel(oid, owner) =>
      x' := if oid !in db.orders || (owner.Some? && db.orders[oid].user != owner.value) then Refuse(x, NotFound)
            else x.(held := x.held + {OrderKey(oid)}, pc := OrderLocked(db.orders[oid]));
    case CartAdd(_, pid, extra) =>
      x' := if pid !in db.products || !db.products[pid].active then Refuse(x, NotFound)
            else if db.products[pid].stock < extra then Refuse(x, OutOfStock(pid))
            else x.(pc := ItemWanted);
    case CartSet(user, pid, qty) =>
      x' := LockRow(s, t, x, user, pid, if qty <= 0 then Finish(x, NothingToDo) else Refuse(x, NotFound));
    case CartRemove(user, pid) =>
      x' := LockRow(s, t, x, user, pid, Finish(x, NothingToDo));
    case CartClear(user) =>
      var gone := RowsOf(db.carts, user);
      x' := x.(held := x.held + RowKeys(gone), w := x.w.(gone := gone), pc := Ready(RowsDeleted(gone)));
    case CartPurge(ids) =>
      var gone := ids * db.carts.Keys;
      x' := x.(held := x.held + RowKeys(gone), w := x.w.(gone := gone), pc := Ready(RowsDeleted(gone)));
  }

  lemma LockRow(s: State, t: nat, x: Txn, user: nat, pid: nat, otherwise: Txn) returns (x': Txn)
    requires Free(s, t, RowsAt(s.db.carts, user, pid))
    ensures if HasRow(s.db.carts, user, pid)
            then exists id :: RowAt(s.db.carts, id, user, pid)
                   && Takes(s, t, x, x', {RowKey(id)}, x.w, RowLocked(id, s.db.carts[id]))
            else x' == otherwise
  {
    if HasRow(s.db.carts, user, pid) {
      var id :| id in s.db.carts && s.db.carts[id].user == user && s.db.carts[id].pid == pid;
      assert RowKey(id) in RowsAt(s.db.carts, user, pid);
      x' := x.(held := x.held + {RowKey(id)}, pc := RowLocked(id, s.db.carts[id]));
      assert RowAt(s.db.carts, id, user, pid) && Takes(s, t, x, x', {RowKey(id)}, x.w, RowLocked(id, s.db.carts[id]));
    } else {
      x' := otherwise;
    }
  }

  lemma DeductUnblocked(s: State, t: nat, x: Txn) returns (x': Txn)
    requires Good(s.db, x) && x.pc.Selling? && x.pc.done < |x.pc.lines|
    ensures SellingMoves(s, t, x, x')
  {
    var Selling(lines, rows, done) := x.pc;
    DeductingGood(s.db, x.req, x.held, x.w, lines, rows, done);
    x' := x.(pc := Selling(lines, rows, done + 1), w := TakeLine(x.w, lines[done]));
  }

  lemma BillUnblocked(s: State, t: nat, x: Txn) returns (x': Txn)
    requires Good(s.db, x) && x.pc.Selling? && x.pc.done == |x.pc.lines|
    ensures SellingMoves(s, t, x, x')
  {
    var Selling(lines, rows, done) := x.pc;
    assert lines[..done] == lines;
    PricedAlike(rows, lines, 0);
    var oid := FreshOrder(s, t);
    var total := Total(if x.req.tender == ByCard then x.w.products else rows, lines);
    var w := x.w.(orders := map[oid := Order(x.req.user, Confirmed, total)],
                  items := ItemsOf(oid, x.w.products, lines),
                  payments := map[oid := OpeningPayment(x.req.tender, total)]);
    x' := x.(held := x.held + {OrderKey(oid), PaymentKey(oid)}, w := w, pc := Billed(lines, rows, oid));
    assert Takes(s, t, x, x', {OrderKey(oid), PaymentKey(oid)}, w, Billed(lines, rows, oid));
  }

  lemma LockedUnblocked(s: State, t: nat, x: Txn) returns (x': Txn)
    requires Good(s.db, x) && LockedPc(x.pc) && Free(s, t, Needs(s.db, x))
    ensures LockedMoves(s, t, x, x')
  {
    match (x.req, x.pc)
    case (Restock(pid, amount), ProductLocked(p)) =>
      x' := x.(w := x.w.(products := map[pid := p.(stock := p.stock + amount, version := p.version + 1)],
                         log := [LogEntry(pid, amount, Restocking)]),
               pc := Ready(Restocked(pid, amount)));
    case (Edit(pid, price, active), ProductLocked(p)) =>
      x' := x.(w := x.w.(products := map[pid := p.(price := price, active := active)]),
               pc := Ready(Edited(pid, price, active)));
    case (Pay(oid, _, payer), OrderLocked(o)) =>
      x' := if payer.Some? && !payer.value.staff && o.user != payer.value.user then Refuse(x, NotFound)
            else if oid !in s.db.payments then Refuse(x, NotFound)
            else x.(held := x.held + {PaymentKey(oid)}, pc := PaymentLocked(o, s.db.payments[oid]));
    case (Pay(oid, how, _), PaymentLocked(o, p)) =>
      x' := if o.status == Cancelled then Refuse(x, OrderCancelled)
            else if p.status == Completed then Refuse(x, AlreadyPaid)
            else x.(w := x.w.(payments := map[oid := p.(status := Completed, how := how)],
                              orders := map[oid := o.(status := Processing)]),
                    pc := Ready(Paid(oid, how)));
    case (Cancel(oid, _), OrderLocked(o)) =>
      x' := if o.status !in {Pending, Confirmed} then Refuse(x, NotCancellable)
            else x.(w := x.w.(orders := map[oid := o.(status := Cancelled)]), pc := Ready(Cancelling(oid)));
    case (SetStatus(oid, status), OrderLocked(o)) =>
      x' := x.(w := x.w.(orders := map[oid := o.(status := status)]), pc := Ready(StatusSet(oid, status)));
    case (CartSet(_, _, qty), RowLocked(id, row)) =>
      if qty <= 0 { x' := x.(w := x.w.(gone := {id}), pc := Ready(RowsDeleted({id}))); }
      else {
        x' := x.(w := x.w.(carts := map[id := row.(qty := qty, version := row.version + 1, touched := 0)]),
                 pc := Ready(RowSet(id, qty, 0)));
      }
    case (CartRemove(_, _), RowLocked(id, row)) =>
      x' := x.(w := x.w.(gone := {id}), pc := Ready(RowsDeleted({id})));
  }

  lemma OptimisticUnblocked(s: State, t: nat, x: Txn) returns (x': Txn)
    requires Good(s.db, x) && OptimisticPc(x.pc) && Free(s, t, Needs(s.db, x))
    ensures OptimisticMoves(s, t, x, x')
  {
    var db := s.db;
    match (x.req, x.pc)
    case (Deduct(pid, units), Snapped(seen)) =>
      x' := if pid in db.products && db.products[pid].version == seen.version && db.products[pid].stock >= units
            then x.(held := x.held + {ProductKey(pid)},
                    w := x.w.(products := map[pid := db.products[pid].(stock := seen.stock - units,
                                                                     version := seen.version + 1)],
                              log := [LogEntry(pid, 0 - units, Purchase)]),
                    pc := Ready(Deducted(pid, units)))
            else Finish(x, Conflict);
    case (CartAdd(user, pid, _), ItemWanted) =>
      if HasRow(db.carts, user, pid) {
        var id :| id in db.carts && db.carts[id].user == user && db.carts[id].pid == pid;
        x' := x.(pc := RowRead(id, db.carts[id]));
        assert RowAt(db.carts, id, user, pid);
      } else {
        x' := x.(pc := RowAbsent);
      }
    case (CartAdd(_, _, extra), RowRead(id, seen)) =>
      if id !in db.carts || db.carts[id].version != seen.version {
        x' := Finish(x, Conflict);
      } else if seen.qty + extra < 0 {
        x' := Refuse(x, BadRow);
      } else {
        var ev := RowBumped(id, extra, 0);
        x' := x.(held := x.held + {RowKey(id)},
                 w := x.w.(carts := map[id := db.carts[id].(qty := seen.qty + extra, version := seen.version + 1)]),
                 pc := Ready(ev));
        assert x'.pc == Ready(RowBumped(id, extra, 0));
      }
    case (CartAdd(user, pid, extra), RowAbsent) =>
      if extra < 0 {
        x' := Refuse(x, BadRow);
      } else if HasRow(db.carts, user, pid) {
        var id :| id in db.carts && db.carts[id].user == user && db.carts[id].pid == pid;
        assert RowKey(id) in RowsAt(db.carts, user, pid);
        x' := Refuse(x, BadRow);
        assert RowAt(db.carts, id, user, pid) && Free(s, t, {RowKey(id)});
      } else {
        var id := FreshRow(s, t);
        var row := CartRow(user, pid, extra, 0, 0);
        x' := x.(held := x.held + {SlotKey(user, pid), RowKey(id)}, w := x.w.(carts := map[id := row]),
                 pc := Ready(RowAdded(id, row)));
        assert Takes(s, t, x, x', {SlotKey(user, pid), RowKey(id)},
                     x.w.(carts := map[id := CartRow(user, pid, extra, 0, 0)]),
                     Ready(RowAdded(id, CartRow(user, pid, extra, 0, 0))));
      }
  }

  lemma Unblocked(init: Db, s: State, t: nat)
    requires Inv(init, s) && t in s.txns && !s.txns[t].pc.Finished? && Free(s, t, Needs(s.db, s.txns[t]))
    ensures CanStep(s, t)
  {
    var x := s.txns[t];
    if x.pc.Ready? {
      var s' := State(Install(s.db, x.w), s.txns[t := Finish(x, Committed(x.pc.ev))], s.history + [x.pc.ev]);
      assert Commits(s, s', t);
    } else {
      var x' := NextOf(s, t, x);
      assert Works(s, s.(txns := s.txns[t := x']), t);
    }
  }

  lemma NextOf(s: State, t: nat, x: Txn) returns (x': Txn)
    requires Good(s.db, x) && !x.pc.Finished? && !x.pc.Ready? && Free(s, t, Needs(s.db, x))
    ensures Moves(s, t, x, x')
  {
    if x.pc.Start? {
      x' := StartUnblocked(s, t, x);
    } else if x.pc.UserLocked? {
      x' := CartReadable(s.db, x, x.req.user, x.pc.balance);
    } else if x.pc.Locking? {
      x' := LockingUnblocked(s, t, x);
    } else if x.pc.Selling? {
      if x.pc.done < |x.pc.lines| { x' := DeductUnblocked(s, t, x); } else { x' := BillUnblocked(s, t, x); }
    } else if x.pc.Billed? {
      var gone := RowsOf(s.db.carts, x.req.user);
      x' := x.(held := x.held + RowKeys(gone), w := x.w.(gone := gone),
               pc := Ready(Bought(x.req.tender, x.req.user, x.pc.lines, x.pc.oid, gone)));
    } else if OptimisticPc(x.pc) {
      x' := OptimisticUnblocked(s, t, x);
    } else {
      x' := LockedUnblocked(s, t, x);
    }
  }

  lemma LockingUnblocked(s: State, t: nat, x: Txn) returns (x': Txn)
    requires Good(s.db, x) && x.pc.Locking? && Free(s, t, Needs(s.db, x))
    ensures LockingMoves(s, t, x, x')
  {
    var Locking(balance, lines, todo, rows) := x.pc;
    if todo != [] {
      x' := if todo[0] in s.db.products
            then x.(held := x.held + {ProductKey(todo[0])},
                    pc := Locking(balance, lines, todo[1..], rows[todo[0] := s.db.products[todo[0]]]))
            else x.(pc := Locking(balance, lines, todo[1..], rows));
    } else {
      x' := if Refusal(rows, lines).Some? then Refuse(x, Refusal(rows, lines).value)
            else if x.req.tender == ByWallet && balance < Total(rows, lines) then Refuse(x, LowBalance)
            else x.(pc := Selling(lines, rows, 0),
                    w := NO_WRITES.(products := rows,
                                    wallets := if x.req.tender == ByWallet
                                               then map[x.req.user := balance - Total(rows, lines)] else map[]));
    }
  }

  // ----- somebody can always step -----

  /** The transactions waiting for something later than k. */
  ghost function WaitingAfter(s: State, k: Key): set<nat> {
    set t | t in s.txns && exists k' :: k' in Needs(s.db, s.txns[t]) && Before(k, k')
  }

  lemma HolderCanStep(init: Db, s: State, k: Key, u: nat) returns (who: nat)
    requires Inv(init, s) && u in s.txns && k in s.txns[u].held
    ensures who in s.txns && CanStep(s, who)
    decreases WaitingAfter(s, k)
  {
    if Free(s, u, Needs(s.db, s.txns[u])) {
      Unblocked(init, s, u);
      who := u;
    } else {
      var v :| v in s.txns && v != u && s.txns[v].held * Needs(s.db, s.txns[u]) != {};
      var k' :| k' in s.txns[v].held * Needs(s.db, s.txns[u]);
      FewerWait(s, u, k, k');
      who := HolderCanStep(init, s, k', v);
    }
  }

  /** Going from a key to a later one that its holder waits for leaves fewer transactions waiting. */
  lemma FewerWait(s: State, u: nat, k: Key, k': Key)
    requires u in s.txns && Good(s.db, s.txns[u]) && k in s.txns[u].held && k' in Needs(s.db, s.txns[u])
    ensures WaitingAfter(s, k') < WaitingAfter(s, k)
  {
    AcquiresInOrder(s.db, s.txns[u], k, k');
    assert u in WaitingAfter(s, k);
    NeedsAreLevel(s.db, s.txns[u], k');
    assert u !in WaitingAfter(s, k');
  }

  /** The keys one step needs are all at the same place in the lock order. */
  lemma NeedsAreLevel(db: Db, x: Txn, k: Key)
    requires k in Needs(db, x)
    ensures forall k' :: k' in Needs(db, x) ==> !Before(k, k')
  {}

  /** An unfinished transaction that cannot step waits for a key that another one holds. */
  lemma BlockedMeansWaiting(init: Db, run: seq<State>, t: nat) returns (u: nat)
    requires CartsOk(init) && Run(init, run)
    requires var s := run[|run| - 1]; t in s.txns && !s.txns[t].pc.Finished? && !CanStep(s, t)
    ensures WaitsFor(run[|run| - 1], t, u) && u != t && u in run[|run| - 1].txns && run[|run| - 1].txns[u].held != {}
  {
    var s := run[|run| - 1];
    RunsAreSerializable(init, run);
    if Free(s, t, Needs(s.db, s.txns[t])) {
      Unblocked(init, s, t);
    }
    u :| u in s.txns && u != t && s.txns[u].held * Needs(s.db, s.txns[t]) != {};
  }

  /** Main result: as long as some transaction is unfinished, some transaction can step. */
  lemma NoDeadlock(init: Db, run: seq<State>, t: nat) returns (who: nat)
    requires CartsOk(init) && Run(init, run)
    requires t in run[|run| - 1].txns && !run[|run| - 1].txns[t].pc.Finished?
    ensures who in run[|run| - 1].txns && CanStep(run[|run| - 1], who)
  {
    var s := run[|run| - 1];
    RunsAreSerializable(init, run);
    if Free(s, t, Needs(s.db, s.txns[t])) {
      Unblocked(init, s, t);
      who := t;
    } else {
      var u :| u in s.txns && u != t && s.txns[u].held * Needs(s.db, s.txns[t]) != {};
      var k :| k in s.txns[u].held * Needs(s.db, s.txns[t]);
      who := HolderCanStep(init, s, k, u);
    }
  }
}
