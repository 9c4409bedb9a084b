/** The rush on a hot product: n users, each with one unit of it in the cart, check out by card at once. */
module Contention {
  import opened Schema
  import opened Serial
  import opened Engine
  import opened Serializable

  /** The user's cart is a single row: one unit of the product. */
  ghost predicate OneUnit(carts: map<nat, CartRow>, user: nat, pid: nat) {
    exists id :: RowsOf(carts, user) == {id} && carts[id].pid == pid && carts[id].qty == 1
  }

  /** One card checkout per user, none started, everybody's cart holding one unit. */
  ghost predicate Opening(init: Db, pid: nat, s: State) {
    && CartsOk(init) && s.db == init && s.history == []
    && pid in init.products && init.products[pid].stock >= 0
    && (forall t :: t in s.txns ==>
          && s.txns[t].req.Checkout? && s.txns[t] == Txn(Checkout(ByCard, s.txns[t].req.user), {}, NO_WRITES, Start)
          && OneUnit(init.carts, s.txns[t].req.user, pid))
    && (forall t, u :: t in s.txns && u in s.txns && t != u ==> s.txns[t].req.user != s.txns[u].req.user)
  }

  /** Every interleaving of these checkouts, with no other writers and no crashes. */
  ghost predicate Rush(init: Db, pid: nat, run: seq<State>) {
    && run != [] && Opening(init, pid, run[0])
    && forall i :: 0 < i < |run| ==> RushStep(run[i - 1], run[i])
  }

  ghost predicate RushStep(s: State, s': State) {
    exists t :: Works(s, s', t) || Commits(s, s', t)
  }

  /** They step and commit in any order. */
  lemma AnyOrder(s: State, s': State, t: nat)
    requires Works(s, s', t) || Commits(s, s', t)
    ensures RushStep(s, s')
  {}

  ghost predicate Done(s: State) {
    forall t :: t in s.txns ==> s.txns[t].pc.Finished?
  }

  predicate OneLine(lines: seq<Line>, pid: nat) {
    |lines| == 1 && lines[0].pid == pid && lines[0].qty == 1
  }

  /** What is true of each checkout on the way. */
  ghost predicate OnTrack(db: Db, x: Txn, pid: nat) {
    && x.req.Checkout? && x.req.tender == ByCard
    && (!x.pc.Finished? ==> OneUnit(db.carts, x.req.user, pid))
    && match x.pc
       case Start => true
       case Locking(_, lines, _, _) => OneLine(lines, pid)
       case Selling(lines, _, _) => OneLine(lines, pid)
       case Billed(lines, _, _) => OneLine(lines, pid)
       case Ready(ev) => ev.Bought? && OneLine(ev.lines, pid)
       case Finished(Committed(_)) => true
       case Finished(Refused(_)) => pid in db.products && db.products[pid].stock == 0
       case _ => false
  }

  function Winners(txns: map<nat, Txn>): set<nat> {
    set t | t in txns && txns[t].pc.Finished? && txns[t].pc.outcome.Committed?
  }

  ghost predicate RushInv(init: Db, pid: nat, s: State) {
    && pid in init.products && pid in s.db.products
    && (forall t :: t in s.txns ==> OnTrack(s.db, s.txns[t], pid))
    && (forall t, u :: t in s.txns && u in s.txns && t != u ==> s.txns[t].req.user != s.txns[u].req.user)
    && s.db.products[pid].stock == init.products[pid].stock - |s.history| >= 0
    && |Winners(s.txns)| == |s.history|
  }

  lemma OneUnitRead(carts: map<nat, CartRow>, user: nat, pid: nat, lines: seq<Line>)
    requires OneUnit(carts, user, pid) && IsCart(carts, user, lines)
    ensures OneLine(lines, pid)
  {
    var id :| RowsOf(carts, user) == {id} && carts[id].pid == pid && carts[id].qty == 1;
    assert forall i :: 0 <= i < |lines| ==> lines[i].row in RowsOf(carts, user);
    assert forall i :: 0 <= i < |lines| ==> lines[i].row == id;
    assert id in RowsOf(carts, user);
    assert |lines| >= 1;
    assert lines[0].row == lines[|lines| - 1].row;
  }

  /** With one line, the only refusal is that the product is sold out. */
  lemma RefusedMeansSoldOut(db: Db, lines: seq<Line>, pid: nat)
    requires OneLine(lines, pid) && pid in db.products
    requires Refusal(Pick(db.products, Pids(lines)), lines).Some?
    ensures db.products[pid].stock < 1
  {
    assert lines[0].pid in Pids(lines);
    var rows := Pick(db.products, Pids(lines));
    assert pid in rows && rows[pid] == db.products[pid];
  }

  lemma LockingOnTrack(s: State, t: nat, x: Txn, x': Txn, pid: nat)
    requires x.pc.Locking? && Good(s.db, x) && OnTrack(s.db, x, pid) && LockingMoves(s, t, x, x')
    requires pid in s.db.products && s.db.products[pid].stock >= 0
    ensures OnTrack(s.db, x', pid) && (x'.pc.Finished? ==> !x'.pc.outcome.Committed?)
  {
    var Locking(balance, lines, todo, rows) := x.pc;
    if todo == [] && Refusal(rows, lines).Some? {
      assert Pids(lines) - Elements(todo) == Pids(lines);
      RefusedMeansSoldOut(s.db, lines, pid);
    }
  }

  lemma StartOnTrack(s: State, t: nat, x: Txn, x': Txn, pid: nat)
    requires x.pc.Start? && OnTrack(s.db, x, pid) && StartMoves(s, t, x, x')
    ensures OnTrack(s.db, x', pid) && !x'.pc.Finished?
  {
    assert ReadsCart(s.db, x, x', x.req.user, 0);
    var lines :| IsCart(s.db.carts, x.req.user, lines) &&
      x' == if lines == [] then Refuse(x, EmptyCart)
            else x.(pc := Locking(0, lines, SortedPids(lines), map[]));
    OneUnitRead(s.db.carts, x.req.user, pid, lines);
  }

  lemma SellingOnTrack(s: State, t: nat, x: Txn, x': Txn, pid: nat)
    requires (x.pc.Selling? || x.pc.Billed?) && Good(s.db, x) && OnTrack(s.db, x, pid) && CheckoutMoves(s, t, x, x')
    ensures OnTrack(s.db, x', pid) && !x'.pc.Finished?
  {
    if x.pc.Selling? {
      DeductionNeverFails(s, t, x, x');
    }
  }

  lemma MoveOnTrack(s: State, t: nat, x: Txn, x': Txn, pid: nat)
    requires Good(s.db, x) && OnTrack(s.db, x, pid) && Moves(s, t, x, x')
    requires pid in s.db.products && s.db.products[pid].stock >= 0
    ensures OnTrack(s.db, x', pid) && (x'.pc.Finished? ==> !x'.pc.outcome.Committed?)
    ensures x'.req == x.req && !x.pc.Finished?
  {
    MovesExclusive(s, t, x, x');
    if x.pc.Start? {
      StartOnTrack(s, t, x, x', pid);
    } else if x.pc.Locking? {
      LockingOnTrack(s, t, x, x', pid);
    } else {
      SellingOnTrack(s, t, x, x', pid);
    }
  }

  lemma SameWinners(s: State, t: nat, x': Txn)
    requires t in s.txns && !s.txns[t].pc.Finished? && (x'.pc.Finished? ==> !x'.pc.outcome.Committed?)
    ensures Winners(s.txns[t := x']) == Winners(s.txns)
  {}

  lemma WorkKeepsRush(init: Db, pid: nat, s: State, s': State, t: nat)
    requires RushInv(init, pid, s) && Works(s, s', t) && Good(s.db, s.txns[t])
    ensures RushInv(init, pid, s')
  {
    MoveOnTrack(s, t, s.txns[t], s'.txns[t], pid);
    SameWinners(s, t, s'.txns[t]);
  }

  /** A purchase of one unit takes one unit and leaves other users' carts alone. */
  lemma OneSale(db: Db, ev: Event, pid: nat)
    requires CartsOk(db) && Accepts(db, ev) && ev.Bought? && OneLine(ev.lines, pid) && Emptied(db, ev)
    ensures pid in Perform(db, ev).products && Perform(db, ev).products[pid].stock == db.products[pid].stock - 1 >= 0
    ensures forall user :: user != ev.user ==> RowsOf(Perform(db, ev).carts, user) == RowsOf(db.carts, user)
  {
    assert ev.lines[0].pid in db.products;
    SellAt(db.products, ev.lines, pid);
  }

  lemma OthersOnTrack(db: Db, db': Db, y: Txn, pid: nat)
    requires OnTrack(db, y, pid) && pid in db.products && pid in db'.products
    requires db.products[pid].stock > 0
    requires !y.pc.Finished? ==> RowsOf(db'.carts, y.req.user) == RowsOf(db.carts, y.req.user)
    requires forall id :: id in db'.carts ==> id in db.carts && db'.carts[id] == db.carts[id]
    ensures OnTrack(db', y, pid)
  {
    if !y.pc.Finished? {
      var id :| RowsOf(db.carts, y.req.user) == {id} && db.carts[id].pid == pid && db.carts[id].qty == 1;
      assert id in RowsOf(db'.carts, y.req.user);
    }
  }

  lemma CommitKeepsRush(init: Db, pid: nat, s: State, s': State, t: nat, ev: Event)
    requires RushInv(init, pid, s) && CartsOk(s.db) && t in s.txns
    requires Accepts(s.db, ev) && ev.Bought? && ev.user == s.txns[t].req.user
    requires OneLine(ev.lines, pid) && Emptied(s.db, ev)
    requires !s.txns[t].pc.Finished?
    requires s' == State(Perform(s.db, ev), s.txns[t := Finish(s.txns[t], Committed(ev))], s.history + [ev])
    ensures RushInv(init, pid, s')
  {
    OneSale(s.db, ev, pid);
    forall u | u in s'.txns ensures OnTrack(s'.db, s'.txns[u], pid) {
      if u != t {
        OthersOnTrack(s.db, s'.db, s.txns[u], pid);
      }
    }
    OneWinnerMore(s.txns, t, ev);
  }

  lemma OneWinnerMore(txns: map<nat, Txn>, t: nat, ev: Event)
    requires t in txns && !txns[t].pc.Finished?
    ensures Winners(txns[t := Finish(txns[t], Committed(ev))]) == Winners(txns) + {t} && t !in Winners(txns)
  {}

  /** What a checkout about to commit is committing. */
  lemma ReadyToSell(db: Db, x: Txn, pid: nat)
    requires Good(db, x) && OnTrack(db, x, pid) && x.pc.Ready?
    ensures x.pc.ev.Bought? && x.pc.ev.user == x.req.user && OneLine(x.pc.ev.lines, pid) && Emptied(db, x.pc.ev)
  {}

  lemma StepKeepsRush(init: Db, pid: nat, s: State, s': State, t: nat)
    requires Inv(init, s) && RushInv(init, pid, s) && (Works(s, s', t) || Commits(s, s', t))
    ensures RushInv(init, pid, s') && s'.txns.Keys == s.txns.Keys
  {
    if Works(s, s', t) {
      WorkKeepsRush(init, pid, s, s', t);
    } else {
      CommitIsAtomic(init, s, s', t);
      ReadyToSell(s.db, s.txns[t], pid);
      CommitKeepsRush(init, pid, s, s', t, s.txns[t].pc.ev);
    }
  }

  lemma RushStepHolds(init: Db, pid: nat, s: State, s': State)
    requires Inv(init, s) && RushInv(init, pid, s) && RushStep(s, s')
    ensures Inv(init, s') && RushInv(init, pid, s') && s'.txns.Keys == s.txns.Keys
  {
    var t :| Works(s, s', t) || Commits(s, s', t);
    StepKeepsRush(init, pid, s, s', t);
    if Works(s, s', t) {
      WorkKeepsInv(init, s, s', t);
    } else {
      CommitKeepsInv(init, s, s', t);
    }
  }

  lemma OpeningHolds(init: Db, pid: nat, s: State)
    requires Opening(init, pid, s)
    ensures Inv(init, s) && RushInv(init, pid, s)
  {
    assert Winners(s.txns) == {};
  }

  lemma RushPrefix(init: Db, pid: nat, run: seq<State>)
    requires Rush(init, pid, run) && |run| > 1
    ensures var before := run[..|run| - 1];
            && Rush(init, pid, before) && before[0] == run[0] && before[|before| - 1] == run[|run| - 2]
            && RushStep(run[|run| - 2], run[|run| - 1])
  {}

  lemma {:induction false} RushHolds(init: Db, pid: nat, run: seq<State>)
    requires Rush(init, pid, run)
    ensures Inv(init, run[|run| - 1])
    ensures RushInv(init, pid, run[|run| - 1]) && run[|run| - 1].txns.Keys == run[0].txns.Keys
  {
    if |run| == 1 {
      OpeningHolds(init, pid, run[0]);
    } else {
      RushPrefix(init, pid, run);
      RushHolds(init, pid, run[..|run| - 1]);
      RushStepHolds(init, pid, run[|run| - 2], run[|run| - 1]);
    }
  }

  lemma AllFinished(init: Db, pid: nat, s: State)
    requires RushInv(init, pid, s) && Done(s)
    ensures var n, stock := |s.txns.Keys|, init.products[pid].stock;
            |Winners(s.txns)| == if stock < n then stock else n
  {
    var won, losers := Winners(s.txns), s.txns.Keys - Winners(s.txns);
    assert s.txns.Keys == won + losers;
    assert |s.txns.Keys| == |won| + |losers|;
    if losers != {} {
      var t :| t in losers;
      LoserSawNoStock(init, pid, s, t);
      assert |losers| >= 1;
    }
  }

  lemma LoserSawNoStock(init: Db, pid: nat, s: State, t: nat)
    requires RushInv(init, pid, s) && Done(s) && t in s.txns && t !in Winners(s.txns)
    ensures s.db.products[pid].stock == 0
  {
    assert OnTrack(s.db, s.txns[t], pid);
  }

  /** Main result: in every interleaving in which all n checkouts finish, exactly min(S, n) of them succeed and
      S - min(S, n) units are left. */
  lemma ExactlyTheStockIsSold(init: Db, pid: nat, run: seq<State>)
    requires Rush(init, pid, run)
    requires Done(run[|run| - 1])
    ensures var s, n, stock := run[|run| - 1], |run[0].txns|, init.products[pid].stock;
            var sold := if stock < n then stock else n;
            && |Winners(s.txns)| == sold
            && pid in s.db.products && s.db.products[pid].stock == stock - sold
  {
    RushHolds(init, pid, run);
    AllFinished(init, pid, run[|run| - 1]);
  }
}
