/** Cart transactions hit the rows they were aimed at, at the quantity those rows have when they commit. */
module CartRuns {
  import opened Schema
  import opened Serial
  import opened Evolution
  import opened Engine
  import opened Serializable
  import opened RowByRow

  /** The id was issued, and if its row is still there it is the user's row for the product. */
  ghost predicate OnRow(db: Db, user: nat, pid: nat, id: nat) {
    id in db.owners && (id in db.carts ==> RowAt(db.carts, id, user, pid))
  }

  ghost predicate AimedEvent(db: Db, req: Request, ev: Event) {
    match ev
    case RowBumped(id, _, _) => req.CartAdd? && OnRow(db, req.user, req.pid, id)
    case RowSet(id, _, _) => req.CartSet? && OnRow(db, req.user, req.pid, id)
    case RowsDeleted(ids) =>
      (match req
       case CartSet(user, pid, qty) => qty <= 0 && exists id :: ids == {id} && OnRow(db, user, pid, id)
       case CartRemove(user, pid) => exists id :: ids == {id} && OnRow(db, user, pid, id)
       case CartClear(user) => forall id :: id in ids ==> id in db.owners && db.owners[id] == user
       case CartPurge(all) => ids <= all
       case _ => false)
    case _ => true
  }

  /** What a cart transaction has found so far is the row it was called for. */
  ghost predicate Aimed(db: Db, x: Txn) {
    match x.pc
    case RowRead(id, _) => x.req.CartAdd? && OnRow(db, x.req.user, x.req.pid, id)
    case RowLocked(id, _) => (x.req.CartSet? || x.req.CartRemove?) && OnRow(db, x.req.user, x.req.pid, id)
    case Ready(ev) => AimedEvent(db, x.req, ev)
    case _ => true
  }

  lemma OnRowStays(db: Db, db': Db, user: nat, pid: nat, id: nat)
    requires Evolves(db, db') && OnRow(db, user, pid, id)
    ensures OnRow(db', user, pid, id)
  {}

  /** Row ids are never reused and a row never changes hands, so the aim stays good whatever others commit. */
  lemma AimedStable(db: Db, db': Db, x: Txn)
    requires Evolves(db, db') && Aimed(db, x)
    ensures Aimed(db', x)
  {
    if x.pc.Ready? && x.pc.ev.RowsDeleted? && (x.req.CartSet? || x.req.CartRemove?) {
      var id :| x.pc.ev.ids == {id} && OnRow(db, x.req.user, x.req.pid, id);
      OnRowStays(db, db', x.req.user, x.req.pid, id);
    }
  }

  lemma StartAims(s: State, t: nat, x: Txn, x': Txn)
    requires CartsOk(s.db) && x.pc.Start? && StartMoves(s, t, x, x')
    ensures Aimed(s.db, x')
  {}

  lemma LockedAims(s: State, t: nat, x: Txn, x': Txn)
    requires LockedPc(x.pc) && Aimed(s.db, x) && LockedMoves(s, t, x, x')
    ensures Aimed(s.db, x')
  {}

  lemma OptimisticAims(s: State, t: nat, x: Txn, x': Txn)
    requires CartsOk(s.db) && OptimisticPc(x.pc) && Aimed(s.db, x) && OptimisticMoves(s, t, x, x')
    ensures Aimed(s.db, x')
  {}

  lemma CheckoutAims(s: State, t: nat, x: Txn, x': Txn)
    requires x.req.Checkout? && CheckoutPc(x.pc) && CheckoutMoves(s, t, x, x')
    ensures Aimed(s.db, x')
  {}

  lemma MovesAim(s: State, t: nat, x: Txn, x': Txn)
    requires CartsOk(s.db) && Aimed(s.db, x) && Moves(s, t, x, x')
    ensures Aimed(s.db, x')
  {
    if x.pc.Start? {
      StartAims(s, t, x, x');
    } else if OptimisticPc(x.pc) {
      OptimisticAims(s, t, x, x');
    } else if LockedPc(x.pc) {
      LockedAims(s, t, x, x');
    } else {
      CheckoutAims(s, t, x, x');
    }
  }

  ghost predicate AllAimed(s: State) {
    forall t :: t in s.txns ==> Aimed(s.db, s.txns[t])
  }

  lemma CommitKeepsAim(s: State, s': State, t: nat)
    requires CartsOk(s.db) && AllAimed(s) && Commits(s, s', t)
    requires Accepts(s.db, s.txns[t].pc.ev) && s'.db == Perform(s.db, s.txns[t].pc.ev)
    ensures AllAimed(s')
  {
    EvolvesStep(s.db, s.txns[t].pc.ev);
    forall u | u in s'.txns ensures Aimed(s'.db, s'.txns[u]) {
      if u != t {
        AimedStable(s.db, s'.db, s.txns[u]);
      }
    }
  }

  lemma WorkKeepsAim(s: State, s': State, t: nat)
    requires CartsOk(s.db) && AllAimed(s) && (Works(s, s', t) || Crashes(s, s', t) || Arrives(s, s', t))
    ensures AllAimed(s')
  {
    if Works(s, s', t) {
      MovesAim(s, t, s.txns[t], s'.txns[t]);
    }
    forall u | u in s'.txns ensures Aimed(s'.db, s'.txns[u]) {
      assert u != t ==> u in s.txns && s'.txns[u] == s.txns[u];
    }
  }

  lemma StepKeepsAim(init: Db, s: State, s': State)
    requires Inv(init, s) && AllAimed(s) && Step(s, s')
    ensures AllAimed(s')
  {
    var t :| Works(s, s', t) || Commits(s, s', t) || Crashes(s, s', t) || Arrives(s, s', t);
    if Commits(s, s', t) {
      CommitIsAtomic(init, s, s', t);
      CommitKeepsAim(s, s', t);
    } else {
      WorkKeepsAim(s, s', t);
    }
  }

  lemma {:induction false} RunAims(init: Db, run: seq<State>)
    requires CartsOk(init) && Run(init, run)
    ensures AllAimed(run[|run| - 1])
  {
    if |run| > 1 {
      RunAims(init, run[..|run| - 1]);
      RunsAreSerializable(init, run[..|run| - 1]);
      StepKeepsAim(init, run[|run| - 2], run[|run| - 1]);
    }
  }

  lemma CommitIsServed(init: Db, run: seq<State>, s': State, t: nat)
    requires CartsOk(init) && Run(init, run) && Commits(run[|run| - 1], s', t)
    ensures var db, x := run[|run| - 1].db, run[|run| - 1].txns[t];
            && CartsOk(db) && Serves(x.req, x.pc.ev) && Accepts(db, x.pc.ev) && s'.db == Perform(db, x.pc.ev)
  {
    RunsAreSerializable(init, run);
    CommitIsAtomic(init, run[|run| - 1], s', t);
  }

  /** What a commit at the end of a run does. */
  lemma CommitIsAimed(init: Db, run: seq<State>, s': State, t: nat)
    requires CartsOk(init) && Run(init, run) && Commits(run[|run| - 1], s', t)
    ensures var db, x := run[|run| - 1].db, run[|run| - 1].txns[t];
            && CartsOk(db) && Serves(x.req, x.pc.ev) && Accepts(db, x.pc.ev) && s'.db == Perform(db, x.pc.ev)
            && AimedEvent(db, x.req, x.pc.ev)
  {
    CommitIsServed(init, run, s', t);
    RunAims(init, run);
    assert Aimed(run[|run| - 1].db, run[|run| - 1].txns[t]);
  }

  lemma AddedEvent(db: Db, req: Request, ev: Event)
    requires req.CartAdd? && Serves(req, ev) && Accepts(db, ev) && AimedEvent(db, req, ev)
    ensures ev.RowBumped? || ev.RowAdded?
    ensures ev.RowBumped? ==> ev.extra == req.extra && RowAt(db.carts, ev.id, req.user, req.pid)
    ensures ev.RowAdded? ==> req.extra >= 0 && ev.row == CartRow(req.user, req.pid, req.extra, 0, ev.row.touched)
  {}

  /** Main result: when an add commits, under whatever interleaving, it either adds the requested quantity to the row of
      the user and product, at the quantity it has at that very moment, or inserts the first such row, under an id
      never used before; no other row and no other table changes. */
  lemma AddsToTheCurrentQuantity(init: Db, run: seq<State>, s': State, t: nat) returns (id: nat, at: nat)
    requires CartsOk(init) && Run(init, run) && Commits(run[|run| - 1], s', t)
    requires run[|run| - 1].txns[t].req.CartAdd?
    ensures var db, req := run[|run| - 1].db, run[|run| - 1].txns[t].req;
            if id in db.carts
            then
              && db.carts[id].user == req.user && db.carts[id].pid == req.pid && db.carts[id].qty + req.extra >= 0
              && s'.db == db.(carts := db.carts[id := CartRow(req.user, req.pid, db.carts[id].qty + req.extra,
                                                               db.carts[id].version + 1, db.carts[id].touched)])
            else
              && (forall k :: k in db.carts ==> db.carts[k].user != req.user || db.carts[k].pid != req.pid)
              && id !in db.owners && req.extra >= 0
              && s'.db == db.(carts := db.carts[id := CartRow(req.user, req.pid, req.extra, 0, at)],
                              owners := db.owners[id := req.user])
  {
    var db, x := run[|run| - 1].db, run[|run| - 1].txns[t];
    CommitIsAimed(init, run, s', t);
    AddedEvent(db, x.req, x.pc.ev);
    CartRows(db, x.pc.ev);
    id, at := x.pc.ev.id, if x.pc.ev.RowAdded? then x.pc.ev.row.touched else x.pc.ev.at;
  }

  /** Main result: a removal or a quantity of zero or less deletes exactly the row of its user and product; clearing
      deletes only its user's rows, and a cleanup only rows it selected. */
  lemma DeletesOnlyItsRows(init: Db, run: seq<State>, s': State, t: nat)
    requires CartsOk(init) && Run(init, run) && Commits(run[|run| - 1], s', t)
    requires var req := run[|run| - 1].txns[t].req;
             req.CartRemove? || req.CartClear? || req.CartPurge? || (req.CartSet? && req.qty <= 0)
    ensures run[|run| - 1].txns[t].pc.ev.RowsDeleted?
    ensures var db, req, ids := run[|run| - 1].db, run[|run| - 1].txns[t].req, run[|run| - 1].txns[t].pc.ev.ids;
            && s'.db == db.(carts := db.carts - ids) && ids <= db.carts.Keys
            && (req.CartSet? || req.CartRemove? ==> ids != {} && forall id :: id in ids <==>
                  id in db.carts && db.carts[id].user == req.user && db.carts[id].pid == req.pid)
            && (req.CartClear? ==> forall id :: id in ids ==> db.carts[id].user == req.user)
            && (req.CartPurge? ==> ids <= req.ids)
  {
    CommitIsAimed(init, run, s', t);
    var db, x := run[|run| - 1].db, run[|run| - 1].txns[t];
    DeletingEvent(db, x.req, x.pc.ev);
    CartRows(db, x.pc.ev);
  }

  lemma DeletingEvent(db: Db, req: Request, ev: Event)
    requires req.CartRemove? || req.CartClear? || req.CartPurge? || (req.CartSet? && req.qty <= 0)
    requires CartsOk(db) && Serves(req, ev) && Accepts(db, ev) && AimedEvent(db, req, ev)
    ensures ev.RowsDeleted?
    ensures req.CartSet? || req.CartRemove? ==> ev.ids != {} && forall id :: id in ev.ids <==>
              id in db.carts && db.carts[id].user == req.user && db.carts[id].pid == req.pid
    ensures req.CartClear? ==> forall id :: id in ev.ids ==> id in db.carts && db.carts[id].user == req.user
    ensures req.CartPurge? ==> ev.ids <= req.ids
  {
    if req.CartSet? || req.CartRemove? {
      var id :| ev.ids == {id} && OnRow(db, req.user, req.pid, id);
      assert RowAt(db.carts, id, req.user, req.pid);
    }
  }
}
