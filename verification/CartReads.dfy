/** What a checkout bills, and what its final DELETE takes: the cart is read once, without locking its rows, and
    emptied at the end, while its owner may go on editing it. */
module CartReads {
  import opened Schema
  import opened Serial
  import opened Evolution
  import opened Engine
  import opened Serializable
  import opened Guarantees

  // ----- the cart that is billed -----

  /** The cart lines a checkout has read and not dropped: it will bill them, or has billed them. */
  function Listed(x: Txn): Option<seq<Line>> {
    match x.pc
    case Locking(_, lines, _, _) => Some(lines)
    case Selling(lines, _, _) => Some(lines)
    case Billed(lines, _, _) => Some(lines)
    case Ready(ev) => if ev.Bought? then Some(ev.lines) else None
    case Finished(Committed(ev)) => if ev.Bought? then Some(ev.lines) else None
    case _ => None
  }

  /** The transaction is about to read the cart, which has exactly these lines; a wallet checkout holds its user's
      row. */
  ghost predicate AboutToRead(db: Db, x: Txn, tender: Tender, user: nat, lines: seq<Line>) {
    && x.req == Checkout(tender, user) && lines != [] && IsCart(db.carts, user, lines)
    && (if tender == ByWallet then x.pc.UserLocked? && UserKey(user) in x.held else x.pc.Start?)
  }

  /** The step from the i-th moment of the run to the next is the one in which the checkout reads the cart. */
  ghost predicate ReadAt(run: seq<State>, i: int, t: nat, tender: Tender, user: nat, lines: seq<Line>) {
    && 0 <= i < |run| - 1 && t in run[i].txns && t in run[i + 1].txns
    && AboutToRead(run[i].db, run[i].txns[t], tender, user, lines)
    && run[i + 1].txns[t].pc.Locking? && run[i + 1].txns[t].pc.lines == lines
  }

  /** The user row is taken before the cart is read, and the event is the one the call was for. */
  predicate InOrder(x: Txn) {
    match x.pc
    case UserLocked(_) => x.req.Checkout? && x.req.tender == ByWallet && UserKey(x.req.user) in x.held
    case Ready(ev) => ev.Bought? ==> x.req == Checkout(ev.tender, ev.user)
    case Finished(Committed(ev)) => ev.Bought? ==> x.req == Checkout(ev.tender, ev.user)
    case _ => Listed(x).Some? ==> x.req.Checkout?
  }

  ghost predicate ReadBefore(run: seq<State>, t: nat, x: Txn, lines: seq<Line>) {
    && x.req.Checkout?
    && exists i :: ReadAt(run, i, t, x.req.tender, x.req.user, lines)
  }

  ghost predicate WasRead(run: seq<State>, t: nat, x: Txn) {
    InOrder(x) && (Listed(x).Some? ==> ReadBefore(run, t, x, Listed(x).value))
  }

  lemma ReadBeforeLater(run: seq<State>, s': State, t: nat, x: Txn, lines: seq<Line>)
    requires ReadBefore(run, t, x, lines)
    ensures ReadBefore(run + [s'], t, x, lines)
  {
    var i :| ReadAt(run, i, t, x.req.tender, x.req.user, lines);
    assert ReadAt(run + [s'], i, t, x.req.tender, x.req.user, lines);
  }

  lemma ReadNow(run: seq<State>, s': State, t: nat, lines: seq<Line>)
    requires run != [] && t in Last(run).txns && t in s'.txns && Last(run).txns[t].req.Checkout?
    requires var x := Last(run).txns[t]; AboutToRead(Last(run).db, x, x.req.tender, x.req.user, lines)
    requires s'.txns[t].req == Last(run).txns[t].req
    requires s'.txns[t].pc.Locking? && s'.txns[t].pc.lines == lines
    ensures ReadBefore(run + [s'], t, s'.txns[t], lines)
  {
    var x := Last(run).txns[t];
    assert ReadAt(run + [s'], |run| - 1, t, x.req.tender, x.req.user, lines);
  }

  /** A step either reads the cart as it is, or keeps the lines already read. */
  lemma CheckoutKeepsLines(s: State, t: nat, x: Txn, x': Txn)
    requires x.req.Checkout? && CheckoutPc(x.pc) && !x.pc.UserLocked? && CheckoutMoves(s, t, x, x')
    ensures x'.req == x.req && InOrder(x') && (Listed(x').Some? ==> Listed(x') == Listed(x))
  {}

  lemma WalletReadsCart(s: State, t: nat, x: Txn, x': Txn)
    requires InOrder(x) && x.pc.UserLocked? && ReadsCart(s.db, x, x', x.req.user, x.pc.balance)
    ensures x'.req == x.req && InOrder(x')
    ensures Listed(x').Some? ==> x'.pc.Locking? && AboutToRead(s.db, x, ByWallet, x.req.user, Listed(x').value)
  {}

  lemma CardReadsCart(s: State, t: nat, x: Txn, x': Txn)
    requires x.pc.Start? && StartMoves(s, t, x, x')
    ensures x'.req == x.req && InOrder(x')
    ensures Listed(x').Some? ==> x.req == Checkout(ByCard, x.req.user) && x'.pc.Locking?
    ensures Listed(x').Some? ==> AboutToRead(s.db, x, ByCard, x.req.user, Listed(x').value)
  {}

  lemma OptimisticListNothing(s: State, t: nat, x: Txn, x': Txn)
    requires OptimisticPc(x.pc) && OptimisticMoves(s, t, x, x')
    ensures Listed(x').None? && InOrder(x')
  {}

  lemma LockedListNothing(s: State, t: nat, x: Txn, x': Txn)
    requires LockedPc(x.pc) && LockedMoves(s, t, x, x')
    ensures Listed(x').None? && InOrder(x')
  {}

  lemma CheckoutMoveReads(run: seq<State>, s': State, t: nat, x: Txn, x': Txn)
    requires run != [] && t in Last(run).txns && Last(run).txns[t] == x && WasRead(run, t, x)
    requires x.req.Checkout? && CheckoutPc(x.pc) && CheckoutMoves(Last(run), t, x, x')
    requires t in s'.txns && s'.txns[t] == x'
    ensures WasRead(run + [s'], t, x')
  {
    if x.pc.UserLocked? {
      WalletReadsCart(Last(run), t, x, x');
      if Listed(x').Some? {
        ReadNow(run, s', t, Listed(x').value);
      }
    } else {
      CheckoutKeepsLines(Last(run), t, x, x');
      if Listed(x').Some? {
        ReadBeforeLater(run, s', t, x', Listed(x').value);
      }
    }
  }

  lemma MoveReads(run: seq<State>, s': State, t: nat, x: Txn, x': Txn)
    requires run != [] && t in Last(run).txns && Last(run).txns[t] == x && WasRead(run, t, x)
    requires Moves(Last(run), t, x, x') && t in s'.txns && s'.txns[t] == x'
    ensures WasRead(run + [s'], t, x')
  {
    if x.pc.Start? {
      CardReadsCart(Last(run), t, x, x');
      if Listed(x').Some? {
        ReadNow(run, s', t, Listed(x').value);
      }
    } else if CheckoutPc(x.pc) {
      CheckoutMoveReads(run, s', t, x, x');
    } else if OptimisticPc(x.pc) {
      OptimisticListNothing(Last(run), t, x, x');
    } else {
      LockedListNothing(Last(run), t, x, x');
    }
  }

  ghost predicate AllRead(run: seq<State>)
    requires run != []
  {
    forall t :: t in Last(run).txns ==> WasRead(run, t, Last(run).txns[t])
  }

  lemma WasReadLater(run: seq<State>, s': State, t: nat, x: Txn)
    requires WasRead(run, t, x)
    ensures WasRead(run + [s'], t, x)
  {
    if Listed(x).Some? {
      ReadBeforeLater(run, s', t, x, Listed(x).value);
    }
  }

  /** Committing, crashing and arriving read nothing. */
  lemma EndReads(run: seq<State>, s': State, t: nat)
    requires run != [] && AllRead(run)
    requires var s := Last(run); Commits(s, s', t) || Crashes(s, s', t) || Arrives(s, s', t)
    ensures t in s'.txns && WasRead(run + [s'], t, s'.txns[t])
  {
    var s := Last(run);
    if t in s.txns {
      WasReadLater(run, s', t, s.txns[t]);
    }
  }

  lemma StepReads(run: seq<State>, s': State)
    requires run != [] && AllRead(run) && Step(Last(run), s')
    ensures AllRead(run + [s'])
  {
    var s := Last(run);
    var u :| Works(s, s', u) || Commits(s, s', u) || Crashes(s, s', u) || Arrives(s, s', u);
    if Works(s, s', u) {
      MoveReads(run, s', u, s.txns[u], s'.txns[u]);
    } else {
      EndReads(run, s', u);
    }
    forall t | t in s'.txns && t != u ensures WasRead(run + [s'], t, s'.txns[t]) {
      WasReadLater(run, s', t, s.txns[t]);
    }
  }

  lemma {:induction false} RunReads(init: Db, run: seq<State>)
    requires Run(init, run)
    ensures AllRead(run)
  {
    if |run| > 1 {
      var before := run[..|run| - 1];
      RunReads(init, before);
      StepReads(before, Last(run));
      assert run == before + [Last(run)];
    }
  }

  /** A checkout about to commit bills what was in the cart when it read it. */
  lemma ReadyWasRead(init: Db, run: seq<State>, t: nat) returns (i: nat)
    requires Run(init, run) && t in Last(run).txns
    requires Last(run).txns[t].pc.Ready? && Last(run).txns[t].pc.ev.Bought?
    ensures var ev := Last(run).txns[t].pc.ev; ReadAt(run, i, t, ev.tender, ev.user, ev.lines)
  {
    RunReads(init, run);
    i := ReadMoment(run, t, Last(run).txns[t], Last(run).txns[t].pc.ev);
  }

  lemma ReadMoment(run: seq<State>, t: nat, x: Txn, ev: Event) returns (i: nat)
    requires WasRead(run, t, x) && ev.Bought? && (x.pc == Ready(ev) || x.pc == Finished(Committed(ev)))
    ensures ReadAt(run, i, t, ev.tender, ev.user, ev.lines)
  {
    i :| ReadAt(run, i, t, x.req.tender, x.req.user, ev.lines);
  }

  /** Main result: every order of every run bills exactly what was in its user's cart, products and quantities, at the
      step in which its call read it; for a wallet order, while it held the user's row. */
  lemma OrdersBillTheCart(init: Db, run: seq<State>, k: nat) returns (t: nat, i: nat)
    requires CartsOk(init) && Run(init, run) && k < |Last(run).history| && Last(run).history[k].Bought?
    ensures var ev := Last(run).history[k];
            && t in Last(run).txns && Last(run).txns[t].pc == Finished(Committed(ev))
            && ReadAt(run, i, t, ev.tender, ev.user, ev.lines)
  {
    var order := HistoryIsTheCommits(init, run);
    t := order[k];
    RunReads(init, run);
    i := ReadMoment(run, t, Last(run).txns[t], Last(run).history[k]);
  }

  // ----- the rows that are deleted -----

  ghost predicate Inserts(ev: Event, ids: set<nat>) {
    ev.RowAdded? && ev.id in ids
  }

  /** The transaction inserts one of the rows or changes its quantity. */
  ghost predicate Alters(ev: Event, ids: set<nat>) {
    (ev.RowAdded? || ev.RowBumped? || ev.RowSet?) && ev.id in ids
  }

  lemma AlteredStep(db: Db, ev: Event, id: nat)
    requires CartsOk(db) && Accepts(db, ev) && id in Perform(db, ev).carts
    ensures Inserts(ev, {id}) <==> id !in db.owners
    ensures !Inserts(ev, {id}) ==> id in db.carts && RowGrows(db.carts[id], Perform(db, ev).carts[id])
    ensures !Inserts(ev, {id}) ==> (Alters(ev, {id}) <==> Perform(db, ev).carts[id] != db.carts[id])
  {}

  /** A row that is there now was there, and as it is now, exactly when nothing inserted, or altered, it since. */
  lemma {:induction false} RowUnalteredExactly(db: Db, more: seq<Event>, id: nat)
    requires CartsOk(db) && Replay(db, more).Some? && id in Replay(db, more).value.carts
    ensures id in db.carts <==> forall k :: 0 <= k < |more| ==> !Inserts(more[k], {id})
    ensures id in db.carts && db.carts[id] == Replay(db, more).value.carts[id] <==>
              forall k :: 0 <= k < |more| ==> !Alters(more[k], {id})
  {
    if more != [] {
      var past, ev := more[..|more| - 1], more[|more| - 1];
      var mid := Replay(db, past).value;
      EvolvesOverHistory(db, past);
      AlteredStep(mid, ev, id);
      assert more == past + [ev];
      if Inserts(ev, {id}) {
        assert id !in db.carts;
      } else {
        RowUnalteredExactly(db, past, id);
        LastOne(past, ev, id);
        assert id in db.carts ==> RowGrows(db.carts[id], mid.carts[id]);
      }
    }
  }

  lemma LastOne(past: seq<Event>, ev: Event, id: nat)
    ensures (forall k :: 0 <= k < |past + [ev]| ==> !Inserts((past + [ev])[k], {id})) <==>
              (forall k :: 0 <= k < |past| ==> !Inserts(past[k], {id})) && !Inserts(ev, {id})
    ensures (forall k :: 0 <= k < |past + [ev]| ==> !Alters((past + [ev])[k], {id})) <==>
              (forall k :: 0 <= k < |past| ==> !Alters(past[k], {id})) && !Alters(ev, {id})
  {
    var more := past + [ev];
    assert more[|past|] == ev && forall k :: 0 <= k < |past| ==> more[k] == past[k];
  }

  /** Main result: a committing checkout deletes only rows it bills exactly when, since it read the cart, nobody
      inserted a row it deletes; and it deletes them only as it read them exactly when nobody altered one either. */
  lemma DeletesOnlyWhatItReadExactly(init: Db, run: seq<State>, s': State, t: nat) returns (i: nat, between: seq<Event>)
    requires CartsOk(init) && Run(init, run) && Commits(Last(run), s', t) && Last(run).txns[t].pc.ev.Bought?
    ensures var ev := Last(run).txns[t].pc.ev; ReadAt(run, i, t, ev.tender, ev.user, ev.lines)
    ensures Last(run).history == run[i].history + between
    ensures var ev, seen, now := Last(run).txns[t].pc.ev, run[i].db.carts, Last(run).db.carts;
            && ev.gone <= now.Keys
            && (ev.gone <= RowIds(ev.lines) <==> forall k :: 0 <= k < |between| ==> !Inserts(between[k], ev.gone))
            && ((forall id :: id in ev.gone ==> id in seen && seen[id] == now[id]) <==>
                  forall k :: 0 <= k < |between| ==> !Alters(between[k], ev.gone))
  {
    i := ReadyWasRead(init, run, t);
    between := HistoryBetween(init, run, i);
    CheckoutReady(init, run, t);
    var ev := Last(run).txns[t].pc.ev;
    DeletedRows(run[i].db, between, ev.user, ev.lines, ev.gone);
  }

  lemma DeletedRows(db: Db, between: seq<Event>, user: nat, lines: seq<Line>, gone: set<nat>)
    requires CartsOk(db) && Replay(db, between).Some? && IsCart(db.carts, user, lines)
    requires var now := Replay(db, between).value.carts; forall id :: id in gone ==> id in now && now[id].user == user
    ensures gone <= RowIds(lines) <==> forall k :: 0 <= k < |between| ==> !Inserts(between[k], gone)
    ensures var now := Replay(db, between).value.carts;
            (forall id :: id in gone ==> id in db.carts && db.carts[id] == now[id]) <==>
              forall k :: 0 <= k < |between| ==> !Alters(between[k], gone)
  {
    var seen, now := db.carts, Replay(db, between).value.carts;
    forall id | id in gone
      ensures id in RowIds(lines) <==> forall k :: 0 <= k < |between| ==> !Inserts(between[k], {id})
      ensures id in seen && seen[id] == now[id] <==> forall k :: 0 <= k < |between| ==> !Alters(between[k], {id})
    {
      DeletedRow(db, between, user, lines, id);
    }
    RowByRow(between, gone);
  }

  lemma RowByRow(between: seq<Event>, ids: set<nat>)
    ensures (forall k :: 0 <= k < |between| ==> !Inserts(between[k], ids)) <==>
              forall id :: id in ids ==> forall k :: 0 <= k < |between| ==> !Inserts(between[k], {id})
    ensures (forall k :: 0 <= k < |between| ==> !Alters(between[k], ids)) <==>
              forall id :: id in ids ==> forall k :: 0 <= k < |between| ==> !Alters(between[k], {id})
  {
    assert forall k, id :: 0 <= k < |between| && id in ids && Inserts(between[k], {id}) ==> Inserts(between[k], ids);
    assert forall k, id :: 0 <= k < |between| && id in ids && Alters(between[k], {id}) ==> Alters(between[k], ids);
    assert forall k :: 0 <= k < |between| && Inserts(between[k], ids) ==> Inserts(between[k], {between[k].id});
    assert forall k :: 0 <= k < |between| && Alters(between[k], ids) ==> Alters(between[k], {between[k].id});
  }

  /** One deleted row: whether it was billed, inserted since, or altered since. */
  lemma DeletedRow(db: Db, between: seq<Event>, user: nat, lines: seq<Line>, id: nat)
    requires CartsOk(db) && Replay(db, between).Some? && IsCart(db.carts, user, lines)
    requires id in Replay(db, between).value.carts && Replay(db, between).value.carts[id].user == user
    ensures id in RowIds(lines) <==> id in db.carts
    ensures id in db.carts <==> forall k :: 0 <= k < |between| ==> !Inserts(between[k], {id})
    ensures id in db.carts && db.carts[id] == Replay(db, between).value.carts[id] <==>
              forall k :: 0 <= k < |between| ==> !Alters(between[k], {id})
  {
    RowUnalteredExactly(db, between, id);
    OwnRowStays(db, between, id, user);
    ListedExactly(db.carts, user, lines, id);
  }

  lemma CheckoutReady(init: Db, run: seq<State>, t: nat)
    requires CartsOk(init) && Run(init, run) && t in Last(run).txns
    requires Last(run).txns[t].pc.Ready? && Last(run).txns[t].pc.ev.Bought?
    ensures var ev, db := Last(run).txns[t].pc.ev, Last(run).db;
            && ev.gone <= db.carts.Keys && (forall id :: id in ev.gone ==> db.carts[id].user == ev.user)
  {
    RunsAreSerializable(init, run);
    assert Good(Last(run).db, Last(run).txns[t]);
  }

  lemma OwnRowStays(db: Db, more: seq<Event>, id: nat, user: nat)
    requires CartsOk(db) && Replay(db, more).Some? && id in Replay(db, more).value.carts
    requires Replay(db, more).value.carts[id].user == user
    ensures id in db.carts ==> db.carts[id].user == user
  {
    EvolvesOverHistory(db, more);
  }

  lemma ListedExactly(carts: map<nat, CartRow>, user: nat, lines: seq<Line>, id: nat)
    requires IsCart(carts, user, lines) && (id in carts ==> carts[id].user == user)
    ensures id in RowIds(lines) <==> id in carts
  {
    if id in carts {
      assert id in RowsOf(carts, user);
    }
  }
}
