/** How rows change from one committed state to a later one: versions only grow, a version determines what
    it guards, and deleted cart rows stay deleted. */
module Evolution {
  import opened Schema
  import opened Serial

  ghost predicate ProductGrows(p: Product, p': Product) {
    p'.version > p.version || (p'.version == p.version && p'.stock == p.stock)
  }

  ghost predicate RowGrows(r: CartRow, r': CartRow) {
    && r'.user == r.user && r'.pid == r.pid
    && (r'.version > r.version || r' == r)
  }

  ghost predicate Evolves(db: Db, db': Db) {
    && db'.products.Keys == db.products.Keys
    && (forall p :: p in db.products ==> ProductGrows(db.products[p], db'.products[p]))
    && (forall id :: id in db.owners ==> id in db'.owners && db'.owners[id] == db.owners[id])
    && (forall id :: id in db.owners && id in db'.carts ==>
          id in db.carts && RowGrows(db.carts[id], db'.carts[id]))
  }

  lemma EvolvesTransitive(a: Db, b: Db, c: Db)
    requires Evolves(a, b) && Evolves(b, c)
    ensures Evolves(a, c)
  {
    forall p | p in a.products ensures ProductGrows(a.products[p], c.products[p]) {
      assert ProductGrows(a.products[p], b.products[p]) && ProductGrows(b.products[p], c.products[p]);
    }
  }

  lemma SellGrows(products: map<nat, Product>, lines: seq<Line>, pid: nat)
    requires Stocked(products, lines) && Distinct(lines) && pid in products
    ensures ProductGrows(products[pid], Sell(products, lines)[pid])
  {
    SellAt(products, lines, pid);
  }

  lemma PurchaseEvolves(db: Db, ev: Event)
    requires CartsOk(db) && Accepts(db, ev) && ev.Bought?
    ensures Evolves(db, Perform(db, ev)) && CartsOk(Perform(db, ev))
  {
    var db' := Perform(db, ev);
    forall p | p in db.products ensures ProductGrows(db.products[p], db'.products[p]) {
      SellGrows(db.products, ev.lines, p);
    }
    assert db'.owners == db.owners && db'.carts == db.carts - ev.gone;
  }

  lemma RowAddedEvolves(db: Db, ev: Event)
    requires CartsOk(db) && Accepts(db, ev) && ev.RowAdded?
    ensures Evolves(db, Perform(db, ev)) && CartsOk(Perform(db, ev))
  {}

  lemma RowChangedEvolves(db: Db, ev: Event)
    requires CartsOk(db) && Accepts(db, ev) && (ev.RowBumped? || ev.RowSet?)
    ensures Evolves(db, Perform(db, ev)) && CartsOk(Perform(db, ev))
  {
    assert Perform(db, ev).carts == db.carts[ev.id := Perform(db, ev).carts[ev.id]];
  }

  lemma RowsDeletedEvolves(db: Db, ev: Event)
    requires CartsOk(db) && Accepts(db, ev) && ev.RowsDeleted?
    ensures Evolves(db, Perform(db, ev)) && CartsOk(Perform(db, ev))
  {}

  /** One committed transaction moves every row forward and keeps the cart table's uniqueness. */
  lemma EvolvesStep(db: Db, ev: Event)
    requires CartsOk(db) && Accepts(db, ev)
    ensures Evolves(db, Perform(db, ev)) && CartsOk(Perform(db, ev))
  {
    if ev.Bought? {
      PurchaseEvolves(db, ev);
    } else if ev.RowAdded? {
      RowAddedEvolves(db, ev);
    } else if ev.RowBumped? || ev.RowSet? {
      RowChangedEvolves(db, ev);
    } else if ev.RowsDeleted? {
      RowsDeletedEvolves(db, ev);
    }
  }

  lemma {:induction false} EvolvesOverHistory(db: Db, history: seq<Event>)
    requires CartsOk(db) && Replay(db, history).Some?
    ensures Evolves(db, Replay(db, history).value) && CartsOk(Replay(db, history).value)
  {
    if history != [] {
      var past, ev := history[..|history| - 1], history[|history| - 1];
      EvolvesOverHistory(db, past);
      EvolvesStep(Replay(db, past).value, ev);
      EvolvesTransitive(db, Replay(db, past).value, Replay(db, history).value);
    }
  }

  lemma {:induction false} EvolvesAbsorbing(db: Db, events: seq<Event>)
    requires CartsOk(db)
    ensures Evolves(db, Absorb(db, events)) && CartsOk(Absorb(db, events))
  {
    if events != [] {
      var past, ev := events[..|events| - 1], events[|events| - 1];
      EvolvesAbsorbing(db, past);
      if Accepts(Absorb(db, past), ev) {
        EvolvesStep(Absorb(db, past), ev);
        EvolvesTransitive(db, Absorb(db, past), Absorb(db, events));
      }
    }
  }

  /** Main result: no ABA. Between any two committed states, a cart row id that carries the same version twice is
      the same row with the same quantity, and the same product version means the same stock; no transaction
      in between can bring either back to an old version. */
  lemma NoAba(db: Db, history: seq<Event>, id: nat, pid: nat)
    requires CartsOk(db) && Replay(db, history).Some?
    ensures var db' := Replay(db, history).value;
            && (id in db.carts && id in db'.carts && db'.carts[id].version == db.carts[id].version ==>
                  db'.carts[id] == db.carts[id])
            && (pid in db.products ==> pid in db'.products)
            && (pid in db.products && db'.products[pid].version == db.products[pid].version ==>
                  db'.products[pid].stock == db.products[pid].stock)
            && (id in db.owners && id !in db.carts ==> id !in db'.carts)
  {
    EvolvesOverHistory(db, history);
    if pid in db.products {
      assert ProductGrows(db.products[pid], Replay(db, history).value.products[pid]);
    }
  }
}
