/** What other transactions may commit between the statements of a retrying caller. */
module Interference {
  import opened Schema
  import opened Serial
  import opened Evolution

  /** Others' commits around the statements of one attempt: before its first read, between its reads, and
      between its last read and its conditional write. */
  datatype Gap = Gap(before: seq<Event>, amid: seq<Event>, between: seq<Event>)

  /** Others' commits for every attempt: an arbitrary schedule. */
  type Schedule = nat -> Gap

  /** The tables when attempt i first reads, if none of the earlier attempts had an effect. */
  function AtStart(db: Db, env: Schedule, i: nat): Db {
    Absorb(AfterAttempts(db, env, i), env(i).before)
  }

  /** The tables when attempt i makes its last read. */
  function AtRead(db: Db, env: Schedule, i: nat): Db {
    Absorb(AtStart(db, env, i), env(i).amid)
  }

  /** The tables at the conditional write of attempt n - 1. */
  function AfterAttempts(db: Db, env: Schedule, n: nat): Db {
    if n == 0 then db
    else Absorb(Absorb(Absorb(AfterAttempts(db, env, n - 1), env(n - 1).before), env(n - 1).amid), env(n - 1).between)
  }

  /** Others' commits take effect before an attempt's first read, before its last read, and before its write. */
  lemma Rounds(db: Db, env: Schedule, n: nat)
    ensures AfterAttempts(db, env, 0) == db
    ensures AtStart(db, env, n) == Absorb(AfterAttempts(db, env, n), env(n).before)
    ensures AtRead(db, env, n) == Absorb(AtStart(db, env, n), env(n).amid)
    ensures AfterAttempts(db, env, n + 1) == Absorb(AtRead(db, env, n), env(n).between)
  {}

  lemma {:induction false} AttemptsKeepCarts(db: Db, env: Schedule, n: nat)
    requires CartsOk(db)
    ensures CartsOk(AfterAttempts(db, env, n))
  {
    if n > 0 {
      AttemptsKeepCarts(db, env, n - 1);
      var d := AfterAttempts(db, env, n - 1);
      EvolvesAbsorbing(d, env(n - 1).before);
      EvolvesAbsorbing(Absorb(d, env(n - 1).before), env(n - 1).amid);
      EvolvesAbsorbing(Absorb(Absorb(d, env(n - 1).before), env(n - 1).amid), env(n - 1).between);
    }
  }

  /** The transaction writes the product's stock. */
  predicate WritesStock(ev: Event, pid: nat) {
    match ev
    case Bought(_, _, lines, _, _) => exists i | 0 <= i < |lines| :: lines[i].pid == pid
    case Restocked(p, _) => p == pid
    case Deducted(p, _) => p == pid
    case _ => false
  }

  lemma OnlyStockWritersBump(db: Db, ev: Event, pid: nat)
    requires Accepts(db, ev) && pid in db.products && !WritesStock(ev, pid)
    ensures pid in Perform(db, ev).products && Perform(db, ev).products[pid].version == db.products[pid].version
    ensures Perform(db, ev).products[pid].stock == db.products[pid].stock
  {
    if ev.Bought? {
      SellAt(db.products, ev.lines, pid);
    }
  }

  /** And every stock writer does move the version. */
  lemma StockWritersBump(db: Db, ev: Event, pid: nat)
    requires Accepts(db, ev) && pid in db.products && WritesStock(ev, pid)
    ensures pid in Perform(db, ev).products && Perform(db, ev).products[pid].version == db.products[pid].version + 1
  {
    if ev.Bought? {
      SellAt(db.products, ev.lines, pid);
    }
  }

  /** A lost compare-and-set means progress elsewhere: if a product's version moved, another transaction committed
      a stock write on that very row. */
  lemma {:induction false} ConflictMeansProgress(db: Db, events: seq<Event>, pid: nat)
    requires CartsOk(db) && pid in db.products
    ensures pid in Absorb(db, events).products
    ensures Absorb(db, events).products[pid].version != db.products[pid].version ==>
              exists j :: 0 <= j < |events|
                && Accepts(Absorb(db, events[..j]), events[j]) && WritesStock(events[j], pid)
  {
    if events != [] {
      var past, ev := events[..|events| - 1], events[|events| - 1];
      ConflictMeansProgress(db, past, pid);
      EvolvesAbsorbing(db, past);
      var d := Absorb(db, past);
      if Accepts(d, ev) {
        if WritesStock(ev, pid) {
          assert events[..|past|] == past;
        } else {
          OnlyStockWritersBump(d, ev, pid);
        }
      }
      if d.products[pid].version != db.products[pid].version {
        var j :| 0 <= j < |past| && Accepts(Absorb(db, past[..j]), past[j]) && WritesStock(past[j], pid);
        assert events[..j] == past[..j] && events[j] == past[j];
      }
    }
  }
}
