/** Which cart rows are billed, and how often. */
module Billing {
  import opened Schema
  import opened Serial
  import opened Evolution
  import opened Engine
  import opened Serializable

  /** The cart rows billed by the committed orders. */
  function BilledRows(history: seq<Event>): set<nat> {
    set i, r | 0 <= i < |history| && history[i].Bought? && r in RowIds(history[i].lines) :: r
  }

  /** No cart row appears in two orders. */
  ghost predicate BilledOnce(history: seq<Event>) {
    forall i, j :: 0 <= i < j < |history| && history[i].Bought? && history[j].Bought? ==>
      RowIds(history[i].lines) !! RowIds(history[j].lines)
  }

  lemma BilledMore(history: seq<Event>, ev: Event)
    ensures BilledRows(history + [ev]) == BilledRows(history) + if ev.Bought? then RowIds(ev.lines) else {}
    ensures BilledOnce(history) && (ev.Bought? ==> RowIds(ev.lines) !! BilledRows(history)) ==>
              BilledOnce(history + [ev])
  {
    var h := history + [ev];
    assert forall i :: 0 <= i < |history| ==> h[i] == history[i];
    assert h[|history|] == ev;
    forall r | r in BilledRows(history) ensures r in BilledRows(h) {
      var i :| 0 <= i < |history| && history[i].Bought? && r in RowIds(history[i].lines);
      assert h[i] == history[i];
    }
  }

  /** The rows an unfinished checkout has read and means to bill. */
  function Basket(x: Txn): set<nat> {
    match x.pc
    case Locking(_, lines, _, _) => RowIds(lines)
    case Selling(lines, _, _) => RowIds(lines)
    case Billed(lines, _, _) => RowIds(lines)
    case Ready(ev) => if ev.Bought? then RowIds(ev.lines) else {}
    case _ => {}
  }

  ghost predicate BillingInv(s: State) {
    && BilledOnce(s.history)
    && (forall r :: r in BilledRows(s.history) ==> r in s.db.owners && r !in s.db.carts)
    && (forall t :: t in s.txns ==> Basket(s.txns[t]) !! BilledRows(s.history))
  }

  ghost predicate WalletOnly(s: State) {
    forall t :: t in s.txns && s.txns[t].req.Checkout? ==> s.txns[t].req.tender == ByWallet
  }

  /** Between reading the cart and committing, a wallet checkout holds its user row. */
  lemma BasketIsGuarded(db: Db, x: Txn, r: nat)
    requires Good(db, x) && r in Basket(x)
    ensures x.req.Checkout? && r in db.owners && db.owners[r] == x.req.user
    ensures x.req.tender == ByWallet ==> UserKey(x.req.user) in x.held
  {}

  /** Rows read from the cart are live. */
  lemma BasketIsLive(s: State, t: nat, x: Txn, x': Txn)
    requires Moves(s, t, x, x') && (x.pc.Start? || x.pc.UserLocked?) && Good(s.db, x)
    ensures Basket(x') <= s.db.carts.Keys
  {}

  lemma BasketIsKept(s: State, t: nat, x: Txn, x': Txn)
    requires Moves(s, t, x, x') && !x.pc.Start? && !x.pc.UserLocked?
    ensures Basket(x') <= Basket(x)
  {}

  lemma WorkKeepsBilling(init: Db, s: State, s': State, t: nat)
    requires Inv(init, s) && BillingInv(s) && Works(s, s', t)
    ensures BillingInv(s')
  {
    var x := s.txns[t];
    if x.pc.Start? || x.pc.UserLocked? {
      BasketIsLive(s, t, x, s'.txns[t]);
    } else {
      BasketIsKept(s, t, x, s'.txns[t]);
    }
  }

  /** Two wallet checkouts in progress never mean to bill the same row: one user's are kept apart by the user
      row, different users have different rows. */
  lemma BasketsApart(init: Db, s: State, t: nat, u: nat)
    requires Inv(init, s) && WalletOnly(s) && t in s.txns && u in s.txns && t != u
    ensures Basket(s.txns[t]) !! Basket(s.txns[u])
  {
    forall r | r in Basket(s.txns[t]) && r in Basket(s.txns[u]) ensures false {
      BasketIsGuarded(s.db, s.txns[t], r);
      BasketIsGuarded(s.db, s.txns[u], r);
    }
  }

  /** Rows a checkout billed are dead once it committed. */
  lemma BilledRowsDie(db: Db, x: Txn, r: nat)
    requires Good(db, x) && x.pc.Ready? && x.pc.ev.Bought? && r in RowIds(x.pc.ev.lines)
    ensures r in Perform(db, x.pc.ev).owners && r !in Perform(db, x.pc.ev).carts
  {}

  lemma CommittedRowsDie(init: Db, s: State, s': State, t: nat, r: nat)
    requires Inv(init, s) && Commits(s, s', t) && r in BilledRows(s'.history)
    requires forall q :: q in BilledRows(s.history) ==> q in s.db.owners && q !in s.db.carts
    ensures r in s'.db.owners && r !in s'.db.carts
  {
    CommitIsAtomic(init, s, s', t);
    BilledMore(s.history, s.txns[t].pc.ev);
    if r in BilledRows(s.history) {
      EvolvesStep(s.db, s.txns[t].pc.ev);
    } else {
      BilledRowsDie(s.db, s.txns[t], r);
    }
  }

  lemma BasketsAfter(s: State, s': State, t: nat, ev: Event)
    requires BillingInv(s) && t in s.txns && t in s'.txns && s'.txns == s.txns[t := s'.txns[t]]
    requires Basket(s'.txns[t]) == {}
    requires s'.history == s.history + [ev] && Basket(s.txns[t]) == if ev.Bought? then RowIds(ev.lines) else {}
    requires forall u :: u in s.txns && u != t ==> Basket(s.txns[t]) !! Basket(s.txns[u])
    requires forall r :: r in BilledRows(s'.history) ==> r in s'.db.owners && r !in s'.db.carts
    ensures BillingInv(s')
  {
    BilledMore(s.history, ev);
  }

  lemma CommitKeepsBilling(init: Db, s: State, s': State, t: nat)
    requires Inv(init, s) && BillingInv(s) && WalletOnly(s) && Commits(s, s', t)
    ensures BillingInv(s')
  {
    forall r | r in BilledRows(s'.history) ensures r in s'.db.owners && r !in s'.db.carts {
      CommittedRowsDie(init, s, s', t, r);
    }
    forall u | u in s.txns && u != t ensures Basket(s.txns[t]) !! Basket(s.txns[u]) {
      BasketsApart(init, s, t, u);
    }
    BasketsAfter(s, s', t, s.txns[t].pc.ev);
  }

  lemma StepKeepsBilling(init: Db, s: State, s': State)
    requires Inv(init, s) && BillingInv(s) && WalletOnly(s) && Step(s, s')
    ensures BillingInv(s')
  {
    var t :| Works(s, s', t) || Commits(s, s', t) || Crashes(s, s', t) || Arrives(s, s', t);
    if Works(s, s', t) {
      WorkKeepsBilling(init, s, s', t);
    } else if Commits(s, s', t) {
      CommitKeepsBilling(init, s, s', t);
    } else {
      ComingAndGoingKeepsBilling(s, s', t);
    }
  }

  lemma ComingAndGoingKeepsBilling(s: State, s': State, t: nat)
    requires BillingInv(s) && (Crashes(s, s', t) || Arrives(s, s', t))
    ensures BillingInv(s')
  {
    assert Basket(s'.txns[t]) == {};
  }

  lemma NothingBilledYet(s: State)
    requires s.history == [] && s.txns == map[]
    ensures BillingInv(s)
  {}

  lemma WalletRunPrefix(init: Db, run: seq<State>)
    requires Run(init, run) && |run| > 1 && forall i :: 0 <= i < |run| ==> WalletOnly(run[i])
    ensures var before := run[..|run| - 1];
            && Run(init, before) && before[|before| - 1] == run[|run| - 2]
            && (forall i :: 0 <= i < |before| ==> WalletOnly(before[i]))
            && WalletOnly(run[|run| - 2]) && Step(run[|run| - 2], run[|run| - 1])
  {}

  lemma RunKeepsBilling(init: Db, run: seq<State>)
    requires CartsOk(init) && Run(init, run) && |run| > 1
    requires BillingInv(run[|run| - 2]) && WalletOnly(run[|run| - 2])
    ensures BillingInv(run[|run| - 1])
  {
    MomentHolds(init, run, |run| - 2);
    StepKeepsBilling(init, run[|run| - 2], run[|run| - 1]);
  }

  /** Main result: if every checkout is a wallet checkout, however often queued, retried or running side by side
      and whatever cart edits happen in between, no cart row is ever billed twice. */
  lemma {:induction false} WalletBillsOnce(init: Db, run: seq<State>)
    requires CartsOk(init) && Run(init, run) && forall i :: 0 <= i < |run| ==> WalletOnly(run[i])
    ensures BillingInv(run[|run| - 1]) && BilledOnce(run[|run| - 1].history)
  {
    if |run| == 1 {
      NothingBilledYet(run[0]);
    } else {
      WalletRunPrefix(init, run);
      WalletBillsOnce(init, run[..|run| - 1]);
      RunKeepsBilling(init, run);
    }
  }

  /** With card checkouts in the mix the claim still holds of every history in which each checkout deleted all
      the rows it billed: one comparison of the number of deleted rows with the number of lines. */
  lemma {:induction false} DeletedRowsBilledOnce(init: Db, history: seq<Event>)
    requires CartsOk(init) && Replay(init, history).Some?
    requires OwnRowsDeleted(history)
    ensures BilledOnce(history)
    ensures var db := Replay(init, history).value;
            forall r :: r in BilledRows(history) ==> r in db.owners && r !in db.carts
  {
    EvolvesOverHistory(init, history);
    if history != [] {
      var past, ev := history[..|history| - 1], history[|history| - 1];
      assert history == past + [ev];
      DeletedRowsBilledOnce(init, past);
      EvolvesOverHistory(init, past);
      EvolvesStep(Replay(init, past).value, ev);
      BilledMore(past, ev);
    }
  }

  // ----- exactly when card checkouts bill once -----

  /** Every checkout of the history deleted all the rows it billed. */
  ghost predicate OwnRowsDeleted(history: seq<Event>) {
    forall i :: 0 <= i < |history| && history[i].Bought? ==> RowIds(history[i].lines) <= history[i].gone
  }

  /** Nothing but the checkouts that billed them deletes cart rows. */
  ghost predicate OnlyCheckoutsDelete(history: seq<Event>) {
    forall i :: 0 <= i < |history| ==>
      !history[i].RowsDeleted? && (history[i].Bought? ==> history[i].gone <= RowIds(history[i].lines))
  }

  /** Then a row that is gone has been billed. */
  ghost predicate GoneMeansBilled(db: Db, history: seq<Event>) {
    forall r :: r in db.owners && r !in db.carts ==> r in BilledRows(history)
  }

  lemma GoneMeansBilledStep(db: Db, history: seq<Event>, ev: Event)
    requires GoneMeansBilled(db, history) && Accepts(db, ev) && OnlyCheckoutsDelete(history + [ev])
    ensures GoneMeansBilled(Perform(db, ev), history + [ev])
  {
    BilledMore(history, ev);
    assert (history + [ev])[|history|] == ev;
  }

  lemma OnlyCheckoutsBefore(history: seq<Event>, ev: Event)
    requires OnlyCheckoutsDelete(history + [ev])
    ensures OnlyCheckoutsDelete(history)
  {
    assert forall i :: 0 <= i < |history| ==> (history + [ev])[i] == history[i];
  }

  /** The commit of one checkout: if it bills no row for the second time, it deletes all of its rows. */
  lemma BillsAgain(db: Db, history: seq<Event>, x: Txn)
    requires Good(db, x) && x.pc.Ready? && x.pc.ev.Bought? && GoneMeansBilled(db, history)
    requires RowIds(x.pc.ev.lines) !! BilledRows(history)
    ensures RowIds(x.pc.ev.lines) <= x.pc.ev.gone
  {
    forall r | r in RowIds(x.pc.ev.lines) ensures r in x.pc.ev.gone {
      BasketIsGuarded(db, x, r);
      BilledRowsDie(db, x, r);
    }
  }

  lemma BilledBefore(history: seq<Event>, ev: Event)
    requires BilledOnce(history + [ev])
    ensures BilledOnce(history) && (ev.Bought? ==> RowIds(ev.lines) !! BilledRows(history))
  {
    var h := history + [ev];
    assert h[|history|] == ev && forall i :: 0 <= i < |history| ==> h[i] == history[i];
  }

  lemma OwnRowsMore(history: seq<Event>, ev: Event)
    requires OwnRowsDeleted(history) && (ev.Bought? ==> RowIds(ev.lines) <= ev.gone)
    ensures OwnRowsDeleted(history + [ev])
  {}

  lemma OnlyCommitsShow(s: State, s': State, t: nat)
    requires Works(s, s', t) || Crashes(s, s', t) || Arrives(s, s', t)
    ensures s'.db == s.db && s'.history == s.history
  {}

  lemma DeletedAtCommit(init: Db, s: State, s': State, t: nat)
    requires Inv(init, s) && Commits(s, s', t) && OnlyCheckoutsDelete(s'.history) && DeletionInv(s)
    ensures DeletionInv(s')
  {
    var ev := s.txns[t].pc.ev;
    CommitIsAtomic(init, s, s', t);
    GoneMeansBilledStep(s.db, s.history, ev);
    if BilledOnce(s'.history) {
      BilledBefore(s.history, ev);
      if ev.Bought? {
        BillsAgain(s.db, s.history, s.txns[t]);
      }
      OwnRowsMore(s.history, ev);
    }
  }

  ghost predicate DeletionInv(s: State) {
    GoneMeansBilled(s.db, s.history) && (BilledOnce(s.history) ==> OwnRowsDeleted(s.history))
  }

  lemma DeletionStep(init: Db, s: State, s': State)
    requires Inv(init, s) && Step(s, s') && OnlyCheckoutsDelete(s'.history)
    ensures OnlyCheckoutsDelete(s.history)
    ensures DeletionInv(s) ==> DeletionInv(s')
  {
    var t :| Works(s, s', t) || Commits(s, s', t) || Crashes(s, s', t) || Arrives(s, s', t);
    if Commits(s, s', t) {
      OnlyCheckoutsBefore(s.history, s.txns[t].pc.ev);
      if DeletionInv(s) {
        DeletedAtCommit(init, s, s', t);
      }
    } else {
      OnlyCommitsShow(s, s', t);
    }
  }

  lemma {:induction false} BilledOnceMeansDeleted(init: Db, run: seq<State>)
    requires CartsOk(init) && init.owners.Keys <= init.carts.Keys && Run(init, run)
    requires OnlyCheckoutsDelete(run[|run| - 1].history)
    ensures DeletionInv(run[|run| - 1])
  {
    if |run| > 1 {
      RunsAreSerializable(init, run[..|run| - 1]);
      DeletionStep(init, run[|run| - 2], run[|run| - 1]);
      BilledOnceMeansDeleted(init, run[..|run| - 1]);
    } else {
      assert run[0].history == [];
    }
  }

  /** A check the checkout itself could make: where rows leave carts only by the checkouts that bill them, and none had
      left before, no row is billed twice exactly when every checkout's DELETE removes as many rows as it bills. */
  lemma OwnRowsDeletedExactly(init: Db, run: seq<State>)
    requires CartsOk(init) && init.owners.Keys <= init.carts.Keys && Run(init, run)
    requires OnlyCheckoutsDelete(run[|run| - 1].history)
    ensures BilledOnce(run[|run| - 1].history) <==> OwnRowsDeleted(run[|run| - 1].history)
  {
    BilledOnceMeansDeleted(init, run);
    RunsAreSerializable(init, run);
    if OwnRowsDeleted(run[|run| - 1].history) {
      DeletedRowsBilledOnce(init, run[|run| - 1].history);
    }
  }
}
