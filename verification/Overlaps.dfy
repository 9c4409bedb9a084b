/** When a cart row is billed twice: exactly when two checkouts of one user overlap. */
module Overlaps {
  import opened Schema
  import opened Serial
  import opened Evolution
  import opened Engine
  import opened Serializable
  import opened Billing
  import opened Guarantees
  import opened CartReads

  /** Transaction t makes the k-th commit of the run's history, a checkout, in the step after moment j, and reads the
      cart in the step after moment i. */
  ghost predicate Made(run: seq<State>, k: int, t: nat, i: int, j: int)
    requires run != []
  {
    && 0 <= k < |Last(run).history| && 0 <= i < j < |run| - 1
    && var ev := Last(run).history[k];
       && ev.Bought? && ReadAt(run, i, t, ev.tender, ev.user, ev.lines)
       && t in run[j].txns && run[j].txns[t].pc == Ready(ev)
       && |run[j].history| == k && Commits(run[j], run[j + 1], t)
  }

  ghost predicate SameUser(history: seq<Event>, k: int, l: int) {
    0 <= k < l < |history| && history[k].Bought? && history[l].Bought? && history[k].user == history[l].user
  }

  /** The checkout that commits later read its cart before the earlier one had committed. */
  ghost predicate Overlap(run: seq<State>, k: int, l: int)
    requires run != []
  {
    exists t, i, j :: Made(run, l, t, i, j) && |run[i].history| <= k
  }

  /** No two checkouts of one user overlap. */
  ghost predicate OneAtATime(run: seq<State>)
    requires run != []
  {
    forall k, l :: SameUser(Last(run).history, k, l) ==> !Overlap(run, k, l)
  }

  // ----- every order was made -----

  lemma OnlyCommitsCount(s: State, s': State) returns (t: nat)
    requires Step(s, s') && |s.history| != |s'.history|
    ensures Commits(s, s', t) && s'.history == s.history + [s.txns[t].pc.ev]
  {
    t :| Works(s, s', t) || Commits(s, s', t) || Crashes(s, s', t) || Arrives(s, s', t);
  }

  lemma LastStep(init: Db, run: seq<State>)
    requires Run(init, run) && |run| > 1
    ensures Run(init, run[..|run| - 1]) && Step(run[|run| - 2], run[|run| - 1])
    ensures |run[|run| - 1].history| <= |run[|run| - 2].history| + 1
    ensures run[|run| - 2].history <= run[|run| - 1].history
  {
    ShorterRun(init, run);
    HistoryGrows(init, run, |run| - 2);
    if |run[|run| - 1].history| != |run[|run| - 2].history| {
      var t := OnlyCommitsCount(run[|run| - 2], run[|run| - 1]);
    }
  }

  /** The step that commits the k-th event of the history. */
  lemma {:induction false} CommitMoment(init: Db, run: seq<State>, k: nat) returns (t: nat, j: nat)
    requires Run(init, run) && k < |Last(run).history|
    ensures j < |run| - 1 && Commits(run[j], run[j + 1], t)
    ensures run[j].txns[t].pc == Ready(Last(run).history[k]) && |run[j].history| == k
  {
    if |run| == 1 {
      assert false;
    }
    LastStep(init, run);
    var n := |run| - 2;
    if k < |run[n].history| {
      t, j := CommitMoment(init, run[..n + 1], k);
      assert run[..n + 1][j] == run[j] && run[..n + 1][j + 1] == run[j + 1];
    } else {
      j := n;
      t := OnlyCommitsCount(run[n], run[n + 1]);
    }
  }

  lemma OrderWasMade(init: Db, run: seq<State>, k: nat) returns (t: nat, i: nat, j: nat)
    requires Run(init, run) && k < |Last(run).history| && Last(run).history[k].Bought?
    ensures Made(run, k, t, i, j)
  {
    t, j := CommitMoment(init, run, k);
    EarlierRun(init, run, j);
    assert Last(run[..j + 1]) == run[j];
    i := ReadyWasRead(init, run[..j + 1], t);
    var ev := Last(run).history[k];
    assert ReadAt(run, i, t, ev.tender, ev.user, ev.lines);
  }

  // ----- no overlap, no row billed twice -----

  /** In any mix of checkouts, the rows billed so far were issued and are gone. */
  ghost predicate BilledRowsGone(s: State) {
    forall r :: r in BilledRows(s.history) ==> r in s.db.owners && r !in s.db.carts
  }

  lemma StepKeepsGone(init: Db, s: State, s': State)
    requires Inv(init, s) && BilledRowsGone(s) && Step(s, s')
    ensures BilledRowsGone(s')
  {
    var t :| Works(s, s', t) || Commits(s, s', t) || Crashes(s, s', t) || Arrives(s, s', t);
    if Commits(s, s', t) {
      forall r | r in BilledRows(s'.history) ensures r in s'.db.owners && r !in s'.db.carts {
        CommittedRowsDie(init, s, s', t, r);
      }
    } else {
      OnlyCommitsShow(s, s', t);
    }
  }

  lemma {:induction false} RunKeepsGone(init: Db, run: seq<State>, i: nat)
    requires CartsOk(init) && Run(init, run) && i < |run|
    ensures BilledRowsGone(run[i])
  {
    if i == 0 {
      assert run[0].history == [];
    } else {
      RunKeepsGone(init, run, i - 1);
      MomentHolds(init, run, i - 1);
      StepKeepsGone(init, run[i - 1], run[i]);
    }
  }

  lemma CartRowIsLive(carts: map<nat, CartRow>, user: nat, lines: seq<Line>, r: nat)
    requires IsCart(carts, user, lines) && r in RowIds(lines)
    ensures r in carts && carts[r].user == user
  {}

  /** What was read at moment i is the user's, then and for ever. */
  lemma ReadRowsAreOwn(init: Db, run: seq<State>, i: nat, user: nat, lines: seq<Line>, r: nat)
    requires CartsOk(init) && Run(init, run) && i < |run| && IsCart(run[i].db.carts, user, lines) && r in RowIds(lines)
    ensures r in run[i].db.carts && r in Last(run).db.owners && Last(run).db.owners[r] == user
  {
    CartRowIsLive(run[i].db.carts, user, lines, r);
    var more := HistoryBetween(init, run, i);
    EvolvesOverHistory(run[i].db, more);
  }

  lemma BilledByUser(init: Db, run: seq<State>, k: nat, r: nat)
    requires CartsOk(init) && Run(init, run) && k < |Last(run).history| && Last(run).history[k].Bought?
    requires r in RowIds(Last(run).history[k].lines)
    ensures r in Last(run).db.owners && Last(run).db.owners[r] == Last(run).history[k].user
  {
    var t, i, j := OrderWasMade(init, run, k);
    ReadRowsAreOwn(init, run, i, Last(run).history[k].user, Last(run).history[k].lines, r);
  }

  /** A checkout that reads its cart after an order has committed does not find that order's rows. */
  lemma LaterReadBillsOthers(init: Db, run: seq<State>, k: nat, l: nat, t: nat, i: nat, j: nat, r: nat)
    requires CartsOk(init) && Run(init, run) && k < |Last(run).history| && Last(run).history[k].Bought?
    requires Made(run, l, t, i, j) && |run[i].history| > k
    requires r in RowIds(Last(run).history[k].lines)
    ensures r !in RowIds(Last(run).history[l].lines)
  {
    HistoryGrows(init, run, i);
    assert run[i].history[k] == Last(run).history[k];
    RunKeepsGone(init, run, i);
    assert r in BilledRows(run[i].history);
    if r in RowIds(Last(run).history[l].lines) {
      CartRowIsLive(run[i].db.carts, Last(run).history[l].user, Last(run).history[l].lines, r);
    }
  }

  /** Where two checkouts of one user overlap, the user's cart has no row at the one's read that it has at the
      other's. */
  ghost predicate OverlapsReadOthers(run: seq<State>)
    requires run != []
  {
    forall k, l, t, i, j, t', i', j' ::
      && SameUser(Last(run).history, k, l) && Made(run, k, t, i, j) && Made(run, l, t', i', j')
      && |run[i'].history| <= k ==>
        RowsOf(run[i].db.carts, Last(run).history[k].user) !! RowsOf(run[i'].db.carts, Last(run).history[k].user)
  }

  lemma CartIsRows(carts: map<nat, CartRow>, user: nat, lines: seq<Line>)
    requires IsCart(carts, user, lines)
    ensures RowIds(lines) == RowsOf(carts, user)
  {}

  lemma MadeFromRows(run: seq<State>, k: nat, t: nat, i: nat, j: nat)
    requires run != [] && Made(run, k, t, i, j)
    ensures RowIds(Last(run).history[k].lines) == RowsOf(run[i].db.carts, Last(run).history[k].user)
  {
    CartIsRows(run[i].db.carts, Last(run).history[k].user, Last(run).history[k].lines);
  }

  /** Main result, without any hypothesis on inserts, changes and removals: no row is billed twice exactly when
      overlapping checkouts of one user find carts without a common row. */
  lemma BilledOnceByCarts(init: Db, run: seq<State>)
    requires CartsOk(init) && Run(init, run)
    ensures BilledOnce(Last(run).history) <==> OverlapsReadOthers(run)
  {
    var history := Last(run).history;
    if BilledOnce(history) {
      forall k, l, t, i, j, t', i', j' |
        SameUser(history, k, l) && Made(run, k, t, i, j) && Made(run, l, t', i', j') && |run[i'].history| <= k
        ensures RowsOf(run[i].db.carts, history[k].user) !! RowsOf(run[i'].db.carts, history[k].user)
      {
        MadeFromRows(run, k, t, i, j);
        MadeFromRows(run, l, t', i', j');
      }
    }
    if OverlapsReadOthers(run) {
      forall k, l | 0 <= k < l < |history| && history[k].Bought? && history[l].Bought?
        ensures RowIds(history[k].lines) !! RowIds(history[l].lines)
      {
        PairApart(init, run, k, l);
      }
    }
  }

  lemma PairApart(init: Db, run: seq<State>, k: nat, l: nat)
    requires CartsOk(init) && Run(init, run) && OverlapsReadOthers(run)
    requires k < l < |Last(run).history| && Last(run).history[k].Bought? && Last(run).history[l].Bought?
    ensures RowIds(Last(run).history[k].lines) !! RowIds(Last(run).history[l].lines)
  {
    var history := Last(run).history;
    forall r | r in RowIds(history[k].lines) ensures r !in RowIds(history[l].lines) {
      BilledByUser(init, run, k, r);
      if r in RowIds(history[l].lines) {
        BilledByUser(init, run, l, r);
        assert SameUser(history, k, l);
        var t, i, j := OrderWasMade(init, run, k);
        var t', i', j' := OrderWasMade(init, run, l);
        MadeFromRows(run, k, t, i, j);
        MadeFromRows(run, l, t', i', j');
        if |run[i'].history| > k {
          LaterReadBillsOthers(init, run, k, l, t', i', j', r);
        }
      }
    }
  }

  /** Main result: as long as no two checkouts of one user overlap, no cart row is billed twice; whatever the mix of
      card and wallet checkouts, whatever else is inserted, changed and deleted meanwhile. */
  lemma OneAtATimeBillsOnce(init: Db, run: seq<State>)
    requires CartsOk(init) && Run(init, run) && OneAtATime(run)
    ensures BilledOnce(Last(run).history)
  {
    assert OverlapsReadOthers(run);
    BilledOnceByCarts(init, run);
  }

  /** In particular when a user's next checkout is called only after the one before has committed. */
  lemma OneCallAtATimeBillsOnce(init: Db, run: seq<State>)
    requires CartsOk(init) && Run(init, run)
    requires forall k, l, t, i :: SameUser(Last(run).history, k, l) && 0 <= i < |run| && t in run[i].txns
               && t in Last(run).txns && Last(run).txns[t].pc == Finished(Committed(Last(run).history[l]))
               ==> |run[i].history| > k
    ensures BilledOnce(Last(run).history)
  {
    forall k, l, t, i, j | SameUser(Last(run).history, k, l) && Made(run, l, t, i, j) ensures |run[i].history| > k {
      CommittedStays(init, run, j + 1, t);
    }
    OneAtATimeBillsOnce(init, run);
  }

  /** A committed transaction stays committed. */
  lemma {:induction false} CommittedStays(init: Db, run: seq<State>, i: nat, t: nat)
    requires Run(init, run) && i < |run| && t in run[i].txns && run[i].txns[t].pc.Finished?
    ensures t in Last(run).txns && Last(run).txns[t].pc == run[i].txns[t].pc
    decreases |run| - i
  {
    if i < |run| - 1 {
      assert Step(run[i + 1 - 1], run[i + 1]);
      FinishedStays(run[i], run[i + 1], t);
      CommittedStays(init, run, i + 1, t);
    }
  }

  lemma FinishedStays(s: State, s': State, t: nat)
    requires Step(s, s') && t in s.txns && s.txns[t].pc.Finished?
    ensures t in s'.txns && s'.txns[t] == s.txns[t]
  {
    var u :| Works(s, s', u) || Commits(s, s', u) || Crashes(s, s', u) || Arrives(s, s', u);
    if Works(s, s', u) {
      MovesDoNotCommit(s, u, s.txns[u], s'.txns[u]);
    }
  }

  // ----- overlap, a row billed twice -----

  /** A row is still there unless somebody deleted it, and so, under the hypothesis, billed it. */
  lemma {:induction false} ThereOrBilled(db: Db, more: seq<Event>, r: nat)
    requires r in db.carts && Replay(db, more).Some? && OnlyCheckoutsDelete(more)
    ensures r in Replay(db, more).value.carts || r in BilledRows(more)
  {
    if more != [] {
      var past, ev := more[..|more| - 1], more[|more| - 1];
      assert more == past + [ev];
      OnlyCheckoutsBefore(past, ev);
      ThereOrBilled(db, past, r);
      BilledMore(past, ev);
      assert more[|past|] == ev;
    }
  }

  /** Two checkouts of one user that both read before either commits: a row that the first one read is still there when
      the second one reads, or a third checkout has billed it. */
  lemma SharedOrTaken(history: seq<Event>, a: nat, b: nat, db: Db, more: seq<Event>, start: nat)
    requires a < |history| && b < |history| && a != b && history[a].Bought? && history[b].Bought?
    requires history[a].user == history[b].user && history[a].lines != [] && CartsOk(db) && Replay(db, more).Some?
    requires IsCart(db.carts, history[a].user, history[a].lines)
    requires IsCart(Replay(db, more).value.carts, history[b].user, history[b].lines)
    requires start + |more| <= a && start + |more| <= b && OnlyCheckoutsDelete(more)
    requires forall m :: 0 <= m < |more| ==> more[m] == history[start + m]
    ensures !BilledOnce(history)
  {
    var r := history[a].lines[0].row;
    assert r in RowIds(history[a].lines);
    CartRowIsLive(db.carts, history[a].user, history[a].lines, r);
    ThereOrBilled(db, more, r);
    if r in Replay(db, more).value.carts {
      StillListed(db, more, history[b].user, history[b].lines, r);
      BilledByBoth(history, a, b, r);
    } else {
      var m :| 0 <= m < |more| && more[m].Bought? && r in RowIds(more[m].lines);
      BilledByBoth(history, a, start + m, r);
    }
  }

  lemma PartDeletesAlike(history: seq<Event>, more: seq<Event>, start: nat)
    requires OnlyCheckoutsDelete(history) && start + |more| <= |history|
    requires forall m :: 0 <= m < |more| ==> more[m] == history[start + m]
    ensures OnlyCheckoutsDelete(more)
  {}

  lemma EarlierRun(init: Db, run: seq<State>, j: nat)
    requires Run(init, run) && j < |run|
    ensures Run(init, run[..j + 1])
  {
    var before := run[..j + 1];
    forall m | 0 < m < |before| ensures Step(before[m - 1], before[m]) {
      assert before[m - 1] == run[m - 1] && before[m] == run[m];
    }
  }

  /** What committed between two moments, and its place in the whole history. */
  lemma EventsBetween(init: Db, run: seq<State>, i: nat, j: nat) returns (more: seq<Event>, start: nat)
    requires CartsOk(init) && Run(init, run) && i <= j < |run|
    ensures CartsOk(run[i].db) && Replay(run[i].db, more) == Some(run[j].db)
    ensures start + |more| == |run[j].history| <= |Last(run).history|
    ensures forall m :: 0 <= m < |more| ==> more[m] == Last(run).history[start + m]
  {
    EarlierRun(init, run, j);
    assert run[..j + 1][i] == run[i] && Last(run[..j + 1]) == run[j];
    more := HistoryBetween(init, run[..j + 1], i);
    start := |run[i].history|;
    HistoryGrows(init, run, j);
    InPlace(run[i].history, more, run[j].history, Last(run).history);
  }

  lemma InPlace(past: seq<Event>, more: seq<Event>, mid: seq<Event>, history: seq<Event>)
    requires mid == past + more && mid <= history
    ensures |past| + |more| <= |history| && forall m :: 0 <= m < |more| ==> more[m] == history[|past| + m]
  {
    forall m | 0 <= m < |more| ensures more[m] == history[|past| + m] {
      assert more[m] == mid[|past| + m];
    }
  }

  lemma BothReadBillsTwice(init: Db, run: seq<State>, a: nat, b: nat, ta: nat, ia: nat, ja: nat,
                           tb: nat, ib: nat, jb: nat)
    requires CartsOk(init) && Run(init, run) && OnlyCheckoutsDelete(Last(run).history)
    requires Made(run, a, ta, ia, ja) && Made(run, b, tb, ib, jb) && a != b && ia <= ib
    requires Last(run).history[a].user == Last(run).history[b].user
    requires |run[ib].history| <= a && |run[ib].history| <= b
    ensures !BilledOnce(Last(run).history)
  {
    var more, start := EventsBetween(init, run, ia, ib);
    PartDeletesAlike(Last(run).history, more, start);
    SharedOrTaken(Last(run).history, a, b, run[ia].db, more, start);
  }

  lemma StillListed(db: Db, more: seq<Event>, user: nat, lines: seq<Line>, r: nat)
    requires CartsOk(db) && Replay(db, more).Some? && r in db.carts && db.carts[r].user == user
    requires r in Replay(db, more).value.carts && IsCart(Replay(db, more).value.carts, user, lines)
    ensures r in RowIds(lines)
  {
    RowsKeepTheirUser(db, more, r);
    assert r in RowsOf(Replay(db, more).value.carts, user);
  }

  lemma RowsKeepTheirUser(db: Db, more: seq<Event>, r: nat)
    requires CartsOk(db) && Replay(db, more).Some? && r in db.carts && r in Replay(db, more).value.carts
    ensures Replay(db, more).value.carts[r].user == db.carts[r].user
  {
    EvolvesOverHistory(db, more);
  }

  lemma BilledByBoth(history: seq<Event>, a: nat, b: nat, r: nat)
    requires a < |history| && b < |history| && a != b && history[a].Bought? && history[b].Bought?
    requires r in RowIds(history[a].lines) && r in RowIds(history[b].lines)
    ensures !BilledOnce(history)
  {
    var k, l := if a < b then a else b, if a < b then b else a;
    assert r in RowIds(history[k].lines) && r in RowIds(history[l].lines);
  }

  lemma OverlapBillsTwice(init: Db, run: seq<State>, k: nat, l: nat)
    requires CartsOk(init) && Run(init, run) && OnlyCheckoutsDelete(Last(run).history)
    requires SameUser(Last(run).history, k, l) && Overlap(run, k, l)
    ensures !BilledOnce(Last(run).history)
  {
    var t, i, j :| Made(run, l, t, i, j) && |run[i].history| <= k;
    var t', i', j' := OrderWasMade(init, run, k);
    HistoryOrder(init, run, i', j');
    if i <= i' {
      BothReadBillsTwice(init, run, l, k, t, i, j, t', i', j');
    } else {
      BothReadBillsTwice(init, run, k, l, t', i', j', t, i, j);
    }
  }

  lemma HistoryOrder(init: Db, run: seq<State>, i: nat, j: nat)
    requires Run(init, run) && i <= j < |run|
    ensures |run[i].history| <= |run[j].history|
  {
    HistoryGrows(init, run[..j + 1], i);
  }

  /** Main result, any mix of card and wallet checkouts: when rows leave carts only by the checkouts that bill them, a
      cart row is billed twice exactly when two checkouts of one user overlap, the one that commits later having read
      its cart before the earlier one committed. */
  lemma BilledOnceExactly(init: Db, run: seq<State>)
    requires CartsOk(init) && Run(init, run) && OnlyCheckoutsDelete(Last(run).history)
    ensures BilledOnce(Last(run).history) <==> OneAtATime(run)
  {
    if OneAtATime(run) {
      OneAtATimeBillsOnce(init, run);
    } else {
      var k, l :| SameUser(Last(run).history, k, l) && Overlap(run, k, l);
      OverlapBillsTwice(init, run, k, l);
    }
  }
}
