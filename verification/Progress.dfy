/** Every call comes to an end: a call takes boundedly many steps, however the others interfere, and since there is no
    deadlock all calls can be brought to their end from every reachable state. */
module Progress {
  import opened Schema
  import opened Serial
  import opened Engine
  import opened Serializable
  import opened Guarantees
  import opened Deadlock

  // ----- how many steps a transaction may still take -----

  /** An upper bound for the steps of one transaction, if no cart is ever longer than b. */
  function StepsLeft(x: Txn, b: nat): nat {
    match x.pc
    case Start => 2 * b + 6
    case UserLocked(_) => 2 * b + 5
    case Locking(_, lines, todo, _) => |todo| + |lines| + 4
    case Selling(lines, _, done) => if done < |lines| then |lines| - done + 3 else 3
    case Billed(_, _, _) => 2
    case ItemWanted => 3
    case OrderLocked(_) => 3
    case Finished(_) => 0
    case Ready(_) => 1
    case _ => 2
  }

  function Unfinished(txns: map<nat, Txn>): set<nat> {
    set t | t in txns && !txns[t].pc.Finished?
  }

  /** No cart can become longer than this without new calls: each open call adds at most one row. */
  function CartBound(s: State): nat {
    |s.db.carts| + |Unfinished(s.txns)|
  }

  /** The sum over the transactions with ids below n. */
  function Sum(txns: map<nat, Txn>, n: nat, b: nat): nat {
    if n == 0 then 0
    else Sum(txns, n - 1, b) + if n - 1 in txns then StepsLeft(txns[n - 1], b) else 0
  }

  ghost predicate IdsBelow(s: State, n: nat) {
    forall t :: t in s.txns ==> t < n
  }

  function Work(s: State, n: nat): nat {
    Sum(s.txns, n, CartBound(s))
  }

  // ----- a cart is never longer than the table -----

  lemma {:induction false} SortedLength(lines: seq<Line>)
    ensures |SortedPids(lines)| == |lines|
  {
    if lines != [] {
      SortedLength(lines[..|lines| - 1]);
      InsertLength(SortedPids(lines[..|lines| - 1]), lines[|lines| - 1].pid);
    }
  }

  lemma {:induction false} DistinctRows(lines: seq<Line>)
    requires forall i, j :: 0 <= i < j < |lines| ==> lines[i].row != lines[j].row
    ensures |RowIds(lines)| == |lines|
  {
    if lines != [] {
      var before, l := lines[..|lines| - 1], lines[|lines| - 1];
      DistinctRows(before);
      assert RowIds(lines) == RowIds(before) + {l.row} by {
        assert forall i :: 0 <= i < |before| ==> lines[i] == before[i];
      }
    }
  }

  lemma CartLength(carts: map<nat, CartRow>, user: nat, lines: seq<Line>)
    requires IsCart(carts, user, lines)
    ensures |lines| <= |carts|
  {
    DistinctRows(lines);
    SubsetSize(RowIds(lines), carts.Keys);
  }

  // ----- every step of a transaction brings it nearer to its end -----

  lemma ListedBound(carts: map<nat, CartRow>, user: nat, lines: seq<Line>, b: nat)
    requires IsCart(carts, user, lines) && |carts| <= b
    ensures |SortedPids(lines)| + |lines| <= 2 * b
  {
    CartLength(carts, user, lines);
    SortedLength(lines);
  }

  lemma LinesRead(db: Db, x: Txn, x': Txn, user: nat, balance: int) returns (lines: seq<Line>)
    requires ReadsCart(db, x, x', user, balance)
    ensures IsCart(db.carts, user, lines)
    ensures x'.pc == Finished(Refused(EmptyCart)) || x'.pc == Locking(balance, lines, SortedPids(lines), map[])
  {
    lines :| IsCart(db.carts, user, lines) &&
      x' == if lines == [] then Refuse(x, EmptyCart)
            else x.(pc := Locking(balance, lines, SortedPids(lines), map[]));
  }

  lemma ReadingAdvances(db: Db, x: Txn, x': Txn, user: nat, balance: int, b: nat)
    requires ReadsCart(db, x, x', user, balance) && |db.carts| <= b
    ensures StepsLeft(x', b) <= 2 * b + 4
  {
    var lines := LinesRead(db, x, x', user, balance);
    ListedBound(db.carts, user, lines, b);
  }

  lemma StartAdvances(s: State, t: nat, x: Txn, x': Txn, b: nat)
    requires x.pc.Start? && StartMoves(s, t, x, x') && |s.db.carts| <= b
    ensures StepsLeft(x', b) < StepsLeft(x, b)
  {
    if x.req.Checkout? && x.req.tender == ByCard {
      ReadingAdvances(s.db, x, x', x.req.user, 0, b);
    }
  }

  lemma CheckoutAdvances(s: State, t: nat, x: Txn, x': Txn, b: nat)
    requires x.req.Checkout? && CheckoutPc(x.pc) && CheckoutMoves(s, t, x, x') && |s.db.carts| <= b
    ensures StepsLeft(x', b) < StepsLeft(x, b)
  {
    if x.pc.UserLocked? {
      ReadingAdvances(s.db, x, x', x.req.user, x.pc.balance, b);
    }
  }

  lemma OptimisticAdvances(s: State, t: nat, x: Txn, x': Txn, b: nat)
    requires OptimisticPc(x.pc) && OptimisticMoves(s, t, x, x')
    ensures StepsLeft(x', b) < StepsLeft(x, b)
  {}

  lemma LockedAdvances(s: State, t: nat, x: Txn, x': Txn, b: nat)
    requires LockedPc(x.pc) && LockedMoves(s, t, x, x')
    ensures StepsLeft(x', b) < StepsLeft(x, b)
  {}

  lemma MoveAdvances(s: State, t: nat, x: Txn, x': Txn, b: nat)
    requires Moves(s, t, x, x') && |s.db.carts| <= b
    ensures StepsLeft(x', b) < StepsLeft(x, b)
  {
    if x.pc.Start? {
      StartAdvances(s, t, x, x', b);
    } else if CheckoutPc(x.pc) {
      CheckoutAdvances(s, t, x, x', b);
    } else if OptimisticPc(x.pc) {
      OptimisticAdvances(s, t, x, x', b);
    } else {
      LockedAdvances(s, t, x, x', b);
    }
  }

  // ----- and nobody else further from it -----

  lemma {:induction false} LessWork(txns: map<nat, Txn>, txns': map<nat, Txn>, n: nat, b: nat, b': nat, t: nat)
    requires txns'.Keys == txns.Keys && t in txns && t < n && b' <= b
    requires forall u :: u in txns && u != t ==> txns'[u] == txns[u]
    requires StepsLeft(txns'[t], b') < StepsLeft(txns[t], b)
    ensures Sum(txns', n, b') < Sum(txns, n, b)
  {
    if n - 1 == t {
      NoMoreWork(txns, txns', n - 1, b, b', t);
    } else {
      LessWork(txns, txns', n - 1, b, b', t);
      LowerBound(txns, txns', n - 1, b, b', t);
    }
  }

  lemma LowerBound(txns: map<nat, Txn>, txns': map<nat, Txn>, u: nat, b: nat, b': nat, t: nat)
    requires txns'.Keys == txns.Keys && b' <= b && u != t && (u in txns ==> txns'[u] == txns[u])
    ensures u in txns ==> StepsLeft(txns'[u], b') <= StepsLeft(txns[u], b)
  {}

  lemma {:induction false} NoMoreWork(txns: map<nat, Txn>, txns': map<nat, Txn>, n: nat, b: nat, b': nat, t: nat)
    requires txns'.Keys == txns.Keys && n <= t && b' <= b
    requires forall u :: u in txns && u != t ==> txns'[u] == txns[u]
    ensures Sum(txns', n, b') <= Sum(txns, n, b)
  {
    if n > 0 {
      NoMoreWork(txns, txns', n - 1, b, b', t);
      LowerBound(txns, txns', n - 1, b, b', t);
    }
  }

  lemma UnfinishedAfter(txns: map<nat, Txn>, t: nat, x': Txn)
    requires t in txns && !txns[t].pc.Finished?
    ensures |Unfinished(txns[t := x'])| <= |Unfinished(txns)|
    ensures x'.pc.Finished? ==> |Unfinished(txns[t := x'])| == |Unfinished(txns)| - 1
  {
    assert Unfinished(txns[t := x']) == if x'.pc.Finished? then Unfinished(txns) - {t} else Unfinished(txns);
  }

  lemma FewRowsMore(db: Db, ev: Event)
    requires Accepts(db, ev)
    ensures |Perform(db, ev).carts| <= |db.carts| + 1
  {
    var extra := if ev.RowAdded? then {ev.id} else {};
    SubsetSize(Perform(db, ev).carts.Keys, db.carts.Keys + extra);
  }

  /** A step that is not the arrival of a new call. */
  ghost predicate Goes(s: State, s': State) {
    exists t :: Works(s, s', t) || Commits(s, s', t) || Crashes(s, s', t)
  }

  lemma WorkBoundKept(init: Db, s: State, s': State, t: nat)
    requires Inv(init, s) && (Works(s, s', t) || Commits(s, s', t) || Crashes(s, s', t))
    ensures OnlyMoves(s, s', t) && CartBound(s') <= CartBound(s)
  {
    if Works(s, s', t) {
      MovesDoNotCommit(s, t, s.txns[t], s'.txns[t]);
    } else if Commits(s, s', t) {
      CommitIsSerial(init, s, s', t);
      FewRowsMore(s.db, s.txns[t].pc.ev);
    }
    UnfinishedAfter(s.txns, t, s'.txns[t]);
  }

  ghost predicate OnlyMoves(s: State, s': State, t: nat) {
    t in s.txns && !s.txns[t].pc.Finished? && t in s'.txns && s'.txns == s.txns[t := s'.txns[t]]
  }

  lemma StepCounts(s: State, s': State, t: nat, b: nat, b': nat)
    requires (Works(s, s', t) || Commits(s, s', t) || Crashes(s, s', t)) && OnlyMoves(s, s', t)
    requires |s.db.carts| <= b && b' <= b
    ensures StepsLeft(s'.txns[t], b') < StepsLeft(s.txns[t], b)
  {
    if Works(s, s', t) {
      WorkCounts(s, s', t, b, b');
    } else {
      EndCounts(s, s', t, b, b');
    }
  }

  lemma WorkLowered(s: State, s': State, t: nat, n: nat)
    requires OnlyMoves(s, s', t) && CartBound(s') <= CartBound(s) && IdsBelow(s, n)
    requires StepsLeft(s'.txns[t], CartBound(s')) < StepsLeft(s.txns[t], CartBound(s))
    ensures Work(s', n) < Work(s, n) && s'.txns.Keys == s.txns.Keys
  {
    LessWork(s.txns, s'.txns, n, CartBound(s), CartBound(s'), t);
  }

  /** Every step that is not an arrival lowers the total. */
  lemma GoesLowersWork(init: Db, s: State, s': State, n: nat)
    requires Inv(init, s) && Goes(s, s') && IdsBelow(s, n)
    ensures Work(s', n) < Work(s, n) && s'.txns.Keys == s.txns.Keys
  {
    var t :| Works(s, s', t) || Commits(s, s', t) || Crashes(s, s', t);
    WorkBoundKept(init, s, s', t);
    StepCounts(s, s', t, CartBound(s), CartBound(s'));
    WorkLowered(s, s', t, n);
  }

  lemma WorkCounts(s: State, s': State, t: nat, b: nat, b': nat)
    requires Works(s, s', t) && |s.db.carts| <= b && b' <= b
    ensures StepsLeft(s'.txns[t], b') < StepsLeft(s.txns[t], b)
  {
    MoveAdvances(s, t, s.txns[t], s'.txns[t], b);
    FewerRowsFewerSteps(s'.txns[t], b, b');
  }

  lemma EndCounts(s: State, s': State, t: nat, b: nat, b': nat)
    requires (Commits(s, s', t) || Crashes(s, s', t)) && t in s.txns && t in s'.txns && !s.txns[t].pc.Finished?
    ensures StepsLeft(s'.txns[t], b') < StepsLeft(s.txns[t], b)
  {}

  lemma FewerRowsFewerSteps(x: Txn, b: nat, b': nat)
    requires b' <= b
    ensures StepsLeft(x, b') <= StepsLeft(x, b)
  {}

  // ----- whole runs -----

  /** The run goes on from moment i without new calls. */
  ghost predicate NoArrivals(run: seq<State>, i: nat) {
    forall j :: i < j < |run| ==> Goes(run[j - 1], run[j])
  }

  /** Main result: without new calls, a run goes on for at most as many steps as there was work left, whatever the order
      in which the transactions take them. */
  lemma {:induction false} StepsAreBounded(init: Db, run: seq<State>, i: nat, n: nat)
    requires CartsOk(init) && Run(init, run) && i < |run| && NoArrivals(run, i) && IdsBelow(run[i], n)
    ensures |run| - 1 - i + Work(Last(run), n) <= Work(run[i], n) && Last(run).txns.Keys == run[i].txns.Keys
    decreases |run| - i
  {
    if i < |run| - 1 {
      NextGoes(run, i);
      MomentHolds(init, run, i);
      GoesLowersWork(init, run[i], run[i + 1], n);
      StepsAreBounded(init, run, i + 1, n);
    }
  }

  lemma NextGoes(run: seq<State>, i: nat)
    requires i < |run| - 1 && NoArrivals(run, i)
    ensures Goes(run[i], run[i + 1]) && NoArrivals(run, i + 1)
  {}

  ghost predicate AllDone(s: State) {
    forall t :: t in s.txns ==> s.txns[t].pc.Finished?
  }

  ghost predicate OwnStep(s: State, s': State) {
    exists t :: Works(s, s', t) || Commits(s, s', t)
  }

  lemma NextOwnStep(init: Db, run: seq<State>) returns (s': State)
    requires CartsOk(init) && Run(init, run) && !AllDone(Last(run))
    ensures OwnStep(Last(run), s') && Goes(Last(run), s') && Step(Last(run), s')
  {
    var t :| t in Last(run).txns && !Last(run).txns[t].pc.Finished?;
    var who := NoDeadlock(init, run, t);
    s' :| Works(Last(run), s', who) || Commits(Last(run), s', who);
  }

  lemma LongerRun(init: Db, run: seq<State>, s': State)
    requires Run(init, run) && Step(Last(run), s')
    ensures Run(init, run + [s']) && Last(run + [s']) == s'
  {}

  lemma OneStepOn(init: Db, run: seq<State>, n: nat) returns (s': State)
    requires CartsOk(init) && Run(init, run) && !AllDone(Last(run)) && IdsBelow(Last(run), n)
    ensures OwnStep(Last(run), s') && Run(init, run + [s']) && Last(run + [s']) == s' && IdsBelow(s', n)
    ensures Work(s', n) < Work(Last(run), n) && s'.txns.Keys == Last(run).txns.Keys
  {
    s' := NextOwnStep(init, run);
    LongerRun(init, run, s');
    MomentHolds(init, run, |run| - 1);
    GoesLowersWork(init, Last(run), s', n);
  }

  /** The longer run goes on from the shorter one by steps of its transactions alone. */
  ghost predicate Prolongs(run: seq<State>, longer: seq<State>) {
    run <= longer && forall j :: |run| <= j < |longer| && j > 0 ==> OwnStep(longer[j - 1], longer[j])
  }

  lemma OneStepEarlier(run: seq<State>, s': State, longer: seq<State>)
    requires run != [] && OwnStep(Last(run), s') && Prolongs(run + [s'], longer)
    ensures Prolongs(run, longer)
  {
    assert run + [s'] <= longer;
    assert longer[|run| - 1] == (run + [s'])[|run| - 1] && longer[|run|] == (run + [s'])[|run|];
  }

  /** Main result: from every reachable state all calls can be brought to their end, by steps of their own alone:
      without new calls and without crashes. */
  lemma {:induction false} AllCanFinish(init: Db, run: seq<State>, n: nat) returns (longer: seq<State>)
    requires CartsOk(init) && Run(init, run) && IdsBelow(Last(run), n)
    ensures Prolongs(run, longer) && Run(init, longer)
    ensures AllDone(Last(longer)) && Last(longer).txns.Keys == Last(run).txns.Keys
    decreases Work(Last(run), n)
  {
    if AllDone(Last(run)) {
      longer := run;
    } else {
      var s' := OneStepOn(init, run, n);
      longer := AllCanFinish(init, run + [s'], n);
      OneStepEarlier(run, s', longer);
    }
  }

  /** A run that cannot go on without new calls has brought every call to its end. */
  lemma StuckMeansDone(init: Db, run: seq<State>)
    requires CartsOk(init) && Run(init, run) && forall s' :: !Goes(Last(run), s')
    ensures AllDone(Last(run))
  {
    if !AllDone(Last(run)) {
      var s' := NextOwnStep(init, run);
      assert false;
    }
  }
}
