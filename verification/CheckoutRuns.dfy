/** Explicit runs of the engine: what checkouts that read the cart without locking it can do. */
module CheckoutRuns {
  import opened Schema
  import opened Serial
  import opened Engine
  import opened Serializable
  import opened Billing

  // ----- from one state to another -----

  ghost predicate Steps(path: seq<State>) {
    path != [] && forall i :: 0 < i < |path| ==> Step(path[i - 1], path[i])
  }

  /** Some steps lead from s to s'. */
  ghost predicate Leads(s: State, s': State) {
    exists path :: Steps(path) && path[0] == s && path[|path| - 1] == s'
  }

  lemma OneStep(s: State, s': State)
    requires Step(s, s')
    ensures Leads(s, s')
  {
    assert Steps([s, s']);
  }

  lemma Joined(a: seq<State>, b: seq<State>)
    requires Steps(a) && Steps(b) && a[|a| - 1] == b[0]
    ensures Steps(a + b[1..]) && (a + b[1..])[|a + b[1..]| - 1] == b[|b| - 1]
  {
    var c := a + b[1..];
    forall i | 0 < i < |c| ensures Step(c[i - 1], c[i]) {
      if i >= |a| {
        assert c[i] == b[i - |a| + 1];
        assert c[i - 1] == b[i - |a|];
      } else {
        assert c[i - 1] == a[i - 1] && c[i] == a[i];
      }
    }
  }

  lemma Then(s: State, s': State, s'': State)
    requires Leads(s, s') && Leads(s', s'')
    ensures Leads(s, s'')
  {
    var a :| Steps(a) && a[0] == s && a[|a| - 1] == s';
    var b :| Steps(b) && b[0] == s' && b[|b| - 1] == s'';
    Joined(a, b);
    assert (a + b[1..])[0] == s;
  }

  function With(s: State, t: nat, x: Txn): State {
    s.(txns := s.txns[t := x])
  }

  /** Nobody else holds anything. */
  ghost predicate Alone(s: State, t: nat) {
    t in s.txns && forall u :: u in s.txns && u != t ==> s.txns[u].held == {}
  }

  lemma Rewritten(s: State, t: nat, x: Txn, x': Txn)
    requires Alone(s, t)
    ensures With(With(s, t, x), t, x') == With(s, t, x') && Alone(With(s, t, x), t)
  {}

  // ----- a shop, and the stages of a checkout of its one cart row -----

  const SHOP := Db(map[5 := Product(2, 0, 100, true)], map[9 := 100], map[3 := CartRow(9, 5, 1, 0, 0)], map[3 := 9],
                   map[], [], map[], [])

  const CART := [Line(3, 5, 1)]

  function Call(tender: Tender): Txn {
    Txn(Checkout(tender, 9), {}, NO_WRITES, Start)
  }

  function Balance(tender: Tender): int {
    if tender == ByWallet then 100 else 0
  }

  function CartRead(tender: Tender): Txn {
    Txn(Checkout(tender, 9), UserKeys(tender, 9), NO_WRITES, Locking(Balance(tender), CART, [5], map[]))
  }

  function Locked(tender: Tender, p: Product): Txn {
    CartRead(tender).(held := UserKeys(tender, 9) + {ProductKey(5)},
                      pc := Locking(Balance(tender), CART, [], map[5 := p]))
  }

  function Debit(tender: Tender, p: Product): map<nat, int> {
    if tender == ByWallet then map[9 := 100 - p.price] else map[]
  }

  function Validated(tender: Tender, p: Product): Txn {
    Locked(tender, p).(w := NO_WRITES.(products := map[5 := p], wallets := Debit(tender, p)),
                       pc := Selling(CART, map[5 := p], 0))
  }

  function Sold(tender: Tender, p: Product): Txn {
    Validated(tender, p).(w := NO_WRITES.(products := map[5 := Taken(p, 1)], wallets := Debit(tender, p),
                                          log := [LogEntry(5, -1, Purchase)]),
                          pc := Selling(CART, map[5 := p], 1))
  }

  function Ordered(tender: Tender, p: Product, oid: nat): Txn {
    Sold(tender, p).(held := Sold(tender, p).held + {OrderKey(oid), PaymentKey(oid)},
                     w := Sold(tender, p).w.(orders := map[oid := Order(9, Confirmed, p.price)],
                                             items := [ItemRow(oid, 5, 1, p.price)],
                                             payments := map[oid := OpeningPayment(tender, p.price)]),
                     pc := Billed(CART, map[5 := p], oid))
  }

  function Emptying(tender: Tender, p: Product, oid: nat, gone: set<nat>): Txn {
    var x := Ordered(tender, p, oid);
    x.(held := x.held + RowKeys(gone), w := x.w.(gone := gone), pc := Ready(Bought(tender, 9, CART, oid, gone)))
  }

  lemma CartFacts(p: Product, oid: nat)
    ensures CART[..0] == [] && Refusal(map[5 := p], CART).None? == (p.stock >= 1)
    ensures Total(map[5 := p], CART) == p.price && Stocked(map[5 := p], CART)
    ensures ItemsOf(oid, map[5 := p], CART) == [ItemRow(oid, 5, 1, p.price)]
  {
    assert CART[..0] == [];
  }

  // ----- its steps -----

  lemma CallStep(s: State, t: nat, req: Request)
    requires t !in s.txns && Admissible(req)
    ensures Leads(s, With(s, t, Txn(req, {}, NO_WRITES, Start)))
  {
    assert Arrives(s, With(s, t, Txn(req, {}, NO_WRITES, Start)), t);
    OneStep(s, With(s, t, Txn(req, {}, NO_WRITES, Start)));
  }

  lemma CartListed(x: Txn, x': Txn, balance: int)
    requires x' == x.(pc := Locking(balance, CART, [5], map[]))
    ensures ReadsCart(SHOP, x, x', 9, balance)
  {
    assert CART[..0] == [] && CART[0].row == 3;
    assert IsCart(SHOP.carts, 9, CART);
    assert SortedPids(CART) == [5];
  }

  lemma CardReads(s: State, t: nat)
    requires s.db == SHOP && t in s.txns && s.txns[t] == Call(ByCard)
    ensures Leads(s, With(s, t, CartRead(ByCard)))
  {
    CartListed(Call(ByCard), CartRead(ByCard), 0);
    assert Works(s, With(s, t, CartRead(ByCard)), t);
    OneStep(s, With(s, t, CartRead(ByCard)));
  }

  lemma WalletReads(s: State, t: nat)
    requires s.db == SHOP && Alone(s, t) && s.txns[t] == Call(ByWallet)
    ensures Leads(s, With(s, t, CartRead(ByWallet)))
  {
    var x := Call(ByWallet);
    var x' := x.(held := {UserKey(9)}, pc := UserLocked(100));
    assert x.held + {UserKey(9)} == x'.held;
    assert Works(s, With(s, t, x'), t);
    OneStep(s, With(s, t, x'));
    Rewritten(s, t, x', CartRead(ByWallet));
    CartListed(x', CartRead(ByWallet), 100);
    assert Works(With(s, t, x'), With(s, t, CartRead(ByWallet)), t);
    OneStep(With(s, t, x'), With(s, t, CartRead(ByWallet)));
    Then(s, With(s, t, x'), With(s, t, CartRead(ByWallet)));
  }

  lemma LockStep(s: State, t: nat, tender: Tender, p: Product)
    requires Alone(s, t) && s.txns[t] == CartRead(tender) && 5 in s.db.products && s.db.products[5] == p
    ensures Leads(s, With(s, t, Locked(tender, p)))
  {
    assert [5][1..] == [] && map[][5 := p] == map[5 := p];
    assert Works(s, With(s, t, Locked(tender, p)), t);
    OneStep(s, With(s, t, Locked(tender, p)));
  }

  lemma ValidateStep(s: State, t: nat, tender: Tender, p: Product)
    requires Alone(s, t) && s.txns[t] == Locked(tender, p) && p.stock >= 1 && p.price <= 100
    ensures Leads(s, With(s, t, Validated(tender, p)))
  {
    CartFacts(p, 0);
    assert Works(s, With(s, t, Validated(tender, p)), t);
    OneStep(s, With(s, t, Validated(tender, p)));
  }

  lemma DeductStep(s: State, t: nat, tender: Tender, p: Product)
    requires Alone(s, t) && s.txns[t] == Validated(tender, p) && p.stock >= 1
    ensures Leads(s, With(s, t, Sold(tender, p)))
  {
    assert map[5 := p][5 := Taken(p, 1)] == map[5 := Taken(p, 1)];
    assert [] + [LogEntry(5, -1, Purchase)] == [LogEntry(5, -1, Purchase)];
    assert Works(s, With(s, t, Sold(tender, p)), t);
    OneStep(s, With(s, t, Sold(tender, p)));
  }

  lemma OrderStep(s: State, t: nat, tender: Tender, p: Product, oid: nat)
    requires Alone(s, t) && s.txns[t] == Sold(tender, p) && oid !in s.db.orders && oid !in s.db.payments
    ensures Leads(s, With(s, t, Ordered(tender, p, oid)))
  {
    var x, x' := Sold(tender, p), Ordered(tender, p, oid);
    CartFacts(p, oid);
    CartFacts(Taken(p, 1), oid);
    assert Takes(s, t, x, x', {OrderKey(oid), PaymentKey(oid)}, x'.w, x'.pc);
    assert SellingMoves(s, t, x, x');
    assert Works(s, With(s, t, x'), t);
    OneStep(s, With(s, t, x'));
  }

  lemma EmptyStep(s: State, t: nat, tender: Tender, p: Product, oid: nat)
    requires Alone(s, t) && s.txns[t] == Ordered(tender, p, oid)
    ensures Leads(s, With(s, t, Emptying(tender, p, oid, RowsOf(s.db.carts, 9))))
  {
    var x, x' := Ordered(tender, p, oid), Emptying(tender, p, oid, RowsOf(s.db.carts, 9));
    assert EmptyingMoves(s, t, x, x');
    assert Works(s, With(s, t, x'), t);
    OneStep(s, With(s, t, x'));
  }

  /** The state after the commit. */
  function Committing(s: State, t: nat, x: Txn): State
    requires x.pc.Ready?
  {
    State(Install(s.db, x.w), s.txns[t := Finish(x, Committed(x.pc.ev))], s.history + [x.pc.ev])
  }

  lemma CommitStep(s: State, t: nat)
    requires t in s.txns && s.txns[t].pc.Ready?
    ensures Leads(s, Committing(s, t, s.txns[t]))
  {
    assert Commits(s, Committing(s, t, s.txns[t]), t);
    OneStep(s, Committing(s, t, s.txns[t]));
  }

  /** A checkout that has read the one-line cart, and that nobody disturbs any more, commits and bills that line. */
  lemma FinishCheckout(s: State, t: nat, tender: Tender, oid: nat) returns (s': State)
    requires Alone(s, t) && s.txns[t] == CartRead(tender)
    requires 5 in s.db.products && s.db.products[5].stock >= 1 && s.db.products[5].price <= 100
    requires oid !in s.db.orders && oid !in s.db.payments
    ensures Leads(s, s') && s'.history == s.history + [Bought(tender, 9, CART, oid, RowsOf(s.db.carts, 9))]
    ensures t in s'.txns && s'.txns == s.txns[t := s'.txns[t]] && s'.txns[t].held == {}
    ensures s'.db.products == s.db.products + map[5 := Taken(s.db.products[5], 1)]
    ensures s'.db.orders.Keys == s.db.orders.Keys + {oid} && s'.db.payments.Keys == s.db.payments.Keys + {oid}
  {
    var p := s.db.products[5];
    FirstHalf(s, t, tender, p);
    Rewritten(s, t, Sold(tender, p), Ordered(tender, p, oid));
    OrderStep(With(s, t, Sold(tender, p)), t, tender, p, oid);
    Then(s, With(s, t, Sold(tender, p)), With(s, t, Ordered(tender, p, oid)));
    s' := LastSteps(s, t, tender, p, oid);
    Then(s, With(s, t, Ordered(tender, p, oid)), s');
  }

  lemma FirstHalf(s: State, t: nat, tender: Tender, p: Product)
    requires Alone(s, t) && s.txns[t] == CartRead(tender) && 5 in s.db.products && s.db.products[5] == p
    requires p.stock >= 1 && p.price <= 100
    ensures Leads(s, With(s, t, Sold(tender, p)))
  {
    LockStep(s, t, tender, p);
    Rewritten(s, t, Locked(tender, p), Validated(tender, p));
    ValidateStep(With(s, t, Locked(tender, p)), t, tender, p);
    Then(s, With(s, t, Locked(tender, p)), With(s, t, Validated(tender, p)));
    Rewritten(s, t, Validated(tender, p), Sold(tender, p));
    DeductStep(With(s, t, Validated(tender, p)), t, tender, p);
    Then(s, With(s, t, Validated(tender, p)), With(s, t, Sold(tender, p)));
  }

  lemma PurchaseInstalled(s: State, t: nat, tender: Tender, p: Product, oid: nat, gone: set<nat>)
    ensures var x := Emptying(tender, p, oid, gone);
            var s' := Committing(With(s, t, x), t, x);
            && s'.history == s.history + [Bought(tender, 9, CART, oid, gone)]
            && t in s'.txns && s'.txns == s.txns[t := s'.txns[t]] && s'.txns[t].held == {}
            && s'.db.products == s.db.products + map[5 := Taken(p, 1)]
            && s'.db.orders.Keys == s.db.orders.Keys + {oid} && s'.db.payments.Keys == s.db.payments.Keys + {oid}
  {}

  lemma LastSteps(s: State, t: nat, tender: Tender, p: Product, oid: nat) returns (s': State)
    requires Alone(s, t)
    ensures Leads(With(s, t, Ordered(tender, p, oid)), s')
    ensures s'.history == s.history + [Bought(tender, 9, CART, oid, RowsOf(s.db.carts, 9))]
    ensures t in s'.txns && s'.txns == s.txns[t := s'.txns[t]] && s'.txns[t].held == {}
    ensures s'.db.products == s.db.products + map[5 := Taken(p, 1)]
    ensures s'.db.orders.Keys == s.db.orders.Keys + {oid} && s'.db.payments.Keys == s.db.payments.Keys + {oid}
  {
    var x := Emptying(tender, p, oid, RowsOf(s.db.carts, 9));
    Rewritten(s, t, Ordered(tender, p, oid), x);
    EmptyStep(With(s, t, Ordered(tender, p, oid)), t, tender, p, oid);
    CommitStep(With(s, t, x), t);
    s' := Committing(With(s, t, x), t, x);
    PurchaseInstalled(s, t, tender, p, oid, RowsOf(s.db.carts, 9));
    Then(With(s, t, Ordered(tender, p, oid)), With(s, t, x), s');
  }

  lemma RunOf(s: State)
    requires Leads(State(SHOP, map[], []), s)
    ensures exists run: seq<State> :: Run(SHOP, run) && run[|run| - 1] == s
  {
    var run :| Steps(run) && run[0] == State(SHOP, map[], []) && run[|run| - 1] == s;
    assert Run(SHOP, run);
  }

  // ----- two card checkouts of one cart -----

  /** Both checkouts read the cart before either locks the product. */
  lemma BothRead()
    ensures Leads(State(SHOP, map[], []), State(SHOP, map[1 := CartRead(ByCard), 2 := CartRead(ByCard)], []))
  {
    var s0, s1 := State(SHOP, map[], []), State(SHOP, map[1 := Call(ByCard)], []);
    var s2 := State(SHOP, map[1 := CartRead(ByCard)], []);
    var s3 := State(SHOP, map[1 := CartRead(ByCard), 2 := Call(ByCard)], []);
    var s4 := State(SHOP, map[1 := CartRead(ByCard), 2 := CartRead(ByCard)], []);
    CallStep(s0, 1, Checkout(ByCard, 9));
    CardReads(s1, 1);
    CallStep(s2, 2, Checkout(ByCard, 9));
    CardReads(s3, 2);
    assert s1 == With(s0, 1, Call(ByCard)) && s2 == With(s1, 1, CartRead(ByCard));
    assert s3 == With(s2, 2, Call(ByCard)) && s4 == With(s3, 2, CartRead(ByCard));
    Then(s0, s1, s2);
    Then(s0, s2, s3);
    Then(s0, s3, s4);
  }

  /** With card checkouts "billed once" fails: two checkouts of one user that read the same cart both bill it. */
  lemma CardBillsTwice()
    ensures exists run: seq<State> :: CartsOk(SHOP) && Run(SHOP, run) && !BilledOnce(run[|run| - 1].history)
  {
    var s := State(SHOP, map[1 := CartRead(ByCard), 2 := CartRead(ByCard)], []);
    BothRead();
    var s' := BothFinish(s);
    Then(State(SHOP, map[], []), s, s');
    RunOf(s');
  }

  lemma BothFinish(s: State) returns (s'': State)
    requires s.txns.Keys == {1, 2} && s.txns[1] == s.txns[2] == CartRead(ByCard) && s.history == []
    requires 5 in s.db.products && s.db.products[5].stock >= 2 && s.db.products[5].price <= 100
    requires s.db.orders == map[] && s.db.payments == map[]
    ensures Leads(s, s'') && !BilledOnce(s''.history)
  {
    var s' := FinishCheckout(s, 1, ByCard, 1);
    assert s'.db.products[5] == Taken(s.db.products[5], 1);
    s'' := FinishCheckout(s', 2, ByCard, 2);
    Then(s, s', s'');
    TwiceInARow(1, 2, RowsOf(s.db.carts, 9), RowsOf(s'.db.carts, 9));
    assert s''.history == [Bought(ByCard, 9, CART, 1, RowsOf(s.db.carts, 9)),
                           Bought(ByCard, 9, CART, 2, RowsOf(s'.db.carts, 9))];
  }

  lemma TwiceInARow(oid: nat, oid': nat, gone: set<nat>, gone': set<nat>)
    ensures !BilledOnce([Bought(ByCard, 9, CART, oid, gone), Bought(ByCard, 9, CART, oid', gone')])
  {
    var h := [Bought(ByCard, 9, CART, oid, gone), Bought(ByCard, 9, CART, oid', gone')];
    assert h[0].Bought? && h[1].Bought?;
    assert 3 in RowIds(h[0].lines) && 3 in RowIds(h[1].lines) by {
      assert CART[0].row == 3;
    }
  }

  // ----- an add while a checkout runs -----

  const ADDED := SHOP.(carts := map[3 := CartRow(9, 5, 2, 1, 0)])

  function Adding(pc: Pc): Txn {
    Txn(CartAdd(9, 5, 1), {}, NO_WRITES, pc)
  }

  const ADD_READY := Txn(CartAdd(9, 5, 1), {RowKey(3)}, NO_WRITES.(carts := map[3 := CartRow(9, 5, 2, 1, 0)]),
                         Ready(RowBumped(3, 1, 7)))

  /** Another request of the same user finds the row and is about to raise its quantity; it needs only that row. */
  lemma AddSteps(s: State, t: nat)
    requires s.db == SHOP && t in s.txns && s.txns[t] == Adding(Start) && Free(s, t, {RowKey(3)})
    ensures Leads(s, With(s, t, ADD_READY))
  {
    var row := CartRow(9, 5, 1, 0, 0);
    var s1, s2, s3 := With(s, t, Adding(ItemWanted)), With(s, t, Adding(RowRead(3, row))), With(s, t, ADD_READY);
    assert Works(s, s1, t);
    OneStep(s, s1);
    AddReads(s1, t);
    assert s2 == With(s1, t, Adding(RowRead(3, row)));
    AddLocks(s2, t);
    assert s3 == With(s2, t, ADD_READY);
    Then(s, s1, s2);
    Then(s, s2, s3);
  }

  lemma AddReads(s: State, t: nat)
    requires s.db == SHOP && t in s.txns && s.txns[t] == Adding(ItemWanted)
    ensures Leads(s, With(s, t, Adding(RowRead(3, CartRow(9, 5, 1, 0, 0)))))
  {
    var s' := With(s, t, Adding(RowRead(3, CartRow(9, 5, 1, 0, 0))));
    assert HasRow(SHOP.carts, 9, 5) && RowAt(SHOP.carts, 3, 9, 5) by {
      assert SHOP.carts[3].user == 9 && SHOP.carts[3].pid == 5;
    }
    assert Works(s, s', t);
    OneStep(s, s');
  }

  lemma AddLocks(s: State, t: nat)
    requires s.db == SHOP && t in s.txns && s.txns[t] == Adding(RowRead(3, CartRow(9, 5, 1, 0, 0)))
    requires Free(s, t, {RowKey(3)})
    ensures Leads(s, With(s, t, ADD_READY))
  {
    var x, s' := s.txns[t], With(s, t, ADD_READY);
    assert x.held + {RowKey(3)} == ADD_READY.held;
    assert Takes(s, t, x, ADD_READY, {RowKey(3)}, ADD_READY.w, Ready(RowBumped(3, 1, 7)));
    assert OptimisticMoves(s, t, x, ADD_READY);
    assert Works(s, s', t);
    OneStep(s, s');
  }

  /** The add commits while the checkout, by card or by wallet, has the older cart in hand. */
  lemma AddCommits(tender: Tender)
    ensures var mid := State(SHOP, map[1 := CartRead(tender), 2 := ADD_READY], []);
            Committing(mid, 2, ADD_READY)
            == State(ADDED, map[1 := CartRead(tender), 2 := Finish(ADD_READY, Committed(RowBumped(3, 1, 7)))],
                     [RowBumped(3, 1, 7)])
  {
    var w := ADD_READY.w;
    assert Install(SHOP, w) == ADDED by {
      EmptyWrites(SHOP);
      OneRowInstalled(SHOP, 3, CartRow(9, 5, 2, 1, 0));
      assert SHOP.carts[3 := CartRow(9, 5, 2, 1, 0)] == ADDED.carts && SHOP.owners[3 := 9] == SHOP.owners;
    }
  }

  lemma AddDuringCheckout(tender: Tender)
    ensures Leads(State(SHOP, map[], []),
                  State(ADDED, map[1 := CartRead(tender), 2 := Finish(ADD_READY, Committed(RowBumped(3, 1, 7)))],
                        [RowBumped(3, 1, 7)]))
  {
    var s0, s1 := State(SHOP, map[], []), State(SHOP, map[1 := Call(tender)], []);
    var s2 := State(SHOP, map[1 := CartRead(tender)], []);
    var s3 := State(SHOP, map[1 := CartRead(tender), 2 := Adding(Start)], []);
    var s4 := State(SHOP, map[1 := CartRead(tender), 2 := ADD_READY], []);
    CallStep(s0, 1, Checkout(tender, 9));
    assert s1 == With(s0, 1, Call(tender)) && s2 == With(s1, 1, CartRead(tender));
    if tender == ByCard {
      CardReads(s1, 1);
    } else {
      WalletReads(s1, 1);
    }
    CallStep(s2, 2, CartAdd(9, 5, 1));
    assert s3 == With(s2, 2, Adding(Start)) && s4 == With(s3, 2, ADD_READY);
    AddSteps(s3, 2);
    CommitStep(s4, 2);
    AddCommits(tender);
    Then(s0, s1, s2);
    Then(s0, s2, s3);
    Then(s0, s3, s4);
    Then(s0, s4, Committing(s4, 2, ADD_READY));
  }

  /** The last event is a checkout with this tender, and deletes a cart row that holds more than it bills. */
  ghost predicate DeletesUnbilled(init: Db, history: seq<Event>, tender: Tender) {
    history != [] &&
    var past, ev := history[..|history| - 1], history[|history| - 1];
    && ev.Bought? && ev.tender == tender && Replay(init, past).Some?
    && var carts := Replay(init, past).value.carts;
       exists i :: 0 <= i < |ev.lines| && ev.lines[i].row in ev.gone && ev.lines[i].row in carts
         && carts[ev.lines[i].row].qty > ev.lines[i].qty
  }

  /** A unit added while a checkout runs is neither billed nor kept: the final DELETE takes the row with it. The wallet
      checkout's lock on the user row does not help. */
  lemma AddedUnitVanishes(tender: Tender)
    ensures exists run: seq<State> :: Run(SHOP, run) && DeletesUnbilled(SHOP, run[|run| - 1].history, tender)
  {
    var add := RowBumped(3, 1, 7);
    var s := State(ADDED, map[1 := CartRead(tender), 2 := Finish(ADD_READY, Committed(add))], [add]);
    AddDuringCheckout(tender);
    var s' := FinishCheckout(s, 1, tender, 1);
    Then(State(SHOP, map[], []), s, s');
    RunOf(s');
    AddThenBill(tender);
    assert s'.history == [add] + [Bought(tender, 9, CART, 1, RowsOf(ADDED.carts, 9))];
  }

  lemma AddThenBill(tender: Tender)
    ensures DeletesUnbilled(SHOP, [RowBumped(3, 1, 7)] + [Bought(tender, 9, CART, 1, RowsOf(ADDED.carts, 9))], tender)
  {
    var add, bill := RowBumped(3, 1, 7), Bought(tender, 9, CART, 1, RowsOf(ADDED.carts, 9));
    assert ([add] + [bill])[..1] == [add];
    assert [add][..0] == [] && Replay(SHOP, []) == Some(SHOP);
    assert Accepts(SHOP, add) && SHOP.carts[3 := CartRow(9, 5, 2, 1, 0)] == ADDED.carts;
    assert Replay(SHOP, [add]) == Some(ADDED);
    assert bill.lines[0].row in bill.gone && ADDED.carts[3].qty > bill.lines[0].qty;
  }
}
