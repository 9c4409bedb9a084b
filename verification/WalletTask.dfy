/** The queued wallet payment: a task that is delivered, may die before or after its checkout commits, and is then
    delivered again, while other transactions, cart edits of the same user included, commit in between. */
module WalletTask {
  import opened Schema
  import opened Serial
  import opened Evolution
  import opened Services

  const WALLET_TASK_MAX_RETRIES := 3

  /** What becomes of one delivery: it runs to its end; it dies and its transaction is rolled back; or its transaction
      commits and it dies afterwards. */
  datatype Fate = Returns | DiesBefore | DiesAfter

  /** What one delivery, after others' commits, did to the tables: nothing, or one wallet purchase of exactly the cart
      as it was then. */
  ghost predicate Delivered(before: Db, others: seq<Event>, user: nat, made: Option<Event>, after: Db) {
    var seen := Absorb(before, others);
    match made
    case None => after == seen
    case Some(ev) =>
      && ev.Bought? && ev.tender == ByWallet && ev.user == user
      && IsCart(seen.carts, user, ev.lines) && ev.gone == RowsOf(seen.carts, user)
      && Accepts(seen, ev) && after == Perform(seen, ev)
  }

  /** Why a delivery that lives buys nothing: there is no such user, or the checkout refuses the cart. */
  ghost predicate Refused(seen: Db, user: nat) {
    user in seen.wallets ==>
      exists lines :: IsCart(seen.carts, user, lines) && Verdict(seen, ByWallet, user, lines).Some?
  }

  function Rows(made: Option<Event>): set<nat> {
    if made.Some? && made.value.Bought? then RowIds(made.value.lines) else {}
  }

  /** The rows billed so far were issued and are gone. */
  ghost predicate AllGone(db: Db, made: seq<Option<Event>>) {
    forall i, r :: 0 <= i < |made| && r in Rows(made[i]) ==> r in db.owners && r !in db.carts
  }

  ghost predicate Apart(made: seq<Option<Event>>) {
    forall i, j :: 0 <= i < j < |made| ==> Rows(made[i]) !! Rows(made[j])
  }

  /** A purchase deletes the rows it bills, and they were there until then. */
  lemma PurchaseTakesItsRows(seen: Db, user: nat, ev: Event, r: nat)
    requires CartsOk(seen) && ev.Bought? && IsCart(seen.carts, user, ev.lines) && ev.gone == RowsOf(seen.carts, user)
    requires Accepts(seen, ev) && r in RowIds(ev.lines)
    ensures r in seen.carts && r in Perform(seen, ev).owners && r !in Perform(seen, ev).carts
  {}

  lemma GoneStaysGone(db: Db, db': Db, past: seq<Option<Event>>)
    requires Evolves(db, db') && AllGone(db, past)
    ensures AllGone(db', past)
  {}

  lemma OneMoreGone(db: Db, past: seq<Option<Event>>, made: Option<Event>)
    requires AllGone(db, past) && forall r :: r in Rows(made) ==> r in db.owners && r !in db.carts
    ensures AllGone(db, past + [made])
  {}

  lemma LiveRowsAreOthers(db: Db, past: seq<Option<Event>>, made: Option<Event>)
    requires AllGone(db, past) && Apart(past) && Rows(made) <= db.carts.Keys
    ensures Apart(past + [made])
  {}

  /** Deleted rows do not come back, so the next purchase bills other rows. */
  lemma DeliveryBillsOthers(before: Db, others: seq<Event>, user: nat, made: Option<Event>, after: Db,
                            past: seq<Option<Event>>)
    requires CartsOk(before) && AllGone(before, past) && Apart(past) && Delivered(before, others, user, made, after)
    ensures CartsOk(after) && AllGone(after, past + [made]) && Apart(past + [made])
  {
    var seen := Absorb(before, others);
    EvolvesAbsorbing(before, others);
    GoneStaysGone(before, seen, past);
    if made.Some? {
      EvolvesStep(seen, made.value);
      GoneStaysGone(seen, after, past);
      forall r | r in Rows(made) ensures r in seen.carts && r in after.owners && r !in after.carts {
        PurchaseTakesItsRows(seen, user, made.value, r);
      }
    }
    LiveRowsAreOthers(seen, past, made);
    OneMoreGone(after, past, made);
  }

  /** A delivery is repeated exactly when it died; one that lives ends with a purchase or a refusal. */
  ghost predicate Ends(now: Db, user: nat, made: Option<Event>, again: bool, fate: Fate) {
    if again then fate == if made.Some? then DiesAfter else DiesBefore
    else if made.Some? then fate == Returns
    else Refused(now, user)
  }

  /** One delivery. */
  method Deliver(store: Store, user: nat, others: seq<Event>, fate: Fate) returns (made: Option<Event>, again: bool)
    requires store.Valid()
    modifies store
    ensures store.Valid() && Delivered(old(store.View()), others, user, made, store.View())
    ensures Ends(store.View(), user, made, again, fate)
  {
    store.Interleave(others);
    if user !in store.wallets {
      return None, false;
    }
    var begun := store.View();
    var r, lines := store.CheckoutWithWallet(user);
    if fate == DiesBefore {
      store.Rollback(begun);
      return None, true;
    }
    if r.Err? {
      return None, false;
    }
    made := Some(Bought(ByWallet, user, lines, r.value, RowsOf(begun.carts, user)));
    again := fate == DiesAfter;
  }

  /** The tables before each delivery, and at the end. */
  ghost predicate Trace(trace: seq<Db>, user: nat, env: nat -> seq<Event>, made: seq<Option<Event>>) {
    && |trace| == |made| + 1
    && forall k :: 0 <= k < |made| ==> Delivered(trace[k], env(k), user, made[k], trace[k + 1])
  }

  /** So far: a trace from the first tables to the present ones, on which no row was billed twice. */
  ghost predicate SoFar(first: Db, trace: seq<Db>, now: Db, user: nat, env: nat -> seq<Event>,
                        made: seq<Option<Event>>)
  {
    && Trace(trace, user, env, made) && trace[0] == first && trace[|made|] == now
    && CartsOk(now) && AllGone(now, made) && Apart(made)
  }

  lemma OneDeliveryMore(first: Db, trace: seq<Db>, before: Db, user: nat, env: nat -> seq<Event>,
                        made: seq<Option<Event>>, last: Option<Event>, now: Db)
    requires SoFar(first, trace, before, user, env, made) && Delivered(before, env(|made|), user, last, now)
    ensures SoFar(first, trace + [now], now, user, env, made + [last])
  {
    DeliveryBillsOthers(before, env(|made|), user, last, now, made);
  }

  lemma NothingYet(db: Db, user: nat, env: nat -> seq<Event>)
    requires CartsOk(db)
    ensures SoFar(db, [db], db, user, env, [])
  {}

  /** After at least one delivery: the trace so far, and how the last delivery ended. */
  ghost predicate Delivering(first: Db, trace: seq<Db>, now: Db, user: nat, env: nat -> seq<Event>, fate: nat -> Fate,
                             made: seq<Option<Event>>, died: bool)
  {
    && 1 <= |made| <= WALLET_TASK_MAX_RETRIES + 1 && SoFar(first, trace, now, user, env, made)
    && Ends(now, user, made[|made| - 1], died, fate(|made| - 1))
  }

  /** What all this means: each delivery left the tables as others had made them, or made one wallet purchase of the
      cart as it was then; no cart row is in two of the purchases; and the last delivery either died with its
      transaction rolled back or committed, or made a purchase, or found no such user or a cart that the checkout
      refuses. */
  lemma DeliveringMeans(first: Db, trace: seq<Db>, now: Db, user: nat, env: nat -> seq<Event>, fate: nat -> Fate,
                        made: seq<Option<Event>>, died: bool)
    requires Delivering(first, trace, now, user, env, fate, made, died)
    ensures 1 <= |made| <= 4 && |trace| == |made| + 1 && trace[0] == first && trace[|made|] == now
    ensures forall k :: 0 <= k < |made| ==>
              (made[k].Some? ==> made[k].value.Bought?) && Delivered(trace[k], env(k), user, made[k], trace[k + 1])
    ensures forall i, j :: 0 <= i < j < |made| && made[i].Some? && made[j].Some? ==>
              RowIds(made[i].value.lines) !! RowIds(made[j].value.lines)
    ensures var last, end := made[|made| - 1], fate(|made| - 1);
            && (died ==> (end == DiesAfter && last.Some?) || (end == DiesBefore && last.None?))
            && (!died && last.Some? ==> end == Returns)
            && (!died && last.None? && user in now.wallets ==>
                  exists lines :: IsCart(now.carts, user, lines) && Verdict(now, ByWallet, user, lines).Some?)
  {
    forall k | 0 <= k < |made|
      ensures (made[k].Some? ==> made[k].value.Bought?) && Delivered(trace[k], env(k), user, made[k], trace[k + 1])
    {
      DeliveryMeans(trace[k], env(k), user, made[k], trace[k + 1]);
    }
    assert forall i, j :: 0 <= i < j < |made| ==> Rows(made[i]) !! Rows(made[j]);
  }

  /** One delivery left the tables as others had made them, or made one wallet purchase of the cart as it was then. */
  lemma DeliveryMeans(before: Db, others: seq<Event>, user: nat, made: Option<Event>, after: Db)
    requires Delivered(before, others, user, made, after)
    ensures made.None? ==> after == Absorb(before, others)
    ensures made.Some? ==>
              var seen, ev := Absorb(before, others), made.value;
              && ev.Bought? && ev.tender == ByWallet && ev.user == user
              && IsCart(seen.carts, user, ev.lines) && ev.gone == RowsOf(seen.carts, user)
              && Accepts(seen, ev) && after == Perform(seen, ev)
  {}

  lemma NowDelivering(first: Db, trace: seq<Db>, now: Db, user: nat, env: nat -> seq<Event>, fate: nat -> Fate,
                      made: seq<Option<Event>>, one: Option<Event>, died: bool)
    requires |made| <= WALLET_TASK_MAX_RETRIES && SoFar(first, trace + [now], now, user, env, made + [one])
    requires Ends(now, user, one, died, fate(|made|))
    ensures Delivering(first, trace + [now], now, user, env, fate, made + [one], died)
  {}

  /** One delivery more. */
  method DeliverNext(store: Store, user: nat, env: nat -> seq<Event>, fate: nat -> Fate, before: seq<Option<Event>>,
                     ghost first: Db, ghost past: seq<Db>)
    returns (made: seq<Option<Event>>, died: bool, ghost trace: seq<Db>)
    requires store.Valid() && SoFar(first, past, store.View(), user, env, before) && |before| <= WALLET_TASK_MAX_RETRIES
    modifies store
    ensures store.Valid() && Delivering(first, trace, store.View(), user, env, fate, made, died)
    ensures |made| == |before| + 1
  {
    ghost var now := store.View();
    var one;
    one, died := Deliver(store, user, env(|before|), fate(|before|));
    OneDeliveryMore(first, past, now, user, env, before, one, store.View());
    NowDelivering(first, past, store.View(), user, env, fate, before, one, died);
    made, trace := before + [one], past + [store.View()];
  }

  /** process_wallet_payment_async: at most four deliveries, each of which makes at most one purchase of the cart of
      its moment; whatever dies and whatever others commit, no cart row is billed by two of them. Delivery ends with
      a purchase, with a refusal, or when the retries are used up. */
  method ProcessWalletPaymentAsync(store: Store, user: nat, env: nat -> seq<Event>, fate: nat -> Fate)
    returns (made: seq<Option<Event>>, gaveUp: bool, ghost trace: seq<Db>)
    requires store.Valid()
    modifies store
    ensures store.Valid() && Delivering(old(store.View()), trace, store.View(), user, env, fate, made, gaveUp)
    ensures gaveUp ==> |made| == WALLET_TASK_MAX_RETRIES + 1
  {
    ghost var first := store.View();
    NothingYet(first, user, env);
    made, gaveUp, trace := DeliverNext(store, user, env, fate, [], first, [first]);
    while gaveUp && |made| <= WALLET_TASK_MAX_RETRIES
      invariant store.Valid() && Delivering(first, trace, store.View(), user, env, fate, made, gaveUp)
      decreases WALLET_TASK_MAX_RETRIES + 1 - |made|
    {
      made, gaveUp, trace := DeliverNext(store, user, env, fate, made, first, trace);
    }
  }
}
