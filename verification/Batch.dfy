/** The chunked batch jobs, with other transactions committing between the chunks, against their one-shot forms. */
module Batch {
  import opened Schema
  import opened Serial
  import opened Evolution
  import opened Orders
  import opened Engine
  import opened Interference
  import opened Services

  const CHUNK_SIZE := 50

  // ----- slices -----

  function Slices(ids: seq<nat>, k: nat): (chunks: seq<seq<nat>>)
    requires k >= 1
  {
    if ids == [] then [] else if |ids| <= k then [ids] else [ids[..k]] + Slices(ids[k..], k)
  }

  function Joined(chunks: seq<seq<nat>>): seq<nat> {
    if chunks == [] then [] else chunks[0] + Joined(chunks[1..])
  }

  /** For every positive size the ids are cut into non-empty chunks of at most that size that give back the list. */
  lemma {:induction false} SlicesPartition(ids: seq<nat>, k: nat)
    requires k >= 1
    ensures Joined(Slices(ids, k)) == ids
    ensures forall i :: 0 <= i < |Slices(ids, k)| ==> 1 <= |Slices(ids, k)[i]| <= k
    decreases |ids|
  {
    if 0 < |ids| <= k {
      assert Joined([ids][1..]) == [];
    } else if ids != [] {
      var all, rest := Slices(ids, k), Slices(ids[k..], k);
      SlicesPartition(ids[k..], k);
      assert all[1..] == rest && ids == ids[..k] + ids[k..];
      assert forall i :: 0 < i < |all| ==> all[i] == rest[i - 1];
    }
  }

  /** Their number is |ids| / k rounded up. */
  lemma {:induction false} SlicesCount(ids: seq<nat>, k: nat)
    requires k >= 1
    ensures |ids| <= |Slices(ids, k)| * k < |ids| + k
    decreases |ids|
  {
    if |ids| > k {
      var m := |Slices(ids[k..], k)|;
      SlicesCount(ids[k..], k);
      assert (m + 1) * k == m * k + k;
    }
  }

  /** A position in a list of n ids, cut off at its end. */
  function Upto(position: nat, n: nat): (end: nat)
    ensures end <= n && end <= position
  {
    if position <= n then position else n
  }

  // ----- daily sales -----

  predicate Counts(status: OrderStatus) {
    status in {Confirmed, Processing, Shipped, Delivered}
  }

  /** The orders of the window that count as sales. */
  function Sales(orders: map<nat, Order>, window: set<nat>): set<nat> {
    set id | id in window && id in orders && Counts(orders[id].status)
  }

  /** The sum of total_price over a list of order ids. */
  function Revenue(orders: map<nat, Order>, ids: seq<nat>): int {
    if ids == [] then 0 else
      var id := ids[|ids| - 1];
      Revenue(orders, ids[..|ids| - 1]) + if id in orders then orders[id].total else 0
  }

  lemma {:induction false} RevenueAppend(orders: map<nat, Order>, a: seq<nat>, b: seq<nat>)
    ensures Revenue(orders, a + b) == Revenue(orders, a) + Revenue(orders, b)
    ensures Revenue(orders, []) == 0 && forall id :: id in orders ==> Revenue(orders, [id]) == orders[id].total
  {
    forall id | id in orders ensures Revenue(orders, [id]) == orders[id].total {
      assert [id][..0] == [];
    }
    if b == [] {
      assert a + b == a;
    } else {
      assert (a + b)[..|a + b| - 1] == a + b[..|b| - 1];
      RevenueAppend(orders, a, b[..|b| - 1]);
    }
  }

  /** Totals of existing orders never change, so neither does their revenue. */
  lemma {:induction false} RevenueFixed(orders: map<nat, Order>, orders': map<nat, Order>, ids: seq<nat>)
    requires forall i :: 0 <= i < |ids| ==> ids[i] in orders
    requires orders.Keys <= orders'.Keys && forall id :: id in orders ==> orders'[id].total == orders[id].total
    ensures Revenue(orders', ids) == Revenue(orders, ids)
  {
    if ids != [] {
      assert ids[|ids| - 1] in orders;
      RevenueFixed(orders, orders', ids[..|ids| - 1]);
    }
  }

  lemma {:induction false} TotalsFixedAbsorbing(db: Db, events: seq<Event>)
    ensures db.orders.Keys <= Absorb(db, events).orders.Keys
    ensures forall id :: id in db.orders ==> Absorb(db, events).orders[id].total == db.orders[id].total
  {
    if events != [] {
      TotalsFixedAbsorbing(db, events[..|events| - 1]);
      if Accepts(Absorb(db, events[..|events| - 1]), events[|events| - 1]) {
        TotalsFixed(Absorb(db, events[..|events| - 1]), events[|events| - 1]);
      }
    }
  }

  /** The id query: ascending, each id once. */
  method SortIds(ids: set<nat>) returns (list: seq<nat>)
    ensures Ascending(list) && Elements(list) == ids && |list| == |ids|
  {
    list := [];
    var rest := ids;
    while rest != {}
      invariant rest <= ids && Ascending(list) && Elements(list) == ids - rest
      invariant |list| + |rest| == |ids|
      decreases rest
    {
      var id :| id in rest;
      InsertLength(list, id);
      list := Insert(list, id);
      rest := rest - {id};
    }
  }

  /** The per-chunk aggregate over the table as it is now. */
  method ChunkRevenue(store: Store, chunk: seq<nat>) returns (revenue: int)
    ensures revenue == Revenue(store.orders, chunk)
  {
    revenue := 0;
    var i := 0;
    while i < |chunk|
      invariant 0 <= i <= |chunk| && revenue == Revenue(store.orders, chunk[..i])
    {
      assert chunk[..i + 1][..i] == chunk[..i];
      if chunk[i] in store.orders {
        revenue := revenue + store.orders[chunk[i]].total;
      }
      i := i + 1;
    }
    assert chunk[..i] == chunk;
  }

  /** run_daily_sales_batch_naive_task: all orders at once. */
  method RunDailySalesNaive(store: Store, window: set<nat>) returns (orders: nat, revenue: int, ids: seq<nat>)
    ensures Ascending(ids) && Elements(ids) == Sales(store.orders, window) && orders == |ids|
    ensures forall i, j :: 0 <= i < j < |ids| ==> ids[i] < ids[j]
    ensures forall id :: id in ids <==>
              && id in window && id in store.orders
              && store.orders[id].status != Pending && store.orders[id].status != Cancelled
    ensures revenue == Revenue(store.orders, ids)
  {
    ids := SortIds(Sales(store.orders, window));
    SalesListed(store.orders, window, ids);
    orders := |ids|;
    revenue := ChunkRevenue(store, ids);
  }

  /** Every order of the window is a sale, except PENDING and CANCELLED ones. */
  lemma SalesListed(orders: map<nat, Order>, window: set<nat>, ids: seq<nat>)
    requires Ascending(ids) && Elements(ids) == Sales(orders, window)
    ensures forall i, j :: 0 <= i < j < |ids| ==> ids[i] < ids[j]
    ensures forall id :: id in ids <==>
              id in window && id in orders && orders[id].status != Pending && orders[id].status != Cancelled
  {
    forall id ensures id in ids <==> id in Elements(ids) {}
  }

  /** The money on the order items of the given orders. */
  function Turnover(items: seq<ItemRow>, ids: set<nat>): int {
    if items == [] then 0 else
      var e := items[|items| - 1];
      Turnover(items[..|items| - 1], ids) + if e.oid in ids then e.unitPrice * e.qty else 0
  }

  lemma {:induction false} OneOrderMore(items: seq<ItemRow>, ids: set<nat>, id: nat)
    requires id !in ids
    ensures Turnover(items, ids + {id}) == Turnover(items, ids) + Subtotal(items, id)
    ensures items != [] ==>
              var e := items[|items| - 1];
              Turnover(items, ids)
              == Turnover(items[..|items| - 1], ids) + if e.oid in ids then e.unitPrice * e.qty else 0
    ensures Turnover([], ids) == 0
  {
    if items != [] {
      OneOrderMore(items[..|items| - 1], ids, id);
    }
  }

  lemma {:induction false} NoOrders(items: seq<ItemRow>)
    ensures Turnover(items, {}) == 0
  {
    if items != [] {
      NoOrders(items[..|items| - 1]);
    }
  }

  /** The revenue of different orders is the money on their items. */
  lemma {:induction false} RevenueIsTurnover(db: Db, ids: seq<nat>)
    requires Integrity(db) && Ascending(ids) && Elements(ids) <= db.orders.Keys
    ensures Revenue(db.orders, ids) == Turnover(db.items, Elements(ids))
  {
    if ids == [] {
      assert Elements(ids) == {};
      NoOrders(db.items);
    } else {
      var n := |ids| - 1;
      LastApart(ids);
      assert ids[n] in Elements(ids);
      RevenueIsTurnover(db, ids[..n]);
      assert Elements(ids) == Elements(ids[..n]) + {ids[n]};
      OneOrderMore(db.items, Elements(ids[..n]), ids[n]);
    }
  }

  /** An order exists exactly when a checkout of the history created it. */
  lemma {:induction false} OrderExistsExactly(init: Db, history: seq<Event>, id: nat)
    requires init.orders == map[] && Replay(init, history).Some?
    ensures id in Replay(init, history).value.orders <==>
              exists i :: 0 <= i < |history| && history[i].Bought? && history[i].oid == id
  {
    if history != [] {
      var past, ev := history[..|history| - 1], history[|history| - 1];
      OrderExistsExactly(init, past, id);
      OrderStep(Replay(init, past).value, ev, id);
      assert forall i :: 0 <= i < |past| ==> past[i] == history[i];
      assert history[|past|] == ev;
    }
  }

  lemma OrderStep(db: Db, ev: Event, id: nat)
    requires Accepts(db, ev)
    ensures id in Perform(db, ev).orders <==> id in db.orders || (ev.Bought? && ev.oid == id)
  {}

  /** Without administrative status updates, an order counts exactly when it was bought and never cancelled. */
  lemma CountsExactly(init: Db, history: seq<Event>, id: nat)
    requires init.orders == map[] && init.payments == map[] && Replay(init, history).Some? && NoStatusUpdates(history)
    ensures var orders := Replay(init, history).value.orders;
            id in orders && orders[id].status != Pending && orders[id].status != Cancelled <==>
              && (exists i :: 0 <= i < |history| && history[i].Bought? && history[i].oid == id)
              && !exists i :: 0 <= i < |history| && history[i] == Cancelling(id)
  {
    OrderExistsExactly(init, history, id);
    OrdersInStep(init, history, id);
    CancelledByRequest(init, history, id);
  }

  /** Main result: without administrative status updates, the daily sales are exactly the window's orders that were
      bought and never cancelled, and their revenue is the money on these orders' items. */
  lemma DailySalesExactly(init: Db, history: seq<Event>, window: set<nat>, ids: seq<nat>)
    requires init.orders == map[] && init.payments == map[] && init.items == [] && Replay(init, history).Some?
    requires NoStatusUpdates(history) && Ascending(ids)
    requires var orders := Replay(init, history).value.orders;
             forall id :: id in ids <==>
               id in window && id in orders && orders[id].status != Pending && orders[id].status != Cancelled
    ensures forall id :: id in ids <==>
              && id in window
              && (exists i :: 0 <= i < |history| && history[i].Bought? && history[i].oid == id)
              && !exists i :: 0 <= i < |history| && history[i] == Cancelling(id)
    ensures Revenue(Replay(init, history).value.orders, ids)
            == Turnover(Replay(init, history).value.items, Elements(ids))
  {
    forall id
      ensures id in ids <==>
                && id in window
                && (exists i :: 0 <= i < |history| && history[i].Bought? && history[i].oid == id)
                && !exists i :: 0 <= i < |history| && history[i] == Cancelling(id)
    {
      CountsExactly(init, history, id);
    }
    SalesAreItems(init, history, ids);
  }

  lemma SalesAreItems(init: Db, history: seq<Event>, ids: seq<nat>)
    requires init.orders == map[] && init.payments == map[] && init.items == [] && Replay(init, history).Some?
    requires Ascending(ids) && forall id :: id in ids ==> id in Replay(init, history).value.orders
    ensures Revenue(Replay(init, history).value.orders, ids)
            == Turnover(Replay(init, history).value.items, Elements(ids))
  {
    assert Integrity(init);
    OrderIntegrity(init, history);
    forall id | id in Elements(ids) ensures id in Replay(init, history).value.orders {
      assert id in ids;
    }
    RevenueIsTurnover(Replay(init, history).value, ids);
  }

  lemma SliceRevenue(orders: map<nat, Order>, ids: seq<nat>, start: nat, end: nat)
    requires start <= end <= |ids|
    ensures Revenue(orders, ids[..end]) == Revenue(orders, ids[..start]) + Revenue(orders, ids[start..end])
  {
    RevenueAppend(orders, ids[..start], ids[start..end]);
    assert ids[..start] + ids[start..end] == ids[..end];
  }

  lemma OneSliceMore(ids: seq<nat>, start: nat, k: nat)
    requires k >= 1 && start < |ids|
    ensures |Slices(ids[start..], k)| == 1 + |Slices(ids[Upto(start + k, |ids|)..], k)|
  {
    if start + k < |ids| {
      assert ids[start..][k..] == ids[start + k..];
    } else if start + k == |ids| {
      assert ids[start + k..] == [];
    }
  }

  /** Others' commits leave existing orders and their totals in place. */
  ghost predicate TotalsKept(before: map<nat, Order>, now: map<nat, Order>) {
    before.Keys <= now.Keys && forall id :: id in before ==> now[id].total == before[id].total
  }

  method LetOthersRun(store: Store, ghost before: map<nat, Order>, events: seq<Event>)
    requires store.Valid() && TotalsKept(before, store.orders)
    modifies store
    ensures store.Valid() && TotalsKept(before, store.orders)
  {
    TotalsFixedAbsorbing(store.View(), events);
    store.Interleave(events);
  }

  /** One chunk: its aggregate is taken from the table as it is now, and extends the one-shot sum. */
  method AddChunk(store: Store, ghost before: map<nat, Order>, ids: seq<nat>, start: nat, end: nat, soFar: int)
    returns (revenue: int)
    requires TotalsKept(before, store.orders) && start <= end <= |ids|
    requires forall i :: 0 <= i < |ids| ==> ids[i] in before
    requires soFar == Revenue(before, ids[..start])
    ensures revenue == Revenue(before, ids[..end])
  {
    var chunk := ids[start..end];
    var part := ChunkRevenue(store, chunk);
    assert forall i :: 0 <= i < |chunk| ==> chunk[i] == ids[start + i];
    RevenueFixed(before, store.orders, chunk);
    SliceRevenue(before, ids, start, end);
    revenue := soFar + part;
  }

  /** run_daily_sales_batch_task: whatever others commit before and between the chunks, the chunk aggregates add up
      to the one-shot revenue of the orders selected at the start, one chunk per slice. */
  method RunDailySalesBatch(store: Store, window: set<nat>, demoChunkSize: Option<nat>, env: nat -> seq<Event>)
    returns (orders: nat, revenue: int, chunks: nat, ids: seq<nat>)
    requires store.Valid()
    modifies store
    ensures store.Valid()
    ensures Ascending(ids) && Elements(ids) == Sales(old(store.orders), window) && orders == |ids|
    ensures forall i, j :: 0 <= i < j < |ids| ==> ids[i] < ids[j]
    ensures forall id :: id in ids <==>
              && id in window && id in old(store.orders)
              && old(store.orders)[id].status != Pending && old(store.orders)[id].status != Cancelled
    ensures revenue == Revenue(old(store.orders), ids)
    ensures chunks == |Slices(ids, ChunkSize(demoChunkSize))|
    ensures var k := if demoChunkSize.Some? && demoChunkSize.value > 0 then demoChunkSize.value else 50;
            |ids| <= chunks * k < |ids| + k
  {
    ids := SortIds(Sales(store.orders, window));
    SalesListed(store.orders, window, ids);
    SlicesCount(ids, ChunkSize(demoChunkSize));
    assert forall i :: 0 <= i < |ids| ==> ids[i] in Elements(ids);
    orders := |ids|;
    revenue, chunks := SumChunks(store, ids, ChunkSize(demoChunkSize), env);
  }

  method SumChunks(store: Store, ids: seq<nat>, k: nat, env: nat -> seq<Event>) returns (revenue: int, chunks: nat)
    requires store.Valid() && k >= 1
    requires forall i :: 0 <= i < |ids| ==> ids[i] in store.orders
    modifies store
    ensures store.Valid()
    ensures revenue == Revenue(old(store.orders), ids) && chunks == |Slices(ids, k)|
  {
    ghost var before := store.orders;
    revenue, chunks := 0, 0;
    var start := 0;
    assert ids[0..] == ids && ids[..|ids|] == ids && ids[|ids|..] == [];
    while start < |ids|
      invariant store.Valid() && TotalsKept(before, store.orders)
      invariant revenue == Revenue(before, ids[..Upto(start, |ids|)])
      invariant chunks + |Slices(ids[Upto(start, |ids|)..], k)| == |Slices(ids, k)|
      decreases |ids| - start
    {
      LetOthersRun(store, before, env(chunks));
      revenue := AddChunk(store, before, ids, start, Upto(start + k, |ids|), revenue);
      OneSliceMore(ids, start, k);
      chunks := chunks + 1;
      start := start + k;
    }
  }

  /** A missing or zero demo size means the production size. */
  function ChunkSize(demo: Option<nat>): (k: nat)
    ensures k >= 1
  {
    if demo.Some? && demo.value > 0 then demo.value else CHUNK_SIZE
  }

  /** Both tasks report the same orders and the same revenue: the totals, as they are when the tasks start, of the
      orders that count as sales then. */
  method CompareWithNaive(store: Store, window: set<nat>, demoChunkSize: Option<nat>, env: nat -> seq<Event>)
    returns (naiveOrders: nat, naive: int, chunkedOrders: nat, chunked: int, ids: seq<nat>)
    requires store.Valid()
    modifies store
    ensures Ascending(ids) && Elements(ids) == Sales(old(store.orders), window)
    ensures forall id :: id in ids <==>
              && id in window && id in old(store.orders)
              && old(store.orders)[id].status != Pending && old(store.orders)[id].status != Cancelled
    ensures naiveOrders == chunkedOrders == |ids|
    ensures naive == chunked == Revenue(old(store.orders), ids)
  {
    naiveOrders, naive, ids := RunDailySalesNaive(store, window);
    var chunks, again;
    chunkedOrders, chunked, chunks, again := RunDailySalesBatch(store, window, demoChunkSize, env);
    AscendingUnique(ids, again);
  }

  /** A set has one ascending listing. */
  lemma {:induction false} AscendingUnique(a: seq<nat>, b: seq<nat>)
    requires Ascending(a) && Ascending(b) && Elements(a) == Elements(b)
    ensures a == b
  {
    if a == [] {
      NoElements(b);
    } else {
      var n, m := |a| - 1, |b| - 1;
      assert a[n] in Elements(b);
      assert b[m] in Elements(a);
      assert a[n] == b[m];
      assert Elements(a[..n]) == Elements(a) - {a[n]} by { LastApart(a); }
      assert Elements(b[..m]) == Elements(b) - {b[m]} by { LastApart(b); }
      AscendingUnique(a[..n], b[..m]);
      assert a == a[..n] + [a[n]] && b == b[..m] + [b[m]];
    }
  }

  lemma NoElements(a: seq<nat>)
    ensures a != [] ==> Elements(a) != {}
  {
    if a != [] {
      assert a[0] in Elements(a);
    }
  }

  lemma LastApart(a: seq<nat>)
    requires a != [] && Ascending(a)
    ensures Elements(a[..|a| - 1]) == Elements(a) - {a[|a| - 1]}
  {
    var n := |a| - 1;
    assert forall i :: 0 <= i < n ==> a[..n][i] == a[i];
  }

  // ----- abandoned carts -----

  /** The rows not updated since the cutoff. */
  function Stale(carts: map<nat, CartRow>, cutoff: nat): set<nat> {
    set id | id in carts && carts[id].touched < cutoff
  }

  /** The chunk DELETE: removes the rows that still exist and reports how many. */
  method DeleteChunk(store: Store, chunk: seq<nat>) returns (deleted: nat)
    requires store.Valid()
    modifies store`carts
    ensures store.Valid() && deleted == |Elements(chunk) * old(store.carts).Keys|
    ensures store.View() == Perform(old(store.View()), RowsDeleted(Elements(chunk) * old(store.carts).Keys))
  {
    var gone := Elements(chunk) * store.carts.Keys;
    deleted := |gone|;
    store.carts := store.carts - gone;
  }

  /** What has been cleaned after the first n stale ids; `quiet` says that nobody else committed anything. */
  ghost predicate Cleaned(before: Db, now: Db, stale: seq<nat>, n: nat, deleted: nat, quiet: bool)
    requires n <= |stale|
  {
    && Evolves(before, now) && CartsOk(now)
    && (forall id :: id in Elements(stale[..n]) ==> id !in now.carts)
    && deleted <= n
    && (quiet ==> now == before.(carts := before.carts - Elements(stale[..n])) && deleted == n)
  }

  lemma QuietDelete(carts: map<nat, CartRow>, now: map<nat, CartRow>, done: set<nat>, chunk: set<nat>)
    requires now == carts - done && done !! chunk && chunk <= carts.Keys
    ensures chunk * now.Keys == chunk && now - chunk == carts - (done + chunk)
  {}

  lemma DeleteCleans(before: Db, now: Db, stale: seq<nat>, start: nat, end: nat, deleted: nat, quiet: bool)
    requires Ascending(stale) && start <= end <= |stale| && Cleaned(before, now, stale, start, deleted, quiet)
    requires CartsOk(before) && Elements(stale) <= before.carts.Keys
    ensures var gone := Elements(stale[start..end]) * now.carts.Keys;
            Cleaned(before, Perform(now, RowsDeleted(gone)), stale, end, deleted + |gone|, quiet)
  {
    var chunk, done := Elements(stale[start..end]), Elements(stale[..start]);
    var gone := chunk * now.carts.Keys;
    SliceElements(stale, start, end);
    EvolvesStep(now, RowsDeleted(gone));
    EvolvesTransitive(before, now, Perform(now, RowsDeleted(gone)));
    SubsetSize(gone, chunk);
    if quiet {
      QuietDelete(before.carts, now.carts, done, chunk);
    }
  }

  lemma OthersKeepClean(before: Db, now: Db, stale: seq<nat>, n: nat, deleted: nat, quiet: bool, events: seq<Event>)
    requires n <= |stale| && Cleaned(before, now, stale, n, deleted, quiet) && (quiet ==> events == [])
    requires CartsOk(before) && Elements(stale) <= before.carts.Keys
    ensures Cleaned(before, Absorb(now, events), stale, n, deleted, quiet)
  {
    EvolvesAbsorbing(now, events);
    EvolvesTransitive(before, now, Absorb(now, events));
    forall id | id in Elements(stale[..n]) ensures id !in Absorb(now, events).carts {
      var i :| 0 <= i < n && stale[..n][i] == id;
      assert stale[i] in Elements(stale);
      assert id in now.owners;
    }
  }

  /** The tables after a cleanup that nobody interferes with. */
  function Swept(db: Db, cutoff: nat): Db {
    db.(carts := db.carts - Stale(db.carts, cutoff))
  }

  /** cleanup_abandoned_carts: every row stale at the start is gone at the end, whatever others commit before and
      between the chunks; and with nothing in between, exactly the stale rows are removed and counted. */
  method CleanupAbandonedCarts(store: Store, cutoff: nat, k: nat, env: nat -> seq<Event>)
    returns (deleted: nat, chunks: nat)
    requires store.Valid() && k >= 1
    modifies store
    ensures store.Valid()
    ensures forall id :: id in Stale(old(store.carts), cutoff) ==> id !in store.carts
    ensures forall id :: id in old(store.carts) && old(store.carts)[id].touched < cutoff ==> id !in store.carts
    ensures deleted <= |Stale(old(store.carts), cutoff)|
    ensures |Stale(old(store.carts), cutoff)| <= chunks * k < |Stale(old(store.carts), cutoff)| + k
    ensures (forall i :: env(i) == []) ==>
              && store.View() == Swept(old(store.View()), cutoff)
              && (forall id :: id in store.carts <==> id in old(store.carts) && old(store.carts)[id].touched >= cutoff)
              && deleted == |old(store.carts)| - |store.carts|
              && deleted == |Stale(old(store.carts), cutoff)|
  {
    ghost var before := store.View();
    var stale := SortIds(Stale(store.carts, cutoff));
    ghost var quiet := forall i :: env(i) == [];
    deleted, chunks := DeleteChunks(store, stale, k, env, quiet);
    SlicesCount(stale, k);
    assert stale[..|stale|] == stale;
    assert quiet ==> store.View() == Swept(before, cutoff);
    RemovedCount(before.carts, Stale(before.carts, cutoff));
  }

  method CleanChunk(store: Store, ghost before: Db, stale: seq<nat>, start: nat, end: nat, soFar: nat,
                    ghost quiet: bool, events: seq<Event>) returns (deleted: nat)
    requires Ascending(stale) && start <= end <= |stale| && CartsOk(before) && Elements(stale) <= before.carts.Keys
    requires Cleaned(before, store.View(), stale, start, soFar, quiet) && (quiet ==> events == [])
    modifies store
    ensures Cleaned(before, store.View(), stale, end, deleted, quiet)
  {
    OthersKeepClean(before, store.View(), stale, start, soFar, quiet, events);
    store.Interleave(events);
    DeleteCleans(before, store.View(), stale, start, end, soFar, quiet);
    var removed := DeleteChunk(store, stale[start..end]);
    deleted := soFar + removed;
  }

  method DeleteChunks(store: Store, stale: seq<nat>, k: nat, env: nat -> seq<Event>, ghost quiet: bool)
    returns (deleted: nat, chunks: nat)
    requires store.Valid() && k >= 1 && Ascending(stale) && Elements(stale) <= store.carts.Keys
    requires quiet ==> forall i :: env(i) == []
    modifies store
    ensures store.Valid() && Cleaned(old(store.View()), store.View(), stale, |stale|, deleted, quiet)
    ensures chunks == |Slices(stale, k)|
  {
    ghost var before := store.View();
    deleted, chunks := 0, 0;
    var start := 0;
    NothingCleaned(before, stale, k, quiet);
    while start < |stale|
      invariant Cleaned(before, store.View(), stale, Upto(start, |stale|), deleted, quiet)
      invariant chunks + |Slices(stale[Upto(start, |stale|)..], k)| == |Slices(stale, k)|
      decreases |stale| - start
    {
      OneSliceMore(stale, start, k);
      deleted := CleanChunk(store, before, stale, start, Upto(start + k, |stale|), deleted, quiet, env(chunks));
      chunks := chunks + 1;
      start := start + k;
    }
  }

  /** The cleanup at its start and the slices left at its end. */
  lemma NothingCleaned(before: Db, stale: seq<nat>, k: nat, quiet: bool)
    requires CartsOk(before) && k >= 1
    ensures Cleaned(before, before, stale, 0, 0, quiet)
    ensures Slices(stale[0..], k) == Slices(stale, k) && Slices(stale[|stale|..], k) == []
  {
    assert before.carts - Elements(stale[..0]) == before.carts;
    assert stale[0..] == stale && stale[|stale|..] == [];
  }

  /** A slice of an ascending list: its elements are new, and as many as its length. */
  lemma SliceElements(s: seq<nat>, start: nat, end: nat)
    requires Ascending(s) && start <= end <= |s|
    ensures Elements(s[..end]) == Elements(s[..start]) + Elements(s[start..end])
    ensures Elements(s[..start]) !! Elements(s[start..end])
    ensures |Elements(s[start..end])| == end - start
    ensures Elements(s[start..end]) <= Elements(s)
  {
    assert s[..end] == s[..start] + s[start..end];
    ElementsAppend(s[..start], s[start..end]);
    assert s == s[..end] + s[end..];
    ElementsAppend(s[..end], s[end..]);
    assert forall i :: 0 <= i < end - start ==> s[start..end][i] == s[start + i];
    ElementCount(s[start..end]);
  }

  lemma {:induction false} ElementCount(s: seq<nat>)
    requires Ascending(s)
    ensures |Elements(s)| == |s|
  {
    if s != [] {
      LastApart(s);
      ElementCount(s[..|s| - 1]);
      assert s[|s| - 1] in Elements(s);
    }
  }

  // ----- what counts as inactive -----

  /** The time that a transaction stores in the row: an insert or an exact quantity change does, an add does not. */
  function StoredTime(ev: Event, id: nat): Option<nat> {
    if ev.RowAdded? && ev.id == id then Some(ev.row.touched)
    else if ev.RowSet? && ev.id == id then Some(ev.at)
    else None
  }

  /** The time at which a transaction changes the row, in whichever way. */
  function ChangeTime(ev: Event, id: nat): Option<nat> {
    if ev.RowBumped? && ev.id == id then Some(ev.at) else StoredTime(ev, id)
  }

  /** The time of the row's last stored change in a history, or `since` if there was none. */
  function LastStored(history: seq<Event>, id: nat, since: nat): nat {
    if history == [] then since else
      var t := StoredTime(history[|history| - 1], id);
      if t.Some? then t.value else LastStored(history[..|history| - 1], id, since)
  }

  /** The time of the row's last change of any kind. */
  function LastChange(history: seq<Event>, id: nat, since: nat): nat {
    if history == [] then since else
      var t := ChangeTime(history[|history| - 1], id);
      if t.Some? then t.value else LastChange(history[..|history| - 1], id, since)
  }

  /** The clock does not go back from one change of the row to the next. */
  predicate InTimeOrder(history: seq<Event>, id: nat, since: nat) {
    history == [] ||
    (var past, t := history[..|history| - 1], ChangeTime(history[|history| - 1], id);
     InTimeOrder(past, id, since) && (t.Some? ==> LastChange(past, id, since) <= t.value))
  }

  /** What the row says about its last change before the history, if it was there. */
  function TouchedBefore(db: Db, id: nat): nat {
    if id in db.carts then db.carts[id].touched else 0
  }

  /** An optimistic add to the row at the cutoff or later, with no stored change after it. */
  ghost predicate AddedToSince(history: seq<Event>, id: nat, cutoff: nat) {
    exists k :: 0 <= k < |history| && history[k].RowBumped? && history[k].id == id && history[k].at >= cutoff
             && forall m :: k < m < |history| ==> StoredTime(history[m], id).None?
  }

  lemma TouchedStep(db: Db, ev: Event, id: nat)
    requires CartsOk(db) && Accepts(db, ev) && id in Perform(db, ev).carts
    ensures StoredTime(ev, id).None? ==> id in db.carts
    ensures Perform(db, ev).carts[id].touched
            == if StoredTime(ev, id).Some? then StoredTime(ev, id).value else db.carts[id].touched
  {}

  /** The timestamp in a row is that of its last insert or exact quantity change, however often it was added to
      since. */
  lemma {:induction false} TouchedIsLastStored(db: Db, history: seq<Event>, id: nat)
    requires CartsOk(db) && Replay(db, history).Some? && id in Replay(db, history).value.carts
    ensures Replay(db, history).value.carts[id].touched == LastStored(history, id, TouchedBefore(db, id))
  {
    if history != [] {
      var past, ev := history[..|history| - 1], history[|history| - 1];
      EvolvesOverHistory(db, past);
      TouchedStep(Replay(db, past).value, ev, id);
      if StoredTime(ev, id).None? {
        TouchedIsLastStored(db, past, id);
      }
    }
  }

  lemma AddedToMore(history: seq<Event>, ev: Event, id: nat, cutoff: nat)
    ensures AddedToSince(history + [ev], id, cutoff) <==>
              || (ev.RowBumped? && ev.id == id && ev.at >= cutoff)
              || (StoredTime(ev, id).None? && AddedToSince(history, id, cutoff))
  {
    var h := history + [ev];
    assert h[|history|] == ev && forall i :: 0 <= i < |history| ==> h[i] == history[i];
    if StoredTime(ev, id).None? && AddedToSince(history, id, cutoff) {
      var k :| 0 <= k < |history| && history[k].RowBumped? && history[k].id == id && history[k].at >= cutoff
            && forall m :: k < m < |history| ==> StoredTime(history[m], id).None?;
      assert h[k] == history[k] && forall m :: k < m < |h| ==> StoredTime(h[m], id).None?;
    }
    if AddedToSince(h, id, cutoff) && !(ev.RowBumped? && ev.id == id && ev.at >= cutoff) {
      var k :| 0 <= k < |h| && h[k].RowBumped? && h[k].id == id && h[k].at >= cutoff
            && forall m :: k < m < |h| ==> StoredTime(h[m], id).None?;
      assert StoredTime(h[|history|], id).None?;
      assert history[k] == h[k] && forall m :: k < m < |history| ==> StoredTime(history[m], id).None?;
    }
  }

  /** A row is inactive exactly when its last stored change is old and no add came after the cutoff. */
  lemma {:induction false} InactiveExactly(history: seq<Event>, id: nat, since: nat, cutoff: nat)
    requires InTimeOrder(history, id, since)
    ensures LastChange(history, id, since) < cutoff <==>
              LastStored(history, id, since) < cutoff && !AddedToSince(history, id, cutoff)
  {
    if history != [] {
      var past, ev := history[..|history| - 1], history[|history| - 1];
      assert history == past + [ev];
      InactiveExactly(past, id, since, cutoff);
      AddedToMore(past, ev, id, cutoff);
    }
  }

  /** A row counts as stale while it is active exactly when it was added to at the cutoff or later and not set since;
      an inactive row is always stale. */
  lemma StaleIsInactiveExactly(db: Db, history: seq<Event>, id: nat, cutoff: nat)
    requires CartsOk(db) && Replay(db, history).Some? && id in Replay(db, history).value.carts
    requires InTimeOrder(history, id, TouchedBefore(db, id))
    ensures var stale := id in Stale(Replay(db, history).value.carts, cutoff);
            var inactive := LastChange(history, id, TouchedBefore(db, id)) < cutoff;
            && (stale <==> LastStored(history, id, TouchedBefore(db, id)) < cutoff)
            && (stale && !inactive <==> stale && AddedToSince(history, id, cutoff))
            && (inactive ==> stale)
  {
    TouchedIsLastStored(db, history, id);
    InactiveExactly(history, id, TouchedBefore(db, id), cutoff);
  }

  /** "Cleanup only removes inactive rows": every row that the sweep takes away last changed before the cutoff. */
  ghost predicate RemovesOnlyInactive(db: Db, history: seq<Event>, cutoff: nat)
    requires Replay(db, history).Some?
  {
    var now := Replay(db, history).value;
    forall id :: id in now.carts && id !in Swept(now, cutoff).carts ==>
      LastChange(history, id, TouchedBefore(db, id)) < cutoff
  }

  /** Main result: the cleanup removes only inactive rows exactly when no row whose last insert or exact quantity change
      is older than the cutoff was added to since the cutoff. */
  lemma CleanupSparesActiveExactly(db: Db, history: seq<Event>, cutoff: nat)
    requires CartsOk(db) && Replay(db, history).Some?
    requires forall id :: InTimeOrder(history, id, TouchedBefore(db, id))
    ensures RemovesOnlyInactive(db, history, cutoff) <==>
              forall id | id in Replay(db, history).value.carts ::
                LastStored(history, id, TouchedBefore(db, id)) < cutoff ==> !AddedToSince(history, id, cutoff)
  {
    var now := Replay(db, history).value;
    forall id | id in now.carts
      ensures id !in Swept(now, cutoff).carts <==> LastStored(history, id, TouchedBefore(db, id)) < cutoff
      ensures id !in Swept(now, cutoff).carts && LastChange(history, id, TouchedBefore(db, id)) >= cutoff <==>
                LastStored(history, id, TouchedBefore(db, id)) < cutoff && AddedToSince(history, id, cutoff)
    {
      TouchedIsLastStored(db, history, id);
      StaleIsInactiveExactly(db, history, id, cutoff);
    }
  }

  /** It does happen: a row of time 10 that was added to at time 25 goes in a cleanup with cutoff 20. */
  lemma CleanupRemovesActiveRow()
    ensures exists db: Db, history: seq<Event>, cutoff: nat ::
              && CartsOk(db) && Replay(db, history).Some?
              && (forall id :: InTimeOrder(history, id, TouchedBefore(db, id)))
              && !RemovesOnlyInactive(db, history, cutoff)
  {
    var db := Db(map[], map[], map[3 := CartRow(9, 5, 1, 0, 10)], map[3 := 9], map[], [], map[], []);
    var ev := RowBumped(3, 1, 25);
    ReplayStep(db, [], ev);
    assert [] + [ev] == [ev] && [ev][..0] == [];
    assert forall id :: InTimeOrder([], id, TouchedBefore(db, id));
    assert forall id :: InTimeOrder([ev], id, TouchedBefore(db, id));
    var now := Replay(db, [ev]).value;
    assert 3 in now.carts && 3 !in Swept(now, 20).carts && LastChange([ev], 3, TouchedBefore(db, 3)) == 25;
    assert !RemovesOnlyInactive(db, [ev], 20);
  }

  function Nobody(i: nat): seq<Event> {
    []
  }

  const NO_GAPS: Schedule := i => Gap([], [], [])

  lemma {:induction false} NobodyInterferes(db: Db, n: nat)
    ensures AfterAttempts(db, NO_GAPS, n) == db
  {
    if n > 0 {
      NobodyInterferes(db, n - 1);
    }
  }

  /** With the services themselves: whoever adds, at the cutoff or later, to a row last set before the cutoff loses the
      whole row to the cleanup that follows. */
  method AddThenCleanUp(store: Store, user: nat, pid: nat, extra: nat, at: nat, cutoff: nat, k: nat) returns (row: nat)
    requires store.Valid() && k >= 1 && Addable(store.View(), pid, extra) && HasRow(store.carts, user, pid)
    requires at >= cutoff && forall id :: RowAt(store.carts, id, user, pid) ==> store.carts[id].touched < cutoff
    modifies store
    ensures RowAt(old(store.carts), row, user, pid)
    ensures var added := RowBumped(row, extra, at);
            Accepts(old(store.View()), added) && store.View() == Swept(Perform(old(store.View()), added), cutoff)
    ensures !HasRow(store.carts, user, pid)
  {
    row := AddAlone(store, user, pid, extra, at);
    var deleted, chunks := CleanupAbandonedCarts(store, cutoff, k, Nobody);
  }

  /** An add that nobody interferes with goes to the row that is there. */
  method AddAlone(store: Store, user: nat, pid: nat, extra: nat, at: nat) returns (row: nat)
    requires store.Valid() && Addable(store.View(), pid, extra) && HasRow(store.carts, user, pid)
    modifies store
    ensures store.Valid() && RowAt(old(store.carts), row, user, pid)
    ensures var added := RowBumped(row, extra, at);
            Accepts(old(store.View()), added) && store.View() == Perform(old(store.View()), added)
  {
    ghost var before := store.View();
    var r, attempts := store.AddToCart(user, pid, extra, at, NO_GAPS);
    NobodyInterferes(before, attempts - 1);
    NobodyInterferes(before, attempts);
    assert AtStart(before, NO_GAPS, attempts - 1) == before && AtRead(before, NO_GAPS, attempts - 1) == before;
    row := r.id;
  }
}
