/** Over whole runs of the cache protocol: exactly how long a client holds the lock it took, what a late owner can
    still do, and exactly when an invalidation keeps older values out of the cache. */
module LockHolder {
  import opened Schema
  import opened CacheLock

  function Last(run: seq<State>): State
    requires run != []
  {
    run[|run| - 1]
  }

  // ----- who holds the lock, and until when -----

  ghost predicate Holds(s: State, c: nat) {
    s.lock.Some? && s.lock.value.token == c
  }

  /** The i-th step of the run is the client's successful SET NX PX. */
  ghost predicate AcquiresAt(cfg: Config, run: seq<State>, i: nat, c: nat) {
    0 < i < |run| && Locks(cfg, run[i - 1], run[i], c) && run[i].clients[c].Checking?
  }

  /** The client took the lock and has not released it: it is in its critical section, or it crashed there. */
  ghost predicate Unreleased(s: State, c: nat) {
    c in s.clients && (Critical(s.clients[c]) || s.clients[c].Crashed?)
  }

  ghost predicate HeldUntil(s: State, c: nat, deadline: nat) {
    && c in s.clients && (Unreleased(s, c) || s.clients[c].Done?)
    && (Unreleased(s, c) ==> (Holds(s, c) <==> s.now < deadline))
    && (Holds(s, c) ==> s.lock.value.expires == deadline)
  }

  lemma ActHeldUntil(cfg: Config, s: State, s': State, u: nat, c: nat, deadline: nat)
    requires HeldUntil(s, c, deadline) && Acts(cfg, s, s', u)
    ensures HeldUntil(s', c, deadline)
  {
    assert s'.now == s.now;
    assert s'.clients == s.clients[u := s'.clients[u]];
    if !Books(cfg, s, s', u) {
      assert s'.lock == s.lock;
      assert Critical(s.clients[u]) <==> Critical(s'.clients[u]);
    }
  }

  lemma HeldUntilStep(cfg: Config, s: State, s': State, c: nat, deadline: nat)
    requires HeldUntil(s, c, deadline) && Step(cfg, s, s')
    ensures HeldUntil(s', c, deadline)
  {
    if !Ticks(s, s') && !Invalidates(s, s') {
      var u :| Acts(cfg, s, s', u) || Joins(s, s', u) || Crashes(s, s', u);
      if Acts(cfg, s, s', u) {
        ActHeldUntil(cfg, s, s', u, c, deadline);
      }
    }
  }

  lemma JustAcquired(cfg: Config, s: State, s': State, c: nat)
    requires cfg.lockTtl >= 1 && Locks(cfg, s, s', c) && s'.clients[c].Checking?
    ensures HeldUntil(s', c, s'.now + cfg.lockTtl)
  {}

  lemma {:induction false} RunHeldUntil(cfg: Config, run: seq<State>, i: nat, c: nat)
    requires Run(cfg, run) && AcquiresAt(cfg, run, i, c)
    ensures HeldUntil(Last(run), c, run[i].now + cfg.lockTtl)
  {
    if i == |run| - 1 {
      JustAcquired(cfg, run[i - 1], run[i], c);
    } else {
      var before := run[..|run| - 1];
      assert before[i - 1] == run[i - 1] && before[i] == run[i];
      RunHeldUntil(cfg, before, i, c);
      HeldUntilStep(cfg, Last(before), Last(run), c, run[i].now + cfg.lockTtl);
    }
  }

  /** Main result: a client that took the lock and has not released it, crashed or not, holds it exactly as long as
      less than the lock's time to live has passed since it took it. This is so at its write to the cache, too. */
  lemma HolderExactly(cfg: Config, run: seq<State>, i: nat, c: nat)
    requires Run(cfg, run) && AcquiresAt(cfg, run, i, c) && Unreleased(Last(run), c)
    ensures Holds(Last(run), c) <==> Last(run).now < run[i].now + cfg.lockTtl
  {
    RunHeldUntil(cfg, run, i, c);
  }

  /** Main result: a release in time removes the client's own lock; a release after the time to live, however late,
      changes nothing, so that a successor keeps its lock. */
  lemma ReleaseExactly(cfg: Config, run: seq<State>, s': State, i: nat, c: nat)
    requires Run(cfg, run) && AcquiresAt(cfg, run, i, c) && Releases(Last(run), s', c)
    ensures s'.lock == if Last(run).now < run[i].now + cfg.lockTtl then None else Last(run).lock
    ensures c in Last(run).expired ==> s'.lock == Last(run).lock
  {
    RunHeldUntil(cfg, run, i, c);
    RunOwnership(cfg, run);
  }

  function Unchanging(t: nat): int {
    0
  }

  /** "Only the lock owner writes the cache" is false: an owner that is too slow still writes, while another client
      holds the lock. */
  lemma LateOwnerWrites()
    ensures exists cfg: Config, run: seq<State>, s': State, c: nat :: Run(cfg, run) && Stores(cfg, Last(run), s', c)
              && Last(run).lock.Some? && !Holds(Last(run), c)
  {
    var cfg := Config(10, 1, 5, 1, Unchanging);
    var run := SlowOwner(cfg);
    var s0 := Last(run);
    var s1 := At(s0, 2, Start);
    var s2 := At(s1, 2, Missed);
    var s3 := s2.(now := 1, lock := None, expired := {1});
    var s4 := At(s3, 2, Checking).(lock := Some(Lock(2, 2)));
    assert Joins(s0, s1, 2) && Acts(cfg, s1, s2, 2) && Ticks(s2, s3) && Acts(cfg, s3, s4, 2);
    OneMoreStep(cfg, run, s1);
    OneMoreStep(cfg, run + [s1], s2);
    OneMoreStep(cfg, run + [s1] + [s2], s3);
    OneMoreStep(cfg, run + [s1] + [s2] + [s3], s4);
    var late := At(s4, 1, Releasing(Some(Answer(0, 1, FromDb(0))))).(entry := Some(Entry(0, 0, 0, 1, 11)));
    assert Stores(cfg, s4, late, 1) && !Holds(s4, 1);
  }

  /** An owner whose callback has just read the database. */
  lemma SlowOwner(cfg: Config) returns (run: seq<State>)
    requires cfg.entryTtl >= 1 && cfg.lockTtl >= 1
    ensures Run(cfg, run)
    ensures Last(run) == State(0, None, Some(Lock(1, cfg.lockTtl)), map[1 := Loaded(0, 0, cfg.truth(0))], {1}, {}, 0, 0)
  {
    var s0 := State(0, None, None, map[], {}, {}, 0, 0);
    var s1 := At(s0, 1, Start);
    var s2 := At(s1, 1, Missed);
    var s3 := At(s2, 1, Checking).(lock := Some(Lock(1, cfg.lockTtl)));
    var s4 := At(s3, 1, Rebuilding(0)).(built := {1});
    var s5 := At(s4, 1, Loaded(0, 0, cfg.truth(0)));
    assert Joins(s0, s1, 1) && Acts(cfg, s1, s2, 1) && Acts(cfg, s2, s3, 1);
    assert Acts(cfg, s3, s4, 1) && Acts(cfg, s4, s5, 1);
    run := [s0, s1, s2, s3, s4, s5];
  }

  // ----- invalidation -----

  /** The client has an answer of the database from before the given time, and has not yet written it to the cache. */
  predicate Outdated(pc: Pc, since: nat) {
    pc.Loaded? && pc.loaded < since
  }

  /** What is in the cache was read from the database at the given time or later. */
  ghost predicate EntryFrom(s: State, since: nat) {
    s.entry.Some? ==> s.entry.value.loaded >= since
  }

  ghost predicate NothingOutdated(s: State, since: nat) {
    && s.now >= since && EntryFrom(s, since)
    && forall c :: c in s.clients ==> !Outdated(s.clients[c], since)
  }

  lemma ActNothingOutdated(cfg: Config, s: State, s': State, c: nat, since: nat)
    requires NothingOutdated(s, since) && Acts(cfg, s, s', c)
    ensures NothingOutdated(s', since)
  {
    assert !Outdated(s.clients[c], since);
  }

  lemma NothingOutdatedStep(cfg: Config, s: State, s': State, since: nat)
    requires NothingOutdated(s, since) && Step(cfg, s, s')
    ensures NothingOutdated(s', since)
  {
    if !Ticks(s, s') && !Invalidates(s, s') {
      var c :| Acts(cfg, s, s', c) || Joins(s, s', c) || Crashes(s, s', c);
      if Acts(cfg, s, s', c) {
        ActNothingOutdated(cfg, s, s', c, since);
      }
    }
  }

  lemma {:induction false} NothingOutdatedLater(cfg: Config, run: seq<State>, k: nat, since: nat)
    requires Run(cfg, run) && k < |run| && NothingOutdated(run[k], since)
    ensures NothingOutdated(Last(run), since)
  {
    if k < |run| - 1 {
      NothingOutdatedLater(cfg, run[..|run| - 1], k, since);
      NothingOutdatedStep(cfg, run[|run| - 2], run[|run| - 1], since);
    }
  }

  /** However the run goes on, what is in the cache was read at the given time or later. */
  ghost predicate StaysFrom(cfg: Config, run: seq<State>, since: nat) {
    forall more :: Run(cfg, run + more) ==> EntryFrom(Last(run + more), since)
  }

  lemma OneMoreStep(cfg: Config, run: seq<State>, s': State)
    requires Run(cfg, run) && Step(cfg, Last(run), s')
    ensures Run(cfg, run + [s']) && Last(run + [s']) == s'
  {}

  /** The pending write of an outdated client puts its value back. */
  lemma OutdatedComesBack(cfg: Config, run: seq<State>, c: nat, since: nat)
    requires Run(cfg, run) && c in Last(run).clients && Outdated(Last(run).clients[c], since)
    ensures !StaysFrom(cfg, run, since)
  {
    var s := Last(run);
    var Loaded(begun, loaded, value) := s.clients[c];
    var s' := At(s, c, Releasing(Some(Answer(value, s.now, FromDb(begun))))).(
                entry := Some(Entry(value, begun, loaded, s.now, s.now + cfg.entryTtl)));
    assert Acts(cfg, s, s', c) by { assert Stores(cfg, s, s', c); }
    OneMoreStep(cfg, run, s');
    assert !EntryFrom(Last(run + [s']), since);
  }

  /** Main result: an invalidation keeps everything older out of the cache for good exactly when, at that moment, no
      client is between its callback's read of the database and its write to the cache. */
  lemma InvalidationLastsExactly(cfg: Config, run: seq<State>)
    requires Run(cfg, run) && |run| >= 2 && Invalidates(run[|run| - 2], Last(run))
    ensures var s := Last(run);
            StaysFrom(cfg, run, s.now) <==> forall c :: c in s.clients ==> !Outdated(s.clients[c], s.now)
  {
    var s := Last(run);
    if c :| c in s.clients && Outdated(s.clients[c], s.now) {
      OutdatedComesBack(cfg, run, c, s.now);
    } else {
      forall more | Run(cfg, run + more) ensures EntryFrom(Last(run + more), s.now) {
        assert (run + more)[|run| - 1] == s;
        NothingOutdatedLater(cfg, run + more, |run| - 1, s.now);
      }
    }
  }

  /** The database does not change any more. */
  ghost predicate Settled(cfg: Config, since: nat) {
    forall t: nat :: t >= since ==> cfg.truth(t) == cfg.truth(since)
  }

  /** Then, as long as the database does not change after the invalidation, cache and database agree. */
  lemma InvalidatedCacheAgrees(cfg: Config, run: seq<State>, k: nat)
    requires Run(cfg, run) && 0 < k < |run| && Invalidates(run[k - 1], run[k])
    requires forall c :: c in run[k].clients ==> !Outdated(run[k].clients[c], run[k].now)
    requires Settled(cfg, run[k].now)
    ensures Last(run).entry.Some? ==> Last(run).entry.value.value == cfg.truth(Last(run).now)
  {
    NothingOutdatedLater(cfg, run, k, run[k].now);
    RunProvenance(cfg, run);
  }

  /** A database that changes once, at time 1. */
  function Changing(t: nat): int {
    if t == 0 then 7 else 8
  }

  /** Without that condition they need not: an invalidation during a rebuild is overwritten by the older value, though
      the database had changed before the invalidation and does not change any more. */
  lemma OlderValueComesBack()
    ensures exists cfg: Config, run: seq<State>, k: nat ::
              && Run(cfg, run) && 0 < k < |run| && Invalidates(run[k - 1], run[k])
              && Settled(cfg, run[k].now)
              && Last(run).entry.Some? && Last(run).entry.value.value != cfg.truth(Last(run).now)
  {
    var cfg := Config(10, 5, 5, 1, Changing);
    var run := SlowOwner(cfg);
    var s0 := Last(run);
    var s1 := s0.(now := 1);
    var s2 := s1;
    var s3 := At(s2, 1, Releasing(Some(Answer(7, 1, FromDb(0))))).(entry := Some(Entry(7, 0, 0, 1, 11)));
    assert Ticks(s0, s1) && Invalidates(s1, s2) && Acts(cfg, s2, s3, 1);
    OneMoreStep(cfg, run, s1);
    OneMoreStep(cfg, run + [s1], s2);
    OneMoreStep(cfg, run + [s1] + [s2], s3);
    var whole, k := run + [s1] + [s2] + [s3], |run| + 1;
    assert whole[k - 1] == s1 && whole[k] == s2 && Settled(cfg, 1);
    assert Last(whole).entry.value.value != cfg.truth(Last(whole).now);
  }
}
