/** Who changes the cache, and what a client finds at each of its steps, over every run of the cache protocol. */
module CacheWrites {
  import opened Schema
  import opened CacheLock
  import opened LockHolder

  // ----- only owners write -----

  ghost predicate OwnersAcquired(cfg: Config, run: seq<State>, j: nat)
    requires j < |run|
  {
    forall c :: c in run[j].clients && Critical(run[j].clients[c]) ==>
      exists i :: 0 <= i <= j && AcquiresAt(cfg, run, i, c)
  }

  /** A client gets on only by a step of its own. */
  lemma OwnStepMoves(cfg: Config, s: State, s': State, c: nat)
    requires Step(cfg, s, s') && c in s.clients && c in s'.clients && s'.clients[c] != s.clients[c]
    requires !s'.clients[c].Crashed?
    ensures Acts(cfg, s, s', c)
  {
    var u :| Acts(cfg, s, s', u) || Joins(s, s', u) || Crashes(s, s', u);
    ActsMoveOne(cfg, s, s', u);
  }

  lemma NewcomersStart(cfg: Config, s: State, s': State, c: nat)
    requires Step(cfg, s, s') && c !in s.clients && c in s'.clients
    ensures s'.clients[c].Start?
  {
    var u :| Acts(cfg, s, s', u) || Joins(s, s', u) || Crashes(s, s', u);
    ActsMoveOne(cfg, s, s', u);
  }

  lemma ActsIntoCritical(cfg: Config, s: State, s': State, c: nat)
    requires Acts(cfg, s, s', c) && Critical(s'.clients[c]) && !Critical(s.clients[c])
    ensures Locks(cfg, s, s', c) && s'.clients[c].Checking?
  {}

  lemma EntersByAcquiring(cfg: Config, s: State, s': State, c: nat)
    requires Step(cfg, s, s') && c in s'.clients && Critical(s'.clients[c])
    ensures c in s.clients && (Critical(s.clients[c]) || (Locks(cfg, s, s', c) && s'.clients[c].Checking?))
  {
    if c !in s.clients {
      NewcomersStart(cfg, s, s', c);
    } else if !Critical(s.clients[c]) {
      OwnStepMoves(cfg, s, s', c);
      ActsIntoCritical(cfg, s, s', c);
    }
  }

  lemma {:induction false} RunOwnersAcquired(cfg: Config, run: seq<State>, j: nat)
    requires Run(cfg, run) && j < |run|
    ensures OwnersAcquired(cfg, run, j)
  {
    if j > 0 {
      RunOwnersAcquired(cfg, run, j - 1);
      assert Step(cfg, run[j - 1], run[j]);
      forall c | c in run[j].clients && Critical(run[j].clients[c])
        ensures exists i :: 0 <= i <= j && AcquiresAt(cfg, run, i, c)
      {
        EntersByAcquiring(cfg, run[j - 1], run[j], c);
        if Critical(run[j - 1].clients[c]) {
          var i :| 0 <= i <= j - 1 && AcquiresAt(cfg, run, i, c);
          assert 0 <= i <= j && AcquiresAt(cfg, run, i, c);
        } else {
          assert AcquiresAt(cfg, run, j, c);
        }
      }
    }
  }

  /** A step that puts something new into the cache is the write of a client whose callback has returned. */
  lemma WriterIsLoaded(cfg: Config, s: State, s': State) returns (c: nat)
    requires Step(cfg, s, s') && s'.entry != s.entry && s'.entry.Some?
    ensures c in s.clients && s.clients[c].Loaded?
    ensures var x := s.clients[c]; s'.entry == Some(Entry(x.value, x.begun, x.loaded, s.now, s.now + cfg.entryTtl))
    ensures s' == s.(clients := s'.clients, entry := s'.entry)
  {
    c :| Acts(cfg, s, s', c) || Joins(s, s', c) || Crashes(s, s', c);
  }

  /** Main result: whatever is put into the cache is put there by a client that took the lock in an earlier step of its
      own, by SET NX PX on a free lock, and it is what that client's callback read from the database. A client that
      found the lock taken, waited or fell back never writes. */
  lemma OnlyOwnersWrite(cfg: Config, run: seq<State>, j: nat) returns (c: nat, i: nat)
    requires Run(cfg, run) && 0 < j < |run| && run[j].entry != run[j - 1].entry && run[j].entry.Some?
    ensures 0 < i < j && c in run[i - 1].clients && run[i - 1].clients[c] == Missed && run[i - 1].lock.None?
    ensures run[i].lock == Some(Lock(c, run[i].now + cfg.lockTtl))
    ensures c in run[i].clients && run[i].clients[c] == Checking
    ensures c in run[j - 1].clients && run[j - 1].clients[c].Loaded?
    ensures var x, e := run[j - 1].clients[c], run[j].entry.value;
            e.value == x.value == cfg.truth(x.loaded) && e.loaded == x.loaded && e.expires == run[j].now + cfg.entryTtl
  {
    assert Step(cfg, run[j - 1], run[j]);
    c := WriterIsLoaded(cfg, run[j - 1], run[j]);
    i := WhenAcquired(cfg, run, j - 1, c);
    AcquiredThen(cfg, run, i, c);
    LoadedIsTrue(cfg, run, j - 1, c);
  }

  lemma WhenAcquired(cfg: Config, run: seq<State>, j: nat, c: nat) returns (i: nat)
    requires Run(cfg, run) && j < |run| && c in run[j].clients && Critical(run[j].clients[c])
    ensures 0 < i <= j && AcquiresAt(cfg, run, i, c)
  {
    RunOwnersAcquired(cfg, run, j);
    i :| 0 <= i <= j && AcquiresAt(cfg, run, i, c);
  }

  lemma AcquiredThen(cfg: Config, run: seq<State>, i: nat, c: nat)
    requires AcquiresAt(cfg, run, i, c)
    ensures c in run[i - 1].clients && run[i - 1].clients[c] == Missed && run[i - 1].lock.None?
    ensures run[i].lock == Some(Lock(c, run[i].now + cfg.lockTtl))
    ensures c in run[i].clients && run[i].clients[c] == Checking
  {}

  lemma LoadedIsTrue(cfg: Config, run: seq<State>, j: nat, c: nat)
    requires Run(cfg, run) && j < |run| && c in run[j].clients && run[j].clients[c].Loaded?
    ensures cfg.truth(run[j].clients[c].loaded) == run[j].clients[c].value
  {
    MomentProvenance(cfg, run, j);
    assert ClientOk(cfg, run[j].now, run[j].clients[c]);
  }

  lemma MomentProvenance(cfg: Config, run: seq<State>, j: nat)
    requires Run(cfg, run) && j < |run|
    ensures Provenance(cfg, run[j])
  {
    RunProvenance(cfg, run[..j + 1]);
  }

  /** Main result: an entry leaves the cache only by an invalidation or when its time to live is over, and is never
      there any longer. */
  lemma EntryLastsItsTime(cfg: Config, run: seq<State>, j: nat)
    requires Run(cfg, run) && 0 < j < |run|
    ensures run[j].entry.Some? ==> run[j].now < run[j].entry.value.stored + cfg.entryTtl
    ensures run[j - 1].entry.Some? && run[j].entry.None?
            && run[j].now < run[j - 1].entry.value.stored + cfg.entryTtl ==>
              run[j] == run[j - 1].(entry := None, lost := run[j - 1].lost + 1)
  {
    MomentProvenance(cfg, run, j - 1);
    MomentProvenance(cfg, run, j);
    assert Step(cfg, run[j - 1], run[j]);
  }

  // ----- what a client finds -----

  /** Whenever a client gets on, it has looked at the cache, the lock and the clock as they are: it misses only when
      there is no entry, waits only when the lock is taken, sleeps only before its deadline, falls back only after it,
      and a hit is the entry that is there. */
  lemma ClientsLook(cfg: Config, s: State, s': State, c: nat)
    requires Step(cfg, s, s') && c in s.clients && c in s'.clients && s'.clients[c] != s.clients[c]
    requires !s'.clients[c].Crashed?
    ensures s'.now == s.now
    ensures var hit := if s.entry.Some? then Some(Answer(s.entry.value.value, s.now, FromCache(s.entry.value)))
                       else None;
            var x, x' := s.clients[c], s'.clients[c];
            && (x.Start? ==> x' == if hit.Some? then Done(hit) else Missed)
            && (x.Missed? ==> x' == if s.lock.None? then Checking else Waiting(s.now, 0))
            && (x.Checking? ==> x' == if hit.Some? then Releasing(hit) else Rebuilding(s.now))
            && (x.Rebuilding? ==> x' == Loaded(x.begun, s.now, cfg.truth(s.now)) || x' == Releasing(None))
            && (x.Loaded? ==> x' == Releasing(Some(Answer(x.value, s.now, FromDb(x.begun)))))
            && (x.Releasing? ==> x' == Done(x.answer))
            && (x.Waiting? ==>
                  x' == if s.now < x.started + cfg.waitTimeout
                        then Sleeping(x.started, x.attempt + 1, s.now + cfg.retryDelay * (x.attempt + 1))
                        else FallingBack(s.now))
            && (x.Sleeping? ==> s.now >= x.wake && x' == if hit.Some? then Done(hit) else Waiting(x.started, x.attempt))
            && (x.FallingBack? ==>
                  x' == Done(None) || x' == Done(Some(Answer(cfg.truth(s.now), s.now, FromDb(x.begun)))))
            && !x.Done? && !x.Crashed?
  {
    OwnStepMoves(cfg, s, s', c);
  }
}
