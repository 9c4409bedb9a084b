/** The cache helper itself, command by command, against a Redis that every other client uses at the same time.
    Each of its commands is a step of the timed protocol, so whatever that protocol guarantees holds of what
    the helper returns. */
module CacheClient {
  import opened Schema
  import opened CacheLock

  datatype Status = Hit | HitAfterDoubleCheck | MissLockOwnerRebuild | WaitedThenHitNoDb | MissFallbackDb

  datatype Metadata = Metadata(
    cacheHit: bool, lockAcquired: bool, dbQueryExecuted: bool, servedFromCache: bool, servedAfterWait: bool,
    fallbackUsed: bool, status: Status, waitedMs: nat)

  /** What the helper returns; `attempts` counts the iterations of its wait loop. */
  datatype Reply = Served(answer: Answer, meta: Metadata, attempts: nat) | Raised

  /** A step somebody else would like to take; it is taken if it is one of theirs to take. */
  datatype Proposal = Proposal(who: nat, next: State)

  const MISSED := Metadata(false, false, false, false, false, false, MissFallbackDb, 0)

  const DEFAULT_WAIT_MS := 2000
  const DEFAULT_DELAY_MS := 50

  /** Nothing happens between the client's commands, and its sleeps take time. */
  ghost predicate Undisturbed(cfg: Config, env: nat -> seq<Proposal>) {
    cfg.retryDelay >= 1 && forall i :: env(i) == []
  }

  /** Nobody else does anything; time passes only while the client sleeps. */
  ghost predicate Quiet(env: nat -> seq<Proposal>) {
    forall i :: env(i) == []
  }

  /** A step of another client, an invalidation, or time passing. */
  predicate Elsewhere(cfg: Config, s: State, p: Proposal, me: nat) {
    || (p.who != me && (Acts(cfg, s, p.next, p.who) || Joins(s, p.next, p.who) || Crashes(s, p.next, p.who)))
    || Invalidates(s, p.next) || Ticks(s, p.next)
  }

  /** Others can neither move a client nor make it a rebuilder, nor turn back the clock. */
  ghost predicate Untouched(s: State, s': State, me: nat) {
    && s'.now >= s.now && (me in s'.clients <==> me in s.clients)
    && (me in s.clients ==> s'.clients[me] == s.clients[me])
    && (me in s'.built <==> me in s.built)
  }

  lemma ElsewhereLeavesAlone(cfg: Config, s: State, p: Proposal, me: nat)
    requires Elsewhere(cfg, s, p, me)
    ensures Untouched(s, p.next, me) && Step(cfg, s, p.next)
  {}

  lemma OneMover(clients: map<nat, Pc>, clients': map<nat, Pc>, u: nat, who: nat)
    requires u in clients' && clients' == clients[u := clients'[u]] && clients' != clients
    requires forall c :: c in clients' && c != who ==> c in clients && clients'[c] == clients[c]
    ensures u == who
  {}

  /** An action always moves its client on; only a crashed client can crash again. */
  lemma ActionsMoveOn(cfg: Config, s: State, s': State, u: nat)
    requires Acts(cfg, s, s', u) || Joins(s, s', u) || (Crashes(s, s', u) && s' != s)
    ensures s'.clients != s.clients
  {
    if Acts(cfg, s, s', u) {
      assert s'.clients[u] != s.clients[u];
    }
  }

  /** Between two commands of a client, anything that the protocol lets others and the environment do may happen. */
  lemma OthersMayDoAnything(cfg: Config, s: State, p: Proposal, me: nat)
    requires Step(cfg, s, p.next) && p.next != s && p.who != me
    requires forall c :: c in p.next.clients && c != p.who ==> c in s.clients && p.next.clients[c] == s.clients[c]
    ensures Elsewhere(cfg, s, p, me)
  {
    if !Invalidates(s, p.next) && !Ticks(s, p.next) {
      var u :| Acts(cfg, s, p.next, u) || Joins(s, p.next, u) || Crashes(s, p.next, u);
      ActsMoveOne(cfg, s, p.next, u);
      ActionsMoveOn(cfg, s, p.next, u);
      OneMover(s.clients, p.next.clients, u, p.who);
    }
  }

  class Redis {
    const cfg: Config
    var s: State
    ghost var run: seq<State>

    /** The commands executed so far make up a run of the protocol that ends in the present state. */
    ghost predicate Valid()
      reads this
    {
      Run(cfg, run) && run[|run| - 1] == s
    }

    constructor (config: Config)
      requires config.entryTtl >= 1 && config.lockTtl >= 1
      ensures Valid() && cfg == config
    {
      cfg := config;
      s := State(0, None, None, map[], {}, {}, 0, 0);
      run := [State(0, None, None, map[], {}, {}, 0, 0)];
    }

    /** One atomic command. */
    method Become(next: State)
      requires Valid() && Step(cfg, s, next)
      modifies this
      ensures Valid() && s == next && run == old(run) + [next]
    {
      s := next;
      run := run + [next];
    }

    method Interleave(me: nat, proposals: seq<Proposal>)
      requires Valid()
      modifies this
      ensures Valid() && old(run) <= run && Untouched(old(s), s, me)
      ensures proposals == [] ==> s == old(s)
    {
      for i := 0 to |proposals|
        invariant Valid() && old(run) <= run && Untouched(old(s), s, me)
        invariant proposals == [] ==> s == old(s)
      {
        if Elsewhere(cfg, s, proposals[i], me) {
          ElsewhereLeavesAlone(cfg, s, proposals[i], me);
          Become(proposals[i].next);
        }
      }
    }

    /** SET key token NX PX ttl: succeeds iff no unexpired lock is there. */
    method AcquireDistributedLock(me: nat) returns (acquired: bool)
      requires Valid() && me in s.clients && s.clients[me].Missed?
      modifies this
      ensures Valid() && run == old(run) + [s]
      ensures acquired <==> old(s).lock.None?
      ensures s == At(old(s), me, if acquired then Checking else Waiting(old(s).now, 0)).(
                     lock := if acquired then Some(Lock(me, old(s).now + cfg.lockTtl)) else old(s).lock)
    {
      acquired := s.lock.None?;
      var next := At(s, me, if acquired then Checking else Waiting(s.now, 0)).(
                    lock := if acquired then Some(Lock(me, s.now + cfg.lockTtl)) else s.lock);
      assert Acts(cfg, s, next, me) by { assert Locks(cfg, s, next, me); }
      Become(next);
    }

    /** Compare-and-delete: whatever lock is there afterwards is not this client's, and another's lock is untouched. */
    method ReleaseDistributedLock(me: nat) returns (released: bool)
      requires Valid() && me in s.clients && s.clients[me].Releasing?
      modifies this
      ensures Valid() && run == old(run) + [s]
      ensures released <==> old(s).lock.Some? && old(s).lock.value.token == me
      ensures s == At(old(s), me, Done(old(s).clients[me].answer)).(lock := if released then None else old(s).lock)
    {
      released := s.lock.Some? && s.lock.value.token == me;
      var next := At(s, me, Done(s.clients[me].answer)).(lock := if released then None else s.lock);
      assert Acts(cfg, s, next, me) by { assert Releases(s, next, me); }
      Become(next);
    }

    /** get_or_set_cache_with_distributed_lock, with others' commands between any two of its own. Its run is a run
        of the protocol; it returns what the protocol's client is done with; the metadata tells how; an exception is
        the callback's; and afterwards it holds no lock. */
    method GetOrSetCacheWithDistributedLock(me: nat, env: nat -> seq<Proposal>, fails: bool) returns (r: Reply)
      requires Valid() && me !in s.clients
      modifies this
      ensures Valid() && old(run) <= run && me in s.clients
      ensures s.clients[me] == Done(if r.Served? then Some(r.answer) else None)
      ensures s.lock.Some? ==> s.lock.value.token != me
      ensures r.Raised? ==> fails
      ensures r.Served? ==> Told(cfg, r) && RecentlyTrue(cfg, r.answer)
      ensures r.Served? ==> (me in s.built <==> r.meta.status == MissLockOwnerRebuild)
      ensures r.Served? && r.meta.fallbackUsed && Undisturbed(cfg, env) ==>
                r.meta.waitedMs == cfg.retryDelay * Tri(r.attempts)
      ensures Quiet(env) && old(s).entry.Some? ==>
                && r.Served? && r.meta.status == Hit && r.answer.value == old(s).entry.value.value
                && s.entry == old(s).entry && s.lock == old(s).lock && s.now == old(s).now
      ensures Quiet(env) && old(s).entry.None? && old(s).lock.None? ==>
                && s.lock.None? && s.now == old(s).now
                && (fails ==> r.Raised? && s.entry.None?)
                && (!fails ==>
                      && r.Served? && r.meta.status == MissLockOwnerRebuild && r.answer.value == cfg.truth(old(s).now)
                      && s.entry.Some? && s.entry.value.value == r.answer.value
                      && s.entry.value.expires == old(s).now + cfg.entryTtl)
      ensures Quiet(env) && old(s).entry.None? && old(s).lock.Some? ==>
                && s.entry.None? && s.now >= old(s).now + cfg.waitTimeout
                && (fails ==> r.Raised?)
                && (!fails ==> r.Served? && r.meta.status == MissFallbackDb && r.answer.value == cfg.truth(s.now))
    {
      r := Serve(me, env, fails);
      NoLockKept(cfg, run, me);
      if r.Served? {
        AnswerIsRecent(cfg, run, me, r.answer);
      }
    }

    /** What the helper does when nobody else does anything: a hit; a rebuild, if the lock is free; else a wait to the
        end of the budget and the fallback. */
    ghost predicate ServedAlone(before: State, now: State, r: Reply, fails: bool) {
      if before.entry.Some? then
        && r.Served? && r.meta.status == Hit && r.answer.value == before.entry.value.value
        && now.entry == before.entry && now.lock == before.lock && now.now == before.now
      else if before.lock.None? then
        now.lock.None? && now.now == before.now && RebuiltAlone(before, now, r, fails)
      else
        now.entry.None? && now.now >= before.now + cfg.waitTimeout && WaitedAlone(now, r, fails)
    }

    ghost predicate RebuiltAlone(before: State, now: State, r: Reply, fails: bool) {
      if fails then r.Raised? && now.entry.None?
      else
        && r.Served? && r.meta.status == MissLockOwnerRebuild && r.answer.value == cfg.truth(before.now)
        && now.entry.Some? && now.entry.value.value == r.answer.value
        && now.entry.value.expires == before.now + cfg.entryTtl
    }

    ghost predicate WaitedAlone(now: State, r: Reply, fails: bool) {
      if fails then r.Raised? else r.Served? && r.meta.status == MissFallbackDb && r.answer.value == cfg.truth(now.now)
    }

    /** The helper's three ways: a hit, a rebuild under the lock, or a wait. */
    method Serve(me: nat, env: nat -> seq<Proposal>, fails: bool) returns (r: Reply)
      requires Valid() && me !in s.clients
      modifies this
      ensures Valid() && old(run) <= run && me in s.clients
      ensures s.clients[me] == Done(if r.Served? then Some(r.answer) else None)
      ensures r.Raised? ==> fails
      ensures r.Served? ==> Told(cfg, r) && (me in s.built <==> r.meta.status == MissLockOwnerRebuild)
      ensures r.Served? && r.meta.fallbackUsed && Undisturbed(cfg, env) ==>
                r.meta.waitedMs == cfg.retryDelay * Tri(r.attempts)
      ensures Quiet(env) ==> ServedAlone(old(s), s, r, fails)
    {
      var cached := ReadCache(me, env(0));
      if cached.Some? {
        r := Served(cached.value, MISSED.(cacheHit := true, servedFromCache := true, status := Hit), 0);
      } else {
        Interleave(me, env(1));
        var acquired := AcquireDistributedLock(me);
        if acquired {
          r := Rebuild(me, env, fails);
        } else {
          r := WaitForOwner(me, env, fails);
        }
      }
    }

    /** A new client's first GET. */
    method ReadCache(me: nat, others: seq<Proposal>) returns (cached: Option<Answer>)
      requires Valid() && me !in s.clients
      modifies this
      ensures Valid() && old(run) <= run && me in s.clients && me !in s.built
      ensures s.clients[me] == if cached.Some? then Done(cached) else Missed
      ensures cached.Some? ==> cached.value.source.FromCache?
      ensures others == [] ==>
                && s.now == old(s).now && s.entry == old(s).entry && s.lock == old(s).lock
                && (cached.Some? <==> old(s).entry.Some?)
                && (cached.Some? ==> cached.value.value == old(s).entry.value.value)
    {
      NewcomerIsNew(me);
      Become(At(s, me, Start));
      Interleave(me, others);
      cached := if s.entry.Some? then Some(CacheLock.Hit(s)) else None;
      Command(me, At(s, me, if cached.Some? then Done(cached) else Missed));
    }

    lemma NewcomerIsNew(me: nat)
      requires Valid() && me !in s.clients
      ensures me !in s.built && Step(cfg, s, At(s, me, Start))
    {
      RunOwnership(cfg, run);
      assert Joins(s, At(s, me, Start), me);
    }

    /** The lock owner's part: double check, rebuild, write the cache, and release in every case. */
    method Rebuild(me: nat, env: nat -> seq<Proposal>, fails: bool) returns (r: Reply)
      requires Valid() && me in s.clients && s.clients[me] == Checking && me !in s.built
      modifies this
      ensures Valid() && old(run) <= run && me in s.clients
      ensures s.clients[me] == Done(if r.Served? then Some(r.answer) else None)
      ensures r.Raised? ==> fails
      ensures r.Served? ==> Told(cfg, r) && (me in s.built <==> r.meta.status == MissLockOwnerRebuild)
      ensures r.Served? ==> r.meta.lockAcquired
      ensures Quiet(env) && old(s).entry.None? ==> s.now == old(s).now && RebuiltAlone(old(s), s, r, fails)
      ensures Quiet(env) && old(s).lock.Some? && old(s).lock.value.token == me ==> s.lock.None?
    {
      Interleave(me, env(2));
      var cached := s.entry;
      if cached.Some? {
        r := Served(CacheLock.Hit(s), MISSED.(lockAcquired := true, cacheHit := true, servedFromCache := true,
                                              status := HitAfterDoubleCheck), 0);
        Command(me, At(s, me, Releasing(Some(CacheLock.Hit(s)))));
      } else {
        Command(me, At(s, me, Rebuilding(s.now)).(built := s.built + {me}));
        Interleave(me, env(3));
        if fails {
          r := Raised;
          Command(me, At(s, me, Releasing(None)).(raised := s.raised + 1));
        } else {
          r := WriteCache(me, env);
        }
      }
      Interleave(me, env(5));
      var _ := ReleaseDistributedLock(me);
    }

    /** The callback returned: its value goes to the cache and to the caller. */
    method WriteCache(me: nat, env: nat -> seq<Proposal>) returns (r: Reply)
      requires Valid() && me in s.clients && s.clients[me].Rebuilding? && me in s.built
      modifies this
      ensures Valid() && old(run) <= run && me in s.clients && me in s.built
      ensures r.Served? && s.clients[me] == Releasing(Some(r.answer)) && Told(cfg, r)
      ensures r.meta.status == MissLockOwnerRebuild && r.meta.lockAcquired
      ensures Quiet(env) ==> s.now == old(s).now && s.lock == old(s).lock && RebuiltAlone(old(s), s, r, false)
    {
      var begun, loaded, data := s.clients[me].begun, s.now, cfg.truth(s.now);
      Command(me, At(s, me, Loaded(begun, loaded, data)));
      Interleave(me, env(4));
      var answer := Answer(data, s.now, FromDb(begun));
      var entry := Entry(data, begun, loaded, s.now, s.now + cfg.entryTtl);
      Command(me, At(s, me, Releasing(Some(answer))).(entry := Some(entry)));
      r := Served(answer, MISSED.(lockAcquired := true, dbQueryExecuted := true, status := MissLockOwnerRebuild), 0);
    }

    /** One atomic command of this client. */
    method Command(me: nat, next: State)
      requires Valid() && Acts(cfg, s, next, me)
      modifies this
      ensures Valid() && s == next && run == old(run) + [next]
    {
      Become(next);
    }

    /** Waiting for the owner, and the fallback. It ends because every sleep takes at least its requested time, and
        some. */
    method WaitForOwner(me: nat, env: nat -> seq<Proposal>, fails: bool) returns (r: Reply)
      requires Valid() && me in s.clients && s.clients[me] == Waiting(s.now, 0) && me !in s.built
      modifies this
      ensures Valid() && old(run) <= run && me in s.clients && me !in s.built
      ensures s.clients[me] == Done(if r.Served? then Some(r.answer) else None)
      ensures r.Raised? ==> fails
      ensures r.Served? ==> Told(cfg, r) && !r.meta.lockAcquired && (r.meta.fallbackUsed || r.meta.servedAfterWait)
      ensures r.Served? && r.meta.fallbackUsed && Undisturbed(cfg, env) ==>
                r.meta.waitedMs == cfg.retryDelay * Tri(r.attempts)
      ensures Quiet(env) ==> s.entry == old(s).entry || s.entry.None?
      ensures Quiet(env) && old(s).entry.None? ==>
                s.now >= old(s).now + cfg.waitTimeout && WaitedAlone(s, r, fails)
    {
      var started := s.now;
      var cached, attempt := WaitLoop(me, env);
      if cached.Some? {
        r := WaitedThenHit(cached.value, s.now - started, attempt);
        WaitTold(cfg, r);
      } else {
        r := FallBack(me, started, attempt, env, fails);
      }
    }

    /** The wait loop: it ends with a hit after a sleep, or when the budget is used up. */
    method WaitLoop(me: nat, env: nat -> seq<Proposal>) returns (cached: Option<Answer>, attempt: nat)
      requires Valid() && me in s.clients && s.clients[me] == Waiting(s.now, 0) && me !in s.built
      modifies this
      ensures Valid() && old(run) <= run && me in s.clients && me !in s.built
      ensures s.clients[me] == if cached.Some? then Done(cached) else Waiting(old(s).now, attempt)
      ensures cached.Some? ==> cached.value.source.FromCache? && Patient(old(s).now, attempt, s.now)
      ensures cached.None? ==> s.now >= old(s).now + cfg.waitTimeout
      ensures cached.None? && Undisturbed(cfg, env) ==> s.now == old(s).now + cfg.retryDelay * Tri(attempt)
      ensures Quiet(env) ==> s.entry == old(s).entry || s.entry.None?
      ensures Quiet(env) && old(s).entry.None? ==> cached.None?
    {
      var started := s.now;
      var deadline := started + cfg.waitTimeout;
      attempt := 0;
      cached := None;
      Interleave(me, env(2));
      while s.now < deadline
        invariant Valid() && old(run) <= run && me in s.clients && me !in s.built
        invariant s.clients[me] == Waiting(started, attempt) && s.now >= started && cached.None?
        invariant Undisturbed(cfg, env) ==> s.now == started + cfg.retryDelay * Tri(attempt)
        invariant Quiet(env) ==> s.entry == old(s).entry || s.entry.None?
        decreases deadline - s.now
      {
        attempt := attempt + 1;
        cached := WaitOnce(me, started, attempt, env(2 * attempt + 1), env(2 * attempt + 2));
        if cached.Some? {
          return;
        }
      }
    }

    /** One iteration of the wait loop. */
    method WaitOnce(me: nat, started: nat, attempt: nat, asleep: seq<Proposal>, after: seq<Proposal>)
      returns (cached: Option<Answer>)
      requires Valid() && me in s.clients && attempt >= 1 && s.clients[me] == Waiting(started, attempt - 1)
      requires started <= s.now < started + cfg.waitTimeout
      modifies this
      ensures Valid() && old(run) <= run && me in s.clients && (me in s.built <==> me in old(s).built)
      ensures s.clients[me] == if cached.Some? then Done(cached) else Waiting(started, attempt)
      ensures cached.Some? ==> cached.value.source.FromCache?
      ensures s.now > old(s).now && Patient(started, attempt, s.now)
      ensures asleep == after == [] && cfg.retryDelay >= 1
              && old(s).now == started + cfg.retryDelay * Tri(attempt - 1) ==>
                s.now == started + cfg.retryDelay * Tri(attempt)
      ensures asleep == after == [] ==> s.entry == old(s).entry || s.entry.None?
      ensures asleep == after == [] && cached.Some? ==> old(s).entry.Some?
    {
      OneSleepMore(cfg.retryDelay, attempt - 1);
      Sleep(me, started, attempt, asleep);
      cached := Reread(me, started, attempt);
      if cached.None? {
        Interleave(me, after);
      }
    }

    /** The GET after a sleep. */
    method Reread(me: nat, started: nat, attempt: nat) returns (cached: Option<Answer>)
      requires Valid() && me in s.clients && s.clients[me].Sleeping? && s.now >= s.clients[me].wake
      requires s.clients[me].started == started && s.clients[me].attempt == attempt
      modifies this
      ensures Valid() && old(run) <= run && s.now == old(s).now && s.built == old(s).built
      ensures s.clients == old(s).clients[me := if cached.Some? then Done(cached) else Waiting(started, attempt)]
      ensures cached.Some? ==> cached.value.source.FromCache?
      ensures Patient(started, attempt, s.now)
      ensures s.entry == old(s).entry && (cached.Some? <==> old(s).entry.Some?)
      ensures cached.Some? ==> cached.value == Answer(old(s).entry.value.value, s.now, FromCache(old(s).entry.value))
    {
      assert Patient(started, attempt, s.now) by { RunPatience(cfg, run); }
      cached := if s.entry.Some? then Some(CacheLock.Hit(s)) else None;
      Command(me, At(s, me, if cached.Some? then Done(cached) else Waiting(started, attempt)));
    }

    /** The n-th sleep began before the deadline and is over. */
    ghost predicate Patient(started: nat, n: nat, now: nat) {
      started + cfg.retryDelay * Tri(n) <= now && (n > 0 ==> cfg.retryDelay * Tri(n - 1) < cfg.waitTimeout)
    }

    /** time.sleep(delay * attempt), during which others go on; it may take longer, never shorter. A sleep of no time
        still lets the clock move on: a delay of zero makes the source poll until its deadline. */
    method Sleep(me: nat, started: nat, attempt: nat, others: seq<Proposal>)
      requires Valid() && me in s.clients && attempt >= 1 && s.clients[me] == Waiting(started, attempt - 1)
      requires s.now < started + cfg.waitTimeout
      modifies this
      ensures Valid() && old(run) <= run && me in s.clients && (me in s.built <==> me in old(s).built)
      ensures s.clients[me] == Sleeping(started, attempt, old(s).now + cfg.retryDelay * attempt)
      ensures s.now >= old(s).now + cfg.retryDelay * attempt && s.now > old(s).now
      ensures others == [] && cfg.retryDelay >= 1 ==> s.now == old(s).now + cfg.retryDelay * attempt
      ensures others == [] ==> s.entry == old(s).entry || s.entry.None?
    {
      var before := s.now;
      var wake := before + cfg.retryDelay * attempt;
      assert cfg.retryDelay >= 1 ==> wake > before;
      Command(me, At(s, me, Sleeping(started, attempt, wake)));
      Interleave(me, others);
      if s.now < wake || s.now == before {
        PassTime(if wake > before then wake else before + 1);
      }
    }

    method PassTime(now: nat)
      requires Valid() && now > s.now
      modifies this
      ensures Valid() && old(run) <= run && s.now == now && s.clients == old(s).clients && s.built == old(s).built
      ensures s.entry == old(s).entry || s.entry.None?
    {
      var entryGone := s.entry.Some? && s.entry.value.expires <= now;
      var lockGone := s.lock.Some? && s.lock.value.expires <= now;
      Become(s.(now := now, entry := if entryGone then None else s.entry, lost := s.lost + if entryGone then 1 else 0,
                lock := if lockGone then None else s.lock,
                expired := s.expired + if lockGone then {s.lock.value.token} else {}));
    }

    /** The wait budget is used up: ask the database and leave the cache alone. */
    method FallBack(me: nat, started: nat, attempt: nat, env: nat -> seq<Proposal>, fails: bool) returns (r: Reply)
      requires Valid() && me in s.clients && s.clients[me] == Waiting(started, attempt)
      requires s.now >= started + cfg.waitTimeout
      modifies this
      ensures Valid() && old(run) <= run && me in s.clients && (me in s.built <==> me in old(s).built)
      ensures s.clients[me] == Done(if r.Served? then Some(r.answer) else None)
      ensures r.Raised? ==> fails
      ensures r.Served? ==> Told(cfg, r) && r.meta.fallbackUsed && r.attempts == attempt
      ensures r.Served? && Undisturbed(cfg, env) ==> r.meta.waitedMs == old(s).now - started
      ensures Quiet(env) ==> s.entry == old(s).entry && s.now == old(s).now && WaitedAlone(s, r, fails)
    {
      assert Patient(started, attempt, s.now) by { RunPatience(cfg, run); }
      var begun := s.now;
      Command(me, At(s, me, FallingBack(begun)));
      Interleave(me, env(2 * attempt + 3));
      if fails {
        Command(me, At(s, me, Done(None)));
        return Raised;
      }
      var answer := Answer(cfg.truth(s.now), s.now, FromDb(begun));
      Command(me, At(s, me, Done(Some(answer))));
      r := FellBack(answer, s.now - started, attempt);
      FallbackTold(cfg, r, begun - started);
    }
  }

  /** The value was the database's less than one time to live plus one rebuild before it was read, or during the
      client's own callback. */
  ghost predicate RecentlyTrue(cfg: Config, a: Answer) {
    match a.source
    case FromCache(e) =>
      && e.begun <= e.stored
      && exists t: nat :: t <= a.at < t + cfg.entryTtl + (e.stored - e.begun) && cfg.truth(t) == a.value
    case FromDb(begun) => exists t: nat :: begun <= t <= a.at && cfg.truth(t) == a.value
  }

  lemma AnswerIsRecent(cfg: Config, run: seq<State>, me: nat, a: Answer)
    requires Run(cfg, run) && me in run[|run| - 1].clients && run[|run| - 1].clients[me] == Done(Some(a))
    ensures RecentlyTrue(cfg, a)
  {
    BoundedStaleness(cfg, run, me);
  }

  /** A client that is done holds no lock. */
  lemma NoLockKept(cfg: Config, run: seq<State>, me: nat)
    requires Run(cfg, run) && me in run[|run| - 1].clients && run[|run| - 1].clients[me].Done?
    ensures run[|run| - 1].lock.Some? ==> run[|run| - 1].lock.value.token != me
  {
    RunOwnership(cfg, run);
  }

  /** What the metadata says is what happened: the answer's source, the lock, and a wait whose last iteration began
      before the deadline; the fallback comes only after the whole wait budget. */
  ghost predicate Told(cfg: Config, r: Reply)
    requires r.Served?
  {
    var m := r.meta;
    && m.cacheHit == m.servedFromCache == r.answer.source.FromCache? == !m.dbQueryExecuted
    && (m.lockAcquired <==> m.status in {HitAfterDoubleCheck, MissLockOwnerRebuild})
    && (m.servedAfterWait <==> m.status == WaitedThenHitNoDb) && (m.fallbackUsed <==> m.status == MissFallbackDb)
    && (m.cacheHit <==> m.status in {Hit, HitAfterDoubleCheck, WaitedThenHitNoDb})
    && (r.attempts > 0 ==> m.servedAfterWait || m.fallbackUsed)
    && (r.attempts > 0 ==> cfg.retryDelay * Tri(r.attempts - 1) < cfg.waitTimeout)
    && m.waitedMs >= cfg.retryDelay * Tri(r.attempts)
    && (m.fallbackUsed ==> m.waitedMs >= cfg.waitTimeout)
  }

  function WaitedThenHit(answer: Answer, waited: nat, attempts: nat): Reply {
    Served(answer, MISSED.(cacheHit := true, servedFromCache := true, servedAfterWait := true,
                           status := WaitedThenHitNoDb, waitedMs := waited), attempts)
  }

  lemma WaitTold(cfg: Config, r: Reply)
    requires r.Served? && r.answer.source.FromCache? && r == WaitedThenHit(r.answer, r.meta.waitedMs, r.attempts)
    requires r.meta.waitedMs >= cfg.retryDelay * Tri(r.attempts)
    requires r.attempts > 0 ==> cfg.retryDelay * Tri(r.attempts - 1) < cfg.waitTimeout
    ensures Told(cfg, r)
  {}

  function FellBack(answer: Answer, waited: nat, attempts: nat): Reply {
    Served(answer, MISSED.(dbQueryExecuted := true, fallbackUsed := true, waitedMs := waited), attempts)
  }

  /** Having waited the budget and n sleeps before asking the database, the client has waited no less when it
      answers. */
  lemma FallbackTold(cfg: Config, r: Reply, waited: nat)
    requires r.Served? && r.answer.source.FromDb? && r.meta.waitedMs >= waited >= cfg.waitTimeout
    requires r == FellBack(r.answer, r.meta.waitedMs, r.attempts)
    requires waited >= cfg.retryDelay * Tri(r.attempts)
    requires r.attempts > 0 ==> cfg.retryDelay * Tri(r.attempts - 1) < cfg.waitTimeout
    ensures Told(cfg, r)
  {}

  /** Status by status, the metadata is exactly this. */
  lemma MetadataExactly(cfg: Config, r: Reply)
    requires r.Served? && Told(cfg, r)
    ensures match r.meta.status
            case Hit => r.meta == Metadata(true, false, false, true, false, false, Hit, r.meta.waitedMs)
            case HitAfterDoubleCheck =>
              r.meta == Metadata(true, true, false, true, false, false, HitAfterDoubleCheck, r.meta.waitedMs)
            case MissLockOwnerRebuild =>
              r.meta == Metadata(false, true, true, false, false, false, MissLockOwnerRebuild, r.meta.waitedMs)
            case WaitedThenHitNoDb =>
              r.meta == Metadata(true, false, false, true, true, false, WaitedThenHitNoDb, r.meta.waitedMs)
            case MissFallbackDb =>
              r.meta == Metadata(false, false, true, false, false, true, MissFallbackDb, r.meta.waitedMs)
              && r.meta.waitedMs >= cfg.waitTimeout
    ensures r.meta.status in {Hit, HitAfterDoubleCheck, MissLockOwnerRebuild} ==> r.attempts == 0
    ensures r.answer.source.FromCache? <==> r.meta.cacheHit
    ensures r.meta.waitedMs >= cfg.retryDelay * Tri(r.attempts)
    ensures r.attempts > 0 ==> cfg.retryDelay * Tri(r.attempts - 1) < cfg.waitTimeout
  {}

  /** With the default delay and timeout the wait loop runs at most 9 times; when sleeps take exactly their requested
      time and nobody fills the cache, the fallback comes after exactly 9 iterations and 2250 milliseconds. */
  lemma DefaultWait(cfg: Config, r: Reply)
    requires cfg.retryDelay == DEFAULT_DELAY_MS && cfg.waitTimeout == DEFAULT_WAIT_MS && r.Served? && Told(cfg, r)
    ensures r.attempts <= 9
    ensures r.meta.fallbackUsed && r.meta.waitedMs == cfg.retryDelay * Tri(r.attempts) ==>
              r.attempts == 9 && r.meta.waitedMs == 2250
  {
    var n := r.attempts;
    TriIs(n);
    if n > 0 {
      TriIs(n - 1);
      AtMostNine(n);
    }
  }

  /** Nine is the largest n with n * (n - 1) < 80, and the only one that also has n * (n + 1) >= 80. */
  lemma AtMostNine(n: nat)
    requires n * (n - 1) < 80
    ensures n <= 9 && (n * (n + 1) >= 80 ==> n == 9)
  {
    assert n * (n - 1) >= 9 * (n - 1) || n <= 9;
    assert n <= 8 ==> n * (n + 1) <= 8 * 9;
  }
}
