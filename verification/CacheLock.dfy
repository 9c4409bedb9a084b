/** The cache-aside protocol with a distributed lock, as a timed state machine: any number of clients, each step
    one Redis command, callback action or sleep; keys expire as the clock moves; clients crash; entries are
    invalidated at any time. Times are in milliseconds. */
module CacheLock {
  import opened Schema

  /** `truth(t)` is what the callback would return if it read the database at time t. */
  datatype Config = Config(entryTtl: nat, lockTtl: nat, waitTimeout: nat, retryDelay: nat, truth: nat -> int)

  /** A cached value with the times at which its writer began to rebuild, read the database, stored the value, and
      when it expires. */
  datatype Entry = Entry(value: int, begun: nat, loaded: nat, stored: nat, expires: nat)

  datatype Lock = Lock(token: nat, expires: nat)

  datatype Source = FromCache(entry: Entry) | FromDb(begun: nat)

  /** A returned value, when it was read, and where. */
  datatype Answer = Answer(value: int, at: nat, source: Source)

  datatype Pc =
    | Start
    | Missed
    | Checking
    | Rebuilding(begun: nat)
    | Loaded(begun: nat, loaded: nat, value: int)
    | Releasing(answer: Option<Answer>)
    | Waiting(started: nat, attempt: nat)
    | Sleeping(started: nat, attempt: nat, wake: nat)
    | FallingBack(begun: nat)
    | Done(answer: Option<Answer>)
    | Crashed

  /** A client's id is its unique lock token. The last four fields count: clients that began an owner rebuild,
      tokens whose lock expired, entries deleted or expired, and owner callbacks that raised. */
  datatype State = State(
    now: nat, entry: Option<Entry>, lock: Option<Lock>, clients: map<nat, Pc>,
    built: set<nat>, expired: set<nat>, lost: nat, raised: nat)

  ghost predicate Init(s: State) {
    && s.entry.None? && s.lock.None? && s.clients == map[]
    && s.built == {} && s.expired == {} && s.lost == 0 && s.raised == 0
  }

  function Hit(s: State): Answer
    requires s.entry.Some?
  {
    Answer(s.entry.value.value, s.now, FromCache(s.entry.value))
  }

  function At(s: State, c: nat, pc: Pc): State {
    s.(clients := s.clients[c := pc])
  }

  // ----- the steps of one client -----

  /** The first GET. */
  predicate Reads(s: State, s': State, c: nat) {
    c in s.clients && s.clients[c].Start? && s' == At(s, c, if s.entry.Some? then Done(Some(Hit(s))) else Missed)
  }

  /** SET NX PX: take the lock if nobody has it, else start waiting. */
  predicate Locks(cfg: Config, s: State, s': State, c: nat) {
    c in s.clients && s.clients[c].Missed? &&
    s' == if s.lock.None? then At(s, c, Checking).(lock := Some(Lock(c, s.now + cfg.lockTtl)))
          else At(s, c, Waiting(s.now, 0))
  }

  /** The double check under the lock; a second miss begins the rebuild. */
  predicate Checks(s: State, s': State, c: nat) {
    c in s.clients && s.clients[c].Checking? &&
    s' == if s.entry.Some? then At(s, c, Releasing(Some(Hit(s))))
          else At(s, c, Rebuilding(s.now)).(built := s.built + {c})
  }

  /** The callback returns what it saw in the database, or raises. */
  predicate Loads(cfg: Config, s: State, s': State, c: nat) {
    c in s.clients && s.clients[c].Rebuilding? && s' == At(s, c, Loaded(s.clients[c].begun, s.now, cfg.truth(s.now)))
  }

  predicate Raises(s: State, s': State, c: nat) {
    c in s.clients && s.clients[c].Rebuilding? && s' == At(s, c, Releasing(None)).(raised := s.raised + 1)
  }

  /** The owner writes the cache, even if its lock has expired meanwhile. */
  predicate Stores(cfg: Config, s: State, s': State, c: nat) {
    c in s.clients && s.clients[c].Loaded? &&
    var Loaded(begun, loaded, value) := s.clients[c];
    s' == At(s, c, Releasing(Some(Answer(value, s.now, FromDb(begun))))).(
            entry := Some(Entry(value, begun, loaded, s.now, s.now + cfg.entryTtl)))
  }

  /** Compare-and-delete: the lock goes only if it still carries the client's token. */
  predicate Releases(s: State, s': State, c: nat) {
    c in s.clients && s.clients[c].Releasing? &&
    s' == At(s, c, Done(s.clients[c].answer)).(
            lock := if s.lock.Some? && s.lock.value.token == c then None else s.lock)
  }

  /** The head of the wait loop: another, longer sleep, or give up and ask the database. */
  predicate Loops(cfg: Config, s: State, s': State, c: nat) {
    c in s.clients && s.clients[c].Waiting? &&
    var Waiting(started, attempt) := s.clients[c];
    s' == At(s, c, if s.now < started + cfg.waitTimeout
                   then Sleeping(started, attempt + 1, s.now + cfg.retryDelay * (attempt + 1))
                   else FallingBack(s.now))
  }

  /** After a sleep of at least the requested time, read the cache again. */
  predicate Wakes(s: State, s': State, c: nat) {
    c in s.clients && s.clients[c].Sleeping? && s.now >= s.clients[c].wake &&
    s' == At(s, c, if s.entry.Some? then Done(Some(Hit(s)))
                   else Waiting(s.clients[c].started, s.clients[c].attempt))
  }

  /** The fallback returns the database's value, or raises; it does not write the cache. */
  predicate FallsBack(cfg: Config, s: State, s': State, c: nat) {
    c in s.clients && s.clients[c].FallingBack? &&
    (|| s' == At(s, c, Done(Some(Answer(cfg.truth(s.now), s.now, FromDb(s.clients[c].begun)))))
     || s' == At(s, c, Done(None)))
  }

  predicate Acts(cfg: Config, s: State, s': State, c: nat) {
    || Reads(s, s', c) || Locks(cfg, s, s', c) || Checks(s, s', c) || Loads(cfg, s, s', c) || Raises(s, s', c)
    || Stores(cfg, s, s', c) || Releases(s, s', c) || Loops(cfg, s, s', c) || Wakes(s, s', c)
    || FallsBack(cfg, s, s', c)
  }

  // ----- the environment -----

  predicate Joins(s: State, s': State, c: nat) {
    c !in s.clients && s' == At(s, c, Start)
  }

  predicate Crashes(s: State, s': State, c: nat) {
    c in s.clients && !s.clients[c].Done? && s' == At(s, c, Crashed)
  }

  predicate Invalidates(s: State, s': State) {
    s' == s.(entry := None, lost := s.lost + if s.entry.Some? then 1 else 0)
  }

  /** Time passes; keys whose time has come disappear. */
  predicate Ticks(s: State, s': State) {
    && s'.now > s.now
    && var entryGone := s.entry.Some? && s.entry.value.expires <= s'.now;
       var lockGone := s.lock.Some? && s.lock.value.expires <= s'.now;
       s' == s.(now := s'.now,
                entry := if entryGone then None else s.entry, lost := s.lost + if entryGone then 1 else 0,
                lock := if lockGone then None else s.lock,
                expired := s.expired + if lockGone then {s.lock.value.token} else {})
  }

  ghost predicate Step(cfg: Config, s: State, s': State) {
    || (exists c :: Acts(cfg, s, s', c) || Joins(s, s', c) || Crashes(s, s', c))
    || Invalidates(s, s') || Ticks(s, s')
  }

  lemma ActsMoveOne(cfg: Config, s: State, s': State, u: nat)
    requires Acts(cfg, s, s', u) || Joins(s, s', u) || Crashes(s, s', u)
    ensures u in s'.clients && s'.clients == s.clients[u := s'.clients[u]]
  {}

  /** At any time any client may join or crash, the entry may be invalidated, and any time may pass. */
  lemma AnythingMayHappen(cfg: Config, s: State, c: nat, now: nat)
    ensures c !in s.clients ==> Step(cfg, s, s.(clients := s.clients[c := Start]))
    ensures c in s.clients && !s.clients[c].Done? ==> Step(cfg, s, s.(clients := s.clients[c := Crashed]))
    ensures exists s' ::
              Step(cfg, s, s') && s'.entry.None? && s'.clients == s.clients && s'.lock == s.lock && s'.now == s.now
    ensures now > s.now ==> exists s' :: Step(cfg, s, s') && s'.now == now && s'.clients == s.clients
  {
    var gone := s.(entry := None, lost := s.lost + if s.entry.Some? then 1 else 0);
    assert Invalidates(s, gone) && Step(cfg, s, gone);
    if c !in s.clients {
      assert Joins(s, s.(clients := s.clients[c := Start]), c);
    } else if !s.clients[c].Done? {
      assert Crashes(s, s.(clients := s.clients[c := Crashed]), c);
    }
    if now > s.now {
      var entryGone := s.entry.Some? && s.entry.value.expires <= now;
      var lockGone := s.lock.Some? && s.lock.value.expires <= now;
      var later := s.(now := now,
                      entry := if entryGone then None else s.entry, lost := s.lost + if entryGone then 1 else 0,
                      lock := if lockGone then None else s.lock,
                      expired := s.expired + if lockGone then {s.lock.value.token} else {});
      assert Ticks(s, later) && Step(cfg, s, later);
    }
  }

  ghost predicate Run(cfg: Config, run: seq<State>) {
    && cfg.entryTtl >= 1 && cfg.lockTtl >= 1
    && run != [] && Init(run[0])
    && forall i :: 0 < i < |run| ==> Step(cfg, run[i - 1], run[i])
  }

  // ----- who holds the lock -----

  /** Between acquiring and releasing. */
  predicate Critical(pc: Pc) {
    pc.Checking? || pc.Rebuilding? || pc.Loaded? || pc.Releasing?
  }

  ghost predicate Ownership(s: State) {
    && (forall c :: c in s.clients && Critical(s.clients[c]) ==>
          c in s.expired || (s.lock.Some? && s.lock.value.token == c))
    && (s.lock.Some? ==>
          && s.lock.value.token in s.clients && s.lock.value.token !in s.expired
          && (Critical(s.clients[s.lock.value.token]) || s.clients[s.lock.value.token].Crashed?)
          && s.now < s.lock.value.expires)
    && s.expired <= s.clients.Keys && s.built <= s.clients.Keys
    && (forall c :: c in s.expired ==> !s.clients[c].Start? && !s.clients[c].Missed?)
    && (forall c :: c in s.built ==> !s.clients[c].Start? && !s.clients[c].Missed? && !s.clients[c].Checking?)
  }

  /** The commands that touch the lock or the books. */
  ghost predicate Books(cfg: Config, s: State, s': State, c: nat) {
    Locks(cfg, s, s', c) || Checks(s, s', c) || Releases(s, s', c)
  }

  lemma BooksKeepOwnership(cfg: Config, s: State, s': State, c: nat)
    requires cfg.lockTtl >= 1 && Ownership(s) && Books(cfg, s, s', c)
    ensures Ownership(s')
  {}

  lemma OthersKeepOwnership(cfg: Config, s: State, s': State, c: nat)
    requires Ownership(s) && Acts(cfg, s, s', c) && !Books(cfg, s, s', c)
    ensures Ownership(s')
  {
    assert s'.lock == s.lock && s'.expired == s.expired && s'.built == s.built && s'.now == s.now;
    assert s'.clients == s.clients[c := s'.clients[c]];
    assert Critical(s'.clients[c]) ==> Critical(s.clients[c]);
    assert Critical(s.clients[c]) ==> Critical(s'.clients[c]);
    assert !s.clients[c].Crashed? && !s'.clients[c].Crashed?;
  }

  lemma ActKeepsOwnership(cfg: Config, s: State, s': State, c: nat)
    requires cfg.lockTtl >= 1 && Ownership(s) && Acts(cfg, s, s', c)
    ensures Ownership(s')
  {
    if Books(cfg, s, s', c) {
      BooksKeepOwnership(cfg, s, s', c);
    } else {
      OthersKeepOwnership(cfg, s, s', c);
    }
  }

  lemma OwnershipStep(cfg: Config, s: State, s': State)
    requires cfg.lockTtl >= 1 && Ownership(s) && Step(cfg, s, s')
    ensures Ownership(s')
  {
    if !Ticks(s, s') && !Invalidates(s, s') {
      var c :| Acts(cfg, s, s', c) || Joins(s, s', c) || Crashes(s, s', c);
      if Acts(cfg, s, s', c) {
        ActKeepsOwnership(cfg, s, s', c);
      }
    }
  }

  /** Main result: two clients inside the critical section whose locks have not expired are the same client. */
  lemma MutualExclusion(cfg: Config, run: seq<State>, a: nat, b: nat)
    requires Run(cfg, run)
    requires var s := run[|run| - 1];
             && a in s.clients && b in s.clients && Critical(s.clients[a]) && Critical(s.clients[b])
             && a !in s.expired && b !in s.expired
    ensures a == b
  {
    RunOwnership(cfg, run);
  }

  lemma {:induction false} RunOwnership(cfg: Config, run: seq<State>)
    requires Run(cfg, run)
    ensures Ownership(run[|run| - 1])
  {
    if |run| > 1 {
      RunOwnership(cfg, run[..|run| - 1]);
      OwnershipStep(cfg, run[|run| - 2], run[|run| - 1]);
    }
  }

  // ----- how many owners rebuild -----

  /** Someone accounts for one more rebuild: the entry is there, or the unexpired owner is still at it. */
  ghost predicate Pending(s: State) {
    || s.entry.Some?
    || (s.lock.Some? && s.lock.value.token in s.built && s.lock.value.token in s.clients
        && var pc := s.clients[s.lock.value.token]; pc.Rebuilding? || pc.Loaded? || pc.Crashed?)
  }

  ghost predicate Accounted(s: State) {
    |s.built - s.expired| <= s.lost + s.raised + if Pending(s) then 1 else 0
  }

  lemma CheckAccounted(s: State, s': State, c: nat)
    requires Ownership(s) && Accounted(s) && Checks(s, s', c)
    ensures Accounted(s')
  {
    if s.entry.None? {
      if c in s.expired {
        assert s'.built - s'.expired == s.built - s.expired;
      } else {
        assert s'.built - s'.expired == (s.built - s.expired) + {c};
      }
    }
  }

  lemma ReleaseAccounted(s: State, s': State, c: nat)
    requires Ownership(s) && Accounted(s) && Releases(s, s', c)
    ensures Accounted(s')
  {
    assert Pending(s) ==> Pending(s');
  }

  /** An acquisition or a failing callback. */
  lemma LockOrRaiseAccounted(cfg: Config, s: State, s': State, c: nat)
    requires Ownership(s) && Accounted(s) && (Locks(cfg, s, s', c) || Raises(s, s', c))
    ensures Accounted(s')
  {
    assert s'.built == s.built && s'.expired == s.expired && s'.lost == s.lost;
    assert Raises(s, s', c) || (Pending(s) ==> Pending(s'));
  }

  lemma OtherAccounted(cfg: Config, s: State, s': State, c: nat)
    requires Accounted(s) && Acts(cfg, s, s', c)
    requires !Checks(s, s', c) && !Releases(s, s', c) && !Locks(cfg, s, s', c) && !Raises(s, s', c)
    ensures Accounted(s')
  {
    assert s'.built == s.built && s'.expired == s.expired && s'.lost == s.lost && s'.raised == s.raised;
    assert s'.lock == s.lock;
    assert s'.clients == s.clients[c := s'.clients[c]];
    assert s.entry.Some? ==> s'.entry.Some?;
    assert s.clients[c].Rebuilding? ==> s'.clients[c].Loaded?;
    assert s.clients[c].Loaded? ==> s'.entry.Some?;
    assert !s.clients[c].Crashed?;
  }

  lemma ActAccounted(cfg: Config, s: State, s': State, c: nat)
    requires Ownership(s) && Accounted(s) && Acts(cfg, s, s', c)
    ensures Accounted(s')
  {
    if Checks(s, s', c) {
      CheckAccounted(s, s', c);
    } else if Releases(s, s', c) {
      ReleaseAccounted(s, s', c);
    } else if Locks(cfg, s, s', c) || Raises(s, s', c) {
      LockOrRaiseAccounted(cfg, s, s', c);
    } else {
      OtherAccounted(cfg, s, s', c);
    }
  }

  lemma TickAccounted(s: State, s': State)
    requires Ownership(s) && Accounted(s) && Ticks(s, s')
    ensures Accounted(s')
  {
    if s'.lock != s.lock {
      var t := s.lock.value.token;
      assert s'.built - s'.expired == (s.built - s.expired) - {t};
    } else {
      assert s'.built - s'.expired == s.built - s.expired;
    }
  }

  lemma ComingAndGoingAccounted(s: State, s': State, c: nat)
    requires Ownership(s) && Accounted(s) && (Joins(s, s', c) || Crashes(s, s', c))
    ensures Accounted(s')
  {
    assert Pending(s) ==> Pending(s');
  }

  lemma AccountedStep(cfg: Config, s: State, s': State)
    requires Ownership(s) && Accounted(s) && Step(cfg, s, s')
    ensures Accounted(s')
  {
    if Ticks(s, s') {
      TickAccounted(s, s');
    } else if !Invalidates(s, s') {
      var c :| Acts(cfg, s, s', c) || Joins(s, s', c) || Crashes(s, s', c);
      if Acts(cfg, s, s', c) {
        ActAccounted(cfg, s, s', c);
      } else {
        ComingAndGoingAccounted(s, s', c);
      }
    }
  }

  /** Main result: over any run from an empty cache, with any number of clients, crashes, expiries, invalidations
      and failing callbacks, the owner rebuilds are at most one, plus one per expired lock, per entry deleted or
      expired, and per callback that raised. */
  lemma {:induction false} StampedeBound(cfg: Config, run: seq<State>)
    requires Run(cfg, run)
    ensures var s := run[|run| - 1]; |s.built| <= 1 + |s.expired| + s.lost + s.raised
  {
    RunAccounted(cfg, run);
    var s := run[|run| - 1];
    assert |s.built| <= |s.built - s.expired| + |s.expired| by {
      assert s.built <= (s.built - s.expired) + s.expired;
      SubsetSize(s.built, (s.built - s.expired) + s.expired);
    }
  }

  lemma {:induction false} RunAccounted(cfg: Config, run: seq<State>)
    requires Run(cfg, run)
    ensures Accounted(run[|run| - 1])
  {
    if |run| > 1 {
      RunAccounted(cfg, run[..|run| - 1]);
      RunOwnership(cfg, run[..|run| - 1]);
      AccountedStep(cfg, run[|run| - 2], run[|run| - 1]);
    }
  }

  /** As the design puts it: while the entry is neither deleted nor expired, callbacks do not raise and owners
      finish within their lock's time, one rebuild serves everybody. */
  lemma OneRebuildServesAll(cfg: Config, run: seq<State>)
    requires Run(cfg, run) && run[|run| - 1].lost == 0 && run[|run| - 1].raised == 0 && run[|run| - 1].expired == {}
    ensures |run[|run| - 1].built| <= 1
  {
    StampedeBound(cfg, run);
  }

  // ----- how old an answer can be -----

  /** The value was the database's at some instant of the interval. */
  ghost predicate TrueWithin(cfg: Config, value: int, from: nat, to: nat) {
    exists t: nat :: from <= t <= to && cfg.truth(t) == value
  }

  ghost predicate EntryOk(cfg: Config, e: Entry) {
    cfg.truth(e.loaded) == e.value && e.begun <= e.loaded <= e.stored && e.expires == e.stored + cfg.entryTtl
  }

  ghost predicate AnswerOk(cfg: Config, a: Answer) {
    match a.source
    case FromCache(e) => EntryOk(cfg, e) && a.value == e.value && e.stored <= a.at < e.expires
    case FromDb(begun) => begun <= a.at && TrueWithin(cfg, a.value, begun, a.at)
  }

  ghost predicate ClientOk(cfg: Config, now: nat, pc: Pc) {
    match pc
    case Rebuilding(begun) => begun <= now
    case Loaded(begun, loaded, value) => begun <= loaded <= now && cfg.truth(loaded) == value
    case FallingBack(begun) => begun <= now
    case Releasing(Some(a)) => AnswerOk(cfg, a)
    case Done(Some(a)) => AnswerOk(cfg, a)
    case _ => true
  }

  ghost predicate Provenance(cfg: Config, s: State) {
    && (s.entry.Some? ==> EntryOk(cfg, s.entry.value) && s.entry.value.stored <= s.now < s.entry.value.expires)
    && (forall c :: c in s.clients ==> ClientOk(cfg, s.now, s.clients[c]))
  }

  lemma LaterClientOk(cfg: Config, now: nat, later: nat, pc: Pc)
    requires now <= later && ClientOk(cfg, now, pc)
    ensures ClientOk(cfg, later, pc)
  {}

  lemma ActProvenance(cfg: Config, s: State, s': State, c: nat)
    requires cfg.entryTtl >= 1 && Provenance(cfg, s) && Acts(cfg, s, s', c)
    ensures Provenance(cfg, s')
  {
    assert ClientOk(cfg, s.now, s.clients[c]);
  }

  lemma ProvenanceStep(cfg: Config, s: State, s': State)
    requires cfg.entryTtl >= 1 && Provenance(cfg, s) && Step(cfg, s, s')
    ensures Provenance(cfg, s')
  {
    if Ticks(s, s') {
      forall c | c in s'.clients ensures ClientOk(cfg, s'.now, s'.clients[c]) {
        LaterClientOk(cfg, s.now, s'.now, s.clients[c]);
      }
    } else if !Invalidates(s, s') {
      var c :| Acts(cfg, s, s', c) || Joins(s, s', c) || Crashes(s, s', c);
      if Acts(cfg, s, s', c) {
        ActProvenance(cfg, s, s', c);
      }
    }
  }

  lemma {:induction false} RunProvenance(cfg: Config, run: seq<State>)
    requires Run(cfg, run)
    ensures Provenance(cfg, run[|run| - 1])
  {
    if |run| > 1 {
      RunProvenance(cfg, run[..|run| - 1]);
      ProvenanceStep(cfg, run[|run| - 2], run[|run| - 1]);
    }
  }

  /** Main result: whatever is invalidated, expires or is rebuilt by several owners at once, a value served from the
      cache was the database's at some instant less than the entry's time to live plus its writer's rebuild time
      before it was read; a value computed by the client itself, at some instant of its own callback. */
  lemma BoundedStaleness(cfg: Config, run: seq<State>, c: nat)
    requires Run(cfg, run) && c in run[|run| - 1].clients
    requires run[|run| - 1].clients[c].Done? && run[|run| - 1].clients[c].answer.Some?
    ensures var a := run[|run| - 1].clients[c].answer.value;
            match a.source
            case FromCache(e) =>
              && e.begun <= e.stored
              && exists t: nat :: t <= a.at < t + cfg.entryTtl + (e.stored - e.begun) && cfg.truth(t) == a.value
            case FromDb(begun) => exists t: nat :: begun <= t <= a.at && cfg.truth(t) == a.value
  {
    RunProvenance(cfg, run);
    var a := run[|run| - 1].clients[c].answer.value;
    assert AnswerOk(cfg, a);
    match a.source
    case FromCache(e) =>
      var t := e.loaded;
      assert t <= a.at < t + cfg.entryTtl + (e.stored - e.begun);
    case FromDb(begun) =>
      var t :| begun <= t <= a.at && cfg.truth(t) == a.value;
  }

  // ----- how long a client waits -----

  /** 1 + 2 + ... + n. */
  function Tri(n: nat): nat {
    if n == 0 then 0 else Tri(n - 1) + n
  }

  lemma {:induction false} TriIs(n: nat)
    ensures 2 * Tri(n) == n * (n + 1)
  {
    if n > 0 {
      TriIs(n - 1);
    }
  }

  /** The n-th sleep began before the deadline, after the n - 1 earlier ones. */
  ghost predicate WaitOk(cfg: Config, now: nat, pc: Pc) {
    match pc
    case Waiting(started, n) =>
      started + cfg.retryDelay * Tri(n) <= now && (n > 0 ==> cfg.retryDelay * Tri(n - 1) < cfg.waitTimeout)
    case Sleeping(started, n, wake) =>
      n > 0 && started + cfg.retryDelay * Tri(n) <= wake && cfg.retryDelay * Tri(n - 1) < cfg.waitTimeout
    case _ => true
  }

  ghost predicate Patience(cfg: Config, s: State) {
    forall c :: c in s.clients ==> WaitOk(cfg, s.now, s.clients[c])
  }

  lemma OneSleepMore(d: nat, n: nat)
    ensures d * Tri(n + 1) == d * Tri(n) + d * (n + 1)
  {}

  lemma LoopPatience(cfg: Config, s: State, s': State, c: nat)
    requires c in s.clients && WaitOk(cfg, s.now, s.clients[c]) && Loops(cfg, s, s', c)
    ensures WaitOk(cfg, s.now, s'.clients[c])
  {
    OneSleepMore(cfg.retryDelay, s.clients[c].attempt);
  }

  lemma ActPatience(cfg: Config, s: State, s': State, c: nat)
    requires Patience(cfg, s) && Acts(cfg, s, s', c)
    ensures Patience(cfg, s')
  {
    assert WaitOk(cfg, s.now, s.clients[c]);
    if Loops(cfg, s, s', c) {
      LoopPatience(cfg, s, s', c);
    }
    assert WaitOk(cfg, s.now, s'.clients[c]);
  }

  lemma PatienceStep(cfg: Config, s: State, s': State)
    requires Patience(cfg, s) && Step(cfg, s, s')
    ensures Patience(cfg, s')
  {
    if !Ticks(s, s') && !Invalidates(s, s') {
      var c :| Acts(cfg, s, s', c) || Joins(s, s', c) || Crashes(s, s', c);
      if Acts(cfg, s, s', c) {
        ActPatience(cfg, s, s', c);
      }
    }
  }

  lemma {:induction false} RunPatience(cfg: Config, run: seq<State>)
    requires Run(cfg, run)
    ensures Patience(cfg, run[|run| - 1])
  {
    if |run| > 1 {
      RunPatience(cfg, run[..|run| - 1]);
      PatienceStep(cfg, run[|run| - 2], run[|run| - 1]);
    }
  }

  /** Twice the time slept before the n-th iteration. */
  lemma TwiceSlept(d: nat, n: nat)
    requires n >= 1
    ensures 2 * (d * Tri(n - 1)) == d * (n * (n - 1))
  {
    TriIs(n - 1);
    assert 2 * (d * Tri(n - 1)) == d * (2 * Tri(n - 1));
  }

  /** Main result: any n-th iteration of the wait loop satisfies d * n * (n - 1) / 2 < T. */
  lemma WaiterBound(cfg: Config, run: seq<State>, c: nat)
    requires Run(cfg, run) && c in run[|run| - 1].clients && run[|run| - 1].clients[c].Sleeping?
    ensures var n := run[|run| - 1].clients[c].attempt;
            n >= 1 && cfg.retryDelay * (n * (n - 1)) < 2 * cfg.waitTimeout
  {
    RunPatience(cfg, run);
    var n := run[|run| - 1].clients[c].attempt;
    assert WaitOk(cfg, run[|run| - 1].now, run[|run| - 1].clients[c]);
    TwiceSlept(cfg.retryDelay, n);
  }
}
