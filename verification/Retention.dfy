/** That a completed reply really is served: what the store holds after `complete`, and how long. */
module Retention {
  import opened Json
  import Lru
  import opened Singleflight
  import opened Coalescing

  /** Young enough to be served at time `now`. */
  predicate Fresh(e: Entry, now: nat, ttl: nat) {
    ttl > 0 && now < e.createdAt + ttl
  }

  lemma FreshIffAge(e: Entry, now: nat, ttl: nat)
    ensures Fresh(e, now, ttl) <==> Lru.Age(e, now) < ttl
  {
  }

  // ----- What one step does to the shards -----

  /** Only a cache check, a store and a clean-up touch the shards, each one of them. */
  lemma StepCaches(s: State, a: Action)
    requires Shaped(s.core) && Enabled(s, a)
    ensures !a.DoCheckCache? && !a.PutCompleted? && !a.Cleanup? ==> Next(s, a).core.caches == s.core.caches
    ensures a.DoCheckCache? ==> var k := s.tasks[a.task].key;
      Next(s, a).core.caches == s.core.caches[ShardIndex(k) := Lru.Get(s.core.caches[ShardIndex(k)], k, s.clock, s.cfg.ttl).0]
    ensures a.Cleanup? ==>
      Next(s, a).core.caches == s.core.caches[a.shard := Lru.Sweep(s.core.caches[a.shard], s.clock, s.cfg.ttl)]
  {
  }

  lemma StepStores(s: State, h: Id)
    requires Shaped(s.core) && Enabled(s, PutCompleted(h))
    ensures var k, e := s.handles[h].key, s.handles[h].phase.entry;
            Next(s, PutCompleted(h)).core.caches
            == s.core.caches[ShardIndex(k) := Lru.Put(s.core.caches[ShardIndex(k)], s.cfg.capacity, k, e)]
  {
  }

  lemma ShardValid(s: State, i: nat)
    requires Inv(s) && i < NUM_SHARDS
    ensures Lru.Valid(s.core.caches[i], s.cfg.capacity)
  {
    assert ShardOk(s.core.caches[i], i, s.cfg, s.handles, s.lastPut);
  }

  // ----- Storing -----

  lemma PutIsStored(s: State, h: Id)
    requires Inv(s) && Enabled(s, PutCompleted(h)) && s.cfg.capacity > 0
    ensures var s' := Next(s, PutCompleted(h)); var k := s.handles[h].key;
            Shaped(s'.core) && Stored(s', k) == Some(s.handles[h].phase.entry) && Lru.Ahead(s'.core.caches[ShardIndex(k)], k) == {}
  {
    var k, e := s.handles[h].key, s.handles[h].phase.entry;
    ShardValid(s, ShardIndex(k));
    StepStores(s, h);
    Lru.PutFacts(s.core.caches[ShardIndex(k)], s.cfg.capacity, k, e);
  }

  /** Right after the second half of `complete` the store answers the key with the completed entry. */
  lemma CompletedIsStored(cfg: Config, states: seq<State>, acts: seq<Action>, i: nat, h: Id)
    requires IsRun(cfg, states, acts) && i < |acts| && acts[i] == PutCompleted(h)
    ensures h in states[i].handles && states[i].handles[h].phase.Completed? && Shaped(states[i + 1].core)
    ensures Stored(states[i + 1], states[i].handles[h].key) == Some(states[i].handles[h].phase.entry)
  {
    RunInv(cfg, states, acts, i);
    assert IsStep(states[i], acts[i], states[i + 1]);
    PutIsStored(states[i], h);
  }

  /** The first half leaves that second half to be done exactly when the reply fits the size cap. */
  lemma PutPendingIffSmall(cfg: Config, states: seq<State>, acts: seq<Action>, i: nat, h: Id, reply: Reply, stamp: nat)
    requires IsRun(cfg, states, acts) && i < |acts| && acts[i] == Notify(h, reply, stamp)
    ensures h in states[i + 1].handles && states[i + 1].handles[h].phase == Completed(Lru.Entry(reply, stamp))
    ensures Shaped(states[i + 1].core)
    ensures Enabled(states[i + 1], PutCompleted(h)) <==> reply.len <= cfg.maxResponseSize
  {
    RunInv(cfg, states, acts, i);
    RunInv(cfg, states, acts, i + 1);
    assert IsStep(states[i], acts[i], states[i + 1]);
  }

  // ----- Keeping -----

  /** The list answers `k` with `e`, and only keys in `used` were used more recently. */
  predicate Holds(l: Lru.Lru, k: Key, e: Entry, used: set<Key>) {
    Lru.Lookup(l, k) == Some(e) && Lru.Ahead(l, k) <= used
  }

  predicate ShardHolds(s: State, k: Key, e: Entry, used: set<Key>)
    requires ShardIndex(k) < |s.core.caches|
  {
    Holds(s.core.caches[ShardIndex(k)], k, e, used)
  }

  /** The key whose entry an action looks up or stores. */
  function Uses(s: State, a: Action): Option<Key> {
    match a
    case DoCheckCache(t) => if t in s.tasks then Some(s.tasks[t].key) else None
    case PutCompleted(h) => if h in s.handles then Some(s.handles[h].key) else None
    case _ => None
  }

  lemma AccessHolds(l: Lru.Lru, cap: nat, ttl: nat, a: Lru.Access, k: Key, e: Entry, used: set<Key>)
    requires Lru.Valid(l, cap) && cap > 0 && Holds(l, k, e, used) && a.key != k && a.key in used && |used| < cap
    ensures Holds(Lru.Apply(l, cap, ttl, a), k, e, used)
  {
    Lru.LookupKeys(l, k);
    Lru.AccessKeeps(l, cap, ttl, a, k, used);
  }

  lemma CheckHolds(s: State, t: nat, k: Key, e: Entry, used: set<Key>)
    requires Inv(s) && Enabled(s, DoCheckCache(t)) && s.cfg.capacity > 0 && ShardHolds(s, k, e, used)
    requires Fresh(e, s.clock, s.cfg.ttl) && |used| < s.cfg.capacity
    requires var x := s.tasks[t].key; x != k && ShardIndex(x) == ShardIndex(k) ==> x in used
    ensures Shaped(Next(s, DoCheckCache(t)).core) && ShardHolds(Next(s, DoCheckCache(t)), k, e, used)
  {
    var x, i := s.tasks[t].key, ShardIndex(k);
    StepCaches(s, DoCheckCache(t));
    FreshIffAge(e, s.clock, s.cfg.ttl);
    ShardValid(s, i);
    if x == k {
      Lru.HitComesFirst(s.core.caches[i], k, s.clock, s.cfg.ttl);
    } else if ShardIndex(x) == i {
      AccessHolds(s.core.caches[i], s.cfg.capacity, s.cfg.ttl, Lru.Read(x, s.clock), k, e, used);
    }
  }

  lemma PutHolds(s: State, h: Id, k: Key, e: Entry, used: set<Key>)
    requires Inv(s) && Enabled(s, PutCompleted(h)) && s.cfg.capacity > 0 && ShardHolds(s, k, e, used)
    requires |used| < s.cfg.capacity && s.handles[h].key != k
    requires ShardIndex(s.handles[h].key) == ShardIndex(k) ==> s.handles[h].key in used
    ensures Shaped(Next(s, PutCompleted(h)).core) && ShardHolds(Next(s, PutCompleted(h)), k, e, used)
  {
    var x, i := s.handles[h].key, ShardIndex(k);
    StepStores(s, h);
    ShardValid(s, i);
    if ShardIndex(x) == i {
      AccessHolds(s.core.caches[i], s.cfg.capacity, s.cfg.ttl, Lru.Write(x, s.handles[h].phase.entry), k, e, used);
    }
  }

  lemma CleanupHolds(s: State, n: nat, k: Key, e: Entry, used: set<Key>)
    requires Inv(s) && Enabled(s, Cleanup(n)) && ShardHolds(s, k, e, used) && Fresh(e, s.clock, s.cfg.ttl)
    ensures Shaped(Next(s, Cleanup(n)).core) && ShardHolds(Next(s, Cleanup(n)), k, e, used)
  {
    StepCaches(s, Cleanup(n));
    FreshIffAge(e, s.clock, s.cfg.ttl);
    Lru.AheadOfSweep(s.core.caches[ShardIndex(k)], s.clock, s.cfg.ttl, k);
  }

  /** A fresh entry survives a step that stores nothing under its key and uses no key of its shard but
      those counted. */
  lemma StepHolds(s: State, a: Action, k: Key, e: Entry, used: set<Key>)
    requires Inv(s) && Enabled(s, a) && s.cfg.capacity > 0 && ShardHolds(s, k, e, used)
    requires Fresh(e, s.clock, s.cfg.ttl) && |used| < s.cfg.capacity
    requires a.PutCompleted? ==> Uses(s, a) != Some(k)
    requires Uses(s, a).Some? && Uses(s, a) != Some(k) && ShardIndex(Uses(s, a).value) == ShardIndex(k) ==> Uses(s, a).value in used
    ensures Shaped(Next(s, a).core) && ShardHolds(Next(s, a), k, e, used)
  {
    match a
    case DoCheckCache(t) => CheckHolds(s, t, k, e, used);
    case PutCompleted(h) => PutHolds(s, h, k, e, used);
    case Cleanup(n) => CleanupHolds(s, n, k, e, used);
    case _ => StepCaches(s, a);
  }

  lemma {:induction false} ClockForward(cfg: Config, states: seq<State>, acts: seq<Action>, i: nat, j: nat)
    requires IsRun(cfg, states, acts) && i <= j < |states|
    ensures states[i].clock <= states[j].clock
    decreases j
  {
    if i < j {
      ClockForward(cfg, states, acts, i, j - 1);
      assert IsStep(states[j - 1], acts[j - 1], states[j]);
    }
  }

  /** Between two moments nothing is stored under `k`, and other keys of its shard are used only from `used`. */
  ghost predicate Quiet(states: seq<State>, acts: seq<Action>, i: nat, j: nat, k: Key, used: set<Key>)
    requires j <= |acts| < |states|
  {
    forall m :: i <= m < j ==> QuietStep(states[m], acts[m], k, used)
  }

  predicate QuietStep(s: State, a: Action, k: Key, used: set<Key>) {
    && (a.PutCompleted? ==> Uses(s, a) != Some(k))
    && (Uses(s, a).Some? && Uses(s, a) != Some(k) && ShardIndex(Uses(s, a).value) == ShardIndex(k) ==> Uses(s, a).value in used)
  }

  lemma {:induction false} RunHolds(cfg: Config, states: seq<State>, acts: seq<Action>, i: nat, j: nat, k: Key, e: Entry, used: set<Key>, last: nat)
    requires IsRun(cfg, states, acts) && i <= j <= |acts| && Quiet(states, acts, i, j, k, used) && |used| < cfg.capacity
    requires Shaped(states[i].core) && ShardHolds(states[i], k, e, used)
    requires states[j].clock <= last && Fresh(e, last, cfg.ttl)
    ensures Shaped(states[j].core) && ShardHolds(states[j], k, e, used)
    decreases j
  {
    if i < j {
      var m := j - 1;
      ClockForward(cfg, states, acts, m, j);
      assert QuietStep(states[m], acts[m], k, used);
      RunHolds(cfg, states, acts, i, m, k, e, used, last);
      OneStepHolds(cfg, states, acts, m, k, e, used);
    }
  }

  lemma OneStepHolds(cfg: Config, states: seq<State>, acts: seq<Action>, i: nat, k: Key, e: Entry, used: set<Key>)
    requires IsRun(cfg, states, acts) && i < |acts| && QuietStep(states[i], acts[i], k, used) && |used| < cfg.capacity
    requires Shaped(states[i].core) && ShardHolds(states[i], k, e, used) && Fresh(e, states[i].clock, cfg.ttl)
    ensures Shaped(states[i + 1].core) && ShardHolds(states[i + 1], k, e, used)
  {
    RunInv(cfg, states, acts, i);
    assert IsStep(states[i], acts[i], states[i + 1]);
    StepHolds(states[i], acts[i], k, e, used);
  }

  lemma QuietKeepsLast(states: seq<State>, acts: seq<Action>, j: nat, k: Key, used: set<Key>)
    requires 0 < j <= |acts| < |states| && QuietStep(states[j - 1], acts[j - 1], k, used)
    ensures LastStored(states, acts, j, k) == LastStored(states, acts, j - 1, k)
  {
  }

  lemma {:induction false} StoredLast(states: seq<State>, acts: seq<Action>, i: nat, j: nat, h: Id, k: Key, used: set<Key>)
    requires i < j <= |acts| < |states| && acts[i] == PutCompleted(h) && h in states[i].handles && states[i].handles[h].key == k
    requires Quiet(states, acts, i + 1, j, k, used)
    ensures LastStored(states, acts, j, k) == Some(h)
    decreases j
  {
    if i + 1 < j {
      StoredLast(states, acts, i, j - 1, h, k, used);
      QuietKeepsLast(states, acts, j, k, used);
    }
  }

  // ----- Serving -----

  /** A check is a hit exactly on a fresh stored entry. */
  lemma CheckIffFresh(cfg: Config, states: seq<State>, acts: seq<Action>, j: nat, t: nat)
    requires IsRun(cfg, states, acts) && j < |acts| && acts[j] == DoCheckCache(t)
    ensures Shaped(states[j].core) && t in states[j].tasks && t in states[j + 1].tasks
    ensures var stored, pc := Stored(states[j], states[j].tasks[t].key), states[j + 1].tasks[t].pc;
            if stored.Some? && Fresh(stored.value, states[j].clock, cfg.ttl)
            then pc.Returned? && pc.outcome.Cached? && pc.outcome.reply == stored.value.reply
            else pc == AtInFlight
  {
    HitIsLastStored(cfg, states, acts, j, t);
    RunInv(cfg, states, acts, j);
    var stored := Stored(states[j], states[j].tasks[t].key);
    if stored.Some? { FreshIffAge(stored.value, states[j].clock, cfg.ttl); }
  }

  /** A completed reply is served: every later check of its key within the TTL returns it from the cache, as
      long as nothing else was stored under the key and the checks and stores of other keys of its shard
      touched fewer distinct keys than a shard holds - whatever else went on, clean-ups included. */
  lemma CompletedIsServed(cfg: Config, states: seq<State>, acts: seq<Action>, i: nat, h: Id, j: nat, t: nat, used: set<Key>)
    requires IsRun(cfg, states, acts) && i < j < |acts| && acts[i] == PutCompleted(h) && acts[j] == DoCheckCache(t)
    requires h in states[i].handles && states[i].handles[h].phase.Completed?
    requires t in states[j].tasks && states[j].tasks[t].key == states[i].handles[h].key
    requires Quiet(states, acts, i + 1, j, states[i].handles[h].key, used) && |used| < cfg.capacity
    requires Fresh(states[i].handles[h].phase.entry, states[j].clock, cfg.ttl)
    ensures t in states[j + 1].tasks
    ensures var pc := states[j + 1].tasks[t].pc;
            && pc.Returned? && pc.outcome.Cached? && pc.outcome.source == h
            && pc.outcome.reply == states[i].handles[h].phase.entry.reply
  {
    var k, e := states[i].handles[h].key, states[i].handles[h].phase.entry;
    RunInv(cfg, states, acts, i);
    assert IsStep(states[i], acts[i], states[i + 1]);
    PutIsStored(states[i], h);
    RunHolds(cfg, states, acts, i + 1, j, k, e, used, states[j].clock);
    StoredLast(states, acts, i, j, h, k, used);
    HitIsLastStored(cfg, states, acts, j, t);
    CheckIffFresh(cfg, states, acts, j, t);
  }

  /** Clean-up forgets exactly the entries of its shard that are no longer fresh. */
  lemma CleanupForgetsStale(cfg: Config, states: seq<State>, acts: seq<Action>, i: nat, n: nat, k: Key)
    requires IsRun(cfg, states, acts) && i < |acts| && acts[i] == Cleanup(n)
    ensures Shaped(states[i].core) && Shaped(states[i + 1].core)
    ensures var e := Stored(states[i], k);
            Stored(states[i + 1], k) == if k % 32 != n || (e.Some? && Fresh(e.value, states[i].clock, cfg.ttl)) then e else None
  {
    RunInv(cfg, states, acts, i);
    assert IsStep(states[i], acts[i], states[i + 1]);
    StepCaches(states[i], acts[i]);
    if k % 32 == n {
      ShardValid(states[i], n);
      Lru.SweepFacts(states[i].core.caches[n], states[i].clock, cfg.ttl);
      var e := Stored(states[i], k);
      if e.Some? { FreshIffAge(e.value, states[i].clock, cfg.ttl); }
    }
  }
}
