/** The response cache as the object the proxy holds: one method per lock-held section, each tied
    to the protocol step it performs. */
module RequestCache {
  import opened Json
  import Lru
  import opened Singleflight

  /** Guard of one execution; dropping it unfinished withdraws the registration. */
  class RequestHandle {
    const key: Key
    const channel: Id
    var completed: bool

    constructor (key: Key, channel: Id)
      ensures this.key == key && this.channel == channel && !completed
    {
      this.key := key;
      this.channel := channel;
      completed := false;
    }
  }

  class RequestCache {
    const cfg: Config
    var caches: seq<Lru.Lru>
    var inFlight: seq<map<Key, Id>>
    var channels: map<Id, Channel>
    var nextId: Id

    ghost function View(): Core
      reads this
    {
      Core(caches, inFlight, channels, nextId)
    }

    ghost predicate Valid()
      reads this
    {
      && Shaped(View()) && cfg.capacity > 0
      && forall i :: 0 <= i < NUM_SHARDS ==> Lru.Valid(caches[i], cfg.capacity)
    }

    constructor (ttlSecs: nat, maxEntries: nat, maxResponseSize: nat)
      ensures Valid() && View() == Init(cfg).core
      ensures cfg.ttl == ttlSecs && cfg.maxResponseSize == maxResponseSize
      ensures maxEntries < NUM_SHARDS ==> cfg.capacity == 1
      ensures maxEntries >= NUM_SHARDS ==>
        cfg.capacity >= 1 && cfg.capacity * NUM_SHARDS <= maxEntries < (cfg.capacity + 1) * NUM_SHARDS
    {
      var perShard := maxEntries / NUM_SHARDS;
      cfg := Config(ttlSecs, if perShard < 1 then 1 else perShard, maxResponseSize);
      caches := seq(NUM_SHARDS, _ => []);
      inFlight := seq(NUM_SHARDS, _ => map[]);
      channels := map[];
      nextId := 0;
    }

    /** The cache section of `get` and of each `try_coalesce` iteration. */
    method Get(key: Key, now: nat) returns (hit: Option<Reply>)
      requires Valid()
      modifies this`caches
      ensures Valid()
      ensures View() == CheckCache(old(View()), cfg, key, now).0
      ensures hit == var e := CheckCache(old(View()), cfg, key, now).1; if e.Some? then Some(e.value.reply) else None
      ensures var e := Lru.Lookup(old(caches)[key % 32], key);
              hit == if e.Some? && cfg.ttl > 0 && now < e.value.createdAt + cfg.ttl then Some(e.value.reply) else None
    {
      var i := ShardIndex(key);
      Lru.GetFacts(caches[i], cfg.capacity, key, now, cfg.ttl);
      hit := None;
      var entry := Lru.Lookup(caches[i], key);
      if entry.Some? {
        // Reading moves the entry to the front before its age is looked at.
        var touched: Lru.Lru := [(key, entry.value)] + Lru.Pop(caches[i], key);
        if Lru.Age(entry.value, now) < cfg.ttl {
          hit := Some(entry.value.reply);
          caches := caches[i := touched];
        } else {
          assert touched[1..] == Lru.Pop(caches[i], key);
          caches := caches[i := Lru.Pop(touched, key)];
        }
      } else {
        assert caches[i := caches[i]] == caches;
      }
    }

    /** The in-flight section of `try_coalesce`: join the running execution or become it. */
    method TryJoin(key: Key) returns (handle: RequestHandle?, rx: Option<Id>)
      requires Valid()
      modifies this`inFlight, this`channels, this`nextId
      ensures Valid()
      ensures View() == JoinOrRegister(old(View()), key).0
      ensures match JoinOrRegister(old(View()), key).1
              case Joined(ch) => handle == null && rx == Some(ch)
              case Registered(id) =>
                rx.None? && handle != null && fresh(handle)
                && handle.key == key && handle.channel == id && !handle.completed
    {
      var i := ShardIndex(key);
      if key in inFlight[i] {
        handle, rx := null, Some(inFlight[i][key]);
      } else {
        var flights: map<Key, Id> := inFlight[i][key := nextId];
        inFlight := inFlight[i := flights];
        channels := channels[nextId := Open];
        rx := None;
        handle := new RequestHandle(key, nextId);
        nextId := nextId + 1;
      }
    }

    /** First half of `complete`: disarm the guard, withdraw the registration and wake the waiters. */
    method NotifyWaiters(handle: RequestHandle, reply: Reply, now: nat) returns (shouldCache: bool)
      requires Valid()
      modifies this`inFlight, this`channels, handle
      ensures Valid() && handle.completed
      ensures View() == TakeFlight(old(View()), handle.key, Some(Lru.Entry(reply, now)))
      ensures shouldCache <==> reply.len <= cfg.maxResponseSize
    {
      handle.completed := true;
      shouldCache := reply.len <= cfg.maxResponseSize;
      var i := ShardIndex(handle.key);
      if handle.key in inFlight[i] {
        channels := channels[inFlight[i][handle.key] := Delivered(Lru.Entry(reply, now))];
        inFlight := inFlight[i := inFlight[i] - {handle.key}];
      }
    }

    /** Second half of `complete`: under the cache lock, and only for a reply within the size cap. */
    method StoreCompleted(handle: RequestHandle, reply: Reply, now: nat, shouldCache: bool)
      requires Valid() && (shouldCache <==> reply.len <= cfg.maxResponseSize)
      modifies this`caches
      ensures Valid()
      ensures View() == if reply.len <= cfg.maxResponseSize
                        then StoreEntry(old(View()), cfg, handle.key, Lru.Entry(reply, now)) else old(View())
      ensures shouldCache ==> Lru.Lookup(caches[handle.key % 32], handle.key) == Some(Lru.Entry(reply, now))
    {
      if shouldCache {
        var i := ShardIndex(handle.key);
        Lru.PutFacts(caches[i], cfg.capacity, handle.key, Lru.Entry(reply, now));
        caches := caches[i := Lru.Put(caches[i], cfg.capacity, handle.key, Lru.Entry(reply, now))];
      }
    }

    method Withdraw(key: Key)
      requires Valid()
      modifies this`inFlight, this`channels
      ensures Valid() && View() == TakeFlight(old(View()), key, None)
    {
      var i := ShardIndex(key);
      if key in inFlight[i] {
        channels := channels[inFlight[i][key] := Closed];
        inFlight := inFlight[i := inFlight[i] - {key}];
      }
    }

    method Cancel(handle: RequestHandle)
      requires Valid()
      modifies this`inFlight, this`channels, handle
      ensures Valid() && handle.completed
      ensures View() == TakeFlight(old(View()), handle.key, None)
    {
      handle.completed := true;
      Withdraw(handle.key);
    }

    /** The drop guard: inert once the handle has been completed or cancelled. */
    method Drop(handle: RequestHandle)
      requires Valid()
      modifies this`inFlight, this`channels
      ensures Valid()
      ensures View() == if handle.completed then old(View()) else TakeFlight(old(View()), handle.key, None)
    {
      if !handle.completed { Withdraw(handle.key); }
    }

    method CleanupShard(i: nat, now: nat) returns (removed: nat)
      requires Valid() && i < NUM_SHARDS
      modifies this`caches
      ensures Valid() && View() == SweepShard(old(View()), cfg, i, now)
      ensures removed == |old(caches)[i]| - |caches[i]| == Stale(old(caches)[i], now, cfg.ttl)
    {
      Lru.SweepFacts(caches[i], now, cfg.ttl);
      var l := PopStale(caches[i], now, cfg.ttl);
      StaleRest(caches[i], now, cfg.ttl);
      removed := |caches[i]| - |l|;
      caches := caches[i := l];
    }

    /** One pass over the shards; `clock[i]` is the time read while shard `i` is locked. */
    method CleanupExpired(clock: seq<nat>) returns (totalRemoved: nat)
      requires Valid() && |clock| == NUM_SHARDS
      modifies this`caches
      ensures Valid()
      ensures forall i :: 0 <= i < NUM_SHARDS ==> caches[i] == Lru.Sweep(old(caches)[i], clock[i], cfg.ttl)
      ensures totalRemoved == StaleTotal(old(caches), clock, cfg.ttl, NUM_SHARDS)
    {
      totalRemoved := 0;
      for i := 0 to NUM_SHARDS
        invariant Valid()
        invariant forall j :: 0 <= j < i ==> caches[j] == Lru.Sweep(old(caches)[j], clock[j], cfg.ttl)
        invariant forall j :: i <= j < NUM_SHARDS ==> caches[j] == old(caches)[j]
        invariant totalRemoved == StaleTotal(old(caches), clock, cfg.ttl, i)
      {
        var removed := CleanupShard(i, clock[i]);
        totalRemoved := totalRemoved + removed;
      }
    }
  }

  /** A stored reply is what the next lookup of its key finds, until its lifetime is over. */
  method StoreThenGet(cache: RequestCache, handle: RequestHandle, reply: Reply, now: nat, later: nat)
    returns (hit: Option<Reply>)
    requires cache.Valid() && reply.len <= cache.cfg.maxResponseSize
    modifies cache`caches
    ensures cache.Valid()
    ensures hit == if cache.cfg.ttl > 0 && later < now + cache.cfg.ttl then Some(reply) else None
  {
    cache.StoreCompleted(handle, reply, now, true);
    hit := cache.Get(handle.key, later);
  }

  /** How many entries of a list are stale. */
  function Stale(l: Lru.Lru, now: nat, ttl: nat): nat {
    if l == [] then 0 else (if l[0].1.createdAt + ttl <= now || ttl == 0 then 1 else 0) + Stale(l[1..], now, ttl)
  }

  function StaleTotal(caches: seq<Lru.Lru>, clock: seq<nat>, ttl: nat, n: nat): nat
    requires n <= |caches| && n <= |clock|
  {
    if n == 0 then 0 else StaleTotal(caches, clock, ttl, n - 1) + Stale(caches[n - 1], clock[n - 1], ttl)
  }

  lemma {:induction false} StaleRest(l: Lru.Lru, now: nat, ttl: nat)
    ensures |Lru.Sweep(l, now, ttl)| + Stale(l, now, ttl) == |l|
  {
    if l != [] { StaleRest(l[1..], now, ttl); }
  }

  function StaleKeys(l: Lru.Lru, now: nat, ttl: nat): seq<Key> {
    if l == [] then []
    else (if Lru.Age(l[0].1, now) >= ttl then [l[0].0] else []) + StaleKeys(l[1..], now, ttl)
  }

  function PopAll(l: Lru.Lru, keys: seq<Key>): Lru.Lru
    decreases |keys|
  {
    if keys == [] then l else PopAll(Lru.Pop(l, keys[0]), keys[1..])
  }

  /** Clean one list the way its type forces: collect the stale keys, then pop each. */
  method PopStale(l: Lru.Lru, now: nat, ttl: nat) returns (kept: Lru.Lru)
    requires Lru.Distinct(l)
    ensures kept == Lru.Sweep(l, now, ttl)
  {
    var stale := CollectStale(l, now, ttl);
    kept := l;
    for n := 0 to |stale|
      invariant PopAll(kept, stale[n..]) == PopAll(l, stale)
    {
      kept := Lru.Pop(kept, stale[n]);
      assert stale[n..][1..] == stale[n + 1..];
    }
    PopStaleIsSweep(l, now, ttl);
  }

  method CollectStale(l: Lru.Lru, now: nat, ttl: nat) returns (stale: seq<Key>)
    ensures stale == StaleKeys(l, now, ttl)
  {
    stale := [];
    for n := 0 to |l|
      invariant stale + StaleKeys(l[n..], now, ttl) == StaleKeys(l, now, ttl)
    {
      assert l[n..][1..] == l[n + 1..];
      if Lru.Age(l[n].1, now) >= ttl { stale := stale + [l[n].0]; }
    }
  }

  lemma {:induction false} PopAllSkips(x: (Key, Entry), t: Lru.Lru, keys: seq<Key>)
    requires x.0 !in keys
    ensures PopAll([x] + t, keys) == [x] + PopAll(t, keys)
    decreases |keys|
  {
    if keys != [] {
      assert ([x] + t)[1..] == t;
      PopAllSkips(x, Lru.Pop(t, keys[0]), keys[1..]);
    }
  }

  lemma {:induction false} StaleAreKeys(l: Lru.Lru, now: nat, ttl: nat)
    ensures forall k :: k in StaleKeys(l, now, ttl) ==> k in Lru.Keys(l)
  {
    if l != [] { StaleAreKeys(l[1..], now, ttl); }
  }

  /** Popping the collected stale keys one by one leaves exactly the fresh entries, in order. */
  lemma {:induction false} PopStaleIsSweep(l: Lru.Lru, now: nat, ttl: nat)
    requires Lru.Distinct(l)
    ensures PopAll(l, StaleKeys(l, now, ttl)) == Lru.Sweep(l, now, ttl)
  {
    if l != [] {
      var stale := StaleKeys(l[1..], now, ttl);
      PopStaleIsSweep(l[1..], now, ttl);
      if Lru.Age(l[0].1, now) >= ttl {
        assert StaleKeys(l, now, ttl)[1..] == stale;
      } else {
        StaleAreKeys(l[1..], now, ttl);
        PopAllSkips(l[0], l[1..], stale);
        assert l == [l[0]] + l[1..];
        assert StaleKeys(l, now, ttl) == stale;
      }
    }
  }
}
