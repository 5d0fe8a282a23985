/** The request-coalescing protocol of the response cache. Every section the source runs under
    one lock is one atomic step; a run is any interleaving of those steps, including futures
    dropped at an await. */
module Singleflight {
  import opened Json
  import Lru
  type Key = Lru.Key
  type Entry = Lru.Entry
  type Reply = Lru.Reply

  const NUM_SHARDS := 32

  type Id = nat

  /** `capacity` is what one shard may hold. */
  datatype Config = Config(ttl: nat, capacity: nat, maxResponseSize: nat)

  // ----- The shared structure and its lock-held sections -----

  /** What a receiver subscribed to a broadcast channel can observe. */
  datatype Channel = Open | Delivered(entry: Entry) | Closed

  /** Both halves of every shard, plus the channels whose senders the in-flight maps own. */
  datatype Core = Core(
    caches: seq<Lru.Lru>,
    inFlight: seq<map<Key, Id>>,
    channels: map<Id, Channel>,
    nextId: Id)

  ghost predicate Shaped(c: Core) {
    |c.caches| == NUM_SHARDS && |c.inFlight| == NUM_SHARDS
  }

  function ShardIndex(k: Key): (i: nat)
    ensures i < NUM_SHARDS
  {
    k % NUM_SHARDS
  }

  function Flight(c: Core, k: Key): Option<Id>
    requires Shaped(c)
  {
    if k in c.inFlight[ShardIndex(k)] then Some(c.inFlight[ShardIndex(k)][k]) else None
  }

  function CheckCache(c: Core, cfg: Config, k: Key, now: nat): (Core, Option<Entry>)
    requires Shaped(c)
  {
    var i := ShardIndex(k);
    var (l, hit) := Lru.Get(c.caches[i], k, now, cfg.ttl);
    (c.(caches := c.caches[i := l]), hit)
  }

  datatype Join = Joined(channel: Id) | Registered(id: Id)

  function JoinOrRegister(c: Core, k: Key): (Core, Join)
    requires Shaped(c)
  {
    var i := ShardIndex(k);
    match Flight(c, k)
    case Some(ch) => (c, Joined(ch))
    case None =>
      var flights: map<Key, Id> := c.inFlight[i][k := c.nextId];
      (c.(inFlight := c.inFlight[i := flights],
          channels := c.channels[c.nextId := Open],
          nextId := c.nextId + 1),
       Registered(c.nextId))
  }

  /** Remove the in-flight entry of `k`; its sender sends `last` (if any) and is dropped. */
  function TakeFlight(c: Core, k: Key, last: Option<Entry>): Core
    requires Shaped(c)
  {
    var i := ShardIndex(k);
    match Flight(c, k)
    case None => c
    case Some(ch) =>
      c.(inFlight := c.inFlight[i := c.inFlight[i] - {k}],
         channels := c.channels[ch := if last.Some? then Delivered(last.value) else Closed])
  }

  function StoreEntry(c: Core, cfg: Config, k: Key, e: Entry): Core
    requires Shaped(c)
  {
    var i := ShardIndex(k);
    c.(caches := c.caches[i := Lru.Put(c.caches[i], cfg.capacity, k, e)])
  }

  function SweepShard(c: Core, cfg: Config, i: nat, now: nat): Core
    requires Shaped(c) && i < NUM_SHARDS
  {
    c.(caches := c.caches[i := Lru.Sweep(c.caches[i], now, cfg.ttl)])
  }

  // ----- The protocol state -----

  datatype Phase = Live | Completed(entry: Entry) | Abandoned

  /** A request handle; its identity is that of the channel created with it. */
  datatype Handle = Handle(key: Key, phase: Phase, putPending: bool)

  /** What `try_coalesce` returned; `source` is the handle whose completion it stems from. */
  datatype Outcome =
    | Cached(reply: Reply, source: Id, age: nat)
    | Coalesced(reply: Reply, source: Id)
    | Execute(handle: Id)

  datatype Pc = AtCache | AtInFlight | Awaiting(channel: Id) | Returned(outcome: Outcome)

  /** One `try_coalesce` call; `lost` lists the channels it saw close without a message. */
  datatype Task = Task(key: Key, pc: Pc, lost: seq<Id>)

  /** `lastPut` records whose value was stored last under each key. */
  datatype State = State(
    cfg: Config,
    clock: nat,
    core: Core,
    handles: map<Id, Handle>,
    tasks: map<nat, Task>,
    lastPut: map<Key, Id>)

  function Init(cfg: Config): State {
    State(cfg, 0,
          Core(seq(NUM_SHARDS, _ => []), seq(NUM_SHARDS, _ => map[]), map[], 0),
          map[], map[], map[])
  }

  datatype Action =
    | Tick(dt: nat)
    | Begin(task: nat, key: Key)
    | DoCheckCache(task: nat)
    | DoJoin(task: nat)
    | Receive(task: nat)
    | DropTask(task: nat)
    | Notify(handle: Id, reply: Reply, stamp: nat)
    | PutCompleted(handle: Id)
    | LosePut(handle: Id)
    | Cancel(handle: Id)
    | DropHandle(handle: Id)
    | Cleanup(shard: nat)

  ghost predicate Enabled(s: State, a: Action)
    requires Shaped(s.core)
  {
    match a
    case Tick(_) => true
    case Begin(t, _) => t !in s.tasks
    case DoCheckCache(t) => t in s.tasks && s.tasks[t].pc.AtCache?
    case DoJoin(t) => t in s.tasks && s.tasks[t].pc.AtInFlight?
    case Receive(t) =>
      && t in s.tasks && s.tasks[t].pc.Awaiting?
      && s.tasks[t].pc.channel in s.core.channels && !s.core.channels[s.tasks[t].pc.channel].Open?
    case DropTask(t) => t in s.tasks && (s.tasks[t].pc.AtCache? || s.tasks[t].pc.Awaiting?)
    case Notify(h, _, stamp) => h in s.handles && s.handles[h].phase.Live? && stamp <= s.clock
    case PutCompleted(h) => h in s.handles && s.handles[h].phase.Completed? && s.handles[h].putPending
    case LosePut(h) => h in s.handles && s.handles[h].phase.Completed? && s.handles[h].putPending
    case Cancel(h) => h in s.handles && s.handles[h].phase.Live?
    case DropHandle(h) => h in s.handles
    case Cleanup(i) => i < NUM_SHARDS
  }

  function SetTask(s: State, t: nat, task: Task): State {
    s.(tasks := s.tasks[t := task])
  }

  function SetHandle(s: State, h: Id, handle: Handle): State {
    s.(handles := s.handles[h := handle])
  }

  /** The effect of a step on the whole state. */
  ghost function Next(s: State, a: Action): State
    requires Shaped(s.core) && Enabled(s, a)
  {
    match a
    case Tick(dt) => s.(clock := s.clock + dt)
    case Begin(t, k) => SetTask(s, t, Task(k, AtCache, []))
    case DoCheckCache(t) =>
      var task := s.tasks[t];
      var (core, hit) := CheckCache(s.core, s.cfg, task.key, s.clock);
      var pc :=
        if hit.Some? && task.key in s.lastPut then
          Returned(Cached(hit.value.reply, s.lastPut[task.key], Lru.Age(hit.value, s.clock)))
        else AtInFlight;
      SetTask(s, t, task.(pc := pc)).(core := core)
    case DoJoin(t) =>
      var task := s.tasks[t];
      var (core, join) := JoinOrRegister(s.core, task.key);
      if join.Joined? then
        SetTask(s, t, task.(pc := Awaiting(join.channel))).(core := core)
      else
        SetTask(Register(s, task.key), t, task.(pc := Returned(Execute(join.id))))
    case Receive(t) =>
      var task := s.tasks[t];
      var ch := task.pc.channel;
      if s.core.channels[ch].Delivered? then
        SetTask(s, t, task.(pc := Returned(Coalesced(s.core.channels[ch].entry.reply, ch))))
      else
        SetTask(s, t, task.(pc := AtCache, lost := task.lost + [ch]))
    case DropTask(t) => s.(tasks := s.tasks - {t})
    case Notify(h, reply, stamp) =>
      var e := Lru.Entry(reply, stamp);
      var k := s.handles[h].key;
      SetHandle(s, h, Handle(k, Completed(e), reply.len <= s.cfg.maxResponseSize))
        .(core := TakeFlight(s.core, k, Some(e)))
    case PutCompleted(h) =>
      var k := s.handles[h].key;
      SetHandle(s, h, s.handles[h].(putPending := false))
        .(core := StoreEntry(s.core, s.cfg, k, s.handles[h].phase.entry), lastPut := s.lastPut[k := h])
    case LosePut(h) => SetHandle(s, h, s.handles[h].(putPending := false))
    case Cancel(h) => Release(s, h)
    case DropHandle(h) => if s.handles[h].phase.Live? then Release(s, h) else s
    case Cleanup(i) => s.(core := SweepShard(s.core, s.cfg, i, s.clock))
  }

  /** A free key gets an executor. */
  function Register(s: State, k: Key): State
    requires Shaped(s.core)
  {
    SetHandle(s, s.core.nextId, Handle(k, Live, false)).(core := JoinOrRegister(s.core, k).0)
  }

  ghost function Release(s: State, h: Id): State
    requires Shaped(s.core) && h in s.handles
  {
    var k := s.handles[h].key;
    SetHandle(s, h, Handle(k, Abandoned, false)).(core := TakeFlight(s.core, k, None))
  }

  // ----- Invariants -----

  ghost predicate ChannelMatches(p: Phase, ch: Channel) {
    match p
    case Live => ch.Open?
    case Completed(e) => ch == Delivered(e)
    case Abandoned => ch.Closed?
  }

  /** A handle's channel shows how it finished; it is registered exactly while it is live. */
  ghost predicate HandleOk(h: Id, handle: Handle, c: Core)
    requires Shaped(c)
  {
    && h < c.nextId && h in c.channels
    && ChannelMatches(handle.phase, c.channels[h])
    && (handle.phase.Live? <==> Flight(c, handle.key) == Some(h))
  }

  ghost predicate RegistrationOk(i: nat, k: Key, h: Id, handles: map<Id, Handle>) {
    ShardIndex(k) == i && h in handles && handles[h].key == k
  }

  /** Handles, channels and in-flight registrations tell the same story. */
  ghost predicate FlightsOk(c: Core, handles: map<Id, Handle>)
    requires Shaped(c)
  {
    && (forall h :: h in handles ==> HandleOk(h, handles[h], c))
    && (forall i :: 0 <= i < NUM_SHARDS ==>
          forall k :: k in c.inFlight[i] ==> RegistrationOk(i, k, c.inFlight[i][k], handles))
  }

  /** `h` is a handle of `k` that completed with `e`. */
  ghost predicate CompletedWith(handles: map<Id, Handle>, h: Id, k: Key, e: Entry) {
    h in handles && handles[h].key == k && handles[h].phase == Completed(e)
  }

  ghost predicate CompletedReply(handles: map<Id, Handle>, h: Id, k: Key, r: Reply) {
    h in handles && handles[h].key == k && handles[h].phase.Completed? && handles[h].phase.entry.reply == r
  }

  ghost predicate EntryOk(i: nat, k: Key, e: Entry, cfg: Config, handles: map<Id, Handle>, lastPut: map<Key, Id>) {
    && ShardIndex(k) == i
    && k in lastPut
    && CompletedWith(handles, lastPut[k], k, e)
    && e.reply.len <= cfg.maxResponseSize
  }

  /** A shard respects its capacity and holds only fitting values last stored under their keys. */
  ghost predicate ShardOk(l: Lru.Lru, i: nat, cfg: Config, handles: map<Id, Handle>, lastPut: map<Key, Id>) {
    && Lru.Valid(l, cfg.capacity)
    && (forall k :: Lru.Lookup(l, k).Some? ==> EntryOk(i, k, Lru.Lookup(l, k).value, cfg, handles, lastPut))
  }

  ghost predicate CachesOk(caches: seq<Lru.Lru>, cfg: Config, handles: map<Id, Handle>, lastPut: map<Key, Id>) {
    && cfg.capacity > 0
    && (forall i :: 0 <= i < |caches| ==> ShardOk(caches[i], i, cfg, handles, lastPut))
  }

  /** Only completions that fit the size cap wait to be stored. */
  ghost predicate PutOk(handle: Handle, cfg: Config) {
    handle.putPending ==> handle.phase.Completed? && handle.phase.entry.reply.len <= cfg.maxResponseSize
  }

  ghost predicate PutsOk(handles: map<Id, Handle>, cfg: Config) {
    forall h :: h in handles ==> PutOk(handles[h], cfg)
  }

  ghost predicate DistinctIds(q: seq<Id>) {
    forall i, j :: 0 <= i < j < |q| ==> q[i] != q[j]
  }

  /** Every channel the call lost belonged to a different abandoned executor of its key. */
  ghost predicate LostOk(task: Task, handles: map<Id, Handle>) {
    && DistinctIds(task.lost)
    && (forall h :: h in task.lost ==> h in handles && handles[h].key == task.key && handles[h].phase.Abandoned?)
  }

  ghost predicate OutcomeOk(o: Outcome, k: Key, ttl: nat, handles: map<Id, Handle>) {
    match o
    case Cached(r, h, age) => CompletedReply(handles, h, k, r) && age < ttl
    case Coalesced(r, h) => CompletedReply(handles, h, k, r)
    case Execute(h) => h in handles && handles[h].key == k
  }

  ghost predicate TaskOk(task: Task, ttl: nat, handles: map<Id, Handle>) {
    && LostOk(task, handles)
    && (task.pc.Awaiting? ==>
          task.pc.channel in handles && handles[task.pc.channel].key == task.key && task.pc.channel !in task.lost)
    && (task.pc.Returned? ==> OutcomeOk(task.pc.outcome, task.key, ttl, handles))
  }

  ghost predicate TasksOk(tasks: map<nat, Task>, ttl: nat, handles: map<Id, Handle>) {
    forall t :: t in tasks ==> TaskOk(tasks[t], ttl, handles)
  }

  ghost predicate Inv(s: State) {
    && Shaped(s.core)
    && FlightsOk(s.core, s.handles)
    && CachesOk(s.core.caches, s.cfg, s.handles, s.lastPut)
    && PutsOk(s.handles, s.cfg)
    && TasksOk(s.tasks, s.cfg.ttl, s.handles)
  }

  // ----- Every step keeps the invariants -----

  /** Later handles: keys never change and a finished handle stays as it finished. */
  ghost predicate Grows(before: map<Id, Handle>, after: map<Id, Handle>) {
    forall h :: h in before ==>
      h in after && after[h].key == before[h].key && (!before[h].phase.Live? ==> after[h].phase == before[h].phase)
  }

  lemma TasksGrow(tasks: map<nat, Task>, ttl: nat, before: map<Id, Handle>, after: map<Id, Handle>)
    requires TasksOk(tasks, ttl, before) && Grows(before, after)
    ensures TasksOk(tasks, ttl, after)
  {
    forall t | t in tasks ensures TaskOk(tasks[t], ttl, after) {
      assert TaskOk(tasks[t], ttl, before);
    }
  }

  lemma CachesGrow(caches: seq<Lru.Lru>, cfg: Config, before: map<Id, Handle>, after: map<Id, Handle>,
                   lastPut: map<Key, Id>)
    requires CachesOk(caches, cfg, before, lastPut) && Grows(before, after)
    ensures CachesOk(caches, cfg, after, lastPut)
  {
    forall i | 0 <= i < |caches| ensures ShardOk(caches[i], i, cfg, after, lastPut) {
      forall k | Lru.Lookup(caches[i], k).Some?
        ensures EntryOk(i, k, Lru.Lookup(caches[i], k).value, cfg, after, lastPut)
      {
        assert EntryOk(i, k, Lru.Lookup(caches[i], k).value, cfg, before, lastPut);
      }
    }
  }

  /** A shard that only forgot is still as it should be. */
  lemma CachesForget(caches: seq<Lru.Lru>, i: nat, l: Lru.Lru, cfg: Config, handles: map<Id, Handle>,
                     lastPut: map<Key, Id>)
    requires CachesOk(caches, cfg, handles, lastPut) && i < |caches|
    requires Lru.Valid(l, cfg.capacity) && Lru.OnlyForgets(caches[i], l, {})
    ensures CachesOk(caches[i := l], cfg, handles, lastPut)
  {
    assert ShardOk(caches[i], i, cfg, handles, lastPut);
    forall k | Lru.Lookup(l, k).Some? ensures EntryOk(i, k, Lru.Lookup(l, k).value, cfg, handles, lastPut) {
      assert Lru.Lookup(l, k) == Lru.Lookup(caches[i], k);
    }
  }

  lemma CachesStore(caches: seq<Lru.Lru>, cfg: Config, handles: map<Id, Handle>, lastPut: map<Key, Id>,
                    h: Id, k: Key, e: Entry)
    requires CachesOk(caches, cfg, handles, lastPut) && |caches| == NUM_SHARDS
    requires CompletedWith(handles, h, k, e) && e.reply.len <= cfg.maxResponseSize
    ensures var i := ShardIndex(k);
            CachesOk(caches[i := Lru.Put(caches[i], cfg.capacity, k, e)], cfg, handles, lastPut[k := h])
  {
    var i := ShardIndex(k);
    var l := Lru.Put(caches[i], cfg.capacity, k, e);
    var caches' := caches[i := l];
    assert ShardOk(caches[i], i, cfg, handles, lastPut);
    Lru.PutFacts(caches[i], cfg.capacity, k, e);
    forall j | 0 <= j < |caches'| ensures ShardOk(caches'[j], j, cfg, handles, lastPut[k := h]) {
      assert ShardOk(caches[j], j, cfg, handles, lastPut);
      forall q | Lru.Lookup(caches'[j], q).Some?
        ensures EntryOk(j, q, Lru.Lookup(caches'[j], q).value, cfg, handles, lastPut[k := h])
      {
        if q != k { assert Lru.Lookup(caches'[j], q) == Lru.Lookup(caches[j], q); }
      }
    }
  }

  /** Registering a free key hands out a handle nobody else holds. */
  lemma RegisterFlights(c: Core, handles: map<Id, Handle>, k: Key)
    requires Shaped(c) && FlightsOk(c, handles) && Flight(c, k).None?
    ensures var (c', j) := JoinOrRegister(c, k);
            && j.Registered? && j.id !in handles && Shaped(c')
            && FlightsOk(c', handles[j.id := Handle(k, Live, false)])
  {
    var (c', j) := JoinOrRegister(c, k);
    var handles' := handles[j.id := Handle(k, Live, false)];
    forall h | h in handles ensures h < c.nextId { assert HandleOk(h, handles[h], c); }
    forall h | h in handles' ensures HandleOk(h, handles'[h], c') {
      if h != j.id {
        assert HandleOk(h, handles[h], c);
        if handles[h].key != k { OtherFlight(c, c', k, c'.inFlight[ShardIndex(k)], handles[h].key); }
      }
    }
  }

  /** Changing the registration of `k` leaves every other key's alone. */
  lemma OtherFlight(c: Core, c': Core, k: Key, flights: map<Key, Id>, other: Key)
    requires Shaped(c) && Shaped(c') && other != k
    requires c'.inFlight == c.inFlight[ShardIndex(k) := flights]
    requires other in flights <==> other in c.inFlight[ShardIndex(k)]
    requires other in flights ==> flights[other] == c.inFlight[ShardIndex(k)][other]
    ensures Flight(c', other) == Flight(c, other)
  {
  }

  /** A live handle that finishes takes out its own registration and nothing else. */
  lemma FinishFlights(c: Core, handles: map<Id, Handle>, h: Id, last: Option<Entry>, after: Handle)
    requires Shaped(c) && FlightsOk(c, handles) && h in handles && handles[h].phase.Live?
    requires after.key == handles[h].key
    requires after.phase == if last.Some? then Completed(last.value) else Abandoned
    ensures var c' := TakeFlight(c, handles[h].key, last);
            Shaped(c') && c'.caches == c.caches && FlightsOk(c', handles[h := after])
  {
    var k := handles[h].key;
    var c' := TakeFlight(c, k, last);
    var handles' := handles[h := after];
    assert HandleOk(h, handles[h], c);
    forall g | g in handles' ensures HandleOk(g, handles'[g], c') {
      if g != h {
        assert HandleOk(g, handles[g], c);
        if handles[g].key != k { OtherFlight(c, c', k, c'.inFlight[ShardIndex(k)], handles[g].key); }
      }
    }
  }

  lemma InitInv(cfg: Config)
    requires cfg.capacity > 0
    ensures Inv(Init(cfg))
  {
  }

  lemma CheckCacheInv(s: State, t: nat)
    requires Inv(s) && Enabled(s, DoCheckCache(t))
    ensures Inv(Next(s, DoCheckCache(t)))
  {
    var s' := Next(s, DoCheckCache(t));
    var k := s.tasks[t].key;
    var i := ShardIndex(k);
    assert ShardOk(s.core.caches[i], i, s.cfg, s.handles, s.lastPut);
    Lru.GetFacts(s.core.caches[i], s.cfg.capacity, k, s.clock, s.cfg.ttl);
    CachesForget(s.core.caches, i, s'.core.caches[i], s.cfg, s.handles, s.lastPut);
    FlightsIgnoreCaches(s.core, s'.core, s.handles);
    assert TaskOk(s.tasks[t], s.cfg.ttl, s.handles);
    assert LostOk(s'.tasks[t], s.handles);
    assert TaskOk(s'.tasks[t], s.cfg.ttl, s.handles);
  }

  /** A step that moves only registrations and handles keeps the rest. */
  lemma GrowInv(s: State, s': State)
    requires Inv(s) && Shaped(s'.core)
    requires s' == s.(core := s'.core, handles := s'.handles) && s'.core.caches == s.core.caches
    requires FlightsOk(s'.core, s'.handles) && Grows(s.handles, s'.handles) && PutsOk(s'.handles, s.cfg)
    ensures Inv(s')
  {
    TasksGrow(s.tasks, s.cfg.ttl, s.handles, s'.handles);
    CachesGrow(s.core.caches, s.cfg, s.handles, s'.handles, s.lastPut);
  }

  lemma RegisterInv(s: State, t: nat)
    requires Inv(s) && Enabled(s, DoJoin(t)) && Flight(s.core, s.tasks[t].key).None?
    ensures Inv(Next(s, DoJoin(t)))
  {
    var task := s.tasks[t];
    RegisterKeeps(s, task.key);
    var s1 := Register(s, task.key);
    RegisteredTask(task, s.core.nextId, s.cfg.ttl, s1.handles);
  }

  lemma RegisterKeeps(s: State, k: Key)
    requires Inv(s) && Flight(s.core, k).None?
    ensures Inv(Register(s, k)) && s.core.nextId !in s.handles
  {
    RegisterFlights(s.core, s.handles, k);
    GrowInv(s, Register(s, k));
  }

  lemma RegisteredTask(task: Task, h: Id, ttl: nat, handles: map<Id, Handle>)
    requires TaskOk(task, ttl, handles) && h in handles && handles[h].key == task.key
    ensures TaskOk(task.(pc := Returned(Execute(h))), ttl, handles)
  {
  }

  /** Joining subscribes to the one live executor, which cannot be among those already lost. */
  lemma JoinInv(s: State, t: nat)
    requires Inv(s) && Enabled(s, DoJoin(t)) && Flight(s.core, s.tasks[t].key).Some?
    ensures Inv(Next(s, DoJoin(t)))
  {
    var s' := Next(s, DoJoin(t));
    var k := s.tasks[t].key;
    var ch := Flight(s.core, k).value;
    assert TaskOk(s.tasks[t], s.cfg.ttl, s.handles);
    assert RegistrationOk(ShardIndex(k), k, ch, s.handles);
    assert HandleOk(ch, s.handles[ch], s.core);
    assert LostOk(s'.tasks[t], s.handles);
    assert TaskOk(s'.tasks[t], s.cfg.ttl, s.handles);
  }

  lemma ReceiveInv(s: State, t: nat)
    requires Inv(s) && Enabled(s, Receive(t))
    ensures Inv(Next(s, Receive(t)))
  {
    var s' := Next(s, Receive(t));
    var ch := s.tasks[t].pc.channel;
    assert TaskOk(s.tasks[t], s.cfg.ttl, s.handles);
    assert HandleOk(ch, s.handles[ch], s.core);
    assert LostOk(s'.tasks[t], s.handles);
    assert TaskOk(s'.tasks[t], s.cfg.ttl, s'.handles);
  }

  lemma FinishInv(s: State, h: Id, last: Option<Entry>, after: Handle)
    requires Inv(s) && h in s.handles && s.handles[h].phase.Live?
    requires after.key == s.handles[h].key
    requires after.phase == if last.Some? then Completed(last.value) else Abandoned
    requires after.putPending ==> last.Some? && last.value.reply.len <= s.cfg.maxResponseSize
    ensures Inv(SetHandle(s, h, after).(core := TakeFlight(s.core, s.handles[h].key, last)))
  {
    var s' := SetHandle(s, h, after).(core := TakeFlight(s.core, s.handles[h].key, last));
    FinishFlights(s.core, s.handles, h, last, after);
    GrowInv(s, s');
  }

  lemma FlightsEndPut(c: Core, handles: map<Id, Handle>, h: Id, after: Handle)
    requires Shaped(c) && FlightsOk(c, handles) && h in handles
    requires after.key == handles[h].key && after.phase == handles[h].phase
    ensures FlightsOk(c, handles[h := after])
  {
  }

  lemma EndPutInv(s: State, h: Id)
    requires Inv(s) && h in s.handles && s.handles[h].phase.Completed?
    ensures Inv(SetHandle(s, h, s.handles[h].(putPending := false)))
  {
    var s' := SetHandle(s, h, s.handles[h].(putPending := false));
    FlightsEndPut(s.core, s.handles, h, s'.handles[h]);
    GrowInv(s, s');
  }

  lemma PutInv(s: State, h: Id)
    requires Inv(s) && Enabled(s, PutCompleted(h))
    ensures Inv(Next(s, PutCompleted(h)))
  {
    var s' := Next(s, PutCompleted(h));
    assert PutOk(s.handles[h], s.cfg);
    EndPutInv(s, h);
    CachesStore(s.core.caches, s.cfg, s'.handles, s.lastPut, h, s.handles[h].key, s.handles[h].phase.entry);
    FlightsIgnoreCaches(s.core, s'.core, s'.handles);
  }

  lemma FlightsIgnoreCaches(c: Core, c': Core, handles: map<Id, Handle>)
    requires Shaped(c) && Shaped(c') && FlightsOk(c, handles)
    requires c' == c.(caches := c'.caches)
    ensures FlightsOk(c', handles)
  {
    forall h | h in handles ensures HandleOk(h, handles[h], c') { assert HandleOk(h, handles[h], c); }
  }

  lemma CleanupInv(s: State, i: nat)
    requires Inv(s) && i < NUM_SHARDS
    ensures Inv(Next(s, Cleanup(i)))
  {
    var s' := Next(s, Cleanup(i));
    assert ShardOk(s.core.caches[i], i, s.cfg, s.handles, s.lastPut);
    Lru.SweepFacts(s.core.caches[i], s.clock, s.cfg.ttl);
    CachesForget(s.core.caches, i, s'.core.caches[i], s.cfg, s.handles, s.lastPut);
    FlightsIgnoreCaches(s.core, s'.core, s.handles);
  }

  lemma NewTaskOk(k: Key, ttl: nat, handles: map<Id, Handle>)
    ensures TaskOk(Task(k, AtCache, []), ttl, handles)
  {
  }

  /** Every step of the protocol keeps every invariant. */
  lemma StepInv(s: State, a: Action)
    requires Inv(s) && Enabled(s, a)
    ensures Inv(Next(s, a))
  {
    match a
    case Tick(_) =>
    case Begin(t, k) => NewTaskOk(k, s.cfg.ttl, s.handles);
    case DoCheckCache(t) => CheckCacheInv(s, t);
    case DoJoin(t) => if Flight(s.core, s.tasks[t].key).None? { RegisterInv(s, t); } else { JoinInv(s, t); }
    case Receive(t) => ReceiveInv(s, t);
    case DropTask(_) =>
    case Notify(h, r, stamp) =>
      FinishInv(s, h, Some(Lru.Entry(r, stamp)),
                Handle(s.handles[h].key, Completed(Lru.Entry(r, stamp)), r.len <= s.cfg.maxResponseSize));
    case PutCompleted(h) => PutInv(s, h);
    case LosePut(h) => EndPutInv(s, h);
    case Cancel(h) => FinishInv(s, h, None, Handle(s.handles[h].key, Abandoned, false));
    case DropHandle(h) =>
      if s.handles[h].phase.Live? { FinishInv(s, h, None, Handle(s.handles[h].key, Abandoned, false)); }
    case Cleanup(i) => CleanupInv(s, i);
  }
}
