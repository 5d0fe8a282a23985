/** What the coalescing protocol guarantees over every run, whatever the interleaving. */
module Coalescing {
  import opened Json
  import Lru
  import opened Singleflight

  /** A run from the empty cache: `states[i + 1]` follows `states[i]` by `acts[i]`. */
  ghost predicate IsRun(cfg: Config, states: seq<State>, acts: seq<Action>) {
    && cfg.capacity > 0
    && |states| == |acts| + 1 && states[0] == Init(cfg)
    && (forall i :: 0 <= i < |acts| ==> IsStep(states[i], acts[i], states[i + 1]))
  }

  ghost predicate IsStep(s: State, a: Action, s': State) {
    Shaped(s.core) && Enabled(s, a) && s' == Next(s, a)
  }

  lemma {:induction false} RunInv(cfg: Config, states: seq<State>, acts: seq<Action>, i: nat)
    requires IsRun(cfg, states, acts) && i < |states|
    ensures Inv(states[i]) && states[i].cfg == cfg
  {
    if i == 0 {
      InitInv(cfg);
    } else {
      RunInv(cfg, states, acts, i - 1);
      assert IsStep(states[i - 1], acts[i - 1], states[i]);
      StepInv(states[i - 1], acts[i - 1]);
    }
  }

  ghost predicate IsLive(s: State, h: Id, k: Key) {
    h in s.handles && s.handles[h].key == k && s.handles[h].phase.Live?
  }

  /** At any moment a key has at most one unfinished handle, and the in-flight map holds the key
      exactly when there is one, registered to that very handle. */
  lemma SingleExecutor(cfg: Config, states: seq<State>, acts: seq<Action>, i: nat, k: Key)
    requires IsRun(cfg, states, acts) && i < |states|
    ensures Shaped(states[i].core)
    ensures forall g: Id, h: Id :: IsLive(states[i], g, k) && IsLive(states[i], h, k) ==> g == h
    ensures Flight(states[i].core, k).Some? <==> exists h: Id :: IsLive(states[i], h, k)
    ensures forall h: Id :: IsLive(states[i], h, k) ==> Flight(states[i].core, k) == Some(h)
  {
    var s := states[i];
    RunInv(cfg, states, acts, i);
    forall h: Id | IsLive(s, h, k) ensures Flight(s.core, k) == Some(h) {
      assert HandleOk(h, s.handles[h], s.core);
    }
    if Flight(s.core, k).Some? {
      var h := Flight(s.core, k).value;
      assert RegistrationOk(ShardIndex(k), k, h, s.handles);
      assert HandleOk(h, s.handles[h], s.core);
      assert IsLive(s, h, k);
    }
  }

  /** The handle an action finishes, if any. */
  function Finishes(a: Action): Option<Id> {
    match a
    case Notify(h, _, _) => Some(h)
    case Cancel(h) => Some(h)
    case DropHandle(h) => Some(h)
    case _ => None
  }

  lemma FinishKeepsOthers(s: State, a: Action, k: Key, h: Id)
    requires Inv(s) && Enabled(s, a) && Finishes(a).Some? && Flight(s.core, k) == Some(h)
    ensures Shaped(Next(s, a).core)
    ensures Flight(Next(s, a).core, k) == Some(h) || Finishes(a) == Some(h)
  {
    var g := Finishes(a).value;
    var j := s.handles[g].key;
    assert HandleOk(g, s.handles[g], s.core);
    if s.handles[g].phase.Live? && j != k {
      var c' := Next(s, a).core;
      OtherFlight(s.core, c', j, c'.inFlight[ShardIndex(j)], k);
    }
  }

  lemma JoinKeepsOthers(s: State, t: nat, k: Key, h: Id)
    requires Inv(s) && Enabled(s, DoJoin(t)) && Flight(s.core, k) == Some(h)
    ensures Shaped(Next(s, DoJoin(t)).core) && Flight(Next(s, DoJoin(t)).core, k) == Some(h)
  {
    var j := s.tasks[t].key;
    var (c', _) := JoinOrRegister(s.core, j);
    if j != k { OtherFlight(s.core, c', j, c'.inFlight[ShardIndex(j)], k); }
  }

  /** An in-flight entry disappears only when its own executor finishes: no handle ever removes
      the registration of another. */
  lemma RemovesOnlyOwn(cfg: Config, states: seq<State>, acts: seq<Action>, i: nat, k: Key, h: Id)
    requires IsRun(cfg, states, acts) && i < |acts|
    requires Shaped(states[i].core) && Flight(states[i].core, k) == Some(h)
    ensures Shaped(states[i + 1].core)
    ensures Flight(states[i + 1].core, k) == Some(h) || Finishes(acts[i]) == Some(h)
  {
    RunInv(cfg, states, acts, i);
    assert IsStep(states[i], acts[i], states[i + 1]);
    StepRemovesOnlyOwn(states[i], acts[i], k, h);
  }

  lemma StepRemovesOnlyOwn(s: State, a: Action, k: Key, h: Id)
    requires Inv(s) && Enabled(s, a) && Flight(s.core, k) == Some(h)
    ensures Shaped(Next(s, a).core)
    ensures Flight(Next(s, a).core, k) == Some(h) || Finishes(a) == Some(h)
  {
    if Finishes(a).Some? {
      FinishKeepsOthers(s, a, k, h);
    } else if a.DoJoin? {
      JoinKeepsOthers(s, a.task, k, h);
    }
  }

  /** No wake-up is lost: a blocked waiter's channel either has its sender still registered under
      a live executor of the waiter's key, or the waiter can proceed - with the message if that
      executor completed, by retrying if it was abandoned. */
  lemma NoLostWakeup(cfg: Config, states: seq<State>, acts: seq<Action>, i: nat, t: nat)
    requires IsRun(cfg, states, acts) && i < |states|
    requires t in states[i].tasks && states[i].tasks[t].pc.Awaiting?
    ensures Shaped(states[i].core)
    ensures var s, task := states[i], states[i].tasks[t];
            var ch := task.pc.channel;
            && ch in s.handles
            && (IsLive(s, ch, task.key) <==> !Enabled(s, Receive(t)))
            && (IsLive(s, ch, task.key) ==> Flight(s.core, task.key) == Some(ch) && Enabled(s, Cancel(ch)))
            && (s.handles[ch].phase.Completed? ==>
                  Next(s, Receive(t)).tasks[t].pc == Returned(Coalesced(s.handles[ch].phase.entry.reply, ch)))
            && (s.handles[ch].phase.Abandoned? ==>
                  Next(s, Receive(t)).tasks[t] == Task(task.key, AtCache, task.lost + [ch]))
  {
    var s := states[i];
    RunInv(cfg, states, acts, i);
    assert TaskOk(s.tasks[t], cfg.ttl, s.handles);
    var ch := s.tasks[t].pc.channel;
    assert HandleOk(ch, s.handles[ch], s.core);
  }

  /** Finishing an executor at any moment leaves every waiter on it able to proceed at once. */
  lemma FinishWakes(cfg: Config, states: seq<State>, acts: seq<Action>, i: nat, t: nat)
    requires IsRun(cfg, states, acts) && i < |acts|
    requires t in states[i].tasks && states[i].tasks[t].pc.Awaiting?
    requires Finishes(acts[i]) == Some(states[i].tasks[t].pc.channel)
    ensures Shaped(states[i + 1].core) && Enabled(states[i + 1], Receive(t))
  {
    assert IsStep(states[i], acts[i], states[i + 1]);
    FinishedIsNotLive(states[i], acts[i], t);
    NoLostWakeup(cfg, states, acts, i + 1, t);
  }

  lemma FinishedIsNotLive(s: State, a: Action, t: nat)
    requires Shaped(s.core) && Enabled(s, a) && t in s.tasks && s.tasks[t].pc.Awaiting?
    requires Finishes(a) == Some(s.tasks[t].pc.channel)
    ensures var s' := Next(s, a);
            && s'.tasks == s.tasks && s.tasks[t].pc.channel in s'.handles
            && !s'.handles[s.tasks[t].pc.channel].phase.Live?
  {
  }

  /** A call's key is the one it began with. */
  lemma StepTaskKey(s: State, a: Action, t: nat)
    requires Shaped(s.core) && Enabled(s, a) && t in Next(s, a).tasks
    ensures (a.Begin? && a.task == t && Next(s, a).tasks[t].key == a.key)
            || (!(a.Begin? && a.task == t) && t in s.tasks && Next(s, a).tasks[t].key == s.tasks[t].key)
  {
  }

  /** Actions of a handle. */
  predicate ByHandle(a: Action) {
    a.Notify? || a.PutCompleted? || a.LosePut? || a.Cancel? || a.DropHandle?
  }

  /** Registering adds a live handle; an action of a handle changes that handle only, and not its key; no
      other action touches a handle. */
  lemma StepHandles(s: State, a: Action)
    requires Shaped(s.core) && Enabled(s, a)
    ensures a.DoJoin? ==>
      Next(s, a).handles == if Flight(s.core, s.tasks[a.task].key).Some? then s.handles
                            else s.handles[s.core.nextId := Handle(s.tasks[a.task].key, Live, false)]
    ensures ByHandle(a) ==> a.handle in s.handles && a.handle in Next(s, a).handles
    ensures ByHandle(a) ==> Next(s, a).handles == s.handles[a.handle := Next(s, a).handles[a.handle]]
    ensures ByHandle(a) ==> Next(s, a).handles[a.handle].key == s.handles[a.handle].key
    ensures !a.DoJoin? && !ByHandle(a) ==> Next(s, a).handles == s.handles
  {
    match a
    case PutCompleted(h) =>
    case LosePut(h) =>
    case DropHandle(h) => assert s.handles == s.handles[h := s.handles[h]];
    case _ =>
  }

  /** How an action changes its handle's phase. */
  lemma StepPhase(s: State, a: Action)
    requires Shaped(s.core) && Enabled(s, a) && ByHandle(a)
    ensures a.handle in s.handles && a.handle in Next(s, a).handles
    ensures var p, p' := s.handles[a.handle].phase, Next(s, a).handles[a.handle].phase;
            match a
            case Notify(_, reply, stamp) => p' == Completed(Lru.Entry(reply, stamp))
            case Cancel(_) => p' == Abandoned
            case DropHandle(_) => p' == if p.Live? then Abandoned else p
            case _ => p' == p
  {
  }

  /** A handle's key is that of the call that registered it. */
  lemma StepHandleKey(s: State, a: Action, h: Id)
    requires Inv(s) && Enabled(s, a) && h in Next(s, a).handles
    ensures (a.DoJoin? && Flight(s.core, s.tasks[a.task].key).None? && h == s.core.nextId
               && Next(s, a).handles[h] == Handle(s.tasks[a.task].key, Live, false))
            || (h in s.handles && h < s.core.nextId && Next(s, a).handles[h].key == s.handles[h].key)
  {
    StepHandles(s, a);
    if h in s.handles { assert HandleOk(h, s.handles[h], s.core); }
  }

  lemma StepCompletion(s: State, a: Action, h: Id)
    requires Inv(s) && Enabled(s, a)
    requires h in Next(s, a).handles && Next(s, a).handles[h].phase.Completed?
    ensures a.Notify? && a.handle == h ==> Next(s, a).handles[h].phase == Completed(Lru.Entry(a.reply, a.stamp))
    ensures !(a.Notify? && a.handle == h) ==> h in s.handles && s.handles[h].phase == Next(s, a).handles[h].phase
  {
    StepHandles(s, a);
    if ByHandle(a) { StepPhase(s, a); }
  }

  /** A completed handle was completed by a `complete` call made in the run with that very reply. */
  lemma {:induction false} CompletionOrigin(cfg: Config, states: seq<State>, acts: seq<Action>, i: nat, h: Id)
    requires IsRun(cfg, states, acts) && i < |states|
    requires h in states[i].handles && states[i].handles[h].phase.Completed?
    ensures var e := states[i].handles[h].phase.entry;
            exists j :: 0 <= j < i && acts[j] == Notify(h, e.reply, e.createdAt)
  {
    assert i > 0;
    var a := acts[i - 1];
    assert IsStep(states[i - 1], a, states[i]);
    RunInv(cfg, states, acts, i - 1);
    StepCompletion(states[i - 1], a, h);
    var e := states[i].handles[h].phase.entry;
    if a.Notify? && a.handle == h {
      assert acts[i - 1] == Notify(h, e.reply, e.createdAt);
    } else {
      CompletionOrigin(cfg, states, acts, i - 1, h);
    }
  }

  /** A coalesced answer is exactly the body, status and headers passed to `complete` for the
      executor that call subscribed to, an executor of the same key. */
  lemma CoalescedReply(cfg: Config, states: seq<State>, acts: seq<Action>, i: nat, t: nat)
    requires IsRun(cfg, states, acts) && i < |states| && t in states[i].tasks
    requires states[i].tasks[t].pc.Returned? && states[i].tasks[t].pc.outcome.Coalesced?
    ensures var o := states[i].tasks[t].pc.outcome;
            && o.source in states[i].handles && states[i].handles[o.source].key == states[i].tasks[t].key
            && exists j, stamp :: 0 <= j < i && acts[j] == Notify(o.source, o.reply, stamp)
  {
    RunInv(cfg, states, acts, i);
    assert TaskOk(states[i].tasks[t], cfg.ttl, states[i].handles);
    CompletionOrigin(cfg, states, acts, i, states[i].tasks[t].pc.outcome.source);
  }

  // ----- The retry loop -----

  /** How often call `t` looked into the cache between moments `lo` and `hi`. */
  function Checks(acts: seq<Action>, lo: nat, hi: nat, t: nat): nat
    requires lo <= hi <= |acts|
  {
    if lo == hi then 0 else Checks(acts, lo, hi - 1, t) + if acts[hi - 1] == DoCheckCache(t) then 1 else 0
  }

  predicate IsAbandoned(s: State, h: Id) {
    h in s.handles && s.handles[h].phase.Abandoned?
  }

  /** The executors of `k` that were cancelled or dropped between two moments. */
  ghost function AbandonedSince(before: State, after: State, k: Key): set<Id> {
    set h | h in after.handles && after.handles[h].key == k && IsAbandoned(after, h) && !IsAbandoned(before, h)
  }

  lemma StepAbandoned(s: State, a: Action, h: Id)
    requires Inv(s) && Enabled(s, a) && IsAbandoned(s, h)
    ensures IsAbandoned(Next(s, a), h)
  {
    StepHandles(s, a);
    assert HandleOk(h, s.handles[h], s.core);
    if ByHandle(a) { StepPhase(s, a); }
  }

  lemma OneStepAbandoned(cfg: Config, states: seq<State>, acts: seq<Action>, i: nat, h: Id)
    requires IsRun(cfg, states, acts) && i < |acts| && IsAbandoned(states[i], h)
    ensures IsAbandoned(states[i + 1], h)
  {
    RunInv(cfg, states, acts, i);
    assert IsStep(states[i], acts[i], states[i + 1]);
    StepAbandoned(states[i], acts[i], h);
  }

  lemma {:induction false} StaysAbandoned(cfg: Config, states: seq<State>, acts: seq<Action>, b: nat, i: nat, h: Id)
    requires IsRun(cfg, states, acts) && b <= i < |states| && IsAbandoned(states[b], h)
    ensures IsAbandoned(states[i], h)
    decreases i
  {
    if b < i {
      StaysAbandoned(cfg, states, acts, b, i - 1, h);
      OneStepAbandoned(cfg, states, acts, i - 1, h);
    }
  }

  /** The executors a call has waited for. */
  function WaitedFor(task: Task): set<Id> {
    (set x | x in task.lost) + if task.pc.Awaiting? then {task.pc.channel} else {}
  }

  /** A call waits for a new executor only by joining the registered one. */
  lemma StepWaits(s: State, a: Action, t: nat, x: Id)
    requires Shaped(s.core) && Enabled(s, a) && t in s.tasks && a != DropTask(t)
    requires t in Next(s, a).tasks && x in WaitedFor(Next(s, a).tasks[t])
    ensures x in WaitedFor(s.tasks[t]) || (a == DoJoin(t) && Flight(s.core, s.tasks[t].key) == Some(x))
  {
  }

  lemma RegisteredIsLive(s: State, k: Key, h: Id)
    requires Inv(s) && Flight(s.core, k) == Some(h)
    ensures !IsAbandoned(s, h)
  {
    assert RegistrationOk(ShardIndex(k), k, h, s.handles);
    assert HandleOk(h, s.handles[h], s.core);
  }

  /** Every executor a call has waited for was still unabandoned when the call began. */
  lemma {:induction false} WaitedAreLater(cfg: Config, states: seq<State>, acts: seq<Action>, b: nat, i: nat, t: nat, k: Key, x: Id)
    requires IsRun(cfg, states, acts) && b < i < |states| && acts[b] == Begin(t, k)
    requires forall j :: b < j < i ==> acts[j] != DropTask(t)
    requires t in states[i].tasks && x in WaitedFor(states[i].tasks[t])
    ensures !IsAbandoned(states[b], x)
    decreases i
  {
    assert IsStep(states[i - 1], acts[i - 1], states[i]);
    if i == b + 1 {
      BeginTask(states[b], t, k);
    } else {
      ChecksAreIterations(cfg, states, acts, b, i - 1, t, k);
      StepWaits(states[i - 1], acts[i - 1], t, x);
      if x in WaitedFor(states[i - 1].tasks[t]) {
        WaitedAreLater(cfg, states, acts, b, i - 1, t, k, x);
      } else {
        RunInv(cfg, states, acts, i - 1);
        RegisteredIsLive(states[i - 1], states[i - 1].tasks[t].key, x);
        if IsAbandoned(states[b], x) { StaysAbandoned(cfg, states, acts, b, i - 1, x); }
      }
    }
  }

  /** Loop iterations begun: one per lost executor, plus one once the cache has been checked. */
  function Progress(task: Task): nat {
    |task.lost| + if task.pc.AtCache? then 0 else 1
  }

  /** Between the moment a call starts and moment `i`, its cache checks are its loop iterations. */
  lemma {:induction false} ChecksAreIterations(cfg: Config, states: seq<State>, acts: seq<Action>, b: nat, i: nat, t: nat, k: Key)
    requires IsRun(cfg, states, acts) && b < i < |states| && acts[b] == Begin(t, k)
    requires forall j :: b < j < i ==> acts[j] != DropTask(t)
    ensures t in states[i].tasks && states[i].tasks[t].key == k
    ensures Checks(acts, b + 1, i, t) == Progress(states[i].tasks[t])
  {
    assert IsStep(states[i - 1], acts[i - 1], states[i]);
    if i == b + 1 {
      BeginTask(states[b], t, k);
    } else {
      ChecksAreIterations(cfg, states, acts, b, i - 1, t, k);
      StepProgress(states[i - 1], acts[i - 1], t);
    }
  }

  lemma BeginTask(s: State, t: nat, k: Key)
    requires Shaped(s.core) && Enabled(s, Begin(t, k))
    ensures t in Next(s, Begin(t, k)).tasks && Next(s, Begin(t, k)).tasks[t] == Task(k, AtCache, [])
  {
  }

  lemma StepProgress(s: State, a: Action, t: nat)
    requires Shaped(s.core) && Enabled(s, a) && t in s.tasks && a != DropTask(t)
    ensures t in Next(s, a).tasks && Next(s, a).tasks[t].key == s.tasks[t].key
    ensures Progress(Next(s, a).tasks[t]) == Progress(s.tasks[t]) + if a == DoCheckCache(t) then 1 else 0
  {
  }

  lemma {:induction false} DistinctFits(q: seq<Id>, ids: set<Id>)
    requires DistinctIds(q) && forall x :: x in q ==> x in ids
    ensures |q| <= |ids|
  {
    if q != [] {
      var last := q[|q| - 1];
      var rest := q[..|q| - 1];
      forall x | x in rest ensures x in ids - {last} {
        var n :| 0 <= n < |rest| && rest[n] == x;
        assert q[n] == x;
      }
      DistinctFits(rest, ids - {last});
      assert last in q;
    }
  }

  /** The retry loop terminates: every iteration after the first is paid for by a different executor of
      the same key that was cancelled or dropped since the call began. */
  lemma RetryBound(cfg: Config, states: seq<State>, acts: seq<Action>, b: nat, i: nat, t: nat, k: Key)
    requires IsRun(cfg, states, acts) && b < i < |states| && acts[b] == Begin(t, k)
    requires forall j :: b < j < i ==> acts[j] != DropTask(t)
    ensures Checks(acts, b + 1, i, t) <= |AbandonedSince(states[b], states[i], k)| + 1
  {
    ChecksAreIterations(cfg, states, acts, b, i, t, k);
    RunInv(cfg, states, acts, i);
    var lost := states[i].tasks[t].lost;
    assert TaskOk(states[i].tasks[t], cfg.ttl, states[i].handles);
    forall x | x in lost ensures x in AbandonedSince(states[b], states[i], k) {
      assert x in WaitedFor(states[i].tasks[t]);
      WaitedAreLater(cfg, states, acts, b, i, t, k, x);
    }
    DistinctFits(lost, AbandonedSince(states[b], states[i], k));
  }

  // ----- The sharded LRU/TTL store against one plain map -----

  /** What the cache would answer for `k`, expiry aside. */
  function Stored(s: State, k: Key): Option<Lru.Entry>
    requires Shaped(s.core)
  {
    Lru.Lookup(s.core.caches[ShardIndex(k)], k)
  }

  /** The plain map: the handle whose value the run stored last under `k` before moment `i`. */
  ghost function LastStored(states: seq<State>, acts: seq<Action>, i: nat, k: Key): Option<Id>
    requires i <= |acts| < |states|
  {
    if i == 0 then None
    else if acts[i - 1].PutCompleted? && acts[i - 1].handle in states[i - 1].handles
            && states[i - 1].handles[acts[i - 1].handle].key == k then Some(acts[i - 1].handle)
    else LastStored(states, acts, i - 1, k)
  }

  lemma StepLastPut(s: State, a: Action)
    requires Shaped(s.core) && Enabled(s, a)
    ensures Next(s, a).lastPut == if a.PutCompleted? then s.lastPut[s.handles[a.handle].key := a.handle] else s.lastPut
  {
  }

  lemma {:induction false} LastPutTracksRun(cfg: Config, states: seq<State>, acts: seq<Action>, i: nat, k: Key)
    requires IsRun(cfg, states, acts) && i < |states|
    ensures LastStored(states, acts, i, k) == if k in states[i].lastPut then Some(states[i].lastPut[k]) else None
  {
    if i > 0 {
      assert IsStep(states[i - 1], acts[i - 1], states[i]);
      LastPutTracksRun(cfg, states, acts, i - 1, k);
      StepLastPut(states[i - 1], acts[i - 1]);
    }
  }

  /** The store refines the plain map: whatever any shard holds for `k` sits in shard `k mod 32`,
      is the value stored last under `k`, and fits the size cap; no shard exceeds its capacity. */
  lemma StoreRefinesMap(cfg: Config, states: seq<State>, acts: seq<Action>, i: nat, shard: nat, k: Key)
    requires IsRun(cfg, states, acts) && i < |states| && shard < NUM_SHARDS
    ensures Shaped(states[i].core) && |states[i].core.caches[shard]| <= cfg.capacity
    ensures Lru.Lookup(states[i].core.caches[shard], k).Some? ==>
      var e := Lru.Lookup(states[i].core.caches[shard], k).value;
      && shard == k % 32
      && e.reply.len <= cfg.maxResponseSize
      && LastStored(states, acts, i, k).Some?
      && CompletedWith(states[i].handles, LastStored(states, acts, i, k).value, k, e)
  {
    RunInv(cfg, states, acts, i);
    LastPutTracksRun(cfg, states, acts, i, k);
    assert ShardOk(states[i].core.caches[shard], shard, cfg, states[i].handles, states[i].lastPut);
  }

  /** A cache hit is younger than the TTL and is the reply a `complete` call of the same key gave,
      the one stored last when the cache was checked. */
  lemma HitIsLastStored(cfg: Config, states: seq<State>, acts: seq<Action>, i: nat, t: nat)
    requires IsRun(cfg, states, acts) && i < |acts| && acts[i] == DoCheckCache(t)
    ensures Shaped(states[i].core) && t in states[i].tasks && t in states[i + 1].tasks
    ensures var k, pc := states[i].tasks[t].key, states[i + 1].tasks[t].pc;
            && (pc.AtInFlight? <==>
                  Stored(states[i], k).None? || Lru.Age(Stored(states[i], k).value, states[i].clock) >= cfg.ttl)
            && (!pc.AtInFlight? ==>
                  && Stored(states[i], k).Some?
                  && pc == Returned(Cached(Stored(states[i], k).value.reply, states[i].lastPut[k],
                                           Lru.Age(Stored(states[i], k).value, states[i].clock)))
                  && LastStored(states, acts, i, k) == Some(pc.outcome.source)
                  && exists j, stamp :: 0 <= j < i && acts[j] == Notify(pc.outcome.source, pc.outcome.reply, stamp))
  {
    var s := states[i];
    assert IsStep(s, acts[i], states[i + 1]);
    RunInv(cfg, states, acts, i);
    var k := s.tasks[t].key;
    assert ShardOk(s.core.caches[ShardIndex(k)], ShardIndex(k), cfg, s.handles, s.lastPut);
    Lru.GetFacts(s.core.caches[ShardIndex(k)], cfg.capacity, k, s.clock, cfg.ttl);
    LastPutTracksRun(cfg, states, acts, i, k);
    if Stored(s, k).Some? {
      CompletionOrigin(cfg, states, acts, i, s.lastPut[k]);
    }
  }

  /** Replacing a shard by one that only forgot keeps or forgets what is held for `k`. */
  lemma ShardOnlyForgets(s: State, c': Core, i: nat, except: set<Key>, k: Key)
    requires Shaped(s.core) && Shaped(c') && i < NUM_SHARDS && k !in except
    requires c'.caches == s.core.caches[i := c'.caches[i]]
    requires Lru.OnlyForgets(s.core.caches[i], c'.caches[i], except)
    ensures Stored(s.(core := c'), k).Some? ==> Stored(s.(core := c'), k) == Stored(s, k)
  {
  }

  lemma StepOnlyForgets(s: State, a: Action, k: Key)
    requires Inv(s) && Enabled(s, a) && (a.PutCompleted? ==> s.handles[a.handle].key != k)
    ensures Shaped(Next(s, a).core)
    ensures Stored(Next(s, a), k).Some? ==> Stored(Next(s, a), k) == Stored(s, k)
  {
    var c' := Next(s, a).core;
    match a
    case DoCheckCache(t) =>
      var j := s.tasks[t].key;
      var i := ShardIndex(j);
      assert ShardOk(s.core.caches[i], i, s.cfg, s.handles, s.lastPut);
      Lru.GetFacts(s.core.caches[i], s.cfg.capacity, j, s.clock, s.cfg.ttl);
      ShardOnlyForgets(s, c', i, {}, k);
    case PutCompleted(h) =>
      var j := s.handles[h].key;
      var i := ShardIndex(j);
      assert ShardOk(s.core.caches[i], i, s.cfg, s.handles, s.lastPut);
      Lru.PutFacts(s.core.caches[i], s.cfg.capacity, j, s.handles[h].phase.entry);
      ShardOnlyForgets(s, c', i, {j}, k);
    case Cleanup(i) =>
      assert ShardOk(s.core.caches[i], i, s.cfg, s.handles, s.lastPut);
      Lru.SweepFacts(s.core.caches[i], s.clock, s.cfg.ttl);
      ShardOnlyForgets(s, c', i, {}, k);
    case _ =>
  }

  /** Eviction, expiry and clean-up only turn hits into misses: except when a value is stored under
      `k`, a step leaves what is held for `k` unchanged or forgets it. */
  lemma StepsOnlyForget(cfg: Config, states: seq<State>, acts: seq<Action>, i: nat, k: Key)
    requires IsRun(cfg, states, acts) && i < |acts|
    requires acts[i].PutCompleted? && acts[i].handle in states[i].handles ==> states[i].handles[acts[i].handle].key != k
    ensures Shaped(states[i].core) && Shaped(states[i + 1].core)
    ensures Stored(states[i + 1], k).Some? ==> Stored(states[i + 1], k) == Stored(states[i], k)
  {
    assert IsStep(states[i], acts[i], states[i + 1]);
    RunInv(cfg, states, acts, i);
    StepOnlyForgets(states[i], acts[i], k);
  }
}
