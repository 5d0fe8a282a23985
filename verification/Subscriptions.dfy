/** The WebSocket manager's state told by the history of a run. */
module Subscriptions {
  import opened Json
  import opened WsManager

  // ----- What a step does to one receiver, one subscription, one channel -----

  /** The step is a subscription under `n` that succeeded with the receiver `r`. */
  ghost predicate Makes(s: State, a: Action, n: string, r: Id) {
    a.Enter? && a.name == n && Subscribe(s.hub, s.limits, n, s.clock).1 == Subscribed(r)
  }

  /** The step is a subscription or a broadcast that found or made the channel `n`. */
  ghost predicate Touches(s: State, a: Action, n: string) {
    (exists r :: Makes(s, a, n, r)) || (a == Send(n) && n in s.hub.channels)
  }

  lemma StepReceiver(s: State, a: Action, r: Id)
    requires Enabled(s, a)
    ensures var h, h' := s.hub, Next(s, a).hub;
            && (r in h'.receivers <==> (exists n :: Makes(s, a, n, r)) || (r in h.receivers && a != DropReceiver(r)))
            && (forall n :: Makes(s, a, n, r) ==> h'.receivers[r].name == n)
            && (r in h.receivers && r in h'.receivers && (forall n :: !Makes(s, a, n, r)) ==> h'.receivers[r] == h.receivers[r])
  {
    if a.Enter? {
      SubscribeIff(s.hub, s.limits, a.name, s.clock);
      if Subscribe(s.hub, s.limits, a.name, s.clock).1 == Subscribed(r) { assert Makes(s, a, a.name, r); }
    }
  }

  lemma StepOpen(s: State, a: Action, r: Id)
    requires Enabled(s, a)
    ensures r in Next(s, a).open <==> (exists n :: Makes(s, a, n, r)) || (r in s.open && a != Disconnect(r))
  {
    if a.Enter? && Subscribe(s.hub, s.limits, a.name, s.clock).1 == Subscribed(r) { assert Makes(s, a, a.name, r); }
  }

  lemma StepChannel(s: State, a: Action, n: string)
    requires Enabled(s, a)
    ensures var h, h' := s.hub, Next(s, a).hub;
            && (Touches(s, a, n) ==> n in h'.channels && h'.channels[n].lastActivity == s.clock)
            && (!Touches(s, a, n) && n in h'.channels ==> n in h.channels && h'.channels[n].lastActivity == h.channels[n].lastActivity)
            && (a != Sweep && n in h.channels ==> n in h'.channels)
  {
    if a.Enter? {
      SubscribeIff(s.hub, s.limits, a.name, s.clock);
      var r := Subscribe(s.hub, s.limits, a.name, s.clock).1;
      if r.Subscribed? { assert Makes(s, a, a.name, r.receiver); }
    }
  }

  // ----- Receivers and open subscriptions -----

  /** Step `j` made the receiver `r` under `n`, and no step of `[j + 1..i)` is `end`. */
  ghost predicate MadeAndKept(states: seq<State>, acts: seq<Action>, i: nat, n: string, r: Id, end: Action, j: nat)
    requires |states| == |acts| + 1 && i <= |acts|
  {
    j < i && Makes(states[j], acts[j], n, r) && forall k :: j < k < i ==> acts[k] != end
  }

  /** At every moment of every run the live receivers are those a subscription made and nobody dropped since,
      each under the name it subscribed to. */
  lemma {:induction false} ReceiversAreHistory(limits: Limits, width: nat, states: seq<State>, acts: seq<Action>, i: nat, r: Id)
    requires IsRun(limits, width, states, acts) && i <= |acts|
    ensures r in states[i].hub.receivers <==> exists n, j: nat :: MadeAndKept(states, acts, i, n, r, DropReceiver(r), j)
    ensures r in states[i].hub.receivers ==>
      exists j: nat :: MadeAndKept(states, acts, i, states[i].hub.receivers[r].name, r, DropReceiver(r), j)
  {
    if i > 0 {
      var m, end := i - 1, DropReceiver(r);
      ReceiversAreHistory(limits, width, states, acts, m, r);
      assert IsStep(states[m], acts[m], states[i]);
      StepReceiver(states[m], acts[m], r);
      if n :| Makes(states[m], acts[m], n, r) {
        assert MadeAndKept(states, acts, i, n, r, end, m);
      } else if r in states[i].hub.receivers {
        var n := states[m].hub.receivers[r].name;
        var j: nat :| MadeAndKept(states, acts, m, n, r, end, j);
        assert MadeAndKept(states, acts, i, n, r, end, j);
      }
      if n, j: nat :| MadeAndKept(states, acts, i, n, r, end, j) {
        if j < m { assert MadeAndKept(states, acts, m, n, r, end, j); }
      }
    }
  }

  /** The counted subscriptions are those that have not reported their disconnect. */
  lemma {:induction false} OpenIsHistory(limits: Limits, width: nat, states: seq<State>, acts: seq<Action>, i: nat, r: Id)
    requires IsRun(limits, width, states, acts) && i <= |acts|
    ensures r in states[i].open <==> exists n, j: nat :: MadeAndKept(states, acts, i, n, r, Disconnect(r), j)
  {
    if i > 0 {
      var m, end := i - 1, Disconnect(r);
      OpenIsHistory(limits, width, states, acts, m, r);
      assert IsStep(states[m], acts[m], states[i]);
      StepOpen(states[m], acts[m], r);
      if n :| Makes(states[m], acts[m], n, r) {
        assert MadeAndKept(states, acts, i, n, r, end, m);
      } else if r in states[i].open {
        var n, j: nat :| MadeAndKept(states, acts, m, n, r, end, j);
        assert MadeAndKept(states, acts, i, n, r, end, j);
      }
      if n, j: nat :| MadeAndKept(states, acts, i, n, r, end, j) {
        if j < m { assert MadeAndKept(states, acts, m, n, r, end, j); }
      }
    }
  }

  // ----- Channels -----

  /** Step `j` is the last before `i` that used the channel `n`. */
  ghost predicate LastUse(states: seq<State>, acts: seq<Action>, i: nat, n: string, j: nat)
    requires |states| == |acts| + 1 && i <= |acts|
  {
    j < i && Touches(states[j], acts[j], n) && forall k :: j < k < i ==> !Touches(states[k], acts[k], n)
  }

  lemma UniqueLastUse(states: seq<State>, acts: seq<Action>, i: nat, n: string, j: nat, j': nat)
    requires |states| == |acts| + 1 && i <= |acts| && LastUse(states, acts, i, n, j) && LastUse(states, acts, i, n, j')
    ensures j == j'
  {
  }

  /** A channel's activity time is that of the last subscription or broadcast under its name. */
  lemma {:induction false} ActivityIsLastUse(limits: Limits, width: nat, states: seq<State>, acts: seq<Action>, i: nat, n: string)
    requires IsRun(limits, width, states, acts) && i <= |acts| && n in states[i].hub.channels
    ensures exists j: nat :: LastUse(states, acts, i, n, j) && states[i].hub.channels[n].lastActivity == states[j].clock
  {
    if i > 0 {
      var m := i - 1;
      assert IsStep(states[m], acts[m], states[i]);
      StepChannel(states[m], acts[m], n);
      if Touches(states[m], acts[m], n) {
        assert LastUse(states, acts, i, n, m);
      } else {
        ActivityIsLastUse(limits, width, states, acts, m, n);
        var j: nat :| LastUse(states, acts, m, n, j) && states[m].hub.channels[n].lastActivity == states[j].clock;
        assert LastUse(states, acts, i, n, j);
      }
    }
  }

  /** Clean-up in any run keeps a channel exactly when a live receiver subscribed under its name or its last
      subscription or broadcast is younger than the lifetime. */
  lemma SweepKeepsIff(limits: Limits, width: nat, states: seq<State>, acts: seq<Action>, i: nat, n: string, j: nat)
    requires IsRun(limits, width, states, acts) && i < |acts| && acts[i] == Sweep
    requires n in states[i].hub.channels && LastUse(states, acts, i, n, j)
    ensures n in states[i + 1].hub.channels <==>
      || (exists r :: r in states[i].hub.receivers && states[i].hub.receivers[r].name == n)
      || (limits.ttl > 0 && states[i].clock < states[j].clock + limits.ttl)
  {
    var s := states[i];
    assert IsStep(s, acts[i], states[i + 1]);
    RunInv(limits, width, states, acts, i);
    ActivityIsLastUse(limits, width, states, acts, i, n);
    var j': nat :| LastUse(states, acts, i, n, j') && s.hub.channels[n].lastActivity == states[j'].clock;
    UniqueLastUse(states, acts, i, n, j, j');
    CleanupExact(s.hub, limits, s.clock, n);
    BroadcastReachesAll(limits, width, states, acts, i, n);
    var live := set r | r in s.hub.receivers && s.hub.receivers[r].name == n;
    assert Attached(s.hub.receivers, s.hub.channels[n].sender) == live;
    if r :| r in s.hub.receivers && s.hub.receivers[r].name == n { assert r in live; }
    if r :| r in s.hub.receivers && s.hub.receivers[r].sender == s.hub.channels[n].sender {
      assert r in Attached(s.hub.receivers, s.hub.channels[n].sender);
    }
  }

  /** Nothing but clean-up removes a channel. */
  lemma OnlySweepRemoves(limits: Limits, width: nat, states: seq<State>, acts: seq<Action>, i: nat, n: string)
    requires IsRun(limits, width, states, acts) && i < |acts| && n in states[i].hub.channels && n !in states[i + 1].hub.channels
    ensures acts[i] == Sweep
  {
    assert IsStep(states[i], acts[i], states[i + 1]);
    StepChannel(states[i], acts[i], n);
  }
}
