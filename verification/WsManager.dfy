/** The WebSocket fan-out: channels, receivers and the connection limits. */
module WsManager {
  import opened Json

  const WORD := 0x1_0000_0000_0000_0000

  type Id = nat

  datatype Limits = Limits(maxTotal: nat, maxPerChannel: nat, maxChannels: nat, ttl: nat)

  datatype Channel = Channel(sender: Id, lastActivity: nat)

  /** A receiver remembers the name it subscribed under and the sender it is attached to. */
  datatype Receiver = Receiver(name: string, sender: Id)

  /** The channel map, the live receivers and the connection counter. */
  datatype Hub = Hub(channels: map<string, Channel>, receivers: map<Id, Receiver>, total: nat, nextId: Id)

  function Attached(receivers: map<Id, Receiver>, sender: Id): set<Id> {
    set r | r in receivers && receivers[r].sender == sender
  }

  function ReceiverCount(receivers: map<Id, Receiver>, sender: Id): nat {
    |Attached(receivers, sender)|
  }

  datatype SubscribeResult = Subscribed(receiver: Id) | GlobalLimitReached | ChannelFull | TooManyChannels

  /** The section of `subscribe` under the write lock; the channel-wide checks happen here. */
  function Subscribe(h: Hub, lim: Limits, name: string, now: nat): (Hub, SubscribeResult) {
    if name in h.channels then
      var ch := h.channels[name];
      if ReceiverCount(h.receivers, ch.sender) >= lim.maxPerChannel then (h, ChannelFull)
      else
        (Hub(h.channels[name := ch.(lastActivity := now)], h.receivers[h.nextId := Receiver(name, ch.sender)],
             (h.total + 1) % WORD, h.nextId + 1),
         Subscribed(h.nextId))
    else if |h.channels| >= lim.maxChannels then (h, TooManyChannels)
    else
      (Hub(h.channels[name := Channel(h.nextId, now)], h.receivers[h.nextId := Receiver(name, h.nextId)],
           (h.total + 1) % WORD, h.nextId + 1),
       Subscribed(h.nextId))
  }

  function Touch(h: Hub, name: string, now: nat): Hub {
    if name in h.channels then h.(channels := h.channels[name := h.channels[name].(lastActivity := now)]) else h
  }

  function Idle(ch: Channel, now: nat): nat {
    if now >= ch.lastActivity then now - ch.lastActivity else 0
  }

  predicate Keeps(receivers: map<Id, Receiver>, ch: Channel, ttl: nat, now: nat) {
    ReceiverCount(receivers, ch.sender) > 0 || Idle(ch, now) < ttl
  }

  /** Drop channels that have no receiver and have been idle for the TTL. */
  function Cleanup(h: Hub, lim: Limits, now: nat): Hub {
    h.(channels := map n | n in h.channels && Keeps(h.receivers, h.channels[n], lim.ttl, now) :: h.channels[n])
  }

  datatype BroadcastResult = Delivered(count: nat) | NoSubscribers | ChannelNotFound

  function Broadcast(h: Hub, name: string): BroadcastResult {
    if name !in h.channels then ChannelNotFound
    else
      var n := ReceiverCount(h.receivers, h.channels[name].sender);
      if n == 0 then NoSubscribers else Delivered(n)
  }

  class Manager {
    const limits: Limits
    var channels: map<string, Channel>
    var receivers: map<Id, Receiver>
    var total: nat
    var nextId: Id

    ghost function View(): Hub
      reads this
    {
      Hub(channels, receivers, total, nextId)
    }

    method SubscribeLocked(name: string, now: nat) returns (r: SubscribeResult)
      modifies this
      ensures View() == Subscribe(old(View()), limits, name, now).0
      ensures r == Subscribe(old(View()), limits, name, now).1
    {
      if name in channels {
        var ch := channels[name];
        if ReceiverCount(receivers, ch.sender) >= limits.maxPerChannel {
          return ChannelFull;
        }
        channels := channels[name := ch.(lastActivity := now)];
        total := (total + 1) % WORD;
        receivers := receivers[nextId := Receiver(name, ch.sender)];
      } else {
        if |channels| >= limits.maxChannels {
          return TooManyChannels;
        }
        channels := channels[name := Channel(nextId, now)];
        total := (total + 1) % WORD;
        receivers := receivers[nextId := Receiver(name, nextId)];
      }
      r := Subscribed(nextId);
      nextId := nextId + 1;
    }

    /** The whole call; `seen` is the counter as loaded before the lock, which may have changed since. */
    method TrySubscribe(seen: nat, name: string, now: nat) returns (r: SubscribeResult)
      modifies this
      ensures seen >= limits.maxTotal ==> r == GlobalLimitReached && View() == old(View())
      ensures seen < limits.maxTotal ==> View() == Subscribe(old(View()), limits, name, now).0
      ensures seen < limits.maxTotal ==> r == Subscribe(old(View()), limits, name, now).1
    {
      if seen >= limits.maxTotal {
        return GlobalLimitReached;
      }
      r := SubscribeLocked(name, now);
    }

    method OnDisconnect()
      modifies this`total
      ensures total == (old(total) - 1) % WORD
    {
      total := (total - 1) % WORD;
    }

    method CleanupEmptyChannels(now: nat) returns (removed: nat)
      modifies this`channels
      ensures View() == Cleanup(old(View()), limits, now)
      ensures removed == |old(channels)| - |channels|
    {
      var before := channels;
      channels := map n | n in channels && Keeps(receivers, channels[n], limits.ttl, now) :: channels[n];
      KeptFewer(channels, before);
      removed := |before| - |channels|;
    }
  }

  lemma KeptFewer(a: map<string, Channel>, b: map<string, Channel>)
    requires a.Keys <= b.Keys
    ensures |a| <= |b|
  {
    assert b.Keys == a.Keys + (b.Keys - a.Keys);
    assert |a| == |a.Keys| && |b| == |b.Keys|;
  }

  // ----- Clean-up and activity -----

  /** A channel stays exactly while it has a live receiver or was active within the lifetime, and stays as it is. */
  lemma CleanupExact(h: Hub, lim: Limits, now: nat, n: string)
    ensures n in Cleanup(h, lim, now).channels <==>
      n in h.channels && ((exists r :: r in h.receivers && h.receivers[r].sender == h.channels[n].sender)
                          || (lim.ttl > 0 && now < h.channels[n].lastActivity + lim.ttl))
    ensures n in Cleanup(h, lim, now).channels ==> Cleanup(h, lim, now).channels[n] == h.channels[n]
    ensures Cleanup(h, lim, now).receivers == h.receivers && Cleanup(h, lim, now).total == h.total
  {
    if n in h.channels {
      var attached := Attached(h.receivers, h.channels[n].sender);
      if r :| r in h.receivers && h.receivers[r].sender == h.channels[n].sender {
        assert r in attached;
      } else {
        assert attached == {};
      }
    }
  }

  /** A broadcast keeps its channel alive for a lifetime, receivers or not. */
  lemma SendKeepsAlive(h: Hub, lim: Limits, name: string, now: nat, later: nat)
    requires name in h.channels && lim.ttl > 0 && later < now + lim.ttl
    ensures name in Cleanup(Touch(h, name, now), lim, later).channels
  {
    CleanupExact(Touch(h, name, now), lim, later, name);
  }

  /** So does a subscription. */
  lemma SubscribeKeepsAlive(h: Hub, lim: Limits, name: string, now: nat, later: nat)
    requires Subscribe(h, lim, name, now).1.Subscribed? && lim.ttl > 0 && later < now + lim.ttl
    ensures name in Cleanup(Subscribe(h, lim, name, now).0, lim, later).channels
  {
    CleanupExact(Subscribe(h, lim, name, now).0, lim, later, name);
  }

  /** Which subscriptions succeed: the channel has room, or there is room for a new channel; the receiver
      hangs on the channel of that name. */
  lemma SubscribeIff(h: Hub, lim: Limits, name: string, now: nat)
    ensures var (h', r) := Subscribe(h, lim, name, now);
            && (r.Subscribed? <==> if name in h.channels
                                   then |Attached(h.receivers, h.channels[name].sender)| < lim.maxPerChannel
                                   else |h.channels| < lim.maxChannels)
            && (r.Subscribed? ==> r.receiver in h'.receivers && name in h'.channels
                                  && h'.receivers[r.receiver] == Receiver(name, h'.channels[name].sender)
                                  && (name in h.channels ==> h'.channels[name].sender == h.channels[name].sender))
            && (!r.Subscribed? ==> h' == h && r == if name in h.channels then ChannelFull else TooManyChannels)
  {
  }

  // ----- Runs -----

  /** `pending` are the subscribe calls past the unlocked check; `open` the subscriptions that have
      not reported their disconnect; `width` bounds the calls in flight at once. */
  datatype State = State(limits: Limits, width: nat, clock: nat, hub: Hub, pending: set<Id>, open: set<Id>)

  function Init(limits: Limits, width: nat): State {
    State(limits, width, 0, Hub(map[], map[], 0, 0), {}, {})
  }

  datatype Action =
    | Tick(dt: nat)
    | PassCheck(call: Id)
    | Enter(call: Id, name: string)
    | GiveUp(call: Id)
    | DropReceiver(receiver: Id)
    | Disconnect(receiver: Id)
    | Send(name: string)
    | Sweep

  ghost predicate Enabled(s: State, a: Action) {
    match a
    case Tick(_) => true
    case PassCheck(c) => c !in s.pending && |s.pending| < s.width && s.hub.total < s.limits.maxTotal
    case Enter(c, _) => c in s.pending
    case GiveUp(c) => c in s.pending
    case DropReceiver(r) => r in s.hub.receivers
    case Disconnect(r) => r in s.open
    case Send(_) => true
    case Sweep => true
  }

  ghost function Next(s: State, a: Action): State
    requires Enabled(s, a)
  {
    match a
    case Tick(dt) => s.(clock := s.clock + dt)
    case PassCheck(c) => s.(pending := s.pending + {c})
    case Enter(c, name) =>
      var (hub, r) := Subscribe(s.hub, s.limits, name, s.clock);
      s.(hub := hub, pending := s.pending - {c}, open := if r.Subscribed? then s.open + {r.receiver} else s.open)
    case GiveUp(c) => s.(pending := s.pending - {c})
    case DropReceiver(r) => s.(hub := s.hub.(receivers := s.hub.receivers - {r}))
    case Disconnect(r) => s.(hub := s.hub.(total := (s.hub.total - 1) % WORD), open := s.open - {r})
    case Send(name) => s.(hub := Touch(s.hub, name, s.clock))
    case Sweep => s.(hub := Cleanup(s.hub, s.limits, s.clock))
  }

  function PerChannel(lim: Limits): nat {
    if lim.maxPerChannel < 1 then 1 else lim.maxPerChannel
  }

  /** The receiver hangs on the sender stored under its own name. */
  ghost predicate Connected(h: Hub, r: Id)
    requires r in h.receivers
  {
    h.receivers[r].name in h.channels && h.channels[h.receivers[r].name].sender == h.receivers[r].sender
  }

  ghost predicate ChannelOk(h: Hub, lim: Limits, n: string)
    requires n in h.channels
  {
    h.channels[n].sender < h.nextId && ReceiverCount(h.receivers, h.channels[n].sender) <= PerChannel(lim)
  }

  ghost predicate DistinctSenders(h: Hub) {
    forall m, n :: m in h.channels && n in h.channels && h.channels[m].sender == h.channels[n].sender ==> m == n
  }

  ghost predicate HubOk(h: Hub, lim: Limits) {
    && |h.channels| <= lim.maxChannels
    && (forall r :: r in h.receivers ==> r < h.nextId && Connected(h, r))
    && (forall n :: n in h.channels ==> ChannelOk(h, lim, n))
    && DistinctSenders(h)
  }

  /** The counter counts open subscriptions, and passing the check books room for the call. */
  ghost predicate CountOk(total: nat, pending: set<Id>, open: set<Id>, nextId: Id, maxTotal: nat, width: nat) {
    && width >= 1 && maxTotal + width <= WORD
    && total == |open|
    && (forall r :: r in open ==> r < nextId)
    && |pending| <= width
    && total + |pending| <= maxTotal + width - 1
  }

  ghost predicate Inv(s: State) {
    HubOk(s.hub, s.limits) && Counts(s)
  }

  lemma FewerAttached(a: map<Id, Receiver>, b: map<Id, Receiver>, sender: Id)
    requires forall r :: r in a ==> r in b && a[r] == b[r]
    ensures ReceiverCount(a, sender) <= ReceiverCount(b, sender)
  {
    assert Attached(b, sender) == Attached(a, sender) + (Attached(b, sender) - Attached(a, sender));
  }

  lemma OneMore(receivers: map<Id, Receiver>, id: Id, r: Receiver, sender: Id)
    requires id !in receivers
    ensures ReceiverCount(receivers[id := r], sender) == ReceiverCount(receivers, sender) + if r.sender == sender then 1 else 0
  {
    assert Attached(receivers[id := r], sender) == Attached(receivers, sender) + if r.sender == sender then {id} else {};
  }

  lemma SubscribeOk(h: Hub, lim: Limits, name: string, now: nat)
    requires HubOk(h, lim)
    ensures HubOk(Subscribe(h, lim, name, now).0, lim)
  {
    var (h', res) := Subscribe(h, lim, name, now);
    if res.Subscribed? {
      forall n | n in h'.channels ensures ChannelOk(h', lim, n) {
        OneMore(h.receivers, h.nextId, h'.receivers[h.nextId], h'.channels[n].sender);
        if n in h.channels {
          assert ChannelOk(h, lim, n);
        } else {
          NobodyAttached(h, lim, h.nextId);
        }
      }
      forall r | r in h'.receivers ensures r < h'.nextId && Connected(h', r) {
        if r in h.receivers { assert Connected(h, r); }
      }
      FreshSender(h, h', lim, name, now);
    }
  }

  lemma NobodyAttached(h: Hub, lim: Limits, sender: Id)
    requires HubOk(h, lim) && sender >= h.nextId
    ensures ReceiverCount(h.receivers, sender) == 0
  {
    forall r | r in h.receivers ensures h.receivers[r].sender != sender {
      assert Connected(h, r);
      assert ChannelOk(h, lim, h.receivers[r].name);
    }
    assert Attached(h.receivers, sender) == {};
  }

  /** Subscribing keeps the senders there are; a new channel gets an unused one. */
  lemma SendersAfter(h: Hub, lim: Limits, name: string, now: nat, n: string)
    requires n in Subscribe(h, lim, name, now).0.channels
    ensures var ch := Subscribe(h, lim, name, now).0.channels[n];
            if n in h.channels then ch.sender == h.channels[n].sender else n == name && ch.sender == h.nextId
  {
  }

  lemma FreshSender(h: Hub, h': Hub, lim: Limits, name: string, now: nat)
    requires HubOk(h, lim) && h' == Subscribe(h, lim, name, now).0
    ensures DistinctSenders(h')
  {
    forall m, n | m in h'.channels && n in h'.channels && h'.channels[m].sender == h'.channels[n].sender
      ensures m == n
    {
      SendersAfter(h, lim, name, now, m);
      SendersAfter(h, lim, name, now, n);
      if m in h.channels { assert ChannelOk(h, lim, m); }
      if n in h.channels { assert ChannelOk(h, lim, n); }
    }
  }

  lemma CleanupOk(h: Hub, lim: Limits, now: nat)
    requires HubOk(h, lim)
    ensures HubOk(Cleanup(h, lim, now), lim)
  {
    var h' := Cleanup(h, lim, now);
    KeptFewer(h'.channels, h.channels);
    forall r | r in h'.receivers ensures Connected(h', r) {
      assert Connected(h, r);
      assert r in Attached(h.receivers, h.receivers[r].sender);
    }
    forall n | n in h'.channels ensures ChannelOk(h', lim, n) { assert ChannelOk(h, lim, n); }
  }

  lemma DropOk(h: Hub, lim: Limits, r: Id)
    requires HubOk(h, lim)
    ensures HubOk(h.(receivers := h.receivers - {r}), lim)
  {
    var h' := h.(receivers := h.receivers - {r});
    forall n | n in h'.channels ensures ChannelOk(h', lim, n) {
      assert ChannelOk(h, lim, n);
      FewerAttached(h'.receivers, h.receivers, h.channels[n].sender);
    }
    forall x | x in h'.receivers ensures Connected(h', x) { assert Connected(h, x); }
  }

  /** Only the senders of the channels matter. */
  lemma SameSendersOk(h: Hub, h': Hub, lim: Limits)
    requires HubOk(h, lim) && h'.receivers == h.receivers && h'.nextId == h.nextId
    requires h'.channels.Keys == h.channels.Keys && |h'.channels| == |h.channels|
    requires forall n :: n in h.channels ==> h'.channels[n].sender == h.channels[n].sender
    ensures HubOk(h', lim)
  {
    forall n | n in h'.channels ensures ChannelOk(h', lim, n) { assert ChannelOk(h, lim, n); }
    forall x | x in h'.receivers ensures Connected(h', x) { assert Connected(h, x); }
    SameSendersDistinct(h, h');
  }

  lemma SameSendersDistinct(h: Hub, h': Hub)
    requires DistinctSenders(h) && h'.channels.Keys == h.channels.Keys
    requires forall n :: n in h.channels ==> h'.channels[n].sender == h.channels[n].sender
    ensures DistinctSenders(h')
  {
    forall m, n | m in h'.channels && n in h'.channels && h'.channels[m].sender == h'.channels[n].sender
      ensures m == n
    {
      assert m in h.channels && n in h.channels;
    }
  }

  lemma TouchOk(h: Hub, lim: Limits, name: string, now: nat)
    requires HubOk(h, lim)
    ensures HubOk(Touch(h, name, now), lim)
  {
    var h' := Touch(h, name, now);
    assert h'.channels.Keys == h.channels.Keys;
    assert |h'.channels| == |h'.channels.Keys| && |h.channels| == |h.channels.Keys|;
    SameSendersOk(h, h', lim);
  }

  lemma EnterCount(total: nat, pending: set<Id>, open: set<Id>, nextId: Id, maxTotal: nat, width: nat, c: Id)
    requires CountOk(total, pending, open, nextId, maxTotal, width) && c in pending
    ensures CountOk(total, pending - {c}, open, nextId, maxTotal, width)
    ensures CountOk((total + 1) % WORD, pending - {c}, open + {nextId}, nextId + 1, maxTotal, width)
  {
    assert |pending - {c}| == |pending| - 1;
    assert nextId !in open;
  }

  lemma LeaveCount(total: nat, pending: set<Id>, open: set<Id>, nextId: Id, maxTotal: nat, width: nat, r: Id)
    requires CountOk(total, pending, open, nextId, maxTotal, width) && r in open
    ensures CountOk((total - 1) % WORD, pending, open - {r}, nextId, maxTotal, width)
  {
    assert |open - {r}| == |open| - 1;
  }

  lemma StepHub(s: State, a: Action)
    requires HubOk(s.hub, s.limits) && Enabled(s, a)
    ensures HubOk(Next(s, a).hub, Next(s, a).limits)
  {
    match a
    case Enter(c, name) => SubscribeOk(s.hub, s.limits, name, s.clock);
    case DropReceiver(r) => DropOk(s.hub, s.limits, r);
    case Send(name) => TouchOk(s.hub, s.limits, name, s.clock);
    case Sweep => CleanupOk(s.hub, s.limits, s.clock);
    case Disconnect(r) => SameSendersOk(s.hub, Next(s, a).hub, s.limits);
    case _ =>
  }

  ghost predicate Counts(s: State) {
    CountOk(s.hub.total, s.pending, s.open, s.hub.nextId, s.limits.maxTotal, s.width)
  }

  lemma SubscribeCounts(h: Hub, lim: Limits, name: string, now: nat)
    ensures var (h', r) := Subscribe(h, lim, name, now);
            if r.Subscribed? then r.receiver == h.nextId && h'.total == (h.total + 1) % WORD && h'.nextId == h.nextId + 1
            else h' == h
  {
  }

  lemma Entered(s: State, c: Id, h: Hub, r: SubscribeResult)
    requires Counts(s) && c in s.pending
    requires if r.Subscribed? then r.receiver == s.hub.nextId && h.total == (s.hub.total + 1) % WORD && h.nextId == s.hub.nextId + 1
             else h == s.hub
    ensures Counts(s.(hub := h, pending := s.pending - {c}, open := if r.Subscribed? then s.open + {r.receiver} else s.open))
  {
    EnterCount(s.hub.total, s.pending, s.open, s.hub.nextId, s.limits.maxTotal, s.width, c);
  }

  lemma EnterStep(s: State, c: Id, name: string)
    requires Counts(s) && c in s.pending
    ensures Counts(Next(s, Enter(c, name)))
  {
    SubscribeCounts(s.hub, s.limits, name, s.clock);
    var (h, r) := Subscribe(s.hub, s.limits, name, s.clock);
    Entered(s, c, h, r);
  }

  lemma DisconnectStep(s: State, r: Id)
    requires Counts(s) && r in s.open
    ensures Counts(Next(s, Disconnect(r)))
  {
    LeaveCount(s.hub.total, s.pending, s.open, s.hub.nextId, s.limits.maxTotal, s.width, r);
  }

  lemma PassStep(s: State, c: Id)
    requires Counts(s) && Enabled(s, PassCheck(c))
    ensures Counts(Next(s, PassCheck(c)))
  {
    assert |s.pending + {c}| == |s.pending| + 1;
  }

  lemma GiveUpStep(s: State, c: Id)
    requires Counts(s) && c in s.pending
    ensures Counts(Next(s, GiveUp(c)))
  {
    EnterCount(s.hub.total, s.pending, s.open, s.hub.nextId, s.limits.maxTotal, s.width, c);
  }

  lemma StepCount(s: State, a: Action)
    requires Counts(s) && Enabled(s, a)
    ensures Counts(Next(s, a))
  {
    match a
    case Enter(c, name) => EnterStep(s, c, name);
    case GiveUp(c) => GiveUpStep(s, c);
    case Disconnect(r) => DisconnectStep(s, r);
    case PassCheck(c) => PassStep(s, c);
    case _ =>
  }

  /** Every step keeps every invariant. */
  lemma StepInv(s: State, a: Action)
    requires Inv(s) && Enabled(s, a)
    ensures Inv(Next(s, a))
  {
    StepHub(s, a);
    StepCount(s, a);
  }

  ghost predicate IsStep(s: State, a: Action, s': State) {
    Enabled(s, a) && s' == Next(s, a)
  }

  ghost predicate IsRun(limits: Limits, width: nat, states: seq<State>, acts: seq<Action>) {
    && width >= 1 && limits.maxTotal + width <= WORD
    && |states| == |acts| + 1 && states[0] == Init(limits, width)
    && (forall i :: 0 <= i < |acts| ==> IsStep(states[i], acts[i], states[i + 1]))
  }

  lemma {:induction false} RunInv(limits: Limits, width: nat, states: seq<State>, acts: seq<Action>, i: nat)
    requires IsRun(limits, width, states, acts) && i < |states|
    ensures Inv(states[i]) && states[i].limits == limits && states[i].width == width
  {
    if i > 0 {
      RunInv(limits, width, states, acts, i - 1);
      assert IsStep(states[i - 1], acts[i - 1], states[i]);
      StepInv(states[i - 1], acts[i - 1]);
    }
  }

  /** In every run: channels and receivers per channel stay within their limits, the counter is the
      number of open subscriptions, and it never exceeds the global limit by more than the calls in
      flight less one. */
  lemma LimitsHold(limits: Limits, width: nat, states: seq<State>, acts: seq<Action>, i: nat)
    requires IsRun(limits, width, states, acts) && i < |states|
    ensures var h := states[i].hub;
            && |h.channels| <= limits.maxChannels
            && (forall n :: n in h.channels ==> ReceiverCount(h.receivers, h.channels[n].sender) <= PerChannel(limits))
            && h.total == |states[i].open| <= limits.maxTotal + width - 1
  {
    RunInv(limits, width, states, acts, i);
    forall n | n in states[i].hub.channels
      ensures ReceiverCount(states[i].hub.receivers, states[i].hub.channels[n].sender) <= PerChannel(limits)
    {
      assert ChannelOk(states[i].hub, limits, n);
    }
  }

  /** Clean-up never strands a receiver: at any moment a broadcast under a name reaches exactly the
      live receivers that subscribed under that name. */
  lemma BroadcastReachesAll(limits: Limits, width: nat, states: seq<State>, acts: seq<Action>, i: nat, name: string)
    requires IsRun(limits, width, states, acts) && i < |states|
    ensures var h := states[i].hub;
            var live := set r | r in h.receivers && h.receivers[r].name == name;
            && (name in h.channels ==> Attached(h.receivers, h.channels[name].sender) == live)
            && (live != {} ==> Broadcast(h, name) == Delivered(|live|))
            && (live == {} ==> Broadcast(h, name) == if name in h.channels then NoSubscribers else ChannelNotFound)
  {
    var h := states[i].hub;
    RunInv(limits, width, states, acts, i);
    var live := set r | r in h.receivers && h.receivers[r].name == name;
    forall r | r in h.receivers ensures Connected(h, r) {}
    if name in h.channels {
      forall r | r in h.receivers ensures h.receivers[r].sender == h.channels[name].sender <==> h.receivers[r].name == name {
        assert Connected(h, r);
      }
      assert Attached(h.receivers, h.channels[name].sender) == live;
    } else {
      forall r | r in h.receivers ensures h.receivers[r].name != name { assert Connected(h, r); }
    }
  }

  /** With one subscribe call at a time the global limit is a hard bound. */
  lemma OneCallerNeverOvershoots(limits: Limits, states: seq<State>, acts: seq<Action>, i: nat)
    requires IsRun(limits, 1, states, acts) && i < |states|
    ensures states[i].hub.total <= limits.maxTotal
  {
    LimitsHold(limits, 1, states, acts, i);
  }

  // ----- The bound is attained -----

  /** Channel `name`, as it is or newly made, can take `n` more receivers. */
  ghost predicate Room(h: Hub, lim: Limits, name: string, n: nat) {
    n == 0 ||
    if name in h.channels then ReceiverCount(h.receivers, h.channels[name].sender) + n <= lim.maxPerChannel
    else |h.channels| < lim.maxChannels && n <= PerChannel(lim)
  }

  /** Every open subscription has its receiver. */
  ghost predicate AllLive(s: State) {
    s.hub.receivers.Keys == s.open
  }

  lemma SubscribeRoom(h: Hub, lim: Limits, name: string, now: nat, n: nat)
    requires HubOk(h, lim) && Room(h, lim, name, n + 1)
    ensures var (h', r) := Subscribe(h, lim, name, now);
            r == Subscribed(h.nextId) && h'.total == (h.total + 1) % WORD && Room(h', lim, name, n)
            && h'.receivers.Keys == h.receivers.Keys + {h.nextId}
  {
    var (h', r) := Subscribe(h, lim, name, now);
    var sender := if name in h.channels then h.channels[name].sender else h.nextId;
    assert h.nextId !in h.receivers;
    OneMore(h.receivers, h.nextId, Receiver(name, sender), sender);
    if name !in h.channels { NobodyAttached(h, lim, h.nextId); }
  }

  lemma NoWrap(s: State, c: Id)
    requires Counts(s) && c in s.pending
    ensures (s.hub.total + 1) % WORD == s.hub.total + 1
  {
    assert s.pending == (s.pending - {c}) + {c};
    assert |s.pending| >= 1;
  }

  lemma GotIn(s: State, c: Id, h: Hub)
    requires Counts(s) && AllLive(s) && c in s.pending
    requires h.total == (s.hub.total + 1) % WORD && h.receivers.Keys == s.hub.receivers.Keys + {s.hub.nextId}
    ensures h.total == s.hub.total + 1
    ensures AllLive(s.(hub := h, pending := s.pending - {c}, open := s.open + {s.hub.nextId}))
  {
    NoWrap(s, c);
  }

  /** One call that has passed the check gets in. */
  lemma EnterRoom(s: State, c: Id, name: string, n: nat)
    requires Inv(s) && AllLive(s) && c in s.pending && Room(s.hub, s.limits, name, n + 1)
    ensures var s' := Next(s, Enter(c, name));
            && s'.hub.total == s.hub.total + 1 && s'.pending == s.pending - {c} && s'.limits == s.limits
            && Room(s'.hub, s.limits, name, n) && AllLive(s')
  {
    SubscribeRoom(s.hub, s.limits, name, s.clock, n);
    GotIn(s, c, Subscribe(s.hub, s.limits, name, s.clock).0);
  }

  lemma Extend(limits: Limits, width: nat, states: seq<State>, acts: seq<Action>, a: Action)
    returns (states': seq<State>, acts': seq<Action>)
    requires IsRun(limits, width, states, acts) && Enabled(states[|acts|], a)
    ensures IsRun(limits, width, states', acts') && acts <= acts'
    ensures states'[|acts'|] == Next(states[|acts|], a)
  {
    states', acts' := states + [Next(states[|acts|], a)], acts + [a];
    forall i | 0 <= i < |acts'| ensures IsStep(states'[i], acts'[i], states'[i + 1]) {
      if i < |acts| { assert IsStep(states[i], acts[i], states[i + 1]); }
    }
  }

  function Upto(n: nat): (r: set<Id>)
    ensures forall c: Id :: c in r <==> c < n
    ensures |r| == n
  {
    if n == 0 then {} else Upto(n - 1) + {n - 1}
  }

  /** While the counter is below the limit, calls pass the unlocked check one after the other. */
  lemma {:induction false} PassMany(limits: Limits, width: nat, states: seq<State>, acts: seq<Action>, n: nat)
    returns (states': seq<State>, acts': seq<Action>)
    requires IsRun(limits, width, states, acts) && n <= width
    requires states[|acts|].pending == {} && states[|acts|].hub.total < limits.maxTotal
    ensures IsRun(limits, width, states', acts') && acts <= acts'
    ensures states'[|acts'|] == states[|acts|].(pending := Upto(n))
  {
    if n == 0 {
      states', acts' := states, acts;
    } else {
      var states1, acts1 := PassMany(limits, width, states, acts, n - 1);
      RunInv(limits, width, states1, acts1, |acts1|);
      states', acts' := Extend(limits, width, states1, acts1, PassCheck(n - 1));
    }
  }

  /** The calls with ids below `n` are past the check, and there is room for `room` more. */
  ghost predicate Waiting(s: State, name: string, n: nat, room: nat) {
    AllLive(s) && s.pending == Upto(n) && Room(s.hub, s.limits, name, room)
  }

  lemma EnterOne(limits: Limits, width: nat, states: seq<State>, acts: seq<Action>, name: string, n: nat, room: nat)
    returns (states': seq<State>, acts': seq<Action>)
    requires IsRun(limits, width, states, acts) && Waiting(states[|acts|], name, n + 1, room + 1)
    ensures IsRun(limits, width, states', acts') && acts <= acts'
    ensures states'[|acts'|].hub.total == states[|acts|].hub.total + 1 && Waiting(states'[|acts'|], name, n, room)
  {
    RunInv(limits, width, states, acts, |acts|);
    EnterRoom(states[|acts|], n, name, room);
    assert Upto(n + 1) - {n} == Upto(n);
    states', acts' := Extend(limits, width, states, acts, Enter(n, name));
  }

  /** All that have passed get in, whatever the counter shows by then. */
  lemma {:induction false} EnterMany(limits: Limits, width: nat, states: seq<State>, acts: seq<Action>, name: string, n: nat, more: nat)
    returns (states': seq<State>, acts': seq<Action>)
    requires IsRun(limits, width, states, acts) && Waiting(states[|acts|], name, n, n + more)
    ensures IsRun(limits, width, states', acts') && acts <= acts'
    ensures states'[|acts'|].hub.total == states[|acts|].hub.total + n && Waiting(states'[|acts'|], name, 0, more)
    decreases n
  {
    if n == 0 {
      states', acts' := states, acts;
    } else {
      var states1, acts1 := EnterOne(limits, width, states, acts, name, n - 1, n - 1 + more);
      states', acts' := EnterMany(limits, width, states1, acts1, name, n - 1, more);
    }
  }

  /** Calls one at a time fill the manager up to any number within the limit. */
  lemma {:induction false} Fill(limits: Limits, width: nat, name: string, n: nat, more: nat)
    returns (states: seq<State>, acts: seq<Action>)
    requires width >= 1 && limits.maxTotal + width <= WORD && n <= limits.maxTotal
    requires limits.maxChannels >= 1 && n + more <= PerChannel(limits)
    ensures IsRun(limits, width, states, acts)
    ensures states[|acts|].hub.total == n && Waiting(states[|acts|], name, 0, more)
  {
    if n == 0 {
      states, acts := [Init(limits, width)], [];
    } else {
      states, acts := Fill(limits, width, name, n - 1, more + 1);
      RunInv(limits, width, states, acts, |acts|);
      states, acts := PassMany(limits, width, states, acts, 1);
      states, acts := EnterMany(limits, width, states, acts, name, 1, more);
    }
  }

  /** Any run that is one below the limit, with room in some channel, extends to `width - 1` above it. */
  lemma CallersOvershoot(limits: Limits, width: nat, states: seq<State>, acts: seq<Action>, name: string)
    returns (states': seq<State>, acts': seq<Action>)
    requires IsRun(limits, width, states, acts)
    requires states[|acts|].hub.total + 1 == limits.maxTotal && Waiting(states[|acts|], name, 0, width)
    ensures IsRun(limits, width, states', acts') && acts <= acts'
    ensures states'[|acts'|].hub.total == limits.maxTotal + width - 1 && AllLive(states'[|acts'|])
  {
    RunInv(limits, width, states, acts, |acts|);
    states', acts' := PassMany(limits, width, states, acts, width);
    states', acts' := EnterMany(limits, width, states', acts', name, width, 0);
  }

  /** The bound is exact: for every number of concurrent calls some run from the empty manager reaches it,
      with a live receiver for every subscription, if one channel can hold them. */
  lemma OvershootAttained(limits: Limits, width: nat)
    requires width >= 1 && limits.maxTotal >= 1 && limits.maxTotal + width <= WORD
    requires limits.maxChannels >= 1 && limits.maxTotal + width - 1 <= PerChannel(limits)
    ensures exists states: seq<State>, acts: seq<Action> ::
      IsRun(limits, width, states, acts) && states[|acts|].hub.total == limits.maxTotal + width - 1
      && |states[|acts|].hub.receivers| == limits.maxTotal + width - 1
  {
    var states, acts := Fill(limits, width, "", limits.maxTotal - 1, width);
    states, acts := CallersOvershoot(limits, width, states, acts, "");
    RunInv(limits, width, states, acts, |acts|);
    var h := states[|acts|].hub;
    assert |h.receivers| == |h.receivers.Keys|;
  }
}
