/** Pinning sessions to the machine that owns them. Times are in milliseconds. */
module Affinity {
  import opened Json
  import Text

  // ----- Names and keys -----

  /** `s` up to, not including, the first `c`. */
  function UpTo(s: string, c: char): (r: string)
    ensures c !in r && r <= s
  {
    if s == "" || s[0] == c then "" else [s[0]] + UpTo(s[1..], c)
  }

  /** What follows the first occurrence of `sep`. */
  function AfterFirst(s: string, sep: string): Option<string> {
    if sep <= s then Some(s[|sep|..])
    else if s == "" then None
    else AfterFirst(s[1..], sep)
  }

  const FLY_SUFFIX := ".fly.dev"

  /** The app behind `https://<app>.fly.dev/...`; other hosts have none. */
  function AppName(url: string): Option<string> {
    match AfterFirst(url, "://")
    case None => None
    case Some(rest) =>
      var host := UpTo(UpTo(Text.Before(rest, "://"), '/'), ':');
      if |host| >= |FLY_SUFFIX| && host[|host| - |FLY_SUFFIX|..] == FLY_SUFFIX
      then Some(host[..|host| - |FLY_SUFFIX|]) else None
  }

  function SessionKey(app: string, session: string): string {
    "proxy:mcpaff:sess:" + app + ":" + session
  }

  function MachinesKey(app: string): string {
    "proxy:mcpaff:machines:" + app
  }

  // ----- The app name in a target URL -----

  lemma {:induction false} UpToOf(s: string, c: char, tail: string)
    requires c !in s && (tail == "" || tail[0] == c)
    ensures UpTo(s + tail, c) == s
  {
    if s == "" {
      assert s + tail == tail;
    } else {
      assert s[0] in s && (s + tail)[0] == s[0] && (s + tail)[1..] == s[1..] + tail;
      UpToOf(s[1..], c, tail);
    }
  }

  lemma {:induction false} AfterFirstOf(scheme: string, rest: string)
    requires ':' !in scheme
    ensures AfterFirst(scheme + "://" + rest, "://") == Some(rest)
  {
    var s := scheme + "://" + rest;
    if scheme == "" {
      assert s == "://" + rest && s[3..] == rest;
    } else {
      assert scheme[0] in scheme && s[0] == scheme[0] && "://"[0] == ':';
      assert s[1..] == scheme[1..] + "://" + rest;
      AfterFirstOf(scheme[1..], rest);
    }
  }

  /** The host is what stands between the scheme and the first slash or colon. */
  lemma HostOf(host: string, tail: string)
    requires '/' !in host && ':' !in host && (tail == "" || tail[0] == '/' || tail[0] == ':')
    ensures UpTo(UpTo(Text.Before(host + tail, "://"), '/'), ':') == host
  {
    var t := host + tail;
    Text.BeforeFirst(t, "://");
    Text.BeforeStops(t, "://");
    var b := Text.Before(t, "://");
    BeforeKeepsHost(host, tail);
    var rest := b[|host|..];
    assert b == host + rest;
    if rest != "" { assert rest[0] == t[|host|] == tail[0]; }
    HostBeforeSlash(host, rest);
  }

  lemma BeforeKeepsHost(host: string, tail: string)
    requires ':' !in host
    ensures host <= Text.Before(host + tail, "://") <= host + tail
  {
    var t := host + tail;
    Text.BeforeFirst(t, "://");
    Text.BeforeStops(t, "://");
    var n := |Text.Before(t, "://")|;
    forall i | 0 <= i < |host| ensures t[i] != ':' { assert host[i] in host; }
    assert n < |t| ==> t[n..][0] == "://"[0] == ':';
    assert n >= |host|;
    assert Text.Before(t, "://")[..|host|] == t[..|host|] == host;
  }

  lemma HostBeforeSlash(host: string, rest: string)
    requires '/' !in host && ':' !in host && (rest == "" || rest[0] == '/' || rest[0] == ':')
    ensures UpTo(UpTo(host + rest, '/'), ':') == host
  {
    var u := UpTo(rest, '/');
    UpToConcat(host, rest, '/');
    UpToOf(host, ':', u);
  }

  lemma {:induction false} UpToConcat(s: string, rest: string, c: char)
    requires c !in s
    ensures UpTo(s + rest, c) == s + UpTo(rest, c)
    ensures rest != "" && rest[0] != c ==> UpTo(rest, c) != "" && UpTo(rest, c)[0] == rest[0]
    ensures rest == "" || rest[0] == c ==> UpTo(rest, c) == ""
  {
    if s == "" {
      assert s + rest == rest && s + UpTo(rest, c) == UpTo(rest, c);
    } else {
      assert s[0] in s && (s + rest)[0] == s[0] && (s + rest)[1..] == s[1..] + rest;
      UpToConcat(s[1..], rest, c);
    }
  }

  /** The app of `<scheme>://<host>` with a path or port behind it: the host without `.fly.dev`, and none for a
      host that does not end so. */
  lemma AppNameOfUrl(scheme: string, host: string, tail: string)
    requires ':' !in scheme && '/' !in host && ':' !in host && (tail == "" || tail[0] == '/' || tail[0] == ':')
    ensures forall app :: host == app + ".fly.dev" ==> AppName(scheme + "://" + (host + tail)) == Some(app)
    ensures (forall app :: host != app + ".fly.dev") ==> AppName(scheme + "://" + (host + tail)) == None
  {
    AfterFirstOf(scheme, host + tail);
    HostOf(host, tail);
    var n := |host| - |FLY_SUFFIX|;
    if n >= 0 && host[n..] == FLY_SUFFIX { assert host == host[..n] + ".fly.dev"; }
    forall app | host == app + ".fly.dev" ensures AppName(scheme + "://" + (host + tail)) == Some(app) {
      assert host[n..] == FLY_SUFFIX && host[..n] == app;
    }
  }

  /** A target without a scheme has no app. */
  lemma {:induction false} NoSchemeNoApp(url: string)
    requires !Text.Contains(url, "://")
    ensures AppName(url) == None
  {
    NoSchemeAfter(url);
  }

  lemma {:induction false} NoSchemeAfter(url: string)
    requires !Text.Contains(url, "://")
    ensures AfterFirst(url, "://") == None
  {
    assert url[0..] == url;
    if url != "" {
      forall i | 0 <= i <= |url| - 1 ensures !("://" <= url[1..][i..]) { assert url[1..][i..] == url[i + 1..]; }
      NoSchemeAfter(url[1..]);
    }
  }

  lemma AppNameHasNoColon(url: string)
    ensures AppName(url).Some? ==> ':' !in AppName(url).value
  {
  }

  lemma SplitAtColon(a: string, s: string, a': string, s': string)
    requires ':' !in a && ':' !in a' && a + ":" + s == a' + ":" + s'
    ensures a == a' && s == s'
  {
    var t, t' := a + ":" + s, a' + ":" + s';
    assert t[|a|] == ':' && t'[|a'|] == ':';
    assert forall i :: 0 <= i < |a| ==> t[i] == a[i];
    assert forall i :: 0 <= i < |a'| ==> t'[i] == a'[i];
    assert a == t[..|a|] && a' == t'[..|a'|];
    assert s == t[|a| + 1..] && s' == t'[|a'| + 1..];
  }

  /** Different (app, session) pairs never share a key, whatever the session id contains. */
  lemma SessionKeyInjective(app: string, session: string, app': string, session': string)
    requires ':' !in app && ':' !in app' && SessionKey(app, session) == SessionKey(app', session')
    ensures app == app' && session == session'
  {
    var p := "proxy:mcpaff:sess:";
    assert SessionKey(app, session)[|p|..] == app + ":" + session;
    assert SessionKey(app', session')[|p|..] == app' + ":" + session';
    SplitAtColon(app, session, app', session');
  }

  lemma ListKeyApart(app: string, session: string, app': string)
    ensures SessionKey(app, session) != MachinesKey(app')
  {
    assert SessionKey(app, session)[13] == 's';
    assert MachinesKey(app')[13] == 'm';
  }

  // ----- The session store over whole runs -----

  const SESSION_TTL := 3_600_000
  const MACHINE_LIST_TTL := 30_000

  datatype Item = Item(value: string, expiresAt: nat)

  type Items = map<string, Item>

  function Read(items: Items, key: string, now: nat): Option<string> {
    if key in items && now <= items[key].expiresAt then Some(items[key].value) else None
  }

  /** One atomic command or script on the shared store. */
  datatype Command =
    | Bind(app: string, session: string, machine: string, at: nat)
    | Lookup(app: string, session: string, at: nat)
    | Unbind(app: string, session: string, at: nat)
    | CacheList(app: string, json: string, at: nat)

  class SessionStore {
    var items: Items

    /** `GETEX`: fetch the binding and refresh its lifetime. */
    method LookupSession(app: string, session: string, now: nat) returns (machine: Option<string>)
      modifies this
      ensures machine == Read(old(items), SessionKey(app, session), now)
      ensures items == Apply(old(items), Lookup(app, session, now))
    {
      var key := SessionKey(app, session);
      machine := Read(items, key, now);
      if machine.Some? { items := items[key := Item(machine.value, now + SESSION_TTL)]; }
    }

    method StoreSession(app: string, session: string, machine: string, now: nat)
      modifies this
      ensures items == Apply(old(items), Bind(app, session, machine, now))
    {
      items := items[SessionKey(app, session) := Item(machine, now + SESSION_TTL)];
    }

    method DeleteSession(app: string, session: string, now: nat)
      modifies this
      ensures items == Apply(old(items), Unbind(app, session, now))
    {
      items := items - {SessionKey(app, session)};
    }

    /** After an `initialize` reply: bind the session the upstream named, if one was to be bound. */
    method CaptureSession(d: Decision, session: Option<string>, now: nat)
      modifies this
      ensures items == if d.app.Some? && d.bindTo.Some? && session.Some?
                       then Apply(old(items), Bind(d.app.value, session.value, d.bindTo.value, now)) else old(items)
    {
      if d.app.Some? && d.bindTo.Some? && session.Some? {
        StoreSession(d.app.value, session.value, d.bindTo.value, now);
      }
    }
  }

  function Apply(items: Items, c: Command): Items {
    match c
    case Bind(app, s, machine, at) => items[SessionKey(app, s) := Item(machine, at + SESSION_TTL)]
    case Lookup(app, s, at) =>
      var key := SessionKey(app, s);
      if Read(items, key, at).Some? then items[key := Item(items[key].value, at + SESSION_TTL)] else items
    case Unbind(app, s, _) => items - {SessionKey(app, s)}
    case CacheList(app, json, at) => items[MachinesKey(app) := Item(json, at + MACHINE_LIST_TTL)]
  }

  function After(run: seq<Command>): Items {
    if run == [] then map[] else Apply(After(run[..|run| - 1]), run[|run| - 1])
  }

  ghost predicate ColonFree(run: seq<Command>) {
    forall i :: 0 <= i < |run| ==> ':' !in run[i].app
  }

  predicate Concerns(c: Command, app: string, session: string) {
    !c.CacheList? && c.app == app && c.session == session
  }

  /** The binding of one session as told by the run alone: the last bind or unbind decides it, and
      each successful lookup within the lifetime renews it. */
  ghost function Binding(run: seq<Command>, app: string, session: string): Option<Item> {
    if run == [] then None
    else
      var c := run[|run| - 1];
      var before := Binding(run[..|run| - 1], app, session);
      if !Concerns(c, app, session) then before
      else match c
        case Bind(_, _, machine, at) => Some(Item(machine, at + SESSION_TTL))
        case Unbind(_, _, _) => None
        case Lookup(_, _, at) =>
          if before.Some? && at <= before.value.expiresAt then Some(before.value.(expiresAt := at + SESSION_TTL)) else before
        case CacheList(_, _, _) => before
  }

  /** The shared store, keyed by plain strings and serving every app at once, holds for each session
      exactly what the run bound it to. */
  lemma {:induction false} StoreHoldsBindings(run: seq<Command>, app: string, session: string)
    requires ColonFree(run) && ':' !in app
    ensures var key, b := SessionKey(app, session), Binding(run, app, session);
            (key in After(run) <==> b.Some?) && (b.Some? ==> After(run)[key] == b.value)
  {
    if run != [] {
      var n := |run| - 1;
      StoreHoldsBindings(run[..n], app, session);
      OneKeyStep(After(run[..n]), run[n], app, session);
    }
  }

  /** A command on another session or list leaves this session's key alone. */
  lemma OneKeyStep(items: Items, c: Command, app: string, session: string)
    requires ':' !in c.app && ':' !in app
    ensures var key := SessionKey(app, session);
            !Concerns(c, app, session) ==>
              (key in Apply(items, c) <==> key in items) && (key in items ==> Apply(items, c)[key] == items[key])
  {
    if c.CacheList? {
      ListKeyApart(app, session, c.app);
    } else if !Concerns(c, app, session) && SessionKey(c.app, c.session) == SessionKey(app, session) {
      SessionKeyInjective(c.app, c.session, app, session);
    }
  }

  /** `run[i]` is the latest binding of the session: nothing bound or unbound it since. */
  ghost predicate LatestBind(run: seq<Command>, i: nat, app: string, session: string, machine: string) {
    && i < |run| && run[i].Bind? && Concerns(run[i], app, session) && run[i].machine == machine
    && forall j :: i < j < |run| && Concerns(run[j], app, session) ==> run[j].Lookup?
  }

  /** `run[i]` is a use of the session no more than a lifetime before `now`. */
  ghost predicate RecentUse(run: seq<Command>, i: nat, app: string, session: string, now: nat) {
    i < |run| && Concerns(run[i], app, session) && !run[i].Unbind? && now <= run[i].at + SESSION_TTL
  }

  lemma {:induction false} BindingOrigin(run: seq<Command>, app: string, session: string)
    requires Binding(run, app, session).Some?
    ensures var b := Binding(run, app, session).value;
            && (exists i :: LatestBind(run, i, app, session, b.value))
            && (exists i :: 0 <= i < |run| && Concerns(run[i], app, session) && !run[i].Unbind?
                            && b.expiresAt == run[i].at + SESSION_TTL)
  {
    var n := |run| - 1;
    var b := Binding(run, app, session).value;
    if Concerns(run[n], app, session) && run[n].Bind? {
      assert LatestBind(run, n, app, session, b.value);
    } else {
      BindingOrigin(run[..n], app, session);
      var i :| LatestBind(run[..n], i, app, session, b.value);
      assert LatestBind(run, i, app, session, b.value);
      var before := Binding(run[..n], app, session).value;
      var u :| 0 <= u < n && Concerns(run[..n][u], app, session) && !run[..n][u].Unbind?
               && before.expiresAt == run[..n][u].at + SESSION_TTL;
      if b.expiresAt == before.expiresAt {
        assert b.expiresAt == run[u].at + SESSION_TTL;
      } else {
        assert b.expiresAt == run[n].at + SESSION_TTL;
      }
    }
  }

  // ----- Cached machine lists -----

  predicate ListsOf(c: Command, app: string) {
    c.CacheList? && c.app == app
  }

  lemma ListStep(items: Items, c: Command, app: string)
    requires ':' !in c.app && ':' !in app
    ensures var key := MachinesKey(app);
            if ListsOf(c, app) then key in Apply(items, c) && Apply(items, c)[key] == Item(c.json, c.at + 30_000)
            else (key in Apply(items, c) <==> key in items) && (key in items ==> Apply(items, c)[key] == items[key])
  {
    if c.CacheList? {
      assert MachinesKey(app)[|"proxy:mcpaff:machines:"|..] == app && MachinesKey(c.app)[|"proxy:mcpaff:machines:"|..] == c.app;
    } else {
      ListKeyApart(c.app, c.session, app);
    }
  }

  /** The machine list read for an app is the one cached last, for 30 seconds, whatever is done to sessions. */
  lemma {:induction false} ListServed(run: seq<Command>, app: string, i: nat, now: nat)
    requires ColonFree(run) && ':' !in app
    requires i < |run| && ListsOf(run[i], app) && forall j :: i < j < |run| ==> !ListsOf(run[j], app)
    ensures MachinesKey(app) in After(run) && After(run)[MachinesKey(app)] == Item(run[i].json, run[i].at + 30_000)
    ensures Read(After(run), MachinesKey(app), now) == if now <= run[i].at + 30_000 then Some(run[i].json) else None
  {
    var n := |run| - 1;
    ListStep(After(run[..n]), run[n], app);
    if i < n { ListServed(run[..n], app, i, now); }
  }

  lemma {:induction false} NoListYet(run: seq<Command>, app: string, now: nat)
    requires ColonFree(run) && ':' !in app && forall j :: 0 <= j < |run| ==> !ListsOf(run[j], app)
    ensures MachinesKey(app) !in After(run) && Read(After(run), MachinesKey(app), now) == None
  {
    if run != [] {
      var n := |run| - 1;
      NoListYet(run[..n], app, now);
      ListStep(After(run[..n]), run[n], app);
    }
  }

  // ----- Decisions -----

  datatype Machine = Machine(id: string, state: string)

  datatype Decision = Decision(forced: Option<string>, bindTo: Option<string>, app: Option<string>)

  const NO_AFFINITY := Decision(None, None, None)

  predicate Listed(machines: seq<Machine>, id: string) {
    exists m :: m in machines && m.id == id
  }

  /** A request that carries a session id: force its machine when the binding and the machine exist. */
  function FollowUp(app: Option<string>, found: Option<string>, machines: seq<Machine>): Decision {
    if app.Some? && found.Some? && Listed(machines, found.value)
    then Decision(found, None, app) else NO_AFFINITY
  }

  /** Affinity is safe in every run: a follow-up is forced exactly when its session's binding is
      alive and its machine is listed; the machine is then the one most recently bound to that app
      and session, used within the last lifetime. Otherwise nothing is forced. */
  lemma ForcedOnlyToOwner(run: seq<Command>, url: string, session: string, now: nat, machines: seq<Machine>)
    requires ColonFree(run)
    ensures var app := AppName(url);
            var found := if app.None? then None else Read(After(run), SessionKey(app.value, session), now);
            var d := FollowUp(app, found, machines);
            && d.bindTo.None?
            && (d.forced.Some? ==>
                  && app.Some? && Listed(machines, d.forced.value)
                  && Binding(run, app.value, session).Some?
                  && d.forced.value == Binding(run, app.value, session).value.value
                  && now <= Binding(run, app.value, session).value.expiresAt
                  && (exists i :: LatestBind(run, i, app.value, session, d.forced.value))
                  && (exists i :: RecentUse(run, i, app.value, session, now)))
            && (d.forced.None? ==>
                  app.None? || match Binding(run, app.value, session)
                               case None => true
                               case Some(b) => now > b.expiresAt || !Listed(machines, b.value))
  {
    var app := AppName(url);
    if app.Some? {
      AppNameHasNoColon(url);
      StoreHoldsBindings(run, app.value, session);
      var b := Binding(run, app.value, session);
      if b.Some? && now <= b.value.expiresAt {
        BindingOrigin(run, app.value, session);
        var u :| 0 <= u < |run| && Concerns(run[u], app.value, session) && !run[u].Unbind?
                 && b.value.expiresAt == run[u].at + SESSION_TTL;
        assert RecentUse(run, u, app.value, session, now);
      }
    }
  }

  lemma {:induction false} OthersKeepBinding(run: seq<Command>, later: seq<Command>, app: string, session: string)
    requires forall i :: 0 <= i < |later| ==> !Concerns(later[i], app, session)
    ensures Binding(run + later, app, session) == Binding(run, app, session)
  {
    if later == [] {
      assert run + later == run;
    } else {
      var n := |later| - 1;
      OthersKeepBinding(run, later[..n], app, session);
      assert (run + later)[..|run + later| - 1] == run + later[..n];
    }
  }

  lemma ReadsBinding(run: seq<Command>, app: string, session: string, now: nat)
    requires ColonFree(run) && ':' !in app
    ensures Read(After(run), SessionKey(app, session), now) ==
      match Binding(run, app, session)
      case None => None
      case Some(b) => if now <= b.expiresAt then Some(b.value) else None
  {
    StoreHoldsBindings(run, app, session);
  }

  lemma LastIsBind(bound: seq<Command>, app: string, session: string, machine: string, at: nat)
    requires bound != [] && bound[|bound| - 1] == Bind(app, session, machine, at)
    ensures Binding(bound, app, session) == Some(Item(machine, at + 3_600_000))
  {
  }

  lemma BindingAfterBind(run: seq<Command>, app: string, session: string, machine: string, at: nat, later: seq<Command>)
    requires forall i :: 0 <= i < |later| ==> !Concerns(later[i], app, session)
    ensures Binding(run + [Bind(app, session, machine, at)] + later, app, session) == Some(Item(machine, at + 3_600_000))
  {
    var bound := run + [Bind(app, session, machine, at)];
    LastIsBind(bound, app, session, machine, at);
    OthersKeepBinding(bound, later, app, session);
  }

  lemma BindingAfterUnbind(run: seq<Command>, app: string, session: string, at: nat, later: seq<Command>)
    requires forall i :: 0 <= i < |later| ==> !Concerns(later[i], app, session)
    ensures Binding(run + [Unbind(app, session, at)] + later, app, session) == None
  {
    var freed := run + [Unbind(app, session, at)];
    assert freed[..|freed| - 1] == run;
    OthersKeepBinding(freed, later, app, session);
  }

  /** A bound session is followed: whatever other sessions and apps do in between, a follow-up within the
      lifetime is forced to the machine it was bound to, if that machine is still listed. */
  lemma BoundIsForced(run: seq<Command>, app: string, session: string, machine: string, at: nat, later: seq<Command>,
                      all: seq<Command>, url: string, now: nat, machines: seq<Machine>)
    requires all == run + [Bind(app, session, machine, at)] + later && ColonFree(all) && AppName(url) == Some(app)
    requires forall i :: 0 <= i < |later| ==> !Concerns(later[i], app, session)
    requires now <= at + 3_600_000 && exists m :: m in machines && m.id == machine
    ensures FollowUp(AppName(url), Read(After(all), SessionKey(app, session), now), machines).forced == Some(machine)
  {
    AppNameHasNoColon(url);
    BindingAfterBind(run, app, session, machine, at, later);
    ReadsBinding(all, app, session, now);
  }

  /** Unbinding ends that. */
  lemma UnboundIsFree(run: seq<Command>, app: string, session: string, at: nat, later: seq<Command>, all: seq<Command>, now: nat)
    requires all == run + [Unbind(app, session, at)] + later && ColonFree(all) && ':' !in app
    requires forall i :: 0 <= i < |later| ==> !Concerns(later[i], app, session)
    ensures Read(After(all), SessionKey(app, session), now) == None
  {
    BindingAfterUnbind(run, app, session, at, later);
    ReadsBinding(all, app, session, now);
  }
}
