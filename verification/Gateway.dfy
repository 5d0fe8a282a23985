/** The caching branch of request forwarding, and why a shared reply is what each caller would
    have received. */
module Gateway {
  import opened Json
  import Lru
  import opened Singleflight
  import Coalescing
  import Scopes
  import ToolList
  import Identity
  import Sse
  import Text

  // ----- Bodies -----

  /** Request body with the volatile JSON-RPC fields removed. */
  function KeyBody(b: Body): Body {
    match b
    case Parsed(Obj(f)) => Parsed(Obj(f - {"id", "jsonrpc"}))
    case _ => b
  }

  function StripId(b: Body): Body {
    match b
    case Parsed(Obj(f)) => if "id" in f then Parsed(Obj(f - {"id"})) else b
    case _ => b
  }

  function InjectId(b: Body, id: Option<Value>): Body {
    match b
    case Parsed(Obj(f)) => Parsed(Obj(f["id" := if id.Some? then id.value else Null]))
    case _ => b
  }

  /** Stripping an id and injecting another is setting the id: nothing else is lost, whatever the body. */
  lemma InjectStrip(b: Body, id: Option<Value>)
    ensures InjectId(StripId(b), id) == InjectId(b, id)
  {
    match b
    case Parsed(Obj(f)) =>
      var v := if id.Some? then id.value else Null;
      assert (f - {"id"})["id" := v] == f["id" := v];
    case _ =>
  }

  /** Stripping takes away the id of an object and nothing else. */
  lemma StripFacts(f: map<string, Value>)
    ensures StripId(Parsed(Obj(f))).Parsed?
    ensures var v := StripId(Parsed(Obj(f))).value;
            v.Get("id") == None && forall n :: n != "id" ==> v.Get(n) == Obj(f).Get(n)
  {
  }

  /** Injecting sets the id of an object - to null for a request without one - and nothing else. */
  lemma InjectFacts(f: map<string, Value>, id: Option<Value>)
    ensures InjectId(Parsed(Obj(f)), id).Parsed?
    ensures var v := InjectId(Parsed(Obj(f)), id).value;
            v.Get("id") == Some(if id.Some? then id.value else Null) && forall n :: n != "id" ==> v.Get(n) == Obj(f).Get(n)
  {
  }

  lemma InjectTwice(b: Body, id: Option<Value>, id': Option<Value>)
    ensures InjectId(InjectId(b, id), id') == InjectId(b, id')
  {
    match b
    case Parsed(Obj(f)) =>
      var v := if id.Some? then id.value else Null;
      var v' := if id'.Some? then id'.value else Null;
      assert f["id" := v]["id" := v'] == f["id" := v'];
    case _ =>
  }

  /** Two objects share a key body exactly when they agree on every field but `id` and `jsonrpc`. */
  lemma KeyBodyIff(f: map<string, Value>, g: map<string, Value>)
    ensures KeyBody(Parsed(Obj(f))) == KeyBody(Parsed(Obj(g))) <==>
            forall n :: n != "id" && n != "jsonrpc" ==> Obj(f).Get(n) == Obj(g).Get(n)
  {
    var f', g' := f - {"id", "jsonrpc"}, g - {"id", "jsonrpc"};
    forall n | n != "id" && n != "jsonrpc" ensures Obj(f).Get(n) == Obj(f').Get(n) && Obj(g).Get(n) == Obj(g').Get(n) {
    }
    if forall n :: n != "id" && n != "jsonrpc" ==> Obj(f).Get(n) == Obj(g).Get(n) {
      forall n ensures n in f' <==> n in g' {
        if n != "id" && n != "jsonrpc" { assert Obj(f).Get(n) == Obj(g).Get(n); }
      }
      forall n | n in f' ensures f'[n] == g'[n] {
        assert Obj(f).Get(n) == Obj(g).Get(n);
      }
      assert f' == g';
    }
  }

  // ----- Egress -----

  /** JSON parsing and printing, and the fixed meta-tool definitions. */
  datatype Env = Env(parse: string -> Option<Value>, render: Value -> string, searchTools: seq<Value>, codeTools: seq<Value>)

  type Edit = Value -> Option<Value>

  function Lower(c: char): char {
    if 'A' <= c <= 'Z' then (c as int + 32) as char else c
  }

  predicate IsContentType(name: string) {
    |name| == |"content-type"| && forall i :: 0 <= i < |name| ==> Lower(name[i]) == "content-type"[i]
  }

  function ContentType(headers: seq<(string, string)>): Option<string> {
    if headers == [] then None
    else if IsContentType(headers[0].0) then Some(headers[0].1)
    else ContentType(headers[1..])
  }

  predicate IsAsciiSpace(c: char) {
    c == ' ' || c == '\t' || c == '\n' || c == '\r' || c == '\U{000C}'
  }

  function FirstNonSpace(t: string): Option<char> {
    if t == "" then None else if IsAsciiSpace(t[0]) then FirstNonSpace(t[1..]) else Some(t[0])
  }

  /** Without a content type the body decides: JSON starts with a brace or a bracket. */
  predicate IsEventStream(contentType: Option<string>, body: Body) {
    match contentType
    case Some(ct) => Text.Contains(ct, "text/event-stream")
    case None =>
      match body
      case Parsed(v) => !v.Obj? && !v.Arr?
      case Text(t) => FirstNonSpace(t) != Some('{') && FirstNonSpace(t) != Some('[')
      case Binary(_) => true
  }

  /** The edit on the text of one message; `None` when it does not parse or is left as it is. */
  function TextEdit(edit: Edit, env: Env): Sse.Rewriter {
    p => match env.parse(p)
         case None => None
         case Some(v) => match edit(v) case None => None case Some(v') => Some(env.render(v'))
  }

  /** Apply `edit` to every JSON-RPC message. A body that is one JSON document has no line starting
      with `data:`, so as an event stream it passes through. */
  function RewriteBody(body: Body, contentType: Option<string>, edit: Edit, env: Env): Body {
    if IsEventStream(contentType, body) then
      match body
      case Text(t) => Body.Text(Sse.Rewrite(t, TextEdit(edit, env)))
      case _ => body
    else
      match body
      case Parsed(v) => (match edit(v) case None => body case Some(v') => Parsed(v'))
      case _ => body
  }

  datatype Forwarding = Forwarding(filterByScope: bool, slim: bool, searchMode: bool, codeMode: bool)

  datatype Request = Request(
    endpoint: string,
    caller: Identity.Caller,
    scopes: Option<seq<Scopes.Scope>>,
    body: Body,
    fwd: Forwarding)

  function InfoOf(q: Request): ToolList.Info {
    match q.body
    case Parsed(v) => ToolList.RequestInfo(v)
    case _ => ToolList.Info(Scopes.Unknown, None, None, None)
  }

  /** The edit of `tools/list` messages for a caller; `None` when nothing would change. */
  function EditOf(q: Request, env: Env): Option<Edit> {
    if q.fwd.codeMode then Some(v => ToolList.ReplaceTools(v, env.codeTools))
    else if q.fwd.searchMode then Some(v => ToolList.ReplaceTools(v, env.searchTools))
    else
      var allow := if q.fwd.filterByScope && q.scopes.Some? then ToolList.CallFilter(q.scopes.value) else None;
      if allow.None? && !q.fwd.slim then None else Some(v => ToolList.TransformMessage(v, allow, q.fwd.slim))
  }

  /** The caller's own view of a reply body, applied on the way out. */
  function Egress(q: Request, headers: seq<(string, string)>, body: Body, env: Env): Body {
    if InfoOf(q).mcpMethod != Scopes.ToolsList then body
    else
      match EditOf(q, env)
      case None => body
      case Some(edit) => RewriteBody(body, ContentType(headers), edit, env)
  }

  // ----- The caching branch over whole runs -----

  datatype Upstream = Upstream(body: Body, status: nat, headers: seq<(string, string)>)

  type Hash = (string, seq<byte>, Body) -> Key

  function KeyOf(hash: Hash, q: Request): Key {
    hash(q.endpoint, Identity.Encode(q.caller), KeyBody(q.body))
  }

  predicate Cacheable(q: Request) {
    InfoOf(q).mcpMethod in {Scopes.ToolsList, Scopes.ResourcesList, Scopes.PromptsList}
  }

  /** The protocol state with the requests behind calls and handles, and the upstream replies
      that completed handles received. */
  datatype World = World(
    flight: State,
    requests: map<nat, Request>,
    owners: map<Id, Request>,
    replies: map<Id, Upstream>)

  /** A protocol step together with the request that begins it or the upstream reply it stores. */
  datatype Event = Event(act: Action, request: Option<Request>, upstream: Option<Upstream>)

  function Stored(u: Upstream, len: nat): Reply {
    Lru.Reply(StripId(u.body), len, u.status, u.headers)
  }

  /** Calls come from cacheable requests under their keys; only successful replies complete a
      handle, stored without their id. */
  ghost predicate Step(hash: Hash, w: World, e: Event, w': World) {
    && Coalescing.IsStep(w.flight, e.act, w'.flight)
    && (e.act.Begin? ==> e.request.Some? && Cacheable(e.request.value) && e.act.key == KeyOf(hash, e.request.value))
    && (e.act.Notify? ==>
          e.upstream.Some? && 200 <= e.upstream.value.status < 300 && e.act.reply == Stored(e.upstream.value, e.act.reply.len))
    && w'.requests == (if e.act.Begin? then w.requests[e.act.task := e.request.value] else w.requests)
    && w'.replies == (if e.act.Notify? then w.replies[e.act.handle := e.upstream.value] else w.replies)
    && w'.owners == (
         if e.act.DoJoin? && Flight(w.flight.core, w.flight.tasks[e.act.task].key).None? && e.act.task in w.requests
         then w.owners[w.flight.core.nextId := w.requests[e.act.task]] else w.owners)
  }

  ghost predicate IsRun(hash: Hash, cfg: Config, worlds: seq<World>, events: seq<Event>) {
    && cfg.capacity > 0
    && |worlds| == |events| + 1 && worlds[0] == World(Init(cfg), map[], map[], map[])
    && (forall i :: 0 <= i < |events| ==> Step(hash, worlds[i], events[i], worlds[i + 1]))
  }

  ghost predicate CallOk(hash: Hash, w: World, t: nat) {
    t in w.flight.tasks ==>
      t in w.requests && Cacheable(w.requests[t]) && KeyOf(hash, w.requests[t]) == w.flight.tasks[t].key
  }

  ghost predicate HandleKnown(hash: Hash, w: World, h: Id) {
    h in w.flight.handles ==>
      && h in w.owners && Cacheable(w.owners[h]) && KeyOf(hash, w.owners[h]) == w.flight.handles[h].key
      && (w.flight.handles[h].phase.Completed? ==>
            h in w.replies && 200 <= w.replies[h].status < 300
            && var r := w.flight.handles[h].phase.entry.reply; r == Stored(w.replies[h], r.len))
  }

  ghost predicate Known(hash: Hash, w: World) {
    && (forall t :: CallOk(hash, w, t))
    && (forall h :: HandleKnown(hash, w, h))
  }

  lemma HandleStepKnown(hash: Hash, w: World, e: Event, w': World, h: Id)
    requires Inv(w.flight) && Known(hash, w) && Step(hash, w, e, w')
    ensures HandleKnown(hash, w', h)
  {
    assert HandleKnown(hash, w, h);
    if h in w'.flight.handles {
      Coalescing.StepHandleKey(w.flight, e.act, h);
      if e.act.DoJoin? { assert CallOk(hash, w, e.act.task); }
      if w'.flight.handles[h].phase.Completed? { Coalescing.StepCompletion(w.flight, e.act, h); }
    }
  }

  lemma CallStepKnown(hash: Hash, w: World, e: Event, w': World, t: nat)
    requires Inv(w.flight) && Known(hash, w) && Step(hash, w, e, w')
    ensures CallOk(hash, w', t)
  {
    assert CallOk(hash, w, t);
    if t in w'.flight.tasks { Coalescing.StepTaskKey(w.flight, e.act, t); }
  }

  lemma {:induction false} RunKnown(hash: Hash, cfg: Config, worlds: seq<World>, events: seq<Event>, i: nat)
    requires IsRun(hash, cfg, worlds, events) && i < |worlds|
    ensures Inv(worlds[i].flight) && worlds[i].flight.cfg == cfg && Known(hash, worlds[i])
  {
    if i == 0 {
      InitInv(cfg);
    } else {
      RunKnown(hash, cfg, worlds, events, i - 1);
      var w, e, w' := worlds[i - 1], events[i - 1], worlds[i];
      assert Step(hash, w, e, w');
      StepInv(w.flight, e.act);
      forall t ensures CallOk(hash, w', t) { CallStepKnown(hash, w, e, w', t); }
      forall h ensures HandleKnown(hash, w', h) { HandleStepKnown(hash, w, e, w', h); }
    }
  }

  /** The shared reply a call returned with, if it did not have to execute. */
  function Shared(w: World, t: nat): Option<(Reply, Id)> {
    if t !in w.flight.tasks || !w.flight.tasks[t].pc.Returned? then None
    else match w.flight.tasks[t].pc.outcome
      case Cached(r, h, _) => Some((r, h))
      case Coalesced(r, h) => Some((r, h))
      case Execute(_) => None
  }

  /** What the caller is sent for a cached or coalesced reply. */
  function Answer(q: Request, r: Reply, env: Env): Body {
    Egress(q, r.headers, InjectId(r.body, InfoOf(q).id), env)
  }

  /** Two requests the upstream cannot tell apart but for the JSON-RPC envelope. */
  predicate SameQuestion(q: Request, q': Request) {
    q.endpoint == q'.endpoint && Identity.Encode(q.caller) == Identity.Encode(q'.caller) && KeyBody(q.body) == KeyBody(q'.body)
  }

  /** The hash of endpoint, identity and body is the same. */
  predicate SameHash(hash: Hash, q: Request, q': Request) {
    hash(q.endpoint, Identity.Encode(q.caller), KeyBody(q.body)) == hash(q'.endpoint, Identity.Encode(q'.caller), KeyBody(q'.body))
  }

  /** The hash tells two requests apart. */
  predicate NoCollision(hash: Hash, q: Request, q': Request) {
    SameHash(hash, q, q') ==> SameQuestion(q, q')
  }

  /** Only the three list methods are cached and coalesced. */
  predicate AsksForList(q: Request) {
    && q.body.Parsed? && q.body.value.Get("method").Some? && q.body.value.Get("method").value.Str?
    && q.body.value.Get("method").value.text in {"tools/list", "resources/list", "prompts/list"}
  }

  lemma CacheableIff(q: Request)
    ensures Cacheable(q) <==> AsksForList(q)
  {
  }

  /** Caching is transparent. In every run, a cached or coalesced answer is the caller's own egress
      transform of a real, successful upstream reply with its id set to the caller's id. That reply
      answered a request with the same hash key; unless the hash collides it went to the same
      endpoint for the same caller with the same JSON apart from `id` and `jsonrpc`. */
  lemma Transparent(hash: Hash, cfg: Config, worlds: seq<World>, events: seq<Event>, i: nat, t: nat, env: Env)
    requires IsRun(hash, cfg, worlds, events) && i < |worlds| && Shared(worlds[i], t).Some?
    ensures var w, (r, h) := worlds[i], Shared(worlds[i], t).value;
            && t in w.requests && h in w.owners && h in w.replies
            && 200 <= w.replies[h].status < 300 && r.status == w.replies[h].status && r.headers == w.replies[h].headers
            && var q, u := w.requests[t], w.replies[h];
               && Answer(q, r, env) == Egress(q, u.headers, InjectId(u.body, InfoOf(q).id), env)
               && AsksForList(q) && AsksForList(w.owners[h]) && SameHash(hash, q, w.owners[h])
               && (NoCollision(hash, q, w.owners[h]) ==> SameQuestion(q, w.owners[h]))
  {
    var w := worlds[i];
    RunKnown(hash, cfg, worlds, events, i);
    assert CallOk(hash, w, t);
    assert TaskOk(w.flight.tasks[t], cfg.ttl, w.flight.handles);
    var (r, h) := Shared(w, t).value;
    assert HandleKnown(hash, w, h);
    InjectStrip(w.replies[h].body, InfoOf(w.requests[t]).id);
    CacheableIff(w.requests[t]);
    CacheableIff(w.owners[h]);
  }

  /** Well-formed callers that share a reply are the same caller, and ask the same JSON question. */
  lemma SharedOnlyWithSelf(q: Request, q': Request)
    requires SameQuestion(q, q') && Identity.WellFormed(q.caller) && Identity.WellFormed(q'.caller)
    requires q.body.Parsed? && q.body.value.Obj? && q'.body.Parsed? && q'.body.value.Obj?
    ensures q.caller == q'.caller
    ensures forall n :: n != "id" && n != "jsonrpc" ==> q.body.value.Get(n) == q'.body.value.Get(n)
    ensures InfoOf(q).mcpMethod == InfoOf(q').mcpMethod
  {
    Identity.EncodeInjective(q.caller, q'.caller);
    KeyBodyIff(q.body.value.fields, q'.body.value.fields);
  }

  function EchoId(u: Upstream, id: Option<Value>): Upstream {
    u.(body := InjectId(u.body, id))
  }

  /** An upstream that answers the same question the same way. */
  type Server = (string, seq<byte>, Body) -> Upstream

  /** What executing the request returns: the reply with the request's id echoed (section 5 of the JSON-RPC
      2.0 specification). */
  function Executed(serve: Server, q: Request): Upstream {
    EchoId(serve(q.endpoint, Identity.Encode(q.caller), KeyBody(q.body)), InfoOf(q).id)
  }

  lemma SameAnswer(q: Request, q': Request, len: nat, env: Env, serve: Server)
    requires SameQuestion(q, q')
    ensures var direct := Executed(serve, q);
            Answer(q, Stored(Executed(serve, q'), len), env) == Egress(q, direct.headers, direct.body, env)
  {
    var s := serve(q.endpoint, Identity.Encode(q.caller), KeyBody(q.body));
    InjectStrip(Executed(serve, q').body, InfoOf(q).id);
    InjectTwice(s.body, InfoOf(q').id, InfoOf(q).id);
  }

  /** The upstream reply a handle got is the server's reply to the request that owns the handle. */
  ghost predicate ServedAt(w: World, serve: Server, h: Id) {
    h in w.replies ==> h in w.flight.handles && h in w.owners && w.replies[h] == Executed(serve, w.owners[h])
  }

  /** Upstream replies come from the server. */
  ghost predicate ServedBy(worlds: seq<World>, events: seq<Event>, serve: Server)
    requires |worlds| == |events| + 1
  {
    forall i :: 0 <= i < |events| && events[i].act.Notify? && events[i].act.handle in worlds[i].owners ==>
      events[i].upstream == Some(Executed(serve, worlds[i].owners[events[i].act.handle]))
  }

  lemma ServedStep(hash: Hash, w: World, e: Event, w': World, serve: Server, h: Id)
    requires Inv(w.flight) && Known(hash, w) && Step(hash, w, e, w') && ServedAt(w, serve, h)
    requires e.act.Notify? && e.act.handle in w.owners ==> e.upstream == Some(Executed(serve, w.owners[e.act.handle]))
    ensures ServedAt(w', serve, h)
  {
    assert HandleKnown(hash, w, h);
    Coalescing.StepHandles(w.flight, e.act);
    if h in w.flight.handles { assert HandleOk(h, w.flight.handles[h], w.flight.core); }
  }

  lemma OneStepServed(hash: Hash, cfg: Config, worlds: seq<World>, events: seq<Event>, i: nat, serve: Server, h: Id)
    requires IsRun(hash, cfg, worlds, events) && i < |events| && ServedBy(worlds, events, serve)
    requires ServedAt(worlds[i], serve, h)
    ensures ServedAt(worlds[i + 1], serve, h)
  {
    RunKnown(hash, cfg, worlds, events, i);
    assert Step(hash, worlds[i], events[i], worlds[i + 1]);
    ServedStep(hash, worlds[i], events[i], worlds[i + 1], serve, h);
  }

  lemma {:induction false} RunServed(hash: Hash, cfg: Config, worlds: seq<World>, events: seq<Event>, i: nat, serve: Server, h: Id)
    requires IsRun(hash, cfg, worlds, events) && i < |worlds| && ServedBy(worlds, events, serve)
    ensures ServedAt(worlds[i], serve, h)
    decreases i
  {
    if i > 0 {
      RunServed(hash, cfg, worlds, events, i - 1, serve, h);
      OneStepServed(hash, cfg, worlds, events, i - 1, serve, h);
    }
  }

  /** In every run with an upstream that echoes ids and answers the same question the same way, a cached or
      coalesced answer is exactly what executing the request would have returned, unless the hash collides. */
  lemma AsIfExecuted(hash: Hash, cfg: Config, worlds: seq<World>, events: seq<Event>, i: nat, t: nat, env: Env, serve: Server)
    requires IsRun(hash, cfg, worlds, events) && i < |worlds| && Shared(worlds[i], t).Some?
    requires ServedBy(worlds, events, serve)
    ensures var w, (r, h) := worlds[i], Shared(worlds[i], t).value;
            && t in w.requests && h in w.owners
            && var q, direct := w.requests[t], Executed(serve, w.requests[t]);
               NoCollision(hash, q, w.owners[h]) ==>
                 Answer(q, r, env) == Egress(q, direct.headers, direct.body, env) && r.status == direct.status
  {
    var w := worlds[i];
    var (r, h) := Shared(w, t).value;
    Transparent(hash, cfg, worlds, events, i, t, env);
    RunServed(hash, cfg, worlds, events, i, serve, h);
    var q, q' := w.requests[t], w.owners[h];
    if NoCollision(hash, q, q') {
      SameAnswer(q, q', 0, env, serve);
      InjectStrip(w.replies[h].body, InfoOf(q).id);
    }
  }
}
