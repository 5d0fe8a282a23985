/** What each caller sees of a `tools/list` reply, from the raw message: which tools, and what of them. */
module Views {
  import opened Json
  import opened Scopes
  import opened ToolList
  import Admission
  import Utf8
  import Lines
  import Sse
  import Text
  import Singleflight
  import opened Gateway

  // ----- The view of one message -----

  function CallOf(name: string): Value {
    Obj(map["method" := Str("tools/call"), "params" := Obj(map["name" := Str(name)])])
  }

  /** A tool is shown unless the caller's scopes forbid calling it; one without a name cannot be judged. */
  predicate Visible(q: Request, tool: Value) {
    q.fwd.filterByScope && q.scopes.Some? && tool.Get("name").Some? && tool.Get("name").value.Str? ==>
      Permitted(q.scopes.value, RequestInfo(CallOf(tool.Get("name").value.text)))
  }

  /** How a shown tool looks: with slimming on, a text description is slimmed; all else is the same. */
  ghost predicate LooksLike(slim: bool, tool: Value, shown: Value) {
    if slim && tool.Get("description").Some? && tool.Get("description").value.Str?
    then shown.Get("description") == Some(Str(Utf8.Slim(tool.Get("description").value.text)))
         && forall f :: f != "description" ==> shown.Get(f) == tool.Get(f)
    else shown == tool
  }

  ghost predicate Rising(p: seq<nat>, n: nat) {
    (forall x :: 0 <= x < |p| ==> p[x] < n) && (forall x, y :: 0 <= x < y < |p| ==> p[x] < p[y])
  }

  /** The visible tools in their order; `p` gives their places in the upstream's list. */
  ghost predicate ShowsAt(q: Request, tools: seq<Value>, shown: seq<Value>, p: seq<nat>) {
    && Rising(p, |tools|) && |shown| == |p|
    && (forall m :: 0 <= m < |tools| ==> (m in p <==> Visible(q, tools[m])))
    && (forall x :: 0 <= x < |p| ==> LooksLike(q.fwd.slim, tools[p[x]], shown[x]))
  }

  /** The tools a caller sees: the fixed set of code mode or search mode, else the visible ones. */
  ghost predicate ToolsSeen(q: Request, env: Env, tools: seq<Value>, shown: seq<Value>) {
    if q.fwd.codeMode then shown == env.codeTools
    else if q.fwd.searchMode then shown == env.searchTools
    else exists p :: ShowsAt(q, tools, shown, p)
  }

  /** The caller's view of a message: only its tool array is changed. */
  ghost predicate Sees(q: Request, env: Env, msg: Value, seen: Value) {
    if Tools(msg).None? then seen == msg
    else SameApartFromTools(msg, seen) && Tools(seen).Some? && ToolsSeen(q, env, Tools(msg).value, Tools(seen).value)
  }

  // ----- Filtering keeps exactly the visible tools -----

  predicate Filters(q: Request) {
    q.fwd.filterByScope && q.scopes.Some?
  }

  function FilterOf(q: Request): Option<Allow> {
    if Filters(q) then CallFilter(q.scopes.value) else None
  }

  lemma KeepsIffVisible(q: Request, tool: Value)
    ensures Keeps(tool, FilterOf(q)) <==> Visible(q, tool)
  {
    if Filters(q) && ToolName(tool).Some? {
      var name := ToolName(tool).value;
      Admission.IsToolsCall(CallOf(name));
      assert StrField(CallOf(name), "params", "name") == Some(name);
    }
  }

  lemma SlimLooksLike(tool: Value, slim: bool)
    ensures LooksLike(slim, tool, SlimTool(tool, slim))
  {
  }

  function ShiftUp(p: seq<nat>): (r: seq<nat>)
    ensures |r| == |p| && forall x :: 0 <= x < |p| ==> r[x] == p[x] + 1
  {
    seq(|p|, x requires 0 <= x < |p| => p[x] + 1)
  }

  lemma ShiftMember(p: seq<nat>, m: nat)
    ensures m + 1 in ShiftUp(p) <==> m in p
    ensures 0 !in ShiftUp(p)
  {
    if m in p {
      var x :| 0 <= x < |p| && p[x] == m;
      assert ShiftUp(p)[x] == m + 1;
    }
  }

  /** The places of the tools a filter keeps. */
  function KeptAt(tools: seq<Value>, allow: Option<Allow>): seq<nat> {
    if tools == [] then []
    else (if Keeps(tools[0], allow) then [0] else []) + ShiftUp(KeptAt(tools[1..], allow))
  }

  /** `kept` are the tools at the places `p`, in order. */
  ghost predicate At(tools: seq<Value>, p: seq<nat>, kept: seq<Value>) {
    Rising(p, |tools|) && |kept| == |p| && forall x :: 0 <= x < |p| ==> kept[x] == tools[p[x]]
  }

  lemma RisingShift(p: seq<nat>, n: nat)
    requires Rising(p, n)
    ensures Rising(ShiftUp(p), n + 1) && Rising([0] + ShiftUp(p), n + 1)
  {
  }

  lemma AtShift(tools: seq<Value>, p: seq<nat>, kept: seq<Value>)
    requires tools != [] && At(tools[1..], p, kept)
    ensures At(tools, ShiftUp(p), kept)
  {
    RisingShift(p, |tools| - 1);
    forall x | 0 <= x < |p| ensures kept[x] == tools[ShiftUp(p)[x]] { assert tools[1..][p[x]] == tools[p[x] + 1]; }
  }

  lemma AtFront(tools: seq<Value>, up: seq<nat>, kept: seq<Value>)
    requires tools != [] && At(tools, up, kept) && Rising([0] + up, |tools|)
    ensures At(tools, [0] + up, [tools[0]] + kept)
  {
  }

  lemma {:induction false} RetainAt(tools: seq<Value>, allow: Option<Allow>)
    ensures At(tools, KeptAt(tools, allow), Retain(tools, allow))
  {
    if tools != [] {
      var p, kept := KeptAt(tools[1..], allow), Retain(tools[1..], allow);
      RetainAt(tools[1..], allow);
      AtShift(tools, p, kept);
      RisingShift(p, |tools| - 1);
      AtFront(tools, ShiftUp(p), kept);
      assert [] + ShiftUp(p) == ShiftUp(p) && [] + kept == kept;
    }
  }

  lemma {:induction false} KeptAtMember(tools: seq<Value>, allow: Option<Allow>, m: nat)
    requires m < |tools|
    ensures m in KeptAt(tools, allow) <==> Keeps(tools[m], allow)
  {
    var rest := KeptAt(tools[1..], allow);
    ShiftMember(rest, if m > 0 then m - 1 else 0);
    if m > 0 { KeptAtMember(tools[1..], allow, m - 1); }
  }

  lemma ShownSeen(q: Request, tools: seq<Value>)
    ensures ShowsAt(q, tools, Shown(tools, FilterOf(q), q.fwd.slim), KeptAt(tools, FilterOf(q)))
  {
    var allow := FilterOf(q);
    var p, kept := KeptAt(tools, allow), Retain(tools, allow);
    RetainAt(tools, allow);
    SlimAllAt(kept, q.fwd.slim);
    forall m | 0 <= m < |tools| ensures m in p <==> Visible(q, tools[m]) {
      KeptAtMember(tools, allow, m);
      KeepsIffVisible(q, tools[m]);
    }
    forall x | 0 <= x < |p| ensures LooksLike(q.fwd.slim, tools[p[x]], SlimAll(kept, q.fwd.slim)[x]) {
      SlimLooksLike(kept[x], q.fwd.slim);
    }
  }

  // ----- The view of a whole body -----

  predicate Asks(q: Request, name: string) {
    q.body.Parsed? && Admission.HasMethod(q.body.value, name)
  }

  /** What the edit makes of a message, or the message itself without one. */
  function Edited(edit: Option<Edit>, v: Value): Value {
    if edit.Some? && edit.value(v).Some? then edit.value(v).value else v
  }

  lemma PlainSeen(q: Request, env: Env, v: Value)
    requires Tools(v).Some? && !q.fwd.codeMode && !q.fwd.searchMode
    requires Shown(Tools(v).value, FilterOf(q), q.fwd.slim) == Tools(v).value
    ensures Sees(q, env, v, v)
  {
    ShownSeen(q, Tools(v).value);
  }

  lemma TransformedSeen(q: Request, env: Env, v: Value)
    requires Tools(v).Some? && !q.fwd.codeMode && !q.fwd.searchMode
    ensures var r := TransformMessage(v, FilterOf(q), q.fwd.slim); Sees(q, env, v, if r.Some? then r.value else v)
  {
    var tools := Tools(v).value;
    ShownSeen(q, tools);
    if !Changes(tools, FilterOf(q), q.fwd.slim) { UnchangedShown(tools, FilterOf(q), q.fwd.slim); }
  }

  lemma {:induction false} RetainAll(tools: seq<Value>)
    ensures Retain(tools, None) == tools
  {
    if tools != [] { RetainAll(tools[1..]); }
  }

  lemma EditSees(q: Request, env: Env, v: Value)
    ensures Sees(q, env, v, Edited(EditOf(q, env), v))
  {
    if Tools(v).Some? && !q.fwd.codeMode && !q.fwd.searchMode {
      TransformedSeen(q, env, v);
      if EditOf(q, env).None? {
        var tools := Tools(v).value;
        RetainAll(tools);
        SlimAllAt(tools, false);
        assert SlimAll(tools, false) == tools;
        PlainSeen(q, env, v);
      }
    }
  }

  /** A request for anything but the tool list gets the reply as it is. */
  lemma OtherRepliesUntouched(q: Request, headers: seq<(string, string)>, body: Body, env: Env)
    requires !Asks(q, "tools/list")
    ensures Egress(q, headers, body, env) == body
  {
    if q.body.Parsed? { Admission.IsToolsCall(q.body.value); }
  }

  /** A JSON reply to a tool-list request: exactly the caller's view of it. */
  lemma JsonReplySeen(q: Request, headers: seq<(string, string)>, v: Value, env: Env)
    requires Asks(q, "tools/list")
    requires match ContentType(headers)
             case Some(ct) => !Text.Contains(ct, "text/event-stream")
             case None => v.Obj? || v.Arr?
    ensures exists seen :: Egress(q, headers, Parsed(v), env) == Parsed(seen) && Sees(q, env, v, seen)
  {
    Admission.IsToolsCall(q.body.value);
    EditSees(q, env, v);
    assert Egress(q, headers, Parsed(v), env) == Parsed(Edited(EditOf(q, env), v));
  }

  /** One line of an event stream: a data line whose payload is JSON carries the caller's view of that
      message; every other line is the same. Terminators stay. */
  ghost predicate LineSeen(q: Request, env: Env, line: string, line': string) {
    && Sse.Ending(line') == Sse.Ending(line)
    && match Sse.Payload(line)
       case None => line' == line
       case Some(p) =>
         match env.parse(p)
         case None => line' == line
         case Some(v) =>
           exists seen :: Sees(q, env, v, seen) && ((line' == line && seen == v) || Sse.Payload(line') == Some(env.render(seen)))
  }

  ghost predicate LinesSeen(q: Request, env: Env, before: seq<string>, after: seq<string>) {
    |after| == |before| && forall i :: 0 <= i < |before| ==> LineSeen(q, env, before[i], after[i])
  }

  /** Printed JSON is a single line (section 7 of RFC 8259). */
  ghost predicate PrintsLines(env: Env) {
    forall v :: forall i :: 0 <= i < |env.render(v)| ==> !Sse.IsBreak(env.render(v)[i])
  }

  lemma EditIsSingleLine(edit: Edit, env: Env)
    requires PrintsLines(env)
    ensures Sse.SingleLine(TextEdit(edit, env))
  {
  }

  /** The text of an event stream in reply to a tool-list request: exactly the caller's view, message by
      message, with its framing kept. */
  lemma StreamReplySeen(q: Request, headers: seq<(string, string)>, t: string, env: Env)
    requires Asks(q, "tools/list") && PrintsLines(env)
    requires match ContentType(headers)
             case Some(ct) => Text.Contains(ct, "text/event-stream")
             case None => FirstNonSpace(t) != Some('{') && FirstNonSpace(t) != Some('[')
    ensures exists t' :: Egress(q, headers, Body.Text(t), env) == Body.Text(t')
                         && LinesSeen(q, env, Lines.SplitInclusive(t), Lines.SplitInclusive(t'))
  {
    Admission.IsToolsCall(q.body.value);
    var before := Lines.SplitInclusive(t);
    var edit := EditOf(q, env);
    if edit.None? {
      forall i | 0 <= i < |before| ensures LineSeen(q, env, before[i], before[i]) { SameLineSeen(q, env, before[i]); }
      assert LinesSeen(q, env, before, before);
    } else {
      var f := TextEdit(edit.value, env);
      EditIsSingleLine(edit.value, env);
      Sse.FramingPreserved(t, f);
      var after := Lines.SplitInclusive(Sse.Rewrite(t, f));
      forall i | 0 <= i < |before| ensures LineSeen(q, env, before[i], after[i]) {
        EditedLineSeen(q, env, edit.value, before[i], after[i]);
      }
      assert LinesSeen(q, env, before, after);
    }
  }

  lemma SameLineSeen(q: Request, env: Env, line: string)
    requires EditOf(q, env).None?
    ensures LineSeen(q, env, line, line)
  {
    var p := Sse.Payload(line);
    if p.Some? && env.parse(p.value).Some? { EditSees(q, env, env.parse(p.value).value); }
  }

  lemma EditedLineSeen(q: Request, env: Env, edit: Edit, line: string, line': string)
    requires EditOf(q, env) == Some(edit) && Sse.Ending(line') == Sse.Ending(line)
    requires var f := TextEdit(edit, env);
             if Sse.Accepted(line, f) then Sse.Payload(line') == f(Sse.Payload(line).value) else line' == line
    ensures LineSeen(q, env, line, line')
  {
    var p := Sse.Payload(line);
    if p.Some? && env.parse(p.value).Some? {
      var v := env.parse(p.value).value;
      EditSees(q, env, v);
      assert Sees(q, env, v, Edited(Some(edit), v));
    }
  }

  // ----- The content type -----

  /** The header name, letter by letter: lower case or upper case. */
  lemma IsContentTypeIff(name: string)
    ensures IsContentType(name) <==>
      |name| == 12 && forall i :: 0 <= i < 12 ==>
        name[i] == "content-type"[i] || (i != 7 && name[i] as int + 32 == "content-type"[i] as int)
  {
    var s := "content-type";
    assert s == ['c', 'o', 'n', 't', 'e', 'n', 't', '-', 't', 'y', 'p', 'e'];
  }

  /** The first character that is not white space decides about a reply without a content type. */
  lemma {:induction false} FirstNonSpaceIs(a: string, c: char, rest: string)
    requires (forall i :: 0 <= i < |a| ==> IsAsciiSpace(a[i])) && !IsAsciiSpace(c)
    ensures FirstNonSpace(a + [c] + rest) == Some(c)
  {
    var t := a + [c] + rest;
    if a != "" {
      assert t[0] == a[0] && t[1..] == a[1..] + [c] + rest;
      FirstNonSpaceIs(a[1..], c, rest);
    }
  }

  /** The content type is the value of the first header of that name, in any letter case. */
  lemma {:induction false} ContentTypeIsFirst(headers: seq<(string, string)>, i: nat)
    requires i < |headers| && IsContentType(headers[i].0) && forall j :: 0 <= j < i ==> !IsContentType(headers[j].0)
    ensures ContentType(headers) == Some(headers[i].1)
  {
    if i > 0 { ContentTypeIsFirst(headers[1..], i - 1); }
  }

  lemma {:induction false} NoContentType(headers: seq<(string, string)>)
    requires forall j :: 0 <= j < |headers| ==> !IsContentType(headers[j].0)
    ensures ContentType(headers) == None
  {
    if headers != [] { NoContentType(headers[1..]); }
  }

  // ----- Shared replies -----

  /** The upstream's message with the caller's id in place of its own. */
  ghost predicate WithCallersId(q: Request, upstream: Value, own: Value)
    requires q.body.Parsed?
  {
    if !upstream.Obj? then own == upstream
    else
      && own.Get("id") == Some(var id := q.body.value.Get("id"); if id.Some? then id.value else Null)
      && forall n :: n != "id" ==> own.Get(n) == upstream.Get(n)
  }

  lemma InjectedIsOwn(q: Request, v: Value)
    requires q.body.Parsed?
    ensures InjectId(Parsed(v), InfoOf(q).id).Parsed?
    ensures WithCallersId(q, v, InjectId(Parsed(v), InfoOf(q).id).value)
  {
    Admission.InfoOfMessage(q.body.value);
    if v.Obj? { InjectFacts(v.fields, InfoOf(q).id); }
  }

  predicate NotAStream(headers: seq<(string, string)>) {
    ContentType(headers).Some? ==> !Text.Contains(ContentType(headers).value, "text/event-stream")
  }

  /** What a caller gets from the cache or from a coalesced call, in every run: some upstream's JSON reply to
      the same question, with the caller's own id, seen with the caller's own eyes. */
  lemma SharedReplySeen(hash: Hash, cfg: Singleflight.Config, worlds: seq<World>, events: seq<Event>, i: nat, t: nat, env: Env)
    requires IsRun(hash, cfg, worlds, events) && i < |worlds| && Shared(worlds[i], t).Some?
    ensures var w, (r, h) := worlds[i], Shared(worlds[i], t).value;
            && t in w.requests && h in w.replies
            && var q, u := w.requests[t], w.replies[h];
               q.body.Parsed? && (u.body.Parsed? && u.body.value.Obj? && NotAStream(u.headers) ==>
                 exists own, seen :: Answer(q, r, env) == Parsed(seen) && WithCallersId(q, u.body.value, own)
                                     && if Asks(q, "tools/list") then Sees(q, env, own, seen) else seen == own)
  {
    Transparent(hash, cfg, worlds, events, i, t, env);
    var w := worlds[i];
    var (r, h) := Shared(w, t).value;
    var q, u := w.requests[t], w.replies[h];
    if u.body.Parsed? && u.body.value.Obj? && NotAStream(u.headers) {
      InjectedIsOwn(q, u.body.value);
      var own := InjectId(u.body, InfoOf(q).id).value;
      if Asks(q, "tools/list") {
        JsonReplySeen(q, u.headers, own, env);
        var seen :| Egress(q, u.headers, Parsed(own), env) == Parsed(seen) && Sees(q, env, own, seen);
      } else {
        OtherRepliesUntouched(q, u.headers, Parsed(own), env);
      }
    }
  }
}
