/** What a caller sees of a `tools/list` reply and what it may call. */
module ToolList {
  import opened Json
  import opened Scopes
  import Utf8

  type Allow = string -> bool

  // ----- The tools of a reply -----

  function Tools(msg: Value): Option<seq<Value>> {
    match msg.Get("result")
    case None => None
    case Some(result) =>
      match result.Get("tools")
      case Some(Arr(items)) => Some(items)
      case _ => None
  }

  /** All fields of the message but `result` are the same, and all fields of `result` but `tools`. */
  ghost predicate SameApartFromTools(msg: Value, out: Value) {
    && (forall f :: f != "result" ==> out.Get(f) == msg.Get(f))
    && out.Get("result").Some? && msg.Get("result").Some?
    && (forall f :: f != "tools" ==> out.Get("result").value.Get(f) == msg.Get("result").value.Get(f))
  }

  /** The reply with its tool array replaced in place. */
  function WithTools(msg: Value, tools: seq<Value>): (out: Value)
    requires Tools(msg).Some?
    ensures Tools(out) == Some(tools) && SameApartFromTools(msg, out)
  {
    var result := Obj(msg.fields["result"].fields["tools" := Arr(tools)]);
    Obj(msg.fields["result" := result])
  }

  function ToolName(tool: Value): Option<string> {
    match tool.Get("name")
    case Some(v) => v.AsStr()
    case None => None
  }

  /** Tools without a name cannot be identified and are kept. */
  predicate Keeps(tool: Value, allow: Option<Allow>) {
    allow.None? || ToolName(tool).None? || allow.value(ToolName(tool).value)
  }

  function Retain(tools: seq<Value>, allow: Option<Allow>): seq<Value> {
    if tools == [] then []
    else (if Keeps(tools[0], allow) then [tools[0]] else []) + Retain(tools[1..], allow)
  }

  function SlimTool(tool: Value, slim: bool): Value {
    match tool.Get("description")
    case Some(Str(s)) => if slim then Obj(tool.fields["description" := Str(Utf8.Slim(s))]) else tool
    case _ => tool
  }

  function SlimAll(tools: seq<Value>, slim: bool): seq<Value> {
    if tools == [] then [] else [SlimTool(tools[0], slim)] + SlimAll(tools[1..], slim)
  }

  function Shown(tools: seq<Value>, allow: Option<Allow>, slim: bool): seq<Value> {
    SlimAll(Retain(tools, allow), slim)
  }

  predicate TooLong(tool: Value) {
    match tool.Get("description")
    case Some(Str(s)) => |Utf8.Bytes(s)| > Utf8.MAX_DESCRIPTION_LEN
    case _ => false
  }

  /** What the source reports as a change: a tool was dropped or a long description was cut. */
  predicate Changes(tools: seq<Value>, allow: Option<Allow>, slim: bool) {
    var kept := Retain(tools, allow);
    |kept| != |tools| || (slim && exists t :: t in kept && TooLong(t))
  }

  /** The edited message, or `None` when the edit reports no change. */
  function TransformMessage(msg: Value, allow: Option<Allow>, slim: bool): Option<Value> {
    match Tools(msg)
    case None => None
    case Some(tools) =>
      if Changes(tools, allow, slim) then Some(WithTools(msg, Shown(tools, allow, slim))) else None
  }

  function ReplaceTools(msg: Value, replacement: seq<Value>): Option<Value> {
    if Tools(msg).None? then None else Some(WithTools(msg, replacement))
  }

  lemma {:induction false} RetainLength(tools: seq<Value>, allow: Option<Allow>)
    ensures |Retain(tools, allow)| <= |tools|
    ensures |Retain(tools, allow)| == |tools| ==> Retain(tools, allow) == tools
  {
    if tools != [] { RetainLength(tools[1..], allow); }
  }

  lemma {:induction false} RetainConcat(a: seq<Value>, b: seq<Value>, allow: Option<Allow>)
    ensures Retain(a + b, allow) == Retain(a, allow) + Retain(b, allow)
  {
    if a == [] {
      assert a + b == b;
    } else {
      RetainConcat(a[1..], b, allow);
      assert (a + b)[1..] == a[1..] + b;
      var head := if Keeps(a[0], allow) then [a[0]] else [];
      assert head + (Retain(a[1..], allow) + Retain(b, allow)) == (head + Retain(a[1..], allow)) + Retain(b, allow);
    }
  }

  lemma {:induction false} SlimAllConcat(a: seq<Value>, b: seq<Value>, slim: bool)
    ensures SlimAll(a + b, slim) == SlimAll(a, slim) + SlimAll(b, slim)
  {
    if a == [] {
      assert a + b == b;
    } else {
      SlimAllConcat(a[1..], b, slim);
      assert (a + b)[1..] == a[1..] + b;
    }
  }

  lemma {:induction false} SlimAllAt(tools: seq<Value>, slim: bool)
    ensures |SlimAll(tools, slim)| == |tools|
    ensures forall i :: 0 <= i < |tools| ==> SlimAll(tools, slim)[i] == SlimTool(tools[i], slim)
  {
    if tools != [] { SlimAllAt(tools[1..], slim); }
  }

  lemma SlimKeepsShort(tool: Value, slim: bool)
    requires !(slim && TooLong(tool))
    ensures SlimTool(tool, slim) == tool
  {
    match tool.Get("description")
    case Some(Str(s)) => assert slim ==> Utf8.Slim(s) == s && tool.fields["description" := Str(s)] == tool.fields;
    case _ =>
  }

  /** An edit that reports no change leaves the tools as they were. */
  lemma UnchangedShown(tools: seq<Value>, allow: Option<Allow>, slim: bool)
    requires !Changes(tools, allow, slim)
    ensures Shown(tools, allow, slim) == tools
  {
    RetainLength(tools, allow);
    var kept := Retain(tools, allow);
    SlimAllAt(kept, slim);
    forall i | 0 <= i < |kept| ensures SlimTool(kept[i], slim) == kept[i] {
      assert kept[i] in kept;
      SlimKeepsShort(kept[i], slim);
    }
  }

  /** The in-place edit of a tool array: drop what is not allowed, then cut long descriptions. */
  method TransformTools(tools: seq<Value>, allow: Option<Allow>, slim: bool) returns (out: seq<Value>, changed: bool)
    ensures out == Shown(tools, allow, slim)
    ensures changed <==> Changes(tools, allow, slim)
    ensures out != tools ==> changed
  {
    var kept := [];
    for i := 0 to |tools|
      invariant kept == Retain(tools[..i], allow)
    {
      assert tools[..i + 1] == tools[..i] + [tools[i]];
      RetainConcat(tools[..i], [tools[i]], allow);
      if Keeps(tools[i], allow) { kept := kept + [tools[i]]; }
    }
    assert tools[..|tools|] == tools;
    changed := |kept| != |tools|;
    out := kept;
    if slim {
      var cut;
      out, cut := SlimLoop(kept);
      changed := changed || cut;
    } else {
      SlimAllAt(kept, false);
      assert SlimAll(kept, false) == kept;
    }
    if !changed { UnchangedShown(tools, allow, slim); }
  }

  method SlimLoop(kept: seq<Value>) returns (out: seq<Value>, cut: bool)
    ensures out == SlimAll(kept, true)
    ensures cut <==> exists t :: t in kept && TooLong(t)
  {
    out, cut := [], false;
    for i := 0 to |kept|
      invariant out == SlimAll(kept[..i], true)
      invariant cut <==> exists t :: t in kept[..i] && TooLong(t)
    {
      assert kept[..i + 1] == kept[..i] + [kept[i]];
      SlimAllConcat(kept[..i], [kept[i]], true);
      var tool := kept[i];
      if TooLong(tool) {
        assert tool in kept[..i + 1];
        cut := true;
        tool := Obj(tool.fields["description" := Str(Utf8.Slim(tool.fields["description"].text))]);
      } else {
        SlimKeepsShort(tool, true);
      }
      out := out + [tool];
    }
    assert kept[..|kept|] == kept;
  }

  // ----- Showing twice -----

  lemma SlimToolTwice(tool: Value, slim: bool)
    ensures SlimTool(SlimTool(tool, slim), slim) == SlimTool(tool, slim)
    ensures ToolName(SlimTool(tool, slim)) == ToolName(tool)
  {
    match tool.Get("description")
    case Some(Str(s)) =>
      Utf8.SlimIdempotent(s);
      if slim {
        var once := SlimTool(tool, slim);
        assert once.fields["description" := Str(Utf8.Slim(s))] == once.fields;
      }
    case _ =>
  }

  lemma {:induction false} RetainShown(tools: seq<Value>, allow: Option<Allow>, slim: bool)
    ensures Retain(Shown(tools, allow, slim), allow) == Shown(tools, allow, slim)
  {
    if tools != [] {
      RetainShown(tools[1..], allow, slim);
      SlimToolTwice(tools[0], slim);
      if Keeps(tools[0], allow) {
        SlimAllConcat([tools[0]], Retain(tools[1..], allow), slim);
        RetainConcat([SlimTool(tools[0], slim)], Shown(tools[1..], allow, slim), allow);
      } else {
        assert Retain(tools, allow) == Retain(tools[1..], allow);
      }
    }
  }

  /** Filtering and slimming a reply that was already filtered and slimmed shows the same tools. */
  lemma ShownTwice(tools: seq<Value>, allow: Option<Allow>, slim: bool)
    ensures Shown(Shown(tools, allow, slim), allow, slim) == Shown(tools, allow, slim)
  {
    RetainShown(tools, allow, slim);
    var kept := Retain(tools, allow);
    var shown := Shown(tools, allow, slim);
    SlimAllAt(kept, slim);
    SlimAllAt(shown, slim);
    forall i | 0 <= i < |shown| ensures SlimTool(shown[i], slim) == shown[i] {
      SlimToolTwice(kept[i], slim);
    }
  }

  // ----- Listing and calling agree -----

  datatype Info = Info(mcpMethod: McpMethod, methodStr: Option<string>, target: Option<string>, id: Option<Value>)

  function StrField(v: Value, field: string, sub: string): Option<string> {
    match v.Get(field)
    case None => None
    case Some(params) =>
      match params.Get(sub)
      case None => None
      case Some(x) => x.AsStr()
  }

  function RequestInfo(v: Value): Info {
    match v.Get("method")
    case Some(Str(m)) =>
      var mcpMethod := ParseMethod(m);
      var target :=
        match mcpMethod
        case ToolsCall => StrField(v, "params", "name")
        case ResourcesRead => StrField(v, "params", "uri")
        case PromptsGet => StrField(v, "params", "name")
        case _ => None;
      Info(mcpMethod, Some(m), target, v.Get("id"))
    case _ => Info(Unknown, None, None, v.Get("id"))
  }

  predicate Permitted(scopes: seq<Scope>, info: Info) {
    info.mcpMethod.Unknown? || Allowed(scopes, info.mcpMethod, info.target)
  }

  /** The list filter of a credential. */
  function CallFilter(scopes: seq<Scope>): Option<Allow> {
    Some(name => Allowed(scopes, ToolsCall, Some(name)))
  }

  predicate IsCallOf(call: Value, name: string) {
    call.Get("method") == Some(Str("tools/call")) && StrField(call, "params", "name") == Some(name)
  }

  lemma {:induction false} RetainMembers(tools: seq<Value>, allow: Option<Allow>, tool: Value)
    ensures tool in Retain(tools, allow) <==> tool in tools && Keeps(tool, allow)
  {
    if tools != [] {
      RetainMembers(tools[1..], allow, tool);
      assert tools == [tools[0]] + tools[1..];
    }
  }

  /** A named tool stays in a credential's list exactly when calling it passes the scope check. */
  lemma ListedIffCallable(tools: seq<Value>, scopes: seq<Scope>, tool: Value, name: string, call: Value)
    requires tool in tools && ToolName(tool) == Some(name) && IsCallOf(call, name)
    ensures tool in Retain(tools, CallFilter(scopes)) <==> Permitted(scopes, RequestInfo(call))
  {
    RetainMembers(tools, CallFilter(scopes), tool);
  }

  // ----- Search mode: unwrapping `call_tool` -----

  const SEARCH_TOOLS := "search_tools"
  const CALL_TOOL := "call_tool"
  const RUN_CODE := "run_code"

  function Or<T>(a: Option<T>, b: Option<T>): Option<T> {
    if a.Some? then a else b
  }

  /** The wrapped call's name and arguments, when the wrapper has the expected shape. */
  function Unwrap(v: Value): Option<(string, Value)> {
    match v.Get("params")
    case Some(Obj(params)) =>
      (match Or<Value>(Obj(params).Get("arguments"), Obj(params).Get("args"))
       case Some(Obj(w)) =>
         (match Or<Value>(Obj(w).Get("name"), Obj(w).Get("tool"))
          case Some(Str(name)) =>
            var args := Or<Value>(Obj(w).Get("arguments"), Or<Value>(Obj(w).Get("args"), Obj(w).Get("input")));
            Some((name, if args.Some? then args.value else Obj(map[])))
          case _ => None)
       case _ => None)
    case _ => None
  }

  function PlainParams(name: string, args: Value): Value {
    Obj(map["name" := Str(name), "arguments" := args])
  }

  function RewriteCallTool(v: Value): Option<Value> {
    match Unwrap(v)
    case Some((name, args)) => Some(Obj(v.fields["params" := PlainParams(name, args)]))
    case None => None
  }

  /** Rewriting touches nothing but `params`, and what comes out is a plain call. */
  lemma RewriteKeepsRest(v: Value)
    requires RewriteCallTool(v).Some?
    ensures var r := RewriteCallTool(v).value;
            && (forall f :: f != "params" ==> r.Get(f) == v.Get(f))
            && Unwrap(v).Some? && r.Get("params") == Some(PlainParams(Unwrap(v).value.0, Unwrap(v).value.1))
            && StrField(r, "params", "name") == Some(Unwrap(v).value.0)
  {
  }

  /** What the proxy does with a request before forwarding it. */
  datatype Gate = ServedLocally | Forbidden | Forward(request: Value)

  function Admit(scopes: Option<seq<Scope>>, searchMode: bool, codeMode: bool, v: Value): Gate {
    var info := RequestInfo(v);
    var meta := (searchMode || codeMode) && info.mcpMethod == ToolsCall;
    if meta && (info.target == Some(SEARCH_TOOLS) || (codeMode && info.target == Some(RUN_CODE))) then ServedLocally
    else
      var request :=
        if meta && searchMode && info.target == Some(CALL_TOOL) && RewriteCallTool(v).Some?
        then RewriteCallTool(v).value else v;
      if scopes.Some? && !Permitted(scopes.value, RequestInfo(request)) then Forbidden else Forward(request)
  }

  /** `call` wrapped for the `call_tool` meta-tool. */
  function Wrap(call: Value): Value
    requires call.Obj? && "params" in call.fields
  {
    Obj(call.fields["params" := PlainParams(CALL_TOOL, call.fields["params"])])
  }

  /** Unwrapping gives back the very call that was wrapped, id and method included. */
  lemma UnwrapWrap(call: Value, name: string, args: Value)
    requires call.Obj? && call.Get("params") == Some(PlainParams(name, args))
    ensures RewriteCallTool(Wrap(call)) == Some(call)
  {
    var w := Wrap(call);
    assert w.fields["params"] == PlainParams(CALL_TOOL, PlainParams(name, args));
    assert Unwrap(w) == Some((name, args));
    assert w.fields["params" := PlainParams(name, args)] == call.fields;
  }

  /** A wrapped call gets the verdict of the direct call, and the same request goes upstream. */
  lemma WrappedSameVerdict(scopes: Option<seq<Scope>>, codeMode: bool, call: Value, name: string, args: Value)
    requires call.Obj? && call.Get("params") == Some(PlainParams(name, args)) && IsCallOf(call, name)
    requires name != SEARCH_TOOLS && name != CALL_TOOL && !(codeMode && name == RUN_CODE)
    ensures Admit(scopes, true, codeMode, Wrap(call)) == Admit(scopes, true, codeMode, call)
  {
    UnwrapWrap(call, name, args);
    assert RequestInfo(Wrap(call)).target == Some(CALL_TOOL);
    assert RequestInfo(call).target == Some(name);
  }
}
