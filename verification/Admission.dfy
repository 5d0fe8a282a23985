/** Which requests reach the upstream: the gate before forwarding, from raw methods, names and scope strings. */
module Admission {
  import opened Json
  import opened Scopes
  import opened ToolList

  // ----- What a request asks for -----

  predicate HasMethod(v: Value, name: string) {
    v.Get("method") == Some(Str(name))
  }

  /** The id and the method string are those of the message. */
  lemma InfoOfMessage(v: Value)
    ensures RequestInfo(v).id == v.Get("id")
    ensures forall m :: HasMethod(v, m) <==> RequestInfo(v).methodStr == Some(m)
  {
  }

  lemma IsToolsCall(v: Value)
    ensures RequestInfo(v).mcpMethod == ToolsCall <==> HasMethod(v, "tools/call")
    ensures RequestInfo(v).mcpMethod == ToolsList <==> HasMethod(v, "tools/list")
    ensures HasMethod(v, "tools/call") ==> RequestInfo(v).target == StrField(v, "params", "name")
  {
  }

  // ----- Permissions by scope string -----

  predicate AnyOf(strings: seq<string>, accepted: set<string>) {
    exists s :: s in strings && s in accepted
  }

  lemma PermittedIffListed(strings: seq<string>, v: Value)
    ensures var info := RequestInfo(v);
            Permitted(Checker(strings), info) <==> info.mcpMethod.Unknown? || AnyOf(strings, Accepting(info.mcpMethod, info.target))
  {
    AllowedIffListed(strings, RequestInfo(v).mcpMethod, RequestInfo(v).target);
  }

  /** A tool call: the whole-service and whole-kind scopes, or the scope of that tool. */
  lemma ToolCallIff(strings: seq<string>, v: Value, name: string)
    requires HasMethod(v, "tools/call") && StrField(v, "params", "name") == Some(name)
    ensures Permitted(Checker(strings), RequestInfo(v)) <==> AnyOf(strings, {"*", "tools:*", "tools:call", "tools:call:" + name})
  {
    PermittedIffListed(strings, v);
    assert Accepting(ToolsCall, Some(name)) == {"*", "tools:*", "tools:call", "tools:call:" + name};
  }

  lemma ResourceReadIff(strings: seq<string>, v: Value, uri: string)
    requires HasMethod(v, "resources/read") && StrField(v, "params", "uri") == Some(uri)
    ensures Permitted(Checker(strings), RequestInfo(v))
            <==> AnyOf(strings, {"*", "resources:*", "resources:read", "resources:read:" + uri})
  {
    PermittedIffListed(strings, v);
    assert Accepting(ResourcesRead, Some(uri)) == {"*", "resources:*", "resources:read", "resources:read:" + uri};
  }

  lemma PromptGetIff(strings: seq<string>, v: Value, name: string)
    requires HasMethod(v, "prompts/get") && StrField(v, "params", "name") == Some(name)
    ensures Permitted(Checker(strings), RequestInfo(v)) <==> AnyOf(strings, {"*", "prompts:*", "prompts:get", "prompts:get:" + name})
  {
    PermittedIffListed(strings, v);
    assert Accepting(PromptsGet, Some(name)) == {"*", "prompts:*", "prompts:get", "prompts:get:" + name};
  }

  /** Without a target a scope of one target does not help. */
  lemma UnnamedCallIff(strings: seq<string>, v: Value)
    requires HasMethod(v, "tools/call") && StrField(v, "params", "name") == None
    ensures Permitted(Checker(strings), RequestInfo(v)) <==> AnyOf(strings, {"*", "tools:*", "tools:call"})
  {
    PermittedIffListed(strings, v);
    assert Accepting(ToolsCall, None) == {"*", "tools:*", "tools:call"};
  }

  lemma UnnamedReadIff(strings: seq<string>, v: Value)
    requires HasMethod(v, "resources/read") && StrField(v, "params", "uri") == None
    ensures Permitted(Checker(strings), RequestInfo(v)) <==> AnyOf(strings, {"*", "resources:*", "resources:read"})
  {
    PermittedIffListed(strings, v);
    assert Accepting(ResourcesRead, None) == {"*", "resources:*", "resources:read"};
  }

  lemma UnnamedPromptIff(strings: seq<string>, v: Value)
    requires HasMethod(v, "prompts/get") && StrField(v, "params", "name") == None
    ensures Permitted(Checker(strings), RequestInfo(v)) <==> AnyOf(strings, {"*", "prompts:*", "prompts:get"})
  {
    PermittedIffListed(strings, v);
    assert Accepting(PromptsGet, None) == {"*", "prompts:*", "prompts:get"};
  }

  lemma ListIff(strings: seq<string>, v: Value)
    ensures HasMethod(v, "tools/list") ==>
      (Permitted(Checker(strings), RequestInfo(v)) <==> AnyOf(strings, {"*", "tools:*", "tools:list"}))
    ensures HasMethod(v, "resources/list") ==>
      (Permitted(Checker(strings), RequestInfo(v)) <==> AnyOf(strings, {"*", "resources:*", "resources:list"}))
    ensures HasMethod(v, "prompts/list") ==>
      (Permitted(Checker(strings), RequestInfo(v)) <==> AnyOf(strings, {"*", "prompts:*", "prompts:list"}))
  {
    PermittedIffListed(strings, v);
    assert Accepting(ToolsList, None) == {"*", "tools:*", "tools:list"};
    assert Accepting(ResourcesList, None) == {"*", "resources:*", "resources:list"};
    assert Accepting(PromptsList, None) == {"*", "prompts:*", "prompts:list"};
  }

  const KNOWN: set<string> :=
    {"tools/list", "tools/call", "resources/list", "resources/read", "prompts/list", "prompts/get"}

  /** Any other method, and a message without one, needs no scope. */
  lemma OtherMethodsPermitted(scopes: seq<Scope>, v: Value)
    requires forall m :: m in KNOWN ==> !HasMethod(v, m)
    ensures Permitted(scopes, RequestInfo(v))
  {
    assert forall m :: m in KNOWN ==> v.Get("method") != Some(Str(m));
  }

  // ----- The gate -----

  /** Requests the proxy answers itself. */
  predicate Local(searchMode: bool, codeMode: bool, v: Value) {
    || ((searchMode || codeMode) && IsCallOf(v, "search_tools"))
    || (codeMode && IsCallOf(v, "run_code"))
  }

  /** The request that goes upstream: a well-formed `call_tool` wrapper is unwrapped in search mode. */
  function Sent(searchMode: bool, v: Value): Value {
    if searchMode && IsCallOf(v, "call_tool") && RewriteCallTool(v).Some? then RewriteCallTool(v).value else v
  }

  /** The gate decides by three conditions: what is answered locally, and the scope check on what would be
      sent. A request is forwarded only after it passed the check of the credential, if there is one. */
  lemma GateIff(scopes: Option<seq<Scope>>, searchMode: bool, codeMode: bool, v: Value)
    ensures var gate, sent := Admit(scopes, searchMode, codeMode, v), Sent(searchMode, v);
            && (gate == ServedLocally <==> Local(searchMode, codeMode, v))
            && (gate == Forbidden <==>
                  !Local(searchMode, codeMode, v) && scopes.Some? && !Permitted(scopes.value, RequestInfo(sent)))
            && (gate.Forward? ==> gate.request == sent && (scopes.None? || Permitted(scopes.value, RequestInfo(sent))))
  {
    IsToolsCall(v);
  }

  /** What is sent is the request itself or, for a wrapper, the same message with the wrapped call's name
      and arguments as `params`. */
  lemma SentKeepsRest(searchMode: bool, v: Value)
    ensures Sent(searchMode, v) == v || (searchMode && IsCallOf(v, "call_tool"))
    ensures forall f :: f != "params" ==> Sent(searchMode, v).Get(f) == v.Get(f)
    ensures Sent(searchMode, v) == v || IsCallOf(Sent(searchMode, v), Unwrap(v).value.0)
  {
    if RewriteCallTool(v).Some? { RewriteKeepsRest(v); }
  }

  /** A direct tool call reaches the upstream exactly when one of the credential's scope strings permits that
      tool; otherwise it is refused. */
  lemma DirectCallIff(strings: seq<string>, searchMode: bool, codeMode: bool, v: Value, name: string)
    requires IsCallOf(v, name) && name != "search_tools" && name != "run_code" && name != "call_tool"
    ensures var gate := Admit(Some(Checker(strings)), searchMode, codeMode, v);
            if AnyOf(strings, {"*", "tools:*", "tools:call", "tools:call:" + name}) then gate == Forward(v) else gate == Forbidden
  {
    GateIff(Some(Checker(strings)), searchMode, codeMode, v);
    ToolCallIff(strings, v, name);
  }

  /** So does a wrapped call in search mode, for the tool it wraps. */
  lemma WrappedCallIff(strings: seq<string>, codeMode: bool, v: Value, r: Value, name: string)
    requires IsCallOf(v, "call_tool") && RewriteCallTool(v) == Some(r) && IsCallOf(r, name)
    ensures var gate := Admit(Some(Checker(strings)), true, codeMode, v);
            if AnyOf(strings, {"*", "tools:*", "tools:call", "tools:call:" + name}) then gate == Forward(r) else gate == Forbidden
  {
    GateIff(Some(Checker(strings)), true, codeMode, v);
    ToolCallIff(strings, r, name);
  }

  /** Where the wrapped call may stand: the wrapper under `arguments` or else `args`, the name under `name` or
      else `tool`, its arguments under `arguments`, `args`, `input`, or none. */
  lemma WrapperForms(v: Value, params: map<string, Value>, w: map<string, Value>, name: string)
    requires v.Get("params") == Some(Obj(params))
    requires Obj(params).Get("arguments") == Some(Obj(w)) || ("arguments" !in params && Obj(params).Get("args") == Some(Obj(w)))
    requires Obj(w).Get("name") == Some(Str(name)) || ("name" !in w && Obj(w).Get("tool") == Some(Str(name)))
    ensures Unwrap(v).Some? && Unwrap(v).value.0 == name
    ensures Unwrap(v).value.1 == if "arguments" in w then w["arguments"] else if "args" in w then w["args"]
                                 else if "input" in w then w["input"] else Obj(map[])
  {
  }

  /** And nowhere else: whatever is unwrapped stands in one of these places. */
  lemma OnlyWrapperForms(v: Value)
    requires Unwrap(v).Some?
    ensures exists params: map<string, Value>, w: map<string, Value> ::
      && v.Get("params") == Some(Obj(params))
      && (Obj(params).Get("arguments") == Some(Obj(w)) || ("arguments" !in params && Obj(params).Get("args") == Some(Obj(w))))
      && (Obj(w).Get("name") == Some(Str(Unwrap(v).value.0))
          || ("name" !in w && Obj(w).Get("tool") == Some(Str(Unwrap(v).value.0))))
  {
    var params := v.Get("params").value.fields;
    var wrapper := Or<Value>(Obj(params).Get("arguments"), Obj(params).Get("args")).value;
    assert v.Get("params") == Some(Obj(params)) && wrapper == Obj(wrapper.fields);
  }
}
