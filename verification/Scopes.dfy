/** Scope strings of credentials and what they permit. */
module Scopes {
  import opened Json

  datatype McpMethod =
    | ToolsList | ToolsCall | ResourcesList | ResourcesRead | PromptsList | PromptsGet | Unknown

  function ParseMethod(s: string): McpMethod {
    match s
    case "tools/list" => ToolsList
    case "tools/call" => ToolsCall
    case "resources/list" => ResourcesList
    case "resources/read" => ResourcesRead
    case "prompts/list" => PromptsList
    case "prompts/get" => PromptsGet
    case _ => Unknown
  }

  datatype Scope =
    | All
    | ToolsAll | ListTools | CallTools | CallTool(tool: string)
    | ResourcesAll | ListResources | ReadResources | ReadResource(uri: string)
    | PromptsAll | ListPrompts | GetPrompts | GetPrompt(prompt: string)

  function StripPrefix(s: string, p: string): Option<string> {
    if p <= s then Some(s[|p|..]) else None
  }

  function Parse(s: string): Option<Scope> {
    if s == "*" then Some(All)
    else if s == "tools:*" then Some(ToolsAll)
    else if s == "tools:list" then Some(ListTools)
    else if s == "tools:call" then Some(CallTools)
    else if s == "resources:*" then Some(ResourcesAll)
    else if s == "resources:list" then Some(ListResources)
    else if s == "resources:read" then Some(ReadResources)
    else if s == "prompts:*" then Some(PromptsAll)
    else if s == "prompts:list" then Some(ListPrompts)
    else if s == "prompts:get" then Some(GetPrompts)
    else ParseSpecific(s)
  }

  function ParseSpecific(s: string): Option<Scope> {
    match StripPrefix(s, "tools:call:")
    case Some(tool) => Some(CallTool(tool))
    case None =>
      match StripPrefix(s, "resources:read:")
      case Some(uri) => Some(ReadResource(uri))
      case None =>
        match StripPrefix(s, "prompts:get:")
        case Some(prompt) => Some(GetPrompt(prompt))
        case None => None
  }

  function AsStr(scope: Scope): string {
    match scope
    case All => "*"
    case ToolsAll => "tools:*"
    case ListTools => "tools:list"
    case CallTools => "tools:call"
    case CallTool(tool) => "tools:call:" + tool
    case ResourcesAll => "resources:*"
    case ListResources => "resources:list"
    case ReadResources => "resources:read"
    case ReadResource(uri) => "resources:read:" + uri
    case PromptsAll => "prompts:*"
    case ListPrompts => "prompts:list"
    case GetPrompts => "prompts:get"
    case GetPrompt(prompt) => "prompts:get:" + prompt
  }

  /** The valid scopes among a credential's strings, in order. */
  function Checker(strings: seq<string>): seq<Scope> {
    if strings == [] then []
    else (match Parse(strings[0]) case Some(s) => [s] case None => []) + Checker(strings[1..])
  }

  predicate Grants(scope: Scope, m: McpMethod, target: Option<string>) {
    match scope
    case All => true
    case ToolsAll => m == ToolsList || m == ToolsCall
    case ListTools => m == ToolsList
    case CallTools => m == ToolsCall
    case CallTool(tool) => m == ToolsCall && target == Some(tool)
    case ResourcesAll => m == ResourcesList || m == ResourcesRead
    case ListResources => m == ResourcesList
    case ReadResources => m == ResourcesRead
    case ReadResource(uri) => m == ResourcesRead && target == Some(uri)
    case PromptsAll => m == PromptsList || m == PromptsGet
    case ListPrompts => m == PromptsList
    case GetPrompts => m == PromptsGet
    case GetPrompt(prompt) => m == PromptsGet && target == Some(prompt)
  }

  predicate Allowed(scopes: seq<Scope>, m: McpMethod, target: Option<string>) {
    exists s :: s in scopes && Grants(s, m, target)
  }

  /** The loop with its early returns decides whether some scope grants the method. */
  method IsAllowed(scopes: seq<Scope>, m: McpMethod, target: Option<string>) returns (ok: bool)
    ensures ok <==> Allowed(scopes, m, target)
  {
    if scopes == [] {
      return false;
    }
    for i := 0 to |scopes|
      invariant forall j :: 0 <= j < i ==> !Grants(scopes[j], m, target)
    {
      if Grants(scopes[i], m, target) {
        return true;
      }
    }
    return false;
  }

  /** The scope strings that permit a method, read off the permission table. */
  function Accepting(m: McpMethod, target: Option<string>): set<string> {
    {"*"} + match m
    case ToolsList => {"tools:*", "tools:list"}
    case ToolsCall => {"tools:*", "tools:call"} + (if target.Some? then {"tools:call:" + target.value} else {})
    case ResourcesList => {"resources:*", "resources:list"}
    case ResourcesRead => {"resources:*", "resources:read"} + (if target.Some? then {"resources:read:" + target.value} else {})
    case PromptsList => {"prompts:*", "prompts:list"}
    case PromptsGet => {"prompts:*", "prompts:get"} + (if target.Some? then {"prompts:get:" + target.value} else {})
    case Unknown => {}
  }

  lemma SpecificNotFixed(s: string, p: string, rest: string)
    requires s == p + rest && p in {"tools:call:", "resources:read:", "prompts:get:"}
    ensures Parse(s) == ParseSpecific(s)
  {
    assert s[|p| - 1] == ':' && p[|p| - 1] == ':';
    assert p <= s;
    if p == "tools:call:" {
      assert s[0] == 't' && s[6] == 'c' && s[10] == ':';
    } else if p == "resources:read:" {
      assert s[0] == 'r' && s[10] == 'r' && s[14] == ':';
    } else {
      assert s[0] == 'p' && s[8] == 'g' && s[11] == ':';
    }
  }

  /** The text of a scope parses back to that scope. */
  lemma ParseOfText(scope: Scope)
    ensures Parse(AsStr(scope)) == Some(scope)
  {
    var s := AsStr(scope);
    match scope
    case CallTool(tool) =>
      SpecificNotFixed(s, "tools:call:", tool);
    case ReadResource(uri) =>
      SpecificNotFixed(s, "resources:read:", uri);
      assert s[0] == 'r';
    case GetPrompt(prompt) =>
      SpecificNotFixed(s, "prompts:get:", prompt);
      assert s[0] == 'p';
    case _ =>
  }

  /** A string that parses is the text of the scope it parses to. */
  lemma TextOfParse(s: string)
    ensures Parse(s).Some? ==> AsStr(Parse(s).value) == s
  {
  }

  /** The permission table lists exactly the texts of the granting scopes. */
  lemma GrantsIffAccepting(scope: Scope, m: McpMethod, target: Option<string>)
    ensures Grants(scope, m, target) <==> AsStr(scope) in Accepting(m, target)
  {
    ParseOfText(scope);
    if AsStr(scope) in Accepting(m, target) { AcceptingGrants(m, target, AsStr(scope)); }
  }

  lemma AcceptingGrants(m: McpMethod, target: Option<string>, s: string)
    requires s in Accepting(m, target)
    ensures Parse(s).Some? && Grants(Parse(s).value, m, target)
  {
    var scope := GrantingScope(m, target, s);
    ParseOfText(scope);
  }

  /** The scope behind an entry of the permission table. */
  function GrantingScope(m: McpMethod, target: Option<string>, s: string): (scope: Scope)
    requires s in Accepting(m, target)
    ensures AsStr(scope) == s && Grants(scope, m, target)
  {
    if s == "*" then All
    else match m
      case ToolsList => if s == "tools:*" then ToolsAll else ListTools
      case ToolsCall => if s == "tools:*" then ToolsAll else if s == "tools:call" then CallTools else CallTool(target.value)
      case ResourcesList => if s == "resources:*" then ResourcesAll else ListResources
      case ResourcesRead =>
        if s == "resources:*" then ResourcesAll else if s == "resources:read" then ReadResources else ReadResource(target.value)
      case PromptsList => if s == "prompts:*" then PromptsAll else ListPrompts
      case PromptsGet =>
        if s == "prompts:*" then PromptsAll else if s == "prompts:get" then GetPrompts else GetPrompt(target.value)
      case Unknown => assert false; All
  }

  lemma {:induction false} CheckerMembers(strings: seq<string>, scope: Scope)
    ensures scope in Checker(strings) <==> AsStr(scope) in strings
  {
    if strings != [] {
      CheckerMembers(strings[1..], scope);
      ParseOfText(scope);
      TextOfParse(strings[0]);
      assert strings == [strings[0]] + strings[1..];
    }
  }

  /** A credential may use a method exactly when one of its strings is in the permission table. */
  lemma AllowedIffListed(strings: seq<string>, m: McpMethod, target: Option<string>)
    ensures Allowed(Checker(strings), m, target) <==> exists s :: s in strings && s in Accepting(m, target)
  {
    if Allowed(Checker(strings), m, target) {
      var scope :| scope in Checker(strings) && Grants(scope, m, target);
      CheckerMembers(strings, scope);
      GrantsIffAccepting(scope, m, target);
    }
    if s :| s in strings && s in Accepting(m, target) {
      AcceptingGrants(m, target, s);
      TextOfParse(s);
      CheckerMembers(strings, Parse(s).value);
    }
  }
}
