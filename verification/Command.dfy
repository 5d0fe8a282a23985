/** Entry commands: from exec form to a command line and back to an exec form. */
module Command {
  import opened Json
  import opened Text
  import JsonText

  // ----- The tokenizer -----

  /** Tokens finished so far, the current one, the open quote and whether a token has begun. */
  datatype Lexer = Lexer(tokens: seq<string>, cur: string, quote: Option<char>, inToken: bool)

  const START := Lexer([], "", None, false)

  function Feed(l: Lexer, c: char): Lexer {
    if l.quote.Some? then
      if c == l.quote.value then l.(quote := None) else l.(cur := l.cur + [c])
    else if c == '"' || c == '\'' then l.(quote := Some(c), inToken := true)
    else if IsWhitespace(c) then
      if l.inToken then Lexer(l.tokens + [l.cur], "", None, false) else l
    else l.(cur := l.cur + [c], inToken := true)
  }

  function FeedAll(l: Lexer, s: string): Lexer {
    if s == "" then l else Feed(FeedAll(l, s[..|s| - 1]), s[|s| - 1])
  }

  function Finish(l: Lexer): seq<string> {
    if l.inToken then l.tokens + [l.cur] else l.tokens
  }

  function Tokens(s: string): seq<string> {
    Finish(FeedAll(START, s))
  }

  /** The character loop with its mutable buffers. */
  method TokenizeShell(s: string) returns (tokens: seq<string>)
    ensures tokens == Tokens(s)
  {
    tokens := [];
    var cur, quote, inToken := "", None, false;
    for i := 0 to |s|
      invariant Lexer(tokens, cur, quote, inToken) == FeedAll(START, s[..i])
    {
      var c := s[i];
      assert s[..i + 1][..i] == s[..i];
      match quote {
        case Some(q) =>
          if c == q { quote := None; } else { cur := cur + [c]; }
        case None =>
          if c == '"' || c == '\'' {
            quote := Some(c);
            inToken := true;
          } else if IsWhitespace(c) {
            if inToken {
              tokens := tokens + [cur];
              cur, inToken := "", false;
            }
          } else {
            cur := cur + [c];
            inToken := true;
          }
      }
    }
    assert s[..|s|] == s;
    if inToken { tokens := tokens + [cur]; }
  }

  // ----- Quoting and the command string -----

  predicate HasSpace(a: string) {
    exists i :: 0 <= i < |a| && IsWhitespace(a[i])
  }

  function EscapeQuotes(a: string): string {
    if a == "" then "" else (if a[0] == '"' then "\\\"" else [a[0]]) + EscapeQuotes(a[1..])
  }

  function QuoteIfNeeded(a: string): string {
    if a == "" || HasSpace(a) then "\"" + EscapeQuotes(a) + "\"" else a
  }

  function QuoteAll(args: seq<string>): seq<string> {
    if args == [] then [] else [QuoteIfNeeded(args[0])] + QuoteAll(args[1..])
  }

  function CommandLine(args: seq<string>): string {
    Join(QuoteAll(args), " ")
  }

  function NonEmpty(args: seq<string>): seq<string> {
    if args == [] then [] else (if args[0] == "" then [] else [args[0]]) + NonEmpty(args[1..])
  }

  /** A Dockerfile command: an exec form becomes a command line, a shell form is kept. */
  function ParseDockerCommand(text: string): Option<string> {
    var s := Trim(text);
    if s != "" && s[0] == '[' then
      match JsonText.ParseArray(s)
      case None => None
      case Some(parts) => if NonEmpty(parts) == [] then None else Some(CommandLine(NonEmpty(parts)))
    else if s != "" then Some(s) else None
  }

  /** The arguments of an exec-form `CMD`, without the brackets. */
  function FormatArgs(cmd: string): string {
    Join(JsonText.PrintAll(Tokens(cmd)), ", ")
  }

  /** What quoting does: an argument without white space stands as it is; another is put in double quotes,
      with a backslash before each double quote of its own and nothing else changed. */
  lemma QuoteForms(a: string)
    ensures a != "" && !HasSpace(a) ==> QuoteIfNeeded(a) == a
    ensures a == "" || HasSpace(a) ==> QuoteIfNeeded(a) == "\"" + EscapeQuotes(a) + "\""
    ensures EscapeQuotes("") == "" && EscapeQuotes("\"") == "\\\""
  {
    assert "\""[1..] == "";
  }

  lemma {:induction false} EscapeConcat(a: string, b: string)
    ensures EscapeQuotes(a + b) == EscapeQuotes(a) + EscapeQuotes(b)
  {
    if a == "" {
      assert a + b == b;
    } else {
      assert (a + b)[0] == a[0] && (a + b)[1..] == a[1..] + b;
      EscapeConcat(a[1..], b);
      Associative(if a[0] == '"' then "\\\"" else [a[0]], EscapeQuotes(a[1..]), EscapeQuotes(b));
    }
  }

  /** Undoing it: every double quote, with the backslash before it, becomes a double quote again. */
  function Unescape(s: string): string {
    if s == "" then ""
    else if |s| >= 2 && s[0] == '\\' && s[1] == '"' then "\"" + Unescape(s[2..])
    else [s[0]] + Unescape(s[1..])
  }

  /** An argument without a backslash is recovered from its escaped form. */
  lemma {:induction false} UnescapeEscape(a: string)
    requires '\\' !in a
    ensures Unescape(EscapeQuotes(a)) == a
  {
    if a != "" {
      assert a[0] in a;
      UnescapeEscape(a[1..]);
      var e, rest := EscapeQuotes(a), EscapeQuotes(a[1..]);
      if a[0] == '"' {
        assert e[0] == '\\' && e[1] == '"' && e[2..] == rest;
      } else {
        assert e[0] == a[0] && e[1..] == rest;
      }
      assert a == [a[0]] + a[1..];
    }
  }

  // ----- Facts about the tokenizer -----

  lemma {:induction false} FeedConcat(l: Lexer, a: string, b: string)
    ensures FeedAll(l, a + b) == FeedAll(FeedAll(l, a), b)
  {
    if b == "" {
      assert a + b == a;
    } else {
      var n := |b| - 1;
      FeedConcat(l, a, b[..n]);
      assert (a + b)[..|a + b| - 1] == a + b[..n];
    }
  }

  lemma FeedOne(l: Lexer, c: char)
    ensures FeedAll(l, [c]) == Feed(l, c)
  {
    assert [c][..0] == "";
  }

  predicate IsQuote(c: char) {
    c == '"' || c == '\''
  }

  predicate Plain(a: string) {
    forall i :: 0 <= i < |a| ==> !IsWhitespace(a[i]) && !IsQuote(a[i])
  }

  lemma {:induction false} FeedPlain(l: Lexer, a: string)
    requires l.quote.None? && Plain(a)
    ensures FeedAll(l, a) == l.(cur := l.cur + a, inToken := l.inToken || a != "")
  {
    if a == "" {
      assert l.cur + a == l.cur;
    } else {
      FeedPlain(l, a[..|a| - 1]);
      assert l.cur + a == l.cur + a[..|a| - 1] + [a[|a| - 1]];
    }
  }

  lemma {:induction false} FeedQuoted(l: Lexer, a: string)
    requires l.quote.Some? && l.quote.value !in a
    ensures FeedAll(l, a) == l.(cur := l.cur + a)
  {
    if a == "" {
      assert l.cur + a == l.cur;
    } else {
      FeedQuoted(l, a[..|a| - 1]);
      assert a[|a| - 1] in a;
      assert l.cur + a == l.cur + a[..|a| - 1] + [a[|a| - 1]];
    }
  }

  /** Feeding never changes finished tokens and only extends the token under way. */
  lemma {:induction false} FeedKeeps(l: Lexer, s: string)
    requires l.inToken
    ensures var r := Finish(FeedAll(l, s)); |r| > |l.tokens| && l.tokens <= r && l.cur <= r[|l.tokens|]
    ensures l.tokens <= FeedAll(l, s).tokens
    ensures FeedAll(l, s).tokens == l.tokens ==> FeedAll(l, s).inToken && l.cur <= FeedAll(l, s).cur
    ensures FeedAll(l, s).tokens != l.tokens ==> l.cur <= FeedAll(l, s).tokens[|l.tokens|]
  {
    if s != "" { FeedKeeps(l, s[..|s| - 1]); }
  }

  /** A token cut off by white space stays as it is. */
  lemma {:induction false} FeedKeepsTokens(l: Lexer, s: string)
    ensures l.tokens <= FeedAll(l, s).tokens && l.tokens <= Finish(FeedAll(l, s))
  {
    if s != "" { FeedKeepsTokens(l, s[..|s| - 1]); }
  }

  /** Without white space no token is finished and at most the characters fed are added. */
  lemma {:induction false} FeedNoSpace(l: Lexer, a: string)
    requires !HasSpace(a)
    ensures FeedAll(l, a).tokens == l.tokens && |FeedAll(l, a).cur| <= |l.cur| + |a|
    ensures l.inToken ==> FeedAll(l, a).inToken
  {
    if a != "" {
      var p := a[..|a| - 1];
      assert !HasSpace(p) by {
        forall i | 0 <= i < |p| ensures !IsWhitespace(p[i]) { assert !IsWhitespace(a[i]); }
      }
      FeedNoSpace(l, a[..|a| - 1]);
      assert !IsWhitespace(a[|a| - 1]);
    }
  }

  // ----- Which arguments survive -----

  /** No double quote, and single quotes only in an argument that gets quoted. */
  predicate Safe(a: string) {
    '"' !in a && ('\'' !in a || HasSpace(a))
  }

  lemma {:induction false} EscapeNothing(a: string)
    requires '"' !in a
    ensures EscapeQuotes(a) == a
  {
    if a != "" {
      assert a[0] in a;
      EscapeNothing(a[1..]);
    }
  }

  /** A safe argument is read back whole. */
  lemma SafeToken(tokens: seq<string>, a: string)
    requires a != "" && Safe(a)
    ensures FeedAll(Lexer(tokens, "", None, false), QuoteIfNeeded(a)) == Lexer(tokens, a, None, true)
  {
    var l := Lexer(tokens, "", None, false);
    if HasSpace(a) {
      EscapeNothing(a);
      assert QuoteIfNeeded(a) == ("\"" + a) + "\"";
      FeedConcat(l, "\"" + a, "\"");
      FeedOpened(tokens, a);
      FeedOne(Lexer(tokens, a, Some('"'), true), '"');
    } else {
      assert Plain(a) by {
        forall i | 0 <= i < |a| ensures !IsWhitespace(a[i]) && !IsQuote(a[i]) { assert a[i] in a; }
      }
      FeedPlain(l, a);
      assert "" + a == a;
    }
  }

  ghost predicate AllSafe(args: seq<string>) {
    forall i :: 0 <= i < |args| ==> Safe(args[i])
  }

  ghost predicate AllNonEmpty(args: seq<string>) {
    forall i :: 0 <= i < |args| ==> args[i] != ""
  }

  lemma CommandLineUnfold(args: seq<string>)
    requires args != []
    ensures |args| == 1 ==> CommandLine(args) == QuoteIfNeeded(args[0])
    ensures |args| > 1 ==> CommandLine(args) == QuoteIfNeeded(args[0]) + (" " + CommandLine(args[1..]))
  {
    var q := QuoteAll(args);
    assert q[1..] == QuoteAll(args[1..]);
    if |args| == 1 { assert args[1..] == []; } else { assert QuoteAll(args[1..]) != []; }
  }

  /** A quoted argument with a double quote: the tokenizer keeps the backslash put before it. */
  lemma {:induction false} EscapedPrefix(a: string, j: nat)
    requires j < |a| && a[j] == '"' && '"' !in a[..j]
    ensures a[..j] + "\\\"" <= EscapeQuotes(a)
  {
    if j == 0 {
      assert a[..0] + "\\\"" == "\\\"";
    } else {
      assert a[..j][0] in a[..j];
      assert a[1..][..j - 1] == a[..j][1..];
      EscapedPrefix(a[1..], j - 1);
      assert a[..j] + "\\\"" == [a[0]] + (a[1..][..j - 1] + "\\\"");
    }
  }

  lemma {:induction false} FirstOf(a: string, c: char) returns (j: nat)
    requires c in a
    ensures j < |a| && a[j] == c && c !in a[..j]
  {
    if a[0] == c {
      j := 0;
    } else {
      assert a == [a[0]] + a[1..];
      j := FirstOf(a[1..], c);
      j := j + 1;
      assert a[..j] == [a[0]] + a[1..][..j - 1];
    }
  }

  lemma QuotedHead(a: string, j: nat, rest: string)
    requires HasSpace(a) && j < |a| && a[j] == '"' && '"' !in a[..j]
    ensures "\"" + (a[..j] + "\\") <= QuoteIfNeeded(a) + rest
  {
    EscapedPrefix(a, j);
    assert a[..j] + "\\\"" == (a[..j] + "\\") + "\"";
    assert a[..j] + "\\" <= EscapeQuotes(a);
  }

  lemma FeedOpened(tokens: seq<string>, inner: string)
    requires '"' !in inner
    ensures FeedAll(Lexer(tokens, "", None, false), "\"" + inner) == Lexer(tokens, inner, Some('"'), true)
  {
    FeedConcat(Lexer(tokens, "", None, false), "\"", inner);
    FeedOne(Lexer(tokens, "", None, false), '"');
    FeedQuoted(Lexer(tokens, "", Some('"'), true), inner);
    assert "" + inner == inner;
  }

  lemma QuotedUnsafe(tokens: seq<string>, a: string, rest: string)
    requires HasSpace(a) && '"' in a
    ensures var r := Finish(FeedAll(Lexer(tokens, "", None, false), QuoteIfNeeded(a) + rest));
            |r| > |tokens| && tokens <= r && r[|tokens|] != a
  {
    var j := FirstOf(a, '"');
    QuotedHead(a, j, rest);
    var q, inner := QuoteIfNeeded(a) + rest, a[..j] + "\\";
    var head := "\"" + inner;
    assert q == head + q[|head|..];
    FeedConcat(Lexer(tokens, "", None, false), head, q[|head|..]);
    FeedOpened(tokens, inner);
    FeedKeeps(Lexer(tokens, inner, Some('"'), true), q[|head|..]);
    assert inner[j] == '\\';
  }

  lemma FirstQuote(a: string) returns (j: nat)
    requires '"' in a || '\'' in a
    ensures j < |a| && IsQuote(a[j]) && forall i :: 0 <= i < j ==> !IsQuote(a[i])
  {
    if '"' in a {
      j := FirstOf(a, '"');
      if '\'' in a[..j] {
        assert forall i :: 0 <= i < j ==> a[i] != '"' by {
          forall i | 0 <= i < j ensures a[i] != '"' { assert a[..j][i] in a[..j]; }
        }
        var k := FirstOf(a[..j], '\'');
        forall i | 0 <= i < k ensures !IsQuote(a[i]) { assert a[..j][..k][i] in a[..j][..k]; }
        assert a[k] == a[..j][k];
        j := k;
      } else {
        forall i | 0 <= i < j ensures !IsQuote(a[i]) { assert a[..j][i] in a[..j]; }
      }
    } else {
      j := FirstOf(a, '\'');
      forall i | 0 <= i < j ensures !IsQuote(a[i]) { assert a[i] in a && a[..j][i] in a[..j]; }
    }
  }

  /** An unquoted argument loses its first quote character, so its token comes out too short. */
  lemma UnquotedFeed(tokens: seq<string>, a: string)
    requires a != "" && !HasSpace(a) && ('"' in a || '\'' in a)
    ensures var m := FeedAll(Lexer(tokens, "", None, false), a); m.tokens == tokens && m.inToken && |m.cur| < |a|
  {
    var l := Lexer(tokens, "", None, false);
    var j := FirstQuote(a);
    var p, r := a[..j], a[j + 1..];
    assert a == p + ([a[j]] + r);
    FeedConcat(l, p, [a[j]] + r);
    assert Plain(p) by {
      forall i | 0 <= i < |p| ensures !IsWhitespace(p[i]) { assert !IsWhitespace(a[i]); }
    }
    FeedPlain(l, p);
    var afterP := FeedAll(l, p);
    FeedConcat(afterP, [a[j]], r);
    FeedOne(afterP, a[j]);
    assert !HasSpace(r) by {
      forall i | 0 <= i < |r| ensures !IsWhitespace(r[i]) { assert !IsWhitespace(a[j + 1 + i]); }
    }
    FeedNoSpace(Feed(afterP, a[j]), r);
  }

  lemma SpaceEndsToken(m: Lexer, rest: string)
    requires m.inToken && m.quote.None? && rest != "" && rest[0] == ' '
    ensures m.tokens + [m.cur] <= Finish(FeedAll(m, rest))
  {
    assert rest == " " + rest[1..];
    FeedConcat(m, " ", rest[1..]);
    FeedOne(m, ' ');
    FeedKeepsTokens(Feed(m, ' '), rest[1..]);
  }

  lemma SpaceJoinsToken(m: Lexer, rest: string)
    requires m.inToken && m.quote.Some? && m.quote.value != ' ' && rest != "" && rest[0] == ' '
    ensures var r := Finish(FeedAll(m, rest)); |r| > |m.tokens| && m.tokens <= r && m.cur + " " <= r[|m.tokens|]
  {
    assert rest == " " + rest[1..];
    FeedConcat(m, " ", rest[1..]);
    FeedOne(m, ' ');
    FeedKeeps(Feed(m, ' '), rest[1..]);
  }

  /** A token under way that is shorter than `a` cannot become `a`: a space ends it or goes into it. */
  lemma ShortToken(m: Lexer, a: string, rest: string)
    requires m.inToken && |m.cur| < |a| && !HasSpace(a) && (rest == "" || rest[0] == ' ')
    requires m.quote != Some(' ')
    ensures var r := Finish(FeedAll(m, rest)); |r| > |m.tokens| && m.tokens <= r && r[|m.tokens|] != a
  {
    if rest != "" {
      if m.quote.None? {
        SpaceEndsToken(m, rest);
      } else {
        SpaceJoinsToken(m, rest);
        assert (m.cur + " ")[|m.cur|] == ' ';
        assert !IsWhitespace(a[|m.cur|]);
      }
    }
  }

  lemma {:induction false} QuoteIsAQuote(l: Lexer, s: string)
    requires l.quote != Some(' ')
    ensures FeedAll(l, s).quote != Some(' ')
  {
    if s != "" { QuoteIsAQuote(l, s[..|s| - 1]); }
  }

  lemma UnquotedUnsafe(tokens: seq<string>, a: string, rest: string)
    requires a != "" && !HasSpace(a) && ('"' in a || '\'' in a) && (rest == "" || rest[0] == ' ')
    ensures var r := Finish(FeedAll(Lexer(tokens, "", None, false), a + rest));
            |r| > |tokens| && tokens <= r && r[|tokens|] != a
  {
    var l := Lexer(tokens, "", None, false);
    UnquotedFeed(tokens, a);
    QuoteIsAQuote(l, a);
    FeedConcat(l, a, rest);
    ShortToken(FeedAll(l, a), a, rest);
  }

  /** What the tokenizer makes of the command line of `args`, after some finished tokens. */
  function ReadBack(tokens: seq<string>, args: seq<string>): seq<string> {
    Finish(FeedAll(Lexer(tokens, "", None, false), CommandLine(args)))
  }

  /** A safe first argument is read off, and reading goes on with the others. */
  lemma SafeHead(tokens: seq<string>, args: seq<string>)
    requires |args| > 1 && args[0] != "" && Safe(args[0])
    ensures ReadBack(tokens, args) == ReadBack(tokens + [args[0]], args[1..])
  {
    CommandLineUnfold(args);
    SafeToken(tokens, args[0]);
    var read := Lexer(tokens, args[0], None, true);
    FeedConcat(Lexer(tokens, "", None, false), QuoteIfNeeded(args[0]), " " + CommandLine(args[1..]));
    FeedConcat(read, " ", CommandLine(args[1..]));
    FeedOne(read, ' ');
  }

  /** An unsafe first argument comes out as something else. */
  lemma UnsafeHead(tokens: seq<string>, args: seq<string>)
    requires args != [] && args[0] != "" && !Safe(args[0])
    ensures |ReadBack(tokens, args)| > |tokens| && ReadBack(tokens, args)[|tokens|] != args[0]
  {
    CommandLineUnfold(args);
    var rest := if |args| == 1 then "" else " " + CommandLine(args[1..]);
    assert CommandLine(args) == QuoteIfNeeded(args[0]) + rest;
    if HasSpace(args[0]) {
      QuotedUnsafe(tokens, args[0], rest);
    } else {
      UnquotedUnsafe(tokens, args[0], rest);
    }
  }

  /** The exact condition: a list of non-empty arguments survives quoting and tokenizing if and only
      if every argument is safe. */
  lemma {:induction false} TokenizeIff(tokens: seq<string>, args: seq<string>)
    requires args != [] && AllNonEmpty(args)
    ensures ReadBack(tokens, args) == tokens + args <==> AllSafe(args)
    decreases |args|
  {
    if !Safe(args[0]) {
      UnsafeHead(tokens, args);
      DiffersAt(ReadBack(tokens, args), tokens, args);
    } else if |args| == 1 {
      SafeSingle(tokens, args);
    } else {
      TailSafe(args);
      TokenizeIff(tokens + [args[0]], args[1..]);
      SafeStep(tokens, args);
    }
  }

  lemma SafeStep(tokens: seq<string>, args: seq<string>)
    requires |args| > 1 && args[0] != "" && Safe(args[0])
    ensures ReadBack(tokens, args) == tokens + args
            <==> ReadBack(tokens + [args[0]], args[1..]) == tokens + [args[0]] + args[1..]
  {
    SafeHead(tokens, args);
    assert tokens + [args[0]] + args[1..] == tokens + args;
  }

  lemma DiffersAt(r: seq<string>, tokens: seq<string>, args: seq<string>)
    requires args != [] && |r| > |tokens| && r[|tokens|] != args[0]
    ensures r != tokens + args
  {
    assert (tokens + args)[|tokens|] == args[0];
  }

  lemma SafeSingle(tokens: seq<string>, args: seq<string>)
    requires |args| == 1 && args[0] != "" && Safe(args[0])
    ensures ReadBack(tokens, args) == tokens + args
  {
    CommandLineUnfold(args);
    SafeToken(tokens, args[0]);
    assert args == [args[0]];
  }

  lemma TailSafe(args: seq<string>)
    requires args != [] && Safe(args[0]) && AllNonEmpty(args)
    ensures AllNonEmpty(args[1..]) && (AllSafe(args[1..]) <==> AllSafe(args))
  {
    assert forall i :: 1 <= i < |args| ==> args[i] == args[1..][i - 1];
    assert forall i :: 0 <= i < |args| - 1 ==> args[1..][i] == args[i + 1];
  }

  lemma {:induction false} NonEmptyFacts(args: seq<string>)
    ensures AllNonEmpty(NonEmpty(args))
    ensures AllNonEmpty(args) ==> NonEmpty(args) == args
  {
    if args != [] {
      NonEmptyFacts(args[1..]);
      assert AllNonEmpty(args) ==> AllNonEmpty(args[1..]);
    }
  }

  /** Round trip of commands: an exec form read from a Dockerfile, turned into a command line,
      tokenized and printed again as an exec form, decodes to the same arguments (without the empty
      ones) exactly when every one of them is safe - whatever white space or backslashes they contain. */
  lemma ExecFormRoundTrip(text: string, args: seq<string>)
    requires var s := Trim(text); s != "" && s[0] == '[' && JsonText.ParseArray(s) == Some(args)
    requires NonEmpty(args) != []
    ensures ParseDockerCommand(text).Some?
    ensures JsonText.ParseArray("[" + FormatArgs(ParseDockerCommand(text).value) + "]") == Some(NonEmpty(args))
            <==> AllSafe(NonEmpty(args))
    ensures AllNonEmpty(args) ==> NonEmpty(args) == args
  {
    NonEmptyFacts(args);
    RoundTrip(NonEmpty(args));
  }

  lemma RoundTrip(args: seq<string>)
    requires args != [] && AllNonEmpty(args)
    ensures JsonText.ParseArray("[" + FormatArgs(CommandLine(args)) + "]") == Some(args) <==> AllSafe(args)
  {
    TokenizeIff([], args);
    assert [] + args == args;
    PrintedArgsDecode(CommandLine(args));
  }

  /** Whatever the command, the printed arguments decode to its tokens: none can break out of the array. */
  lemma PrintedArgsDecode(cmd: string)
    ensures JsonText.ParseArray("[" + FormatArgs(cmd) + "]") == Some(Tokens(cmd))
  {
    JsonText.ArrayParses(Tokens(cmd));
  }

  // ----- The other forms -----

  /** A shell form is kept as it stands, without the white space around it. */
  lemma ShellFormKept(a: string, s: string, b: string)
    requires AllSpace(a) && AllSpace(b) && Trimmed(s) && s != "" && s[0] != '['
    ensures ParseDockerCommand(a + s + b) == Some(s)
  {
    TrimOf(a, s, b);
  }

  /** There is no command exactly for a blank text, and for a bracketed one that is not a JSON array of
      strings or has only empty strings. */
  lemma NoCommandIff(text: string)
    ensures ParseDockerCommand(text).None? <==>
      AllSpace(text) || (Trim(text) != "" && Trim(text)[0] == '['
                         && match JsonText.ParseArray(Trim(text))
                            case None => true
                            case Some(parts) => forall x :: x in parts ==> x == "")
  {
    TrimSplits(text);
    var a, b :| text == a + Trim(text) + b && AllSpace(a) && AllSpace(b);
    if AllSpace(text) { TrimOf(text, "", ""); assert text + "" + "" == text; }
    var parts := JsonText.ParseArray(Trim(text));
    if parts.Some? { NonEmptyNone(parts.value); }
  }

  lemma {:induction false} NonEmptyNone(args: seq<string>)
    ensures NonEmpty(args) == [] <==> forall x :: x in args ==> x == ""
  {
    if args != [] {
      NonEmptyNone(args[1..]);
      assert args[0] in args;
      assert forall x :: x in args <==> x == args[0] || x in args[1..];
      assert [] + NonEmpty(args[1..]) == NonEmpty(args[1..]);
    }
  }
}
