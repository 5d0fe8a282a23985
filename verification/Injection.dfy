/** Injecting a provision into a Dockerfile. */
module Injection {
  import opened Json
  import opened Text
  import opened Lines
  import opened Provision
  import Renaming
  import Keywords
  import Command

  predicate IsFrom(line: string) {
    "FROM " <= Upper(TrimStart(line))
  }

  predicate IsCommand(line: string) {
    var u := Upper(TrimStart(line));
    "CMD" <= u || "ENTRYPOINT" <= u
  }

  /** The packages the Dockerfile does not mention. */
  function Missing(dockerfile: string, packages: seq<string>): (r: seq<string>)
    ensures forall x :: x in r <==> x in packages && !Contains(dockerfile, x)
  {
    if packages == [] then []
    else (if Contains(dockerfile, packages[0]) then [] else [packages[0]]) + Missing(dockerfile, packages[1..])
  }

  const APT_UPDATE := "apt-get update && apt-get"
  const APT_OPTIONS := " install -y --no-install-recommends "
  const APT_TAIL := " && rm -rf /var/lib/apt/lists/*"
  const APT_NOTE := "# nodeflare: system packages"
  const TRAILING_NOTE := "# nodeflare: provision system dependency"
  const VERSION_REMARK := " (matches installed library version)"

  function AptHead(): string {
    "RUN " + APT_UPDATE + APT_OPTIONS
  }

  function PostNote(): string {
    TRAILING_NOTE + VERSION_REMARK
  }

  function AptLine(packages: seq<string>): string {
    AptHead() + Join(packages, " ") + APT_TAIL
  }

  function AptBlock(packages: seq<string>): seq<string> {
    if packages == [] then [] else [APT_NOTE, AptLine(packages)]
  }

  function RunLines(commands: seq<string>): (r: seq<string>)
    ensures |r| == |commands|
    ensures forall i :: 0 <= i < |commands| ==> r[i] == "RUN " + commands[i]
  {
    if commands == [] then [] else ["RUN " + commands[0]] + RunLines(commands[1..])
  }

  function PostBlock(note: string, commands: seq<string>): seq<string> {
    if commands == [] then [] else [note] + RunLines(commands)
  }

  predicate Provisions(dockerfile: string, markers: seq<string>) {
    exists i :: 0 <= i < |markers| && Contains(dockerfile, markers[i])
  }

  /** The commands still to run. */
  function Commands(dockerfile: string, p: Provision): seq<string> {
    if Provisions(dockerfile, p.skipIfContains) then [] else p.postInstall
  }

  /** The lines with `apt` right after line `from`, and `post` right before line `cmd` or at the end. */
  function Injected(lines: seq<string>, from: nat, cmd: Option<nat>, apt: seq<string>, post: seq<string>): seq<string>
    requires from < |lines| && (cmd.Some? ==> cmd.value < |lines|)
  {
    if cmd.None? then lines[..from + 1] + apt + lines[from + 1..] + post
    else if from < cmd.value then lines[..from + 1] + apt + lines[from + 1..cmd.value] + post + lines[cmd.value..]
    else lines[..cmd.value] + post + lines[cmd.value..from + 1] + apt + lines[from + 1..]
  }

  /** What has been written after the first `k` lines. */
  function Written(lines: seq<string>, k: nat, from: nat, cmd: Option<nat>, apt: seq<string>, post: seq<string>): seq<string>
    requires k <= |lines|
  {
    if k == 0 then []
    else
      Written(lines, k - 1, from, cmd, apt, post)
      + (if cmd == Some(k - 1) then post else []) + [lines[k - 1]] + (if k - 1 == from then apt else [])
  }

  /** The Dockerfile with the provision injected; `None` when there is nothing to add or no `FROM`. */
  function Applied(dockerfile: string, p: Provision): Option<string> {
    var lines := LinesOf(dockerfile);
    var from := LastWhere(lines, IsFrom);
    if !Installs(p) || from.None? || !Pending(dockerfile, p) then None
    else Some(Join(Output(dockerfile, p), "\n") + "\n")
  }

  /** Some package or command is still missing. */
  predicate Pending(dockerfile: string, p: Provision) {
    Missing(dockerfile, p.aptPackages) != [] || Commands(dockerfile, p) != []
  }

  function Output(dockerfile: string, p: Provision): seq<string>
    requires LastWhere(LinesOf(dockerfile), IsFrom).Some?
  {
    var lines := LinesOf(dockerfile);
    Injected(lines, LastWhere(lines, IsFrom).value, LastWhere(lines, IsCommand),
             AptBlock(Missing(dockerfile, p.aptPackages)), Post(dockerfile, p))
  }

  function Post(dockerfile: string, p: Provision): seq<string> {
    var note := if LastWhere(LinesOf(dockerfile), IsCommand).Some? then PostNote() else TRAILING_NOTE;
    PostBlock(note, Commands(dockerfile, p))
  }

  /** Between the two places lines are copied. */
  lemma {:induction false} WrittenPlain(lines: seq<string>, a: nat, b: nat, from: nat, cmd: Option<nat>,
                                        apt: seq<string>, post: seq<string>)
    requires a <= b <= |lines|
    requires !(a <= from < b) && (cmd.Some? ==> !(a <= cmd.value < b))
    ensures Written(lines, b, from, cmd, apt, post) == Written(lines, a, from, cmd, apt, post) + lines[a..b]
  {
    if a < b {
      WrittenPlain(lines, a, b - 1, from, cmd, apt, post);
      assert lines[a..b] == lines[a..b - 1] + [lines[b - 1]];
    } else {
      assert lines[a..b] == [];
    }
  }

  lemma WrittenFrom(lines: seq<string>, from: nat, cmd: Option<nat>, apt: seq<string>, post: seq<string>)
    requires from < |lines| && cmd != Some(from)
    ensures Written(lines, from + 1, from, cmd, apt, post)
         == Written(lines, from, from, cmd, apt, post) + [lines[from]] + apt
  {
    var w := Written(lines, from, from, cmd, apt, post);
    assert w + [] + [lines[from]] + apt == w + [lines[from]] + apt;
  }

  lemma WrittenCommand(lines: seq<string>, from: nat, cmd: nat, apt: seq<string>, post: seq<string>)
    requires cmd < |lines| && cmd != from
    ensures Written(lines, cmd + 1, from, Some(cmd), apt, post)
         == Written(lines, cmd, from, Some(cmd), apt, post) + post + [lines[cmd]]
  {
    var w := Written(lines, cmd, from, Some(cmd), apt, post) + post + [lines[cmd]];
    assert w + [] == w;
  }

  lemma Glue(w: seq<string>, block: seq<string>, lines: seq<string>, a: nat, b: nat)
    requires a < b <= |lines|
    ensures w + block + [lines[a]] + lines[a + 1..b] == w + block + lines[a..b]
  {
    assert [lines[a]] + lines[a + 1..b] == lines[a..b];
  }

  /** Everything up to the last `FROM` line, when it comes first. */
  lemma WrittenHead(lines: seq<string>, from: nat, cmd: Option<nat>, apt: seq<string>, post: seq<string>)
    requires from < |lines| && (cmd.Some? ==> from < cmd.value)
    ensures Written(lines, from + 1, from, cmd, apt, post) == lines[..from + 1] + apt
  {
    WrittenPlain(lines, 0, from, from, cmd, apt, post);
    WrittenFrom(lines, from, cmd, apt, post);
    assert [] + lines[0..from] + [lines[from]] == lines[..from + 1];
  }

  /** Everything up to the last command line, when it comes first. */
  lemma WrittenCommandHead(lines: seq<string>, from: nat, cmd: nat, apt: seq<string>, post: seq<string>)
    requires cmd < from < |lines|
    ensures Written(lines, from, from, Some(cmd), apt, post) == lines[..cmd] + post + lines[cmd..from]
  {
    WrittenPlain(lines, 0, cmd, from, Some(cmd), apt, post);
    assert [] + lines[0..cmd] == lines[..cmd];
    WrittenCommand(lines, from, cmd, apt, post);
    WrittenPlain(lines, cmd + 1, from, from, Some(cmd), apt, post);
    Glue(lines[..cmd], post, lines, cmd, from);
  }

  lemma WrittenNoCommand(lines: seq<string>, from: nat, apt: seq<string>, post: seq<string>)
    requires from < |lines|
    ensures Written(lines, |lines|, from, None, apt, post) + post == Injected(lines, from, None, apt, post)
  {
    WrittenHead(lines, from, None, apt, post);
    WrittenPlain(lines, from + 1, |lines|, from, None, apt, post);
    assert lines[from + 1..|lines|] == lines[from + 1..];
  }

  lemma WrittenFromFirst(lines: seq<string>, from: nat, cmd: nat, apt: seq<string>, post: seq<string>)
    requires from < cmd < |lines|
    ensures Written(lines, |lines|, from, Some(cmd), apt, post) == Injected(lines, from, Some(cmd), apt, post)
  {
    WrittenHead(lines, from, Some(cmd), apt, post);
    WrittenPlain(lines, from + 1, cmd, from, Some(cmd), apt, post);
    WrittenCommand(lines, from, cmd, apt, post);
    WrittenPlain(lines, cmd + 1, |lines|, from, Some(cmd), apt, post);
    Glue(lines[..from + 1] + apt + lines[from + 1..cmd], post, lines, cmd, |lines|);
    assert lines[cmd..|lines|] == lines[cmd..];
  }

  lemma WrittenCommandFirst(lines: seq<string>, from: nat, cmd: nat, apt: seq<string>, post: seq<string>)
    requires cmd < from < |lines|
    ensures Written(lines, |lines|, from, Some(cmd), apt, post) == Injected(lines, from, Some(cmd), apt, post)
  {
    WrittenCommandHead(lines, from, cmd, apt, post);
    WrittenFrom(lines, from, Some(cmd), apt, post);
    var w := lines[..cmd] + post;
    assert lines[cmd..from] + [lines[from]] == lines[cmd..from + 1];
    assert w + lines[cmd..from] + [lines[from]] == w + lines[cmd..from + 1];
    WrittenPlain(lines, from + 1, |lines|, from, Some(cmd), apt, post);
    assert lines[from + 1..|lines|] == lines[from + 1..];
  }

  lemma NeverKeyword(line: string, c: char)
    requires line != "" && line[0] == c && c in {'R', '#'}
    ensures !IsFrom(line) && !IsCommand(line)
  {
    assert Upper(line)[0] == c;
  }

  lemma FromIsNoCommand(line: string)
    ensures !(IsFrom(line) && IsCommand(line))
  {
    var u := Upper(TrimStart(line));
    assert "FROM " <= u ==> u[0] == 'F';
    assert "CMD" <= u ==> u[0] == 'C';
    assert "ENTRYPOINT" <= u ==> u[0] == 'E';
  }

  lemma WrittenAll(lines: seq<string>, from: nat, cmd: Option<nat>, apt: seq<string>, post: seq<string>)
    requires from < |lines| && cmd != Some(from) && (cmd.Some? ==> cmd.value < |lines|)
    ensures Written(lines, |lines|, from, cmd, apt, post) + (if cmd.None? then post else [])
         == Injected(lines, from, cmd, apt, post)
  {
    if cmd.None? {
      WrittenNoCommand(lines, from, apt, post);
    } else if from < cmd.value {
      WrittenFromFirst(lines, from, cmd.value, apt, post);
    } else {
      WrittenCommandFirst(lines, from, cmd.value, apt, post);
    }
  }

  /** The line loop: pushes each line, with the blocks before and after it. */
  method Inject(lines: seq<string>, from: nat, cmd: Option<nat>, apt: seq<string>, post: seq<string>)
    returns (out: seq<string>)
    requires from < |lines| && cmd != Some(from) && (cmd.Some? ==> cmd.value < |lines|)
    ensures out == Injected(lines, from, cmd, apt, post)
  {
    out := [];
    for i := 0 to |lines|
      invariant out == Written(lines, i, from, cmd, apt, post)
    {
      if cmd == Some(i) { out := out + post; }
      out := out + [lines[i]];
      if i == from { out := out + apt; }
    }
    WrittenAll(lines, from, cmd, apt, post);
    if cmd.None? { out := out + post; }
  }

  lemma PlacesApart(lines: seq<string>)
    requires LastWhere(lines, IsFrom).Some?
    ensures LastWhere(lines, IsCommand) != LastWhere(lines, IsFrom)
  {
    LastWhereLast(lines, IsFrom);
    LastWhereLast(lines, IsCommand);
    FromIsNoCommand(lines[LastWhere(lines, IsFrom).value]);
  }

  method Patch(dockerfile: string, p: Provision) returns (out: seq<string>)
    requires LastWhere(LinesOf(dockerfile), IsFrom).Some?
    ensures out == Output(dockerfile, p)
  {
    var lines := LinesOf(dockerfile);
    var from, cmd := LastWhere(lines, IsFrom), LastWhere(lines, IsCommand);
    var apt, post := AptBlock(Missing(dockerfile, p.aptPackages)), Post(dockerfile, p);
    PlacesApart(lines);
    out := Inject(lines, from.value, cmd, apt, post);
  }

  method ApplyProvision(dockerfile: string, p: Provision) returns (r: Option<string>)
    ensures r == Applied(dockerfile, p)
  {
    if p.aptPackages == [] && p.postInstall == [] { return None; }
    if LastWhere(LinesOf(dockerfile), IsFrom).None? { return None; }
    if Missing(dockerfile, p.aptPackages) == [] && Commands(dockerfile, p) == [] { return None; }
    var out := Patch(dockerfile, p);
    r := Some(Join(out, "\n") + "\n");
  }

  // ----- Idempotence -----

  /** The output has exactly the original lines and the inserted ones. */
  lemma InjectedHolds(lines: seq<string>, from: nat, cmd: Option<nat>, apt: seq<string>, post: seq<string>, x: string)
    requires from < |lines| && (cmd.Some? ==> cmd.value < |lines|)
    ensures x in Injected(lines, from, cmd, apt, post) <==> x in lines || x in apt || x in post
  {
    SplitMember(lines, from + 1, x);
    if cmd.Some? {
      SplitMember(lines, cmd.value, x);
      if from < cmd.value {
        SplitMember(lines[from + 1..], cmd.value - from - 1, x);
        assert lines[from + 1..][..cmd.value - from - 1] == lines[from + 1..cmd.value];
        assert lines[from + 1..][cmd.value - from - 1..] == lines[cmd.value..];
      } else {
        SplitMember(lines[cmd.value..], from + 1 - cmd.value, x);
        assert lines[cmd.value..][..from + 1 - cmd.value] == lines[cmd.value..from + 1];
        assert lines[cmd.value..][from + 1 - cmd.value..] == lines[from + 1..];
      }
    }
  }

  lemma SplitMember(lines: seq<string>, k: nat, x: string)
    requires k <= |lines|
    ensures x in lines <==> x in lines[..k] || x in lines[k..]
  {
    assert lines == lines[..k] + lines[k..];
  }

  lemma LineInText(lines: seq<string>, line: string, sub: string)
    requires line in lines && Contains(line, sub)
    ensures Contains(Join(lines, "\n") + "\n", sub)
  {
    var k :| 0 <= k < |lines| && lines[k] == line;
    var text := Join(lines, "\n");
    JoinContains(lines, "\n", k);
    ContainsMiddle("", text, "\n");
    assert "" + text + "\n" == text + "\n";
    ContainsTransitive(text + "\n", text, line);
    ContainsTransitive(text + "\n", line, sub);
  }

  /** What the Dockerfile mentions the output still mentions. */
  lemma MentionSurvives(dockerfile: string, p: Provision, sub: string)
    requires Applied(dockerfile, p).Some? && OneLine(sub) && Contains(dockerfile, sub)
    ensures Contains(Applied(dockerfile, p).value, sub)
  {
    var lines := LinesOf(dockerfile);
    var from := LastWhere(lines, IsFrom).value;
    var k := from;
    if sub == "" {
      assert sub <= lines[from][0..];
    } else {
      k := OccursInLine(dockerfile, sub);
    }
    InjectedHolds(lines, from, LastWhere(lines, IsCommand), AptBlock(Missing(dockerfile, p.aptPackages)),
                  Post(dockerfile, p), lines[k]);
    LineInText(Output(dockerfile, p), lines[k], sub);
  }

  lemma AptLineMentions(packages: seq<string>, x: string)
    requires x in packages
    ensures Contains(AptLine(packages), x)
  {
    var k :| 0 <= k < |packages| && packages[k] == x;
    JoinContains(packages, " ", k);
    ContainsMiddle(AptHead(), Join(packages, " "), APT_TAIL);
    ContainsTransitive(AptLine(packages), Join(packages, " "), x);
  }

  lemma PackageMentioned(dockerfile: string, p: Provision, x: string)
    requires Applied(dockerfile, p).Some? && x in p.aptPackages && OneLine(x)
    ensures Contains(Applied(dockerfile, p).value, x)
  {
    var needed := Missing(dockerfile, p.aptPackages);
    if Contains(dockerfile, x) {
      MentionSurvives(dockerfile, p, x);
    } else {
      AptLineMentions(needed, x);
      var lines := LinesOf(dockerfile);
      InjectedHolds(lines, LastWhere(lines, IsFrom).value, LastWhere(lines, IsCommand), AptBlock(needed),
                    Post(dockerfile, p), AptLine(needed));
      LineInText(Output(dockerfile, p), AptLine(needed), x);
    }
  }

  lemma CommandMentioned(dockerfile: string, p: Provision, command: string, marker: string)
    requires Applied(dockerfile, p).Some? && command in Commands(dockerfile, p) && Contains(command, marker)
    ensures Contains(Applied(dockerfile, p).value, marker)
  {
    var commands := Commands(dockerfile, p);
    var k :| 0 <= k < |commands| && commands[k] == command;
    var line := "RUN " + command;
    assert RunLines(commands)[k] == line;
    ContainsMiddle("RUN ", command, "");
    assert "RUN " + command + "" == line;
    ContainsTransitive(line, command, marker);
    var lines := LinesOf(dockerfile);
    InjectedHolds(lines, LastWhere(lines, IsFrom).value, LastWhere(lines, IsCommand),
                  AptBlock(Missing(dockerfile, p.aptPackages)), Post(dockerfile, p), line);
    LineInText(Output(dockerfile, p), line, marker);
  }

  lemma OutputProvisions(dockerfile: string, p: Provision)
    requires WellFormed(p) && Applied(dockerfile, p).Some? && p.postInstall != []
    ensures Provisions(Applied(dockerfile, p).value, p.skipIfContains)
  {
    var markers := p.skipIfContains;
    if Provisions(dockerfile, markers) {
      var j :| 0 <= j < |markers| && Contains(dockerfile, markers[j]);
      assert markers[j] in markers;
      MentionSurvives(dockerfile, p, markers[j]);
    } else {
      var c, m :| c in p.postInstall && m in markers && Contains(c, m);
      CommandMentioned(dockerfile, p, c, m);
      var j :| 0 <= j < |markers| && markers[j] == m;
    }
  }

  lemma {:induction false} NoneMissing(dockerfile: string, packages: seq<string>)
    requires forall x :: x in packages ==> Contains(dockerfile, x)
    ensures Missing(dockerfile, packages) == []
  {
    if packages != [] {
      assert packages[0] in packages;
      NoneMissing(dockerfile, packages[1..]);
    }
  }

  /** Injecting twice changes nothing, for every Dockerfile and every single-line provision whose
      commands carry one of their own markers. */
  lemma ApplyIdempotent(dockerfile: string, p: Provision)
    requires WellFormed(p) && Applied(dockerfile, p).Some?
    ensures Applied(Applied(dockerfile, p).value, p) == None
  {
    var out := Applied(dockerfile, p).value;
    forall x | x in p.aptPackages ensures Contains(out, x) {
      assert OneLine(x);
      PackageMentioned(dockerfile, p, x);
    }
    NoneMissing(out, p.aptPackages);
    if p.postInstall != [] { OutputProvisions(dockerfile, p); }
  }

  /** Every provision the detectors produce is injected at most once. */
  lemma DetectedIdempotent(dockerfile: string, project: Project)
    requires Applied(dockerfile, Detected(project)).Some?
    ensures Applied(Applied(dockerfile, Detected(project)).value, Detected(project)) == None
  {
    DetectedWellFormed(project);
    ApplyIdempotent(dockerfile, Detected(project));
  }

  // ----- Placement -----

  predicate Keyword(line: string) {
    IsFrom(line) || IsCommand(line)
  }

  /** Lines that are neither `FROM` nor `CMD`/`ENTRYPOINT`. */
  predicate Neutral(lines: seq<string>) {
    forall i :: 0 <= i < |lines| ==> !Keyword(lines[i])
  }

  predicate Prefixed(line: string) {
    line != "" && (line[0] == 'R' || line[0] == '#')
  }

  lemma PrefixedNeutral(lines: seq<string>)
    requires forall i :: 0 <= i < |lines| ==> Prefixed(lines[i])
    ensures Neutral(lines)
  {
    forall i | 0 <= i < |lines| ensures !Keyword(lines[i]) {
      assert Prefixed(lines[i]);
      NeverKeyword(lines[i], lines[i][0]);
    }
  }

  lemma AptNeutral(packages: seq<string>)
    ensures Neutral(AptBlock(packages))
  {
    assert Prefixed(APT_NOTE);
    assert AptHead()[0] == 'R';
    assert Prefixed(AptLine(packages));
    PrefixedNeutral(AptBlock(packages));
  }

  lemma PostNeutral(note: string, commands: seq<string>)
    requires Prefixed(note)
    ensures Neutral(PostBlock(note, commands))
  {
    var runs := RunLines(commands);
    forall i | 0 <= i < |runs| ensures Prefixed(runs[i]) { assert runs[i][0] == "RUN "[0]; }
    PrefixedNeutral([note] + runs);
    PrefixedNeutral([]);
  }

  /** Where position `k` goes when `n` lines are put in before position `at`. */
  function Shifted(k: Option<nat>, at: nat, n: nat): Option<nat> {
    if k.Some? && k.value >= at then Some(k.value + n) else k
  }

  /** Putting in lines without a match only shifts the last match. */
  lemma LastWhereInsert(u: seq<string>, x: seq<string>, v: seq<string>, f: string -> bool)
    requires NoMatch(x, f)
    ensures LastWhere(u + x + v, f) == Shifted(LastWhere(u + v, f), |u|, |x|)
  {
    NoMatchNone(x, f);
    LastWhereConcat(u + x, v, f);
    LastWhereConcat(u, x, f);
    LastWhereConcat(u, v, f);
  }

  lemma LastWhereInsertTwo(a: seq<string>, x: seq<string>, b: seq<string>, y: seq<string>, c: seq<string>, f: string -> bool)
    requires NoMatch(x, f) && NoMatch(y, f)
    ensures LastWhere(a + x + b + y + c, f)
         == Shifted(Shifted(LastWhere(a + b + c, f), |a| + |b|, |y|), |a|, |x|)
  {
    LastWhereInsert(a + b, y, c, f);
    LastWhereInsert(a, x, b + y + c, f);
    assert a + (b + y + c) == a + b + y + c;
    assert a + x + (b + y + c) == a + x + b + y + c;
  }

  /** `block` comes right after the last match of `f`, which is the same line as in `lines`. */
  ghost predicate BlockAfter(lines: seq<string>, out: seq<string>, f: string -> bool, block: seq<string>) {
    var k, k' := LastWhere(lines, f), LastWhere(out, f);
    k.Some? && k'.Some? && out[k'.value] == lines[k.value] && block <= out[k'.value + 1..]
  }

  ghost predicate BlockBefore(lines: seq<string>, out: seq<string>, f: string -> bool, block: seq<string>) {
    var k, k' := LastWhere(lines, f), LastWhere(out, f);
    && k.Some? && k'.Some? && out[k'.value] == lines[k.value]
    && |block| <= k'.value && out[k'.value - |block|..k'.value] == block
  }

  ghost predicate BlockAtEnd(lines: seq<string>, out: seq<string>, f: string -> bool, block: seq<string>) {
    LastWhere(lines, f) == None == LastWhere(out, f) && |block| <= |out| && out[|out| - |block|..] == block
  }

  /** `out` is `lines`, cut into three parts, with two blocks put in between. */
  ghost predicate Parts(lines: seq<string>, out: seq<string>, a: seq<string>, x: seq<string>, b: seq<string>,
                        y: seq<string>, c: seq<string>)
  {
    lines == a + b + c && out == a + x + b + y + c
  }

  /** Where the pieces are. */
  lemma PartsAt(lines: seq<string>, out: seq<string>, a: seq<string>, x: seq<string>, b: seq<string>,
                y: seq<string>, c: seq<string>)
    requires Parts(lines, out, a, x, b, y, c)
    ensures var n := |a| + |x| + |b|;
            && out[|a|..|a| + |x|] == x && x <= out[|a|..] && out[n..n + |y|] == y && y <= out[n..]
            && (a != [] ==> out[|a| - 1] == lines[|a| - 1])
            && (b != [] ==> out[|a| + |x|] == lines[|a|] && out[n - 1] == lines[|a| + |b| - 1])
            && (c != [] ==> out[n + |y|] == lines[|a| + |b|])
  {
    assert out == a + x + (b + y + c);
    Piece(a, x, b + y + c);
    Piece(a + x + b, y, c);
  }

  lemma Piece(before: seq<string>, piece: seq<string>, after: seq<string>)
    ensures var s := before + piece + after;
            s[|before|..|before| + |piece|] == piece && piece <= s[|before|..]
  {
    assert (before + piece + after)[|before|..] == piece + after;
  }

  lemma FirstAfter(lines: seq<string>, out: seq<string>, a: seq<string>, x: seq<string>, b: seq<string>,
                   y: seq<string>, c: seq<string>, f: string -> bool)
    requires Parts(lines, out, a, x, b, y, c) && NoMatch(x, f) && NoMatch(y, f)
    requires a != [] && LastWhere(lines, f) == Some(|a| - 1)
    ensures BlockAfter(lines, out, f, x)
    ensures LastWhere(out, f) == Some(|a| - 1)
  {
    LastWhereInsertTwo(a, x, b, y, c, f);
    PartsAt(lines, out, a, x, b, y, c);
  }

  lemma SecondAfter(lines: seq<string>, out: seq<string>, a: seq<string>, x: seq<string>, b: seq<string>,
                    y: seq<string>, c: seq<string>, f: string -> bool)
    requires Parts(lines, out, a, x, b, y, c) && NoMatch(x, f) && NoMatch(y, f)
    requires b != [] && LastWhere(lines, f) == Some(|a| + |b| - 1)
    ensures BlockAfter(lines, out, f, y)
    ensures LastWhere(out, f) == Some(|a| + |x| + |b| - 1)
  {
    LastWhereInsertTwo(a, x, b, y, c, f);
    PartsAt(lines, out, a, x, b, y, c);
  }

  lemma FirstBefore(lines: seq<string>, out: seq<string>, a: seq<string>, x: seq<string>, b: seq<string>,
                    y: seq<string>, c: seq<string>, f: string -> bool)
    requires Parts(lines, out, a, x, b, y, c) && NoMatch(x, f) && NoMatch(y, f)
    requires b != [] && LastWhere(lines, f) == Some(|a|)
    ensures BlockBefore(lines, out, f, x)
    ensures LastWhere(out, f) == Some(|a| + |x|)
  {
    LastWhereInsertTwo(a, x, b, y, c, f);
    PartsAt(lines, out, a, x, b, y, c);
  }

  lemma SecondBefore(lines: seq<string>, out: seq<string>, a: seq<string>, x: seq<string>, b: seq<string>,
                     y: seq<string>, c: seq<string>, f: string -> bool)
    requires Parts(lines, out, a, x, b, y, c) && NoMatch(x, f) && NoMatch(y, f)
    requires c != [] && LastWhere(lines, f) == Some(|a| + |b|)
    ensures BlockBefore(lines, out, f, y)
    ensures LastWhere(out, f) == Some(|a| + |x| + |b| + |y|)
  {
    LastWhereInsertTwo(a, x, b, y, c, f);
    PartsAt(lines, out, a, x, b, y, c);
  }

  lemma AtEnd(lines: seq<string>, out: seq<string>, a: seq<string>, x: seq<string>, b: seq<string>,
              y: seq<string>, c: seq<string>, f: string -> bool)
    requires Parts(lines, out, a, x, b, y, c) && NoMatch(x, f) && NoMatch(y, f)
    requires c == [] && LastWhere(lines, f) == None
    ensures BlockAtEnd(lines, out, f, y)
  {
    LastWhereInsertTwo(a, x, b, y, c, f);
  }

  /** `s` without the `n` elements from position `at` on. */
  function Erase(s: seq<string>, at: int, n: nat): seq<string> {
    if 0 <= at && at + n <= |s| then
      seq(|s| - n, i requires 0 <= i < |s| - n => if i < at then s[i] else s[i + n])
    else s
  }

  lemma EraseBlock(a: seq<string>, x: seq<string>, b: seq<string>)
    ensures Erase(a + x + b, |a|, |x|) == a + b
  {
  }

  function EraseTwo(s: seq<string>, at: int, n: nat, at': int, n': nat): seq<string> {
    Erase(Erase(s, at, n), at', n')
  }

  /** The output without `n` lines after the last `f` line and `m` lines before the last `g` line (or at
      the end), the later ones taken out first. */
  function Cleaned(out: seq<string>, f: string -> bool, g: string -> bool, n: nat, m: nat): seq<string> {
    CleanedAt(out, LastWhere(out, f), LastWhere(out, g), n, m)
  }

  function CleanedAt(out: seq<string>, from: Option<nat>, cmd: Option<nat>, n: nat, m: nat): seq<string> {
    if from.None? then out
    else if cmd.None? then EraseTwo(out, |out| - m, m, from.value + 1, n)
    else if from.value < cmd.value then EraseTwo(out, cmd.value - m, m, from.value + 1, n)
    else EraseTwo(out, from.value + 1, n, cmd.value - m, m)
  }

  ghost predicate Restores(lines: seq<string>, out: seq<string>, at: int, n: nat, at': int, n': nat) {
    EraseTwo(out, at, n, at', n') == lines
  }

  lemma EraseInserted(lines: seq<string>, out: seq<string>, a: seq<string>, x: seq<string>, b: seq<string>,
                      y: seq<string>, c: seq<string>)
    requires Parts(lines, out, a, x, b, y, c)
    ensures Restores(lines, out, |a| + |x| + |b|, |y|, |a|, |x|)
  {
    EraseBlock(a + x + b, y, c);
    assert a + x + b + c == a + x + (b + c);
    EraseBlock(a, x, b + c);
    assert a + (b + c) == a + b + c;
  }

  /** The blocks follow the last `f` line and precede the last `g` line (or come last without one), and
      taking them out again gives back the lines. */
  ghost predicate Placed(lines: seq<string>, out: seq<string>, f: string -> bool, g: string -> bool,
                         apt: seq<string>, post: seq<string>)
  {
    && BlockAfter(lines, out, f, apt)
    && (if LastWhere(lines, g).Some? then BlockBefore(lines, out, g, post) else BlockAtEnd(lines, out, g, post))
    && Cleaned(out, f, g, |apt|, |post|) == lines
  }

  lemma CleanedWithoutCommand(lines: seq<string>, out: seq<string>, na: nat, nx: nat, nb: nat, ny: nat)
    requires na > 0 && |out| == na + nx + nb + ny && Restores(lines, out, na + nx + nb, ny, na, nx)
    ensures CleanedAt(out, Some(na - 1), None, nx, ny) == lines
  {
  }

  lemma CleanedPostFirst(lines: seq<string>, out: seq<string>, na: nat, nx: nat, nb: nat, ny: nat)
    requires na > 0 && Restores(lines, out, na + nx + nb, ny, na, nx)
    ensures CleanedAt(out, Some(na - 1), Some(na + nx + nb + ny), nx, ny) == lines
  {
  }

  lemma CleanedAptFirst(lines: seq<string>, out: seq<string>, na: nat, nx: nat, nb: nat, ny: nat)
    requires nb > 1 && Restores(lines, out, na + nx + nb, ny, na, nx)
    ensures CleanedAt(out, Some(na + nx + nb - 1), Some(na + nx), ny, nx) == lines
  {
  }

  lemma CleanedNoCommand(lines: seq<string>, out: seq<string>, a: seq<string>, x: seq<string>, b: seq<string>,
                         y: seq<string>, c: seq<string>, f: string -> bool, g: string -> bool)
    requires Parts(lines, out, a, x, b, y, c) && a != [] && c == []
    requires LastWhere(out, f) == Some(|a| - 1) && LastWhere(out, g) == None
    ensures Cleaned(out, f, g, |x|, |y|) == lines
  {
    EraseInserted(lines, out, a, x, b, y, c);
    CleanedWithoutCommand(lines, out, |a|, |x|, |b|, |y|);
  }

  lemma CleanedFromFirst(lines: seq<string>, out: seq<string>, a: seq<string>, x: seq<string>, b: seq<string>,
                         y: seq<string>, c: seq<string>, f: string -> bool, g: string -> bool)
    requires Parts(lines, out, a, x, b, y, c) && a != []
    requires LastWhere(out, f) == Some(|a| - 1) && LastWhere(out, g) == Some(|a| + |x| + |b| + |y|)
    ensures Cleaned(out, f, g, |x|, |y|) == lines
  {
    EraseInserted(lines, out, a, x, b, y, c);
    CleanedPostFirst(lines, out, |a|, |x|, |b|, |y|);
  }

  lemma CleanedCommandFirst(lines: seq<string>, out: seq<string>, a: seq<string>, x: seq<string>, b: seq<string>,
                            y: seq<string>, c: seq<string>, f: string -> bool, g: string -> bool)
    requires Parts(lines, out, a, x, b, y, c) && |b| > 1
    requires LastWhere(out, f) == Some(|a| + |x| + |b| - 1) && LastWhere(out, g) == Some(|a| + |x|)
    ensures Cleaned(out, f, g, |y|, |x|) == lines
  {
    EraseInserted(lines, out, a, x, b, y, c);
    CleanedAptFirst(lines, out, |a|, |x|, |b|, |y|);
  }

  lemma PlacedNoCommand(lines: seq<string>, out: seq<string>, a: seq<string>, x: seq<string>, b: seq<string>,
                        y: seq<string>, c: seq<string>, f: string -> bool, g: string -> bool)
    requires Parts(lines, out, a, x, b, y, c) && NoMatch(x, f) && NoMatch(y, f) && NoMatch(x, g) && NoMatch(y, g)
    requires a != [] && c == [] && LastWhere(lines, f) == Some(|a| - 1) && LastWhere(lines, g) == None
    ensures Placed(lines, out, f, g, x, y)
  {
    FirstAfter(lines, out, a, x, b, y, c, f);
    AtEnd(lines, out, a, x, b, y, c, g);
    CleanedNoCommand(lines, out, a, x, b, y, c, f, g);
  }

  lemma PlacedFromFirst(lines: seq<string>, out: seq<string>, a: seq<string>, x: seq<string>, b: seq<string>,
                        y: seq<string>, c: seq<string>, f: string -> bool, g: string -> bool)
    requires Parts(lines, out, a, x, b, y, c) && NoMatch(x, f) && NoMatch(y, f) && NoMatch(x, g) && NoMatch(y, g)
    requires a != [] && c != [] && LastWhere(lines, f) == Some(|a| - 1) && LastWhere(lines, g) == Some(|a| + |b|)
    ensures Placed(lines, out, f, g, x, y)
  {
    FirstAfter(lines, out, a, x, b, y, c, f);
    SecondBefore(lines, out, a, x, b, y, c, g);
    CleanedFromFirst(lines, out, a, x, b, y, c, f, g);
  }

  lemma PlacedCommandFirst(lines: seq<string>, out: seq<string>, a: seq<string>, x: seq<string>, b: seq<string>,
                           y: seq<string>, c: seq<string>, f: string -> bool, g: string -> bool)
    requires Parts(lines, out, a, x, b, y, c) && NoMatch(x, f) && NoMatch(y, f) && NoMatch(x, g) && NoMatch(y, g)
    requires |b| > 1 && LastWhere(lines, f) == Some(|a| + |b| - 1) && LastWhere(lines, g) == Some(|a|)
    ensures Placed(lines, out, f, g, y, x)
  {
    SecondAfter(lines, out, a, x, b, y, c, f);
    FirstBefore(lines, out, a, x, b, y, c, g);
    CleanedCommandFirst(lines, out, a, x, b, y, c, f, g);
  }

  lemma InjectedParts(lines: seq<string>, i: nat, j: nat, x: seq<string>, y: seq<string>)
    requires i <= j <= |lines|
    ensures Parts(lines, lines[..i] + x + lines[i..j] + y + lines[j..], lines[..i], x, lines[i..j], y, lines[j..])
  {
  }

  lemma InjectedNoCommand(lines: seq<string>, from: nat, apt: seq<string>, post: seq<string>,
                          f: string -> bool, g: string -> bool)
    requires NoMatch(apt, f) && NoMatch(post, f) && NoMatch(apt, g) && NoMatch(post, g)
    requires LastWhere(lines, f) == Some(from) && LastWhere(lines, g) == None
    ensures Placed(lines, Injected(lines, from, None, apt, post), f, g, apt, post)
  {
    var out := Injected(lines, from, None, apt, post);
    InjectedParts(lines, from + 1, |lines|, apt, post);
    assert lines[from + 1..|lines|] == lines[from + 1..];
    assert out == lines[..from + 1] + apt + lines[from + 1..] + post + lines[|lines|..];
    PlacedNoCommand(lines, out, lines[..from + 1], apt, lines[from + 1..], post, lines[|lines|..], f, g);
  }

  lemma InjectedFromFirst(lines: seq<string>, from: nat, cmd: nat, apt: seq<string>, post: seq<string>,
                          f: string -> bool, g: string -> bool)
    requires NoMatch(apt, f) && NoMatch(post, f) && NoMatch(apt, g) && NoMatch(post, g)
    requires LastWhere(lines, f) == Some(from) && LastWhere(lines, g) == Some(cmd) && from < cmd
    ensures Placed(lines, Injected(lines, from, Some(cmd), apt, post), f, g, apt, post)
  {
    InjectedParts(lines, from + 1, cmd, apt, post);
    PlacedFromFirst(lines, Injected(lines, from, Some(cmd), apt, post),
                    lines[..from + 1], apt, lines[from + 1..cmd], post, lines[cmd..], f, g);
  }

  lemma InjectedCommandFirst(lines: seq<string>, from: nat, cmd: nat, apt: seq<string>, post: seq<string>,
                             f: string -> bool, g: string -> bool)
    requires NoMatch(apt, f) && NoMatch(post, f) && NoMatch(apt, g) && NoMatch(post, g)
    requires LastWhere(lines, f) == Some(from) && LastWhere(lines, g) == Some(cmd) && cmd < from
    ensures Placed(lines, Injected(lines, from, Some(cmd), apt, post), f, g, apt, post)
  {
    InjectedParts(lines, cmd, from + 1, post, apt);
    PlacedCommandFirst(lines, Injected(lines, from, Some(cmd), apt, post),
                       lines[..cmd], post, lines[cmd..from + 1], apt, lines[from + 1..], f, g);
  }

  lemma InjectedPlaced(lines: seq<string>, out: seq<string>, from: nat, cmd: Option<nat>, apt: seq<string>, post: seq<string>,
                       f: string -> bool, g: string -> bool)
    requires NoMatch(apt, f) && NoMatch(post, f) && NoMatch(apt, g) && NoMatch(post, g)
    requires LastWhere(lines, f) == Some(from) && LastWhere(lines, g) == cmd && cmd != Some(from)
    requires out == Injected(lines, from, cmd, apt, post)
    ensures Placed(lines, out, f, g, apt, post)
  {
    match cmd
    case None => InjectedNoCommand(lines, from, apt, post, f, g);
    case Some(c) =>
      if from < c {
        InjectedFromFirst(lines, from, c, apt, post, f, g);
      } else {
        InjectedCommandFirst(lines, from, c, apt, post, f, g);
      }
  }

  // ----- Reading the output back -----

  lemma AptUpdateOneLine()
    ensures OneLine(APT_UPDATE) && OneLine("RUN ")
  {
  }

  lemma AptOptionsOneLine()
    ensures OneLine(APT_OPTIONS)
  {
  }

  lemma AptTailOneLine()
    ensures OneLine(APT_TAIL) && OneLine(APT_NOTE)
  {
  }

  lemma TrailingNoteOneLine()
    ensures OneLine(TRAILING_NOTE) && OneLine(" ")
  {
  }

  lemma RemarkOneLine()
    ensures OneLine(VERSION_REMARK)
  {
  }

  lemma OneLineConcat(a: string, b: string)
    requires OneLine(a) && OneLine(b)
    ensures OneLine(a + b)
  {
  }

  lemma {:induction false} OneLineJoin(parts: seq<string>, sep: string)
    requires AllOneLine(parts) && OneLine(sep)
    ensures OneLine(Join(parts, sep))
  {
    if |parts| == 1 {
      assert parts[0] in parts;
    } else if parts != [] {
      assert parts[0] in parts;
      OneLineJoin(parts[1..], sep);
      OneLineConcat(parts[0], sep);
      OneLineConcat(parts[0] + sep, Join(parts[1..], sep));
    }
  }

  lemma AptLineOneLine(packages: seq<string>)
    requires AllOneLine(packages)
    ensures OneLine(AptLine(packages))
  {
    AptUpdateOneLine();
    AptOptionsOneLine();
    AptTailOneLine();
    TrailingNoteOneLine();
    OneLineJoin(packages, " ");
    OneLineConcat("RUN ", APT_UPDATE);
    OneLineConcat("RUN " + APT_UPDATE, APT_OPTIONS);
    OneLineConcat(AptHead(), Join(packages, " "));
    OneLineConcat(AptHead() + Join(packages, " "), APT_TAIL);
  }

  lemma AptBlockOneLine(packages: seq<string>)
    requires AllOneLine(packages)
    ensures AllOneLine(AptBlock(packages))
  {
    AptTailOneLine();
    AptLineOneLine(packages);
  }

  lemma PostBlockOneLine(note: string, commands: seq<string>)
    requires OneLine(note) && AllOneLine(commands)
    ensures AllOneLine(PostBlock(note, commands))
  {
    AptUpdateOneLine();
    var runs := RunLines(commands);
    forall x | x in runs ensures OneLine(x) {
      var k :| 0 <= k < |runs| && runs[k] == x;
      assert commands[k] in commands;
      OneLineConcat("RUN ", commands[k]);
    }
  }

  lemma PostOneLine(dockerfile: string, p: Provision)
    requires WellFormed(p)
    ensures AllOneLine(Post(dockerfile, p))
  {
    TrailingNoteOneLine();
    RemarkOneLine();
    OneLineConcat(TRAILING_NOTE, VERSION_REMARK);
    PostBlockOneLine(PostNote(), Commands(dockerfile, p));
    PostBlockOneLine(TRAILING_NOTE, Commands(dockerfile, p));
  }

  /** Single-line blocks bring no line breaks into the lines. */
  lemma InjectedBreaks(lines: seq<string>, from: nat, cmd: Option<nat>, apt: seq<string>, post: seq<string>)
    requires from < |lines| && (cmd.Some? ==> cmd.value < |lines|)
    requires AllNoLf(lines) && AllOneLine(apt) && AllOneLine(post)
    ensures var out := Injected(lines, from, cmd, apt, post); out != [] && AllNoLf(out) && (NoCr(out) <==> NoCr(lines))
  {
    var out := Injected(lines, from, cmd, apt, post);
    forall i | 0 <= i < |out|
      ensures NoLf(out[i]) && (NoCr(lines) ==> !EndsInCr(out[i]))
    {
      InjectedHolds(lines, from, cmd, apt, post, out[i]);
      assert out[i] in out;
      assert OneLine(out[i]) ==> NoLf(out[i]) && !EndsInCr(out[i]);
    }
    forall i | 0 <= i < |lines| && NoCr(out)
      ensures !EndsInCr(lines[i])
    {
      InjectedHolds(lines, from, cmd, apt, post, lines[i]);
      assert lines[i] in lines;
    }
  }

  lemma OutputPlaced(dockerfile: string, p: Provision)
    requires LastWhere(LinesOf(dockerfile), IsFrom).Some?
    ensures Placed(LinesOf(dockerfile), Output(dockerfile, p), IsFrom, IsCommand,
                   AptBlock(Missing(dockerfile, p.aptPackages)), Post(dockerfile, p))
  {
    var lines := LinesOf(dockerfile);
    var apt, post := AptBlock(Missing(dockerfile, p.aptPackages)), Post(dockerfile, p);
    PlacesApart(lines);
    AptNeutral(Missing(dockerfile, p.aptPackages));
    NotesPrefixed();
    PostNeutral(PostNote(), Commands(dockerfile, p));
    PostNeutral(TRAILING_NOTE, Commands(dockerfile, p));
    NeutralNoMatch(apt);
    NeutralNoMatch(post);
    InjectedPlaced(lines, Output(dockerfile, p), LastWhere(lines, IsFrom).value, LastWhere(lines, IsCommand), apt, post,
                   IsFrom, IsCommand);
  }

  lemma NotesPrefixed()
    ensures Prefixed(TRAILING_NOTE) && Prefixed(PostNote())
  {
    assert TRAILING_NOTE[0] == '#';
  }

  lemma NeutralNoMatch(lines: seq<string>)
    requires Neutral(lines)
    ensures NoMatch(lines, IsFrom) && NoMatch(lines, IsCommand)
  {
    forall i | 0 <= i < |lines| ensures !IsFrom(lines[i]) && !IsCommand(lines[i]) { assert !Keyword(lines[i]); }
  }

  /** The output text read back: the last `FROM` is followed by the package lines, the last
      `CMD`/`ENTRYPOINT` preceded by the command lines, and without both the original lines are left -
      exactly when no original line ends in a carriage return (joining by line feeds would make it part
      of a line ending). */
  lemma AppliedReadsBack(dockerfile: string, p: Provision)
    requires WellFormed(p) && Applied(dockerfile, p).Some?
    ensures Placed(LinesOf(dockerfile), Output(dockerfile, p), IsFrom, IsCommand,
                   AptBlock(Missing(dockerfile, p.aptPackages)), Post(dockerfile, p))
    ensures LinesOf(Applied(dockerfile, p).value) == StripAll(Output(dockerfile, p))
    ensures LinesOf(Applied(dockerfile, p).value) == Output(dockerfile, p) <==> NoCr(LinesOf(dockerfile))
  {
    OutputPlaced(dockerfile, p);
    OutputLines(dockerfile, p);
  }

  lemma OutputLines(dockerfile: string, p: Provision)
    requires WellFormed(p) && Applied(dockerfile, p).Some?
    ensures LinesOf(Applied(dockerfile, p).value) == StripAll(Output(dockerfile, p))
    ensures LinesOf(Applied(dockerfile, p).value) == Output(dockerfile, p) <==> NoCr(LinesOf(dockerfile))
  {
    var lines := LinesOf(dockerfile);
    var out := Output(dockerfile, p);
    LinesNoLf(dockerfile);
    AptBlockOneLine(Missing(dockerfile, p.aptPackages));
    PostOneLine(dockerfile, p);
    InjectedBreaks(lines, LastWhere(lines, IsFrom).value, LastWhere(lines, IsCommand),
                   AptBlock(Missing(dockerfile, p.aptPackages)), Post(dockerfile, p));
    LinesOfTerminated(out);
    StripNothing(out);
  }

  // ----- The tests, character by character, and what is done when -----

  /** A `FROM` line: white space, FROM in any letter case, a space. */
  lemma IsFromIff(line: string)
    ensures IsFrom(line) <==> Renaming.FromLetters(TrimStart(line))
  {
    var t := TrimStart(line);
    Renaming.ShapeIffLetters(t);
    if IsFrom(line) { Renaming.FromHasShape(t); }
    if Renaming.FromShape(t) { Renaming.ShapeIsFrom(t); }
  }

  /** A command line: white space, then CMD or ENTRYPOINT in any letter case. */
  lemma IsCommandIff(line: string)
    ensures IsCommand(line) <==> Keywords.Spells(TrimStart(line), "CMD") || Keywords.Spells(TrimStart(line), "ENTRYPOINT")
  {
    Keywords.KeywordsPlain();
    Keywords.UpperSpells(TrimStart(line), "CMD");
    Keywords.UpperSpells(TrimStart(line), "ENTRYPOINT");
  }

  ghost predicate HasFrom(dockerfile: string) {
    exists i :: 0 <= i < |LinesOf(dockerfile)| && Renaming.FromLetters(TrimStart(LinesOf(dockerfile)[i]))
  }

  lemma HasFromIff(dockerfile: string)
    ensures HasFrom(dockerfile) <==> LastWhere(LinesOf(dockerfile), IsFrom).Some?
  {
    var lines := LinesOf(dockerfile);
    LastWhereLast(lines, IsFrom);
    forall i | 0 <= i < |lines| ensures IsFrom(lines[i]) <==> Renaming.FromLetters(TrimStart(lines[i])) { IsFromIff(lines[i]); }
  }

  /** Something is injected exactly when there is a `FROM` line and the text lacks a package, or has commands
      to run and lacks every marker. */
  lemma AppliedIff(dockerfile: string, p: Provision)
    ensures Applied(dockerfile, p).Some? <==>
      HasFrom(dockerfile) && ((exists x :: x in p.aptPackages && !Contains(dockerfile, x))
                              || (p.postInstall != [] && forall m :: m in p.skipIfContains ==> !Contains(dockerfile, m)))
  {
    HasFromIff(dockerfile);
    MissingIff(dockerfile, p.aptPackages);
    assert Provisions(dockerfile, p.skipIfContains) <==> exists m :: m in p.skipIfContains && Contains(dockerfile, m);
  }

  lemma MissingIff(dockerfile: string, packages: seq<string>)
    ensures Missing(dockerfile, packages) != [] <==> exists x :: x in packages && !Contains(dockerfile, x)
  {
    if Missing(dockerfile, packages) != [] {
      var x := Missing(dockerfile, packages)[0];
      assert x in Missing(dockerfile, packages);
    } else {
      assert forall x :: x in packages ==> Contains(dockerfile, x);
    }
  }

  /** What is injected: every missing package on one install line, and a RUN line for each command unless the
      text has a marker; nothing else is new but the comment lines. */
  lemma OutputHas(dockerfile: string, p: Provision, x: string)
    requires Applied(dockerfile, p).Some?
    ensures x in Output(dockerfile, p) <==>
      || x in LinesOf(dockerfile)
      || x in AptBlock(Missing(dockerfile, p.aptPackages))
      || x in Post(dockerfile, p)
    ensures forall c :: c in p.postInstall && (forall m :: m in p.skipIfContains ==> !Contains(dockerfile, m)) ==>
      "RUN " + c in Output(dockerfile, p)
    ensures (exists m :: m in p.skipIfContains && Contains(dockerfile, m)) ==> Post(dockerfile, p) == []
  {
    var lines := LinesOf(dockerfile);
    var from, cmd := LastWhere(lines, IsFrom).value, LastWhere(lines, IsCommand);
    var apt, post := AptBlock(Missing(dockerfile, p.aptPackages)), Post(dockerfile, p);
    InjectedHolds(lines, from, cmd, apt, post, x);
    forall c | c in p.postInstall && (forall m :: m in p.skipIfContains ==> !Contains(dockerfile, m))
      ensures "RUN " + c in Output(dockerfile, p)
    {
      RunLineIn(p.postInstall, c);
      assert Commands(dockerfile, p) == p.postInstall;
      InjectedHolds(lines, from, cmd, apt, post, "RUN " + c);
    }
  }

  lemma RunLineIn(commands: seq<string>, c: string)
    requires c in commands
    ensures "RUN " + c in RunLines(commands)
  {
    var k :| 0 <= k < |commands| && commands[k] == c;
    assert RunLines(commands)[k] == "RUN " + c;
  }

  /** The texts: one install line for all missing packages, which is not cached in the image, and a comment in
      front of each block. */
  lemma InjectedTexts(dockerfile: string, p: Provision)
    ensures var missing := Missing(dockerfile, p.aptPackages);
            AptBlock(missing) == if missing == [] then [] else
              ["# nodeflare: system packages",
               "RUN " + "apt-get update && apt-get" + " install -y --no-install-recommends " + Join(missing, " ")
               + " && rm -rf /var/lib/apt/lists/*"]
    ensures Post(dockerfile, p) != [] ==>
      Post(dockerfile, p)[0] ==
        if exists i :: 0 <= i < |LinesOf(dockerfile)| && IsCommand(LinesOf(dockerfile)[i])
        then "# nodeflare: provision system dependency" + " (matches installed library version)"
        else "# nodeflare: provision system dependency"
  {
    LastBeforeLast(LinesOf(dockerfile), |LinesOf(dockerfile)|, IsCommand);
  }

  predicate PlainPackages(packages: seq<string>) {
    forall i :: 0 <= i < |packages| ==> packages[i] != "" && Command.Plain(packages[i])
  }

  lemma {:induction false} QuotesNothing(packages: seq<string>)
    requires PlainPackages(packages)
    ensures Command.QuoteAll(packages) == packages
  {
    if packages != [] {
      assert Command.Plain(packages[0]) && packages[0] != "";
      assert !Command.HasSpace(packages[0]);
      assert forall i :: 0 <= i < |packages| - 1 ==> packages[1..][i] == packages[i + 1];
      QuotesNothing(packages[1..]);
    }
  }

  lemma PlainIsSafe(x: string)
    requires Command.Plain(x)
    ensures Command.Safe(x)
  {
  }

  /** The shell reads exactly the packages off the install line, one word each. */
  lemma AptLineLists(packages: seq<string>)
    requires packages != [] && PlainPackages(packages)
    ensures exists list :: AptLine(packages) == AptHead() + list + APT_TAIL && Command.Tokens(list) == packages
  {
    QuotesNothing(packages);
    forall i | 0 <= i < |packages| ensures Command.Safe(packages[i]) { PlainIsSafe(packages[i]); }
    Command.TokenizeIff([], packages);
    assert [] + packages == packages;
    assert Command.Tokens(Join(packages, " ")) == packages;
  }

  // ----- Where the text reads back differently -----

  const EXAMPLE := NOTHING.(aptPackages := ["x"])

  lemma ExampleLines()
    ensures LinesOf("FROM a\r") == ["FROM a\r"] && EndsInCr("FROM a\r")
  {
    var d := "FROM a\r";
    assert d == ['F', 'R', 'O', 'M', ' ', 'a', '\r'];
    LinesOfJoin([], d);
    assert [] + [d] == [d];
  }

  lemma ExampleFrom()
    ensures IsFrom("FROM a\r")
  {
    var d := "FROM a\r";
    assert d == ['F', 'R', 'O', 'M', ' ', 'a', '\r'];
    assert TrimStart(d) == d;
    Renaming.ShapeIsFrom(d);
  }

  lemma ExampleMissing()
    ensures !Contains("FROM a\r", "x") && WellFormed(EXAMPLE) && Missing("FROM a\r", EXAMPLE.aptPackages) != []
  {
    var d := "FROM a\r";
    assert d == ['F', 'R', 'O', 'M', ' ', 'a', '\r'];
    forall i | 0 <= i <= |d| ensures !("x" <= d[i..]) { assert i < |d| ==> d[i..][0] == d[i]; }
    assert "x" in Missing(d, ["x"]);
  }

  /** A carriage return at the end of the only line: the text read back is not the injected lines. */
  lemma CarriageReturnLost()
    ensures Applied("FROM a\r", EXAMPLE).Some?
    ensures LinesOf(Applied("FROM a\r", EXAMPLE).value) != Output("FROM a\r", EXAMPLE)
  {
    ExampleLines();
    ExampleFrom();
    ExampleMissing();
    LastWhereLast(LinesOf("FROM a\r"), IsFrom);
    AppliedReadsBack("FROM a\r", EXAMPLE);
  }
}
