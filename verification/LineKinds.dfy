/** What the tests of a Dockerfile line mean, character by character, and what that makes of a stage. */
module LineKinds {
  import opened Json
  import opened Text
  import opened Lines
  import opened Instructions
  import opened Stages
  import opened NamedStage
  import opened Renaming
  import opened Keywords

  // ----- The three tests -----

  /** The line is one of the instructions CMD, ENTRYPOINT and EXPOSE (or starts like one). */
  predicate LeftOut(line: string) {
    var t := Trim(line);
    Spells(t, "CMD") || Spells(t, "ENTRYPOINT") || Spells(t, "EXPOSE")
  }

  /** The last character that is not white space is a backslash. */
  predicate Continued(line: string) {
    exists n :: 0 <= n < |line| && line[n] == '\\' && AllSpace(line[n + 1..])
  }

  lemma DroppedIff(line: string)
    ensures Dropped(line) <==> LeftOut(line)
  {
    KeywordsPlain();
    UpperSpells(Trim(line), "CMD");
    UpperSpells(Trim(line), "ENTRYPOINT");
    UpperSpells(Trim(line), "EXPOSE");
  }

  lemma IsFromIff(line: string)
    ensures IsFrom(line) <==> FromLetters(Trim(line))
  {
    var t := Trim(line);
    ShapeIffLetters(t);
    if IsFrom(line) { FromHasShape(t); }
    if FromShape(t) { ShapeIsFrom(t); }
  }

  lemma ContinuesIff(line: string)
    ensures Continues(line) <==> Continued(line)
  {
    var s := TrimEnd(line);
    TrimEndSplits(line);
    if Continues(line) {
      var n := |s| - 1;
      assert line[n + 1..] == line[|s|..];
      assert line[n] == s[n];
    }
    if n :| 0 <= n < |line| && line[n] == '\\' && AllSpace(line[n + 1..]) {
      TrimEndAt(line, n);
      assert s[|s| - 1] == line[n];
    }
  }

  // ----- The stage, line by line -----

  /** The first line of the instruction that line `m` belongs to. */
  function FirstLine(lines: seq<string>, m: nat): (h: nat)
    requires m < |lines|
    ensures h <= m
  {
    if m == 0 || !Continued(lines[m - 1]) then m else FirstLine(lines, m - 1)
  }

  lemma {:induction false} HeadIsFirstLine(lines: seq<string>, m: nat)
    requires m < |lines|
    ensures Head(lines, m, Continues) == FirstLine(lines, m) < |lines|
  {
    if m > 0 {
      ContinuesIff(lines[m - 1]);
      if Continued(lines[m - 1]) { HeadIsFirstLine(lines, m - 1); }
    }
  }

  /** The last `FROM` line, and that it starts an instruction. */
  ghost predicate IsStageLine(lines: seq<string>, k: nat) {
    && k < |lines| && FromLetters(Trim(lines[k])) && (forall j :: k < j < |lines| ==> !FromLetters(Trim(lines[j])))
    && (k == 0 || !Continued(lines[k - 1]))
  }

  lemma LastFromIs(lines: seq<string>, k: nat)
    requires k < |lines| && IsFrom(lines[k]) && forall j :: k < j < |lines| ==> !IsFrom(lines[j])
    ensures LastFrom(lines, DOCKERFILE) == k
  {
    LastBeforeIs(lines, |lines|, IsFrom, k);
  }

  lemma StageLineIff(lines: seq<string>, k: nat)
    ensures IsStageLine(lines, k) <==> Renames(lines, DOCKERFILE) && LastFrom(lines, DOCKERFILE) == k
  {
    forall j | 0 <= j < |lines| ensures IsFrom(lines[j]) <==> FromLetters(Trim(lines[j])) { IsFromIff(lines[j]); }
    if 0 < k <= |lines| { ContinuesIff(lines[k - 1]); }
    LastWhereLast(lines, IsFrom);
    if IsStageLine(lines, k) { LastFromIs(lines, k); }
    if Renames(lines, DOCKERFILE) && LastFrom(lines, DOCKERFILE) == k {
      forall j | k < j < |lines| ensures !IsFrom(lines[j]) { assert lines[k + 1..][j - k - 1] == lines[j]; }
    }
  }

  /** The kept lines of a stage: `p` lists, in order, the lines whose instruction is not left out. */
  ghost predicate KeepsExactly(lines: seq<string>, p: seq<nat>) {
    && Increasing(p)
    && (forall x :: 0 <= x < |p| ==> p[x] < |lines|)
    && (forall m :: 0 <= m < |lines| ==> (m in p <==> !LeftOut(lines[FirstLine(lines, m)])))
  }

  lemma KeepsIff(lines: seq<string>, p: seq<nat>)
    requires KeptPositions(lines, p, Continues, Dropped)
    ensures KeepsExactly(lines, p)
  {
    forall m | 0 <= m < |lines| ensures m in p <==> !LeftOut(lines[FirstLine(lines, m)]) {
      HeadIsFirstLine(lines, m);
      DroppedIff(lines[FirstLine(lines, m)]);
    }
  }

  lemma StageKeeps(lines: seq<string>, t: Tests, rename: Rename) returns (p: seq<nat>)
    requires Renames(lines, t) && !t.dropped(lines[LastFrom(lines, t)])
    ensures KeptPositions(lines, p, t.continues, t.dropped)
    ensures var k := LastFrom(lines, t); LinesBut(Stage(lines, t, rename), lines, p, k, rename(lines[k]))
  {
    var k := LastFrom(lines, t);
    p := ReplacedLines(lines, k, rename(lines[k]), t.continues, t.dropped);
  }

  /** The conversion, character by character: the output is, in order, exactly the lines of the instructions
      whose first line does not begin with CMD, ENTRYPOINT or EXPOSE in any letter case, and of these only
      the last `FROM` line is changed. */
  lemma StageLineByLine(dockerfile: string, name: string, k: nat)
    requires IsStageLine(LinesOf(dockerfile), k)
    ensures exists out, p :: ToStage(dockerfile, name) == Join(out, "\n") && KeepsExactly(LinesOf(dockerfile), p)
                             && LinesBut(out, LinesOf(dockerfile), p, k, Base(LinesOf(dockerfile)[k]) + AS + name)
  {
    var lines := LinesOf(dockerfile);
    StageLineIff(lines, k);
    FromNotDropped(lines[k]);
    var p := StageKeeps(lines, DOCKERFILE, NamedAs(name));
    KeepsIff(lines, p);
    NamedForm(lines[k], name);
    var out := Stage(lines, DOCKERFILE, NamedAs(name));
    assert ToStage(dockerfile, name) == Join(out, "\n");
  }

  /** Without such a line the text is returned as it is. */
  lemma NoStageLine(dockerfile: string, name: string)
    requires forall k :: !IsStageLine(LinesOf(dockerfile), k)
    ensures ToStage(dockerfile, name) == dockerfile
  {
    var lines := LinesOf(dockerfile);
    StageLineIff(lines, LastFrom(lines, DOCKERFILE));
  }
}
