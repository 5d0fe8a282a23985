/** Converting lines into a named stage, for any tests of a line and any renaming of the last `FROM` line. */
module Stages {
  import opened Json
  import opened Text
  import opened Lines
  import opened Instructions

  /** Is a line continued, does it start an instruction to leave out, is it a `FROM` line? */
  datatype Tests = Tests(continues: Test, dropped: Test, from: Test)

  type Rename = string -> string

  /** The index the first loop finds: the last `FROM` line, or 0. */
  function LastFrom(lines: seq<string>, t: Tests): nat {
    if LastWhere(lines, t.from).Some? then LastWhere(lines, t.from).value else 0
  }

  /** The last `FROM` line is there and starts an instruction. */
  predicate Renames(lines: seq<string>, t: Tests) {
    var k := LastFrom(lines, t);
    k < |lines| && t.from(lines[k]) && Starts(lines, k, t.continues)
  }

  /** The lines of the stage: the kept instructions with the last `FROM` line renamed. */
  function Stage(lines: seq<string>, t: Tests, rename: Rename): seq<string>
    requires Renames(lines, t)
  {
    var k := LastFrom(lines, t);
    Replaced(lines, k, rename(lines[k]), t.continues, t.dropped)
  }

  function Converted(dockerfile: string, t: Tests, rename: Rename): string {
    var lines := LinesOf(dockerfile);
    if Renames(lines, t) then Join(Stage(lines, t, rename), "\n") else dockerfile
  }

  // ----- Whole instructions -----

  /** The last `FROM` line is an uncontinued instruction of its own. */
  predicate OwnInstruction(lines: seq<string>, t: Tests) {
    Renames(lines, t) && !t.continues(lines[LastFrom(lines, t)])
  }

  /** The kept instructions before and behind the last `FROM` line. */
  function Front(lines: seq<string>, t: Tests): seq<string>
    requires Renames(lines, t)
  {
    Kept(lines, 0, LastFrom(lines, t), t.continues, t.dropped)
  }

  function Back(lines: seq<string>, t: Tests): seq<string>
    requires Renames(lines, t)
  {
    Kept(lines, LastFrom(lines, t) + 1, |lines|, t.continues, t.dropped)
  }

  lemma StageParts(lines: seq<string>, t: Tests, rename: Rename)
    requires OwnInstruction(lines, t) && !t.dropped(lines[LastFrom(lines, t)])
    ensures Stage(lines, t, rename) == Front(lines, t) + ([rename(lines[LastFrom(lines, t)])] + Back(lines, t))
    ensures Kept(lines, 0, |lines|, t.continues, t.dropped)
         == Front(lines, t) + ([lines[LastFrom(lines, t)]] + Back(lines, t))
  {
    var k := LastFrom(lines, t);
    SingleLineInstruction(lines, k, rename(lines[k]), t.continues, t.dropped);
  }

  // ----- Reading the stage back -----

  /** Trailing lines after a trip through text: carriage returns before a line feed and an empty last line are lost. */
  function Reread(lines: seq<string>): (r: seq<string>)
    ensures |r| == if lines != [] && lines[|lines| - 1] == "" then |lines| - 1 else |lines|
    ensures forall i :: 0 <= i < |r| ==> r[i] == if i < |lines| - 1 then StripCr(lines[i]) else lines[i]
  {
    var n := if lines != [] && lines[|lines| - 1] == "" then |lines| - 1 else |lines|;
    seq(n, i requires 0 <= i < n => if i < |lines| - 1 then StripCr(lines[i]) else lines[i])
  }

  lemma RereadIs(front: seq<string>, last: string)
    ensures Reread(front + [last]) == StripAll(front) + (if last == "" then [] else [last])
  {
  }

  /** Lines that survive it. */
  predicate Survives(lines: seq<string>) {
    lines == [] || (NoCr(lines[..|lines| - 1]) && lines[|lines| - 1] != "")
  }

  lemma RereadSame(lines: seq<string>)
    ensures Reread(lines) == lines <==> Survives(lines)
  {
    if lines != [] {
      var n := |lines| - 1;
      var front, last := lines[..n], lines[n];
      assert lines == front + [last];
      RereadIs(front, last);
      StripNothing(front);
      if last != "" { assert Reread(lines)[..n] == StripAll(front); }
    }
  }

  lemma StripConcat(a: seq<string>, b: seq<string>)
    ensures StripAll(a + b) == StripAll(a) + StripAll(b)
  {
  }

  lemma StripParts(front: seq<string>, line: string, back: seq<string>)
    requires !EndsInCr(line)
    ensures StripAll(front + ([line] + back)) == StripAll(front) + ([line] + StripAll(back))
  {
    StripConcat(front, [line] + back);
    StripConcat([line], back);
    assert StripAll([line]) == [line];
  }

  lemma Nest(a: seq<string>, b: seq<string>, c: seq<string>, d: seq<string>)
    ensures (a + (b + c)) + d == a + (b + (c + d))
  {
  }

  lemma LinesOfStage(front: seq<string>, line: string, back: seq<string>)
    requires AllNoLf(front) && NoLf(line) && AllNoLf(back) && line != "" && !EndsInCr(line)
    ensures LinesOf(Join(front + ([line] + back), "\n")) == StripAll(front) + ([line] + Reread(back))
  {
    if back == [] {
      assert [line] + back == [line];
      LinesOfJoin(front, line);
    } else {
      var n := |back| - 1;
      assert back == back[..n] + [back[n]];
      RereadIs(back[..n], back[n]);
      Nest(front, [line], back[..n], [back[n]]);
      PartsNoLf(front, line, back[..n]);
      LinesOfJoin(front + ([line] + back[..n]), back[n]);
      StripParts(front, line, back[..n]);
      Nest(StripAll(front), [line], StripAll(back[..n]), if back[n] == "" then [] else [back[n]]);
    }
  }

  // ----- Tidy parts -----

  /** A test that does not see a carriage return at the end. */
  ghost predicate IgnoresCr(f: Test) {
    forall s: string :: f(StripCr(s)) == f(s)
  }

  lemma StripAllTidy(lines: seq<string>, c: Test, d: Test)
    requires Tidy(lines, c, d) && IgnoresCr(c) && IgnoresCr(d)
    ensures Tidy(StripAll(lines), c, d)
  {
    TidyAlike(lines, StripAll(lines), c, d);
  }

  lemma RereadTidy(lines: seq<string>, c: Test, d: Test)
    requires Tidy(lines, c, d) && IgnoresCr(c) && IgnoresCr(d)
    ensures Tidy(Reread(lines), c, d)
  {
    var s := Reread(lines);
    assert forall i :: 0 <= i < |s| ==> s[i] == lines[i] || s[i] == StripCr(lines[i]);
    TidyAlike(lines, s, c, d);
  }

  lemma RereadNoMatch(lines: seq<string>, f: Test)
    requires NoMatch(lines, f) && IgnoresCr(f)
    ensures NoMatch(Reread(lines), f)
  {
    var s := Reread(lines);
    assert forall i :: 0 <= i < |s| ==> s[i] == lines[i] || s[i] == StripCr(lines[i]);
  }

  lemma StripAllClosed(lines: seq<string>, c: Test)
    requires Closed(lines, c) && IgnoresCr(c)
    ensures Closed(StripAll(lines), c)
  {
  }

  lemma LastFromOf(lines: seq<string>, front: seq<string>, line: string, back: seq<string>, t: Tests)
    requires lines == front + ([line] + back) && t.from(line) && NoMatch(back, t.from)
    ensures LastFrom(lines, t) == |front|
  {
    NoMatchNone(back, t.from);
    LastWhereConcat(front, [line] + back, t.from);
    LastWhereConcat([line], back, t.from);
    assert LastWhere([line], t.from) == Some(0);
  }

  lemma TidyIsOwn(lines: seq<string>, front: seq<string>, line: string, back: seq<string>, t: Tests)
    requires lines == front + ([line] + back) && Closed(front, t.continues)
    requires t.from(line) && !t.continues(line) && NoMatch(back, t.from)
    ensures OwnInstruction(lines, t) && LastFrom(lines, t) == |front| && lines[|front|] == line
  {
    LastFromOf(lines, front, line, back, t);
    assert lines[|front|] == line;
    assert |front| > 0 ==> lines[|front| - 1] == front[|front| - 1];
  }

  /** Lines made of tidy parts around a `FROM` line convert by that line alone. */
  lemma StageOfTidy(lines: seq<string>, front: seq<string>, line: string, back: seq<string>, t: Tests, rename: Rename)
    requires lines == front + ([line] + back)
    requires Tidy(front, t.continues, t.dropped) && Closed(front, t.continues) && Tidy(back, t.continues, t.dropped)
    requires t.from(line) && !t.continues(line) && !t.dropped(line) && NoMatch(back, t.from)
    ensures OwnInstruction(lines, t) && LastFrom(lines, t) == |front| && Front(lines, t) == front && Back(lines, t) == back
    ensures Stage(lines, t, rename) == front + ([rename(line)] + back)
  {
    TidyIsOwn(lines, front, line, back, t);
    TidyReplaced(lines, front, line, back, rename(line), t.continues, t.dropped);
  }

  // ----- Converting twice -----

  lemma KeptNoLf(lines: seq<string>, i: nat, j: nat, c: Test, d: Test)
    requires i <= j <= |lines| && AllNoLf(lines)
    ensures AllNoLf(Kept(lines, i, j, c, d))
  {
    var s := Kept(lines, i, j, c, d);
    forall p | 0 <= p < |s| ensures NoLf(s[p]) {
      assert s[p] in s;
      KeptMember(lines, i, j, c, d, s[p]);
    }
  }

  lemma KeptNoMatch(lines: seq<string>, i: nat, c: Test, d: Test, f: Test)
    requires i <= |lines| && NoMatch(lines[i..], f)
    ensures NoMatch(Kept(lines, i, |lines|, c, d), f)
  {
    var s := Kept(lines, i, |lines|, c, d);
    assert lines[i..|lines|] == lines[i..];
    forall p | 0 <= p < |s| ensures !f(s[p]) {
      assert s[p] in s;
      KeptMember(lines, i, |lines|, c, d, s[p]);
      var q :| 0 <= q < |lines[i..]| && lines[i..][q] == s[p];
    }
  }

  ghost predicate GoodFront(front: seq<string>, t: Tests) {
    AllNoLf(front) && Tidy(front, t.continues, t.dropped) && Closed(front, t.continues)
  }

  ghost predicate GoodLine(line: string, t: Tests) {
    NoLf(line) && line != "" && !EndsInCr(line) && t.from(line) && !t.continues(line) && !t.dropped(line)
  }

  ghost predicate GoodBack(back: seq<string>, t: Tests) {
    AllNoLf(back) && Tidy(back, t.continues, t.dropped) && NoMatch(back, t.from)
  }

  lemma FrontGood(lines: seq<string>, t: Tests)
    requires Renames(lines, t) && AllNoLf(lines)
    ensures GoodFront(Front(lines, t), t)
  {
    var k := LastFrom(lines, t);
    KeptNoLf(lines, 0, k, t.continues, t.dropped);
    KeptTidy(lines, 0, k, t.continues, t.dropped);
    KeptClosed(lines, 0, k, t.continues, t.dropped);
  }

  lemma BackGood(lines: seq<string>, t: Tests)
    requires Renames(lines, t) && AllNoLf(lines)
    ensures GoodBack(Back(lines, t), t)
  {
    var k := LastFrom(lines, t);
    LastWhereLast(lines, t.from);
    KeptNoLf(lines, k + 1, |lines|, t.continues, t.dropped);
    KeptTidy(lines, k + 1, |lines|, t.continues, t.dropped);
    KeptNoMatch(lines, k + 1, t.continues, t.dropped, t.from);
  }

  ghost predicate AllIgnoreCr(t: Tests) {
    IgnoresCr(t.continues) && IgnoresCr(t.dropped) && IgnoresCr(t.from)
  }

  /** Converting the text of three good parts once more. */
  lemma SecondPass(front: seq<string>, line: string, back: seq<string>, t: Tests, rename: Rename)
    requires GoodFront(front, t) && GoodLine(line, t) && GoodBack(back, t) && AllIgnoreCr(t)
    ensures Converted(Join(front + ([line] + back), "\n"), t, rename)
         == Join(StripAll(front) + ([rename(line)] + Reread(back)), "\n")
  {
    LinesOfStage(front, line, back);
    StripAllTidy(front, t.continues, t.dropped);
    StripAllClosed(front, t.continues);
    RereadTidy(back, t.continues, t.dropped);
    RereadNoMatch(back, t.from);
    StageOfTidy(StripAll(front) + ([line] + Reread(back)), StripAll(front), line, Reread(back), t, rename);
  }

  lemma StripNoLf(lines: seq<string>)
    requires AllNoLf(lines)
    ensures AllNoLf(StripAll(lines)) && AllNoLf(Reread(lines))
  {
    forall i | 0 <= i < |lines| ensures NoLf(StripCr(lines[i])) { assert NoLf(lines[i]); }
  }

  lemma PartsEqual(a: seq<string>, x: string, b: seq<string>, a': seq<string>, x': string, b': seq<string>)
    requires |a| == |a'|
    ensures a + ([x] + b) == a' + ([x'] + b') <==> a == a' && x == x' && b == b'
  {
    var s, t := a + ([x] + b), a' + ([x'] + b');
    assert s[..|a|] == a && s[|a|] == x && s[|a| + 1..] == b;
    assert t[..|a|] == a' && t[|a|] == x' && t[|a| + 1..] == b';
  }

  lemma SameLists(front: seq<string>, line: string, back: seq<string>, line': string)
    ensures StripAll(front) + ([line'] + Reread(back)) == front + ([line] + back)
            <==> NoCr(front) && line' == line && Survives(back)
  {
    PartsEqual(StripAll(front), line', Reread(back), front, line, back);
    StripNothing(front);
    RereadSame(back);
  }

  lemma PartsNoLf(a: seq<string>, x: string, b: seq<string>)
    requires AllNoLf(a) && NoLf(x) && AllNoLf(b)
    ensures AllNoLf(a + ([x] + b))
  {
  }

  lemma SameTexts(front: seq<string>, line: string, back: seq<string>, line': string)
    requires AllNoLf(front) && NoLf(line) && NoLf(line') && AllNoLf(back)
    ensures Join(StripAll(front) + ([line'] + Reread(back)), "\n") == Join(front + ([line] + back), "\n")
            <==> StripAll(front) + ([line'] + Reread(back)) == front + ([line] + back)
  {
    StripNoLf(front);
    StripNoLf(back);
    PartsNoLf(front, line, back);
    PartsNoLf(StripAll(front), line', Reread(back));
    JoinInjective(StripAll(front) + ([line'] + Reread(back)), front + ([line] + back));
  }

  lemma SecondPassSame(front: seq<string>, line: string, back: seq<string>, t: Tests, rename: Rename)
    requires GoodFront(front, t) && GoodLine(line, t) && GoodBack(back, t) && AllIgnoreCr(t) && NoLf(rename(line))
    ensures Converted(Join(front + ([line] + back), "\n"), t, rename) == Join(front + ([line] + back), "\n")
            <==> NoCr(front) && rename(line) == line && Survives(back)
  {
    SecondPass(front, line, back, t, rename);
    SameTexts(front, line, back, rename(line));
    SameLists(front, line, back, rename(line));
  }

  /** Converting again changes nothing if and only if renaming again does not, no kept line but the last
      ends in a carriage return, and the last kept line is not empty. */
  lemma TwiceIff(dockerfile: string, t: Tests, rename: Rename, lines: seq<string>, line: string)
    requires AllIgnoreCr(t) && lines == LinesOf(dockerfile) && OwnInstruction(lines, t) && line == lines[LastFrom(lines, t)]
    requires !t.dropped(line) && GoodLine(rename(line), t) && NoLf(rename(rename(line)))
    ensures Converted(Converted(dockerfile, t, rename), t, rename) == Converted(dockerfile, t, rename)
            <==> NoCr(Front(lines, t)) && rename(rename(line)) == rename(line) && Survives(Back(lines, t))
  {
    LinesNoLf(dockerfile);
    StageParts(lines, t, rename);
    FrontGood(lines, t);
    BackGood(lines, t);
    SecondPassSame(Front(lines, t), rename(line), Back(lines, t), t, rename);
  }
}
