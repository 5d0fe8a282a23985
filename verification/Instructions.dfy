/** Lines joined into instructions by continuation marks, for any test of a continued line (`c`) and of
    an instruction to leave out (`d`, asked of its first line). */
module Instructions {
  type Test = string -> bool

  // ----- The line machine -----

  datatype Cont = No | Keep | Skip

  /** The state after a line: a decision holds while lines continue. */
  function Next(line: string, cont: Cont, c: Test, d: Test): Cont {
    if !c(line) then No else if cont != No then cont else if d(line) then Skip else Keep
  }

  /** What a line contributes; one that starts an instruction can be replaced. */
  function Emit(line: string, cont: Cont, replaced: bool, repl: string, d: Test): seq<string> {
    if cont == Skip || (cont == No && d(line)) then []
    else if cont == No && replaced then [repl]
    else [line]
  }

  /** What the lines from `i` on contribute when line `k` is to be replaced. */
  function Run(lines: seq<string>, i: nat, cont: Cont, k: nat, repl: string, c: Test, d: Test): seq<string>
    requires i <= |lines|
    decreases |lines| - i
  {
    if i == |lines| then []
    else Emit(lines[i], cont, i == k, repl, d) + Run(lines, i + 1, Next(lines[i], cont, c, d), k, repl, c, d)
  }

  // ----- Whole instructions -----

  /** Where the instruction that line `i` belongs to ends: behind its first uncontinued line, or at `j`. */
  function End(lines: seq<string>, i: nat, j: nat, c: Test): (e: nat)
    requires i <= j <= |lines|
    ensures i <= e <= j && (i < j ==> i < e)
    decreases j - i
  {
    if i == j then j else if !c(lines[i]) then i + 1 else End(lines, i + 1, j, c)
  }

  /** The instructions among the lines from `i` to `j` that are not left out, whole and in order. */
  function Kept(lines: seq<string>, i: nat, j: nat, c: Test, d: Test): seq<string>
    requires i <= j <= |lines|
    decreases j - i
  {
    if i == j then []
    else
      var e := End(lines, i, j, c);
      (if d(lines[i]) then [] else lines[i..e]) + Kept(lines, e, j, c, d)
  }

  /** Line `i` starts an instruction: it is the first line or follows an uncontinued one. */
  predicate Starts(lines: seq<string>, i: nat, c: Test)
    requires i <= |lines|
  {
    i == 0 || !c(lines[i - 1])
  }

  /** The machine is between instructions exactly where one starts. */
  lemma NextStarts(lines: seq<string>, i: nat, cont: Cont, c: Test, d: Test)
    requires i < |lines|
    ensures Next(lines[i], cont, c, d) == No <==> Starts(lines, i + 1, c)
  {
  }

  lemma Regroup(x: seq<string>, y: seq<string>, z: seq<string>)
    ensures x + (y + z) == (x + y) + z
  {
  }

  lemma Slice(lines: seq<string>, i: nat, e: nat)
    requires i < e <= |lines|
    ensures lines[i..e] == [lines[i]] + lines[i + 1..e]
  {
  }

  // ----- The machine works on whole instructions -----

  lemma RunStep(lines: seq<string>, i: nat, cont: Cont, k: nat, repl: string, c: Test, d: Test)
    requires i < |lines|
    ensures Run(lines, i, cont, k, repl, c, d)
         == Emit(lines[i], cont, i == k, repl, d) + Run(lines, i + 1, Next(lines[i], cont, c, d), k, repl, c, d)
  {
  }

  /** A decision to keep holds to the end of the instruction. */
  lemma {:induction false} RunKeep(lines: seq<string>, i: nat, k: nat, repl: string, c: Test, d: Test)
    requires i <= |lines|
    ensures var e := End(lines, i, |lines|, c);
            Run(lines, i, Keep, k, repl, c, d) == lines[i..e] + Run(lines, e, No, k, repl, c, d)
    decreases |lines| - i
  {
    if i < |lines| {
      var e := End(lines, i, |lines|, c);
      RunStep(lines, i, Keep, k, repl, c, d);
      Slice(lines, i, e);
      if c(lines[i]) {
        RunKeep(lines, i + 1, k, repl, c, d);
        Regroup([lines[i]], lines[i + 1..e], Run(lines, e, No, k, repl, c, d));
      } else {
        assert lines[i + 1..e] == [];
      }
    }
  }

  /** A decision to leave out does, too. */
  lemma {:induction false} RunSkip(lines: seq<string>, i: nat, k: nat, repl: string, c: Test, d: Test)
    requires i <= |lines|
    ensures Run(lines, i, Skip, k, repl, c, d) == Run(lines, End(lines, i, |lines|, c), No, k, repl, c, d)
    decreases |lines| - i
  {
    if i < |lines| && c(lines[i]) { RunSkip(lines, i + 1, k, repl, c, d); }
  }

  lemma RunDropped(lines: seq<string>, i: nat, k: nat, repl: string, c: Test, d: Test)
    requires i < |lines| && d(lines[i])
    ensures Run(lines, i, No, k, repl, c, d) == Run(lines, End(lines, i, |lines|, c), No, k, repl, c, d)
  {
    RunStep(lines, i, No, k, repl, c, d);
    if c(lines[i]) { RunSkip(lines, i + 1, k, repl, c, d); }
  }

  lemma RunWhole(lines: seq<string>, i: nat, k: nat, repl: string, c: Test, d: Test)
    requires i < |lines| && !d(lines[i])
    ensures var e := End(lines, i, |lines|, c);
            Run(lines, i, No, k, repl, c, d)
            == [if i == k then repl else lines[i]] + lines[i + 1..e] + Run(lines, e, No, k, repl, c, d)
  {
    RunStep(lines, i, No, k, repl, c, d);
    var e := End(lines, i, |lines|, c);
    var first := [if i == k then repl else lines[i]];
    if c(lines[i]) {
      RunKeep(lines, i + 1, k, repl, c, d);
      Regroup(first, lines[i + 1..e], Run(lines, e, No, k, repl, c, d));
    } else {
      assert lines[i + 1..e] == [];
      assert first + [] == first;
    }
  }

  /** The machine handles an instruction whole, replacing at most its first line. */
  lemma RunGroup(lines: seq<string>, i: nat, k: nat, repl: string, c: Test, d: Test)
    requires i < |lines|
    ensures var e := End(lines, i, |lines|, c);
            var first := if i == k then repl else lines[i];
            Run(lines, i, No, k, repl, c, d)
            == (if d(lines[i]) then [] else [first] + lines[i + 1..e]) + Run(lines, e, No, k, repl, c, d)
  {
    if d(lines[i]) {
      RunDropped(lines, i, k, repl, c, d);
    } else {
      RunWhole(lines, i, k, repl, c, d);
    }
  }

  lemma KeptStep(lines: seq<string>, i: nat, j: nat, c: Test, d: Test)
    requires i < j <= |lines|
    ensures var e := End(lines, i, j, c);
            Kept(lines, i, j, c, d) == (if d(lines[i]) then [] else [lines[i]] + lines[i + 1..e]) + Kept(lines, e, j, c, d)
  {
    Slice(lines, i, End(lines, i, j, c));
  }

  /** Behind the line to replace the machine keeps whole instructions. */
  lemma {:induction false} RunKept(lines: seq<string>, i: nat, k: nat, repl: string, c: Test, d: Test)
    requires k < i <= |lines|
    ensures Run(lines, i, No, k, repl, c, d) == Kept(lines, i, |lines|, c, d)
    decreases |lines| - i
  {
    if i < |lines| {
      RunGroup(lines, i, k, repl, c, d);
      KeptStep(lines, i, |lines|, c, d);
      RunKept(lines, End(lines, i, |lines|, c), k, repl, c, d);
    }
  }

  /** An instruction ends before the next one starts, so cutting there does not change it. */
  lemma {:induction false} EndBelow(lines: seq<string>, i: nat, k: nat, j: nat, c: Test)
    requires i < k <= j <= |lines| && Starts(lines, k, c)
    ensures End(lines, i, j, c) == End(lines, i, k, c)
    decreases k - i
  {
    if c(lines[i]) { EndBelow(lines, i + 1, k, j, c); }
  }

  /** Keeping works on both sides of an instruction's start. */
  lemma {:induction false} KeptSplit(lines: seq<string>, i: nat, k: nat, j: nat, c: Test, d: Test)
    requires i <= k <= j <= |lines| && Starts(lines, k, c)
    ensures Kept(lines, i, j, c, d) == Kept(lines, i, k, c, d) + Kept(lines, k, j, c, d)
    decreases k - i
  {
    if i < k {
      EndBelow(lines, i, k, j, c);
      var e := End(lines, i, k, c);
      KeptSplit(lines, e, k, j, c, d);
      Regroup(if d(lines[i]) then [] else lines[i..e], Kept(lines, e, k, c, d), Kept(lines, k, j, c, d));
    }
  }

  /** Up to the line to replace the machine keeps whole instructions as well. */
  lemma {:induction false} RunUpTo(lines: seq<string>, i: nat, k: nat, repl: string, c: Test, d: Test)
    requires i <= k < |lines| && Starts(lines, k, c)
    ensures Run(lines, i, No, k, repl, c, d) == Kept(lines, i, k, c, d) + Run(lines, k, No, k, repl, c, d)
    decreases k - i
  {
    if i < k {
      EndBelow(lines, i, k, |lines|, c);
      var e := End(lines, i, k, c);
      RunGroup(lines, i, k, repl, c, d);
      KeptStep(lines, i, k, c, d);
      RunUpTo(lines, e, k, repl, c, d);
      Regroup(if d(lines[i]) then [] else [lines[i]] + lines[i + 1..e], Kept(lines, e, k, c, d),
              Run(lines, k, No, k, repl, c, d));
    }
  }

  /** The kept instructions around line `k`, with that line replaced and the rest of its instruction kept. */
  function Replaced(lines: seq<string>, k: nat, repl: string, c: Test, d: Test): seq<string>
    requires k < |lines|
  {
    var e := End(lines, k, |lines|, c);
    Kept(lines, 0, k, c, d) + ([repl] + lines[k + 1..e] + Kept(lines, e, |lines|, c, d))
  }

  /** The whole run: the kept instructions, with only line `k` replaced. */
  lemma RunForm(lines: seq<string>, k: nat, repl: string, c: Test, d: Test)
    requires k < |lines| && Starts(lines, k, c) && !d(lines[k])
    ensures Run(lines, 0, No, k, repl, c, d) == Replaced(lines, k, repl, c, d)
  {
    RunUpTo(lines, 0, k, repl, c, d);
    RunGroup(lines, k, k, repl, c, d);
    RunKept(lines, End(lines, k, |lines|, c), k, repl, c, d);
  }

  /** The case of an uncontinued line `k`. */
  lemma SingleLineInstruction(lines: seq<string>, k: nat, repl: string, c: Test, d: Test)
    requires k < |lines| && Starts(lines, k, c) && !d(lines[k]) && !c(lines[k])
    ensures Replaced(lines, k, repl, c, d) == Kept(lines, 0, k, c, d) + ([repl] + Kept(lines, k + 1, |lines|, c, d))
    ensures Kept(lines, 0, |lines|, c, d) == Kept(lines, 0, k, c, d) + ([lines[k]] + Kept(lines, k + 1, |lines|, c, d))
  {
    KeptSplit(lines, 0, k, |lines|, c, d);
    assert lines[k + 1..k + 1] == [];
    assert [repl] + [] == [repl];
    assert lines[k..k + 1] == [lines[k]];
  }

  // ----- Keeping twice -----

  /** Every instruction from line `i` to `j` is one to keep. */
  ghost predicate TidyIn(lines: seq<string>, i: nat, j: nat, c: Test, d: Test)
    requires i <= j <= |lines|
  {
    forall p :: i <= p < j && (p == i || Starts(lines, p, c)) ==> !d(lines[p])
  }

  ghost predicate Tidy(lines: seq<string>, c: Test, d: Test) {
    TidyIn(lines, 0, |lines|, c, d)
  }

  lemma {:induction false} EndContinues(lines: seq<string>, i: nat, j: nat, c: Test)
    requires i < j <= |lines|
    ensures var e := End(lines, i, j, c); (forall p :: i <= p < e - 1 ==> c(lines[p])) && (e < j ==> !c(lines[e - 1]))
    decreases j - i
  {
    if c(lines[i]) && i + 1 < j { EndContinues(lines, i + 1, j, c); }
  }

  lemma TidyConcat(g: seq<string>, rest: seq<string>, c: Test, d: Test)
    requires g != [] && !d(g[0]) && (forall i :: 0 <= i < |g| - 1 ==> c(g[i])) && Tidy(rest, c, d)
    ensures Tidy(g + rest, c, d)
  {
    var all := g + rest;
    assert forall j :: 0 <= j < |g| - 1 ==> all[j] == g[j];
    forall i | 0 <= i < |all| && Starts(all, i, c) ensures !d(all[i]) {
      if i >= |g| {
        assert i > |g| ==> all[i - 1] == rest[i - |g| - 1];
        assert Starts(rest, i - |g|, c);
      }
    }
  }

  /** The kept lines hold no instruction to leave out. */
  lemma {:induction false} KeptTidy(lines: seq<string>, i: nat, j: nat, c: Test, d: Test)
    requires i <= j <= |lines|
    ensures Tidy(Kept(lines, i, j, c, d), c, d)
    decreases j - i
  {
    if i < j {
      var e := End(lines, i, j, c);
      var rest := Kept(lines, e, j, c, d);
      KeptTidy(lines, e, j, c, d);
      EndContinues(lines, i, j, c);
      if d(lines[i]) {
        assert [] + rest == rest;
      } else {
        TidyConcat(lines[i..e], rest, c, d);
      }
    }
  }

  lemma TidyLater(lines: seq<string>, i: nat, j: nat, c: Test, d: Test)
    requires i < j <= |lines| && TidyIn(lines, i, j, c, d)
    ensures TidyIn(lines, End(lines, i, j, c), j, c, d)
  {
    var e := End(lines, i, j, c);
    EndContinues(lines, i, j, c);
    assert e < j ==> Starts(lines, e, c);
  }

  /** Keeping changes nothing when there is nothing to leave out. */
  lemma {:induction false} TidyKept(lines: seq<string>, i: nat, j: nat, c: Test, d: Test)
    requires i <= j <= |lines| && TidyIn(lines, i, j, c, d)
    ensures Kept(lines, i, j, c, d) == lines[i..j]
    decreases j - i
  {
    if i < j {
      var e := End(lines, i, j, c);
      TidyLater(lines, i, j, c, d);
      TidyKept(lines, e, j, c, d);
      assert lines[i..e] + lines[e..j] == lines[i..j];
    }
  }

  ghost predicate Closed(lines: seq<string>, c: Test) {
    lines == [] || !c(lines[|lines| - 1])
  }

  /** No instruction is left open by keeping whole ones. */
  lemma {:induction false} KeptClosed(lines: seq<string>, i: nat, j: nat, c: Test, d: Test)
    requires i <= j <= |lines| && Starts(lines, j, c)
    ensures Closed(Kept(lines, i, j, c, d), c)
    decreases j - i
  {
    if i < j {
      var e := End(lines, i, j, c);
      EndContinues(lines, i, j, c);
      var rest := Kept(lines, e, j, c, d);
      KeptClosed(lines, e, j, c, d);
      assert lines[i..e][e - i - 1] == lines[e - 1];
    }
  }

  lemma {:induction false} KeptMember(lines: seq<string>, i: nat, j: nat, c: Test, d: Test, x: string)
    requires i <= j <= |lines| && x in Kept(lines, i, j, c, d)
    ensures x in lines[i..j]
    decreases j - i
  {
    if i < j {
      var e := End(lines, i, j, c);
      assert lines[i..j] == lines[i..e] + lines[e..j];
      if x in Kept(lines, e, j, c, d) { KeptMember(lines, e, j, c, d, x); }
    }
  }

  lemma TidyAlike(lines: seq<string>, alike: seq<string>, c: Test, d: Test)
    requires Tidy(lines, c, d) && |alike| <= |lines|
    requires forall i :: 0 <= i < |alike| ==> c(alike[i]) == c(lines[i]) && d(alike[i]) == d(lines[i])
    ensures Tidy(alike, c, d)
  {
    forall i | 0 <= i < |alike| && Starts(alike, i, c) ensures !d(alike[i]) {
      assert Starts(lines, i, c);
    }
  }

  /** A tidy part of the lines is kept as it is. */
  lemma TidyPart(part: seq<string>, lines: seq<string>, i: nat, c: Test, d: Test)
    requires Tidy(part, c, d) && i + |part| <= |lines| && lines[i..i + |part|] == part
    ensures Kept(lines, i, i + |part|, c, d) == part
  {
    var j := i + |part|;
    forall p | i <= p < j && (p == i || Starts(lines, p, c)) ensures !d(lines[p]) {
      assert lines[p] == part[p - i];
      assert p > i ==> lines[p - 1] == part[p - i - 1];
      assert Starts(part, p - i, c);
    }
    TidyKept(lines, i, j, c, d);
  }

  lemma TidyAround(lines: seq<string>, k: nat, front: seq<string>, back: seq<string>, c: Test, d: Test)
    requires |front| == k && k + 1 + |back| == |lines| && lines[0..k] == front && lines[k + 1..|lines|] == back
    requires Tidy(front, c, d) && Tidy(back, c, d)
    ensures Kept(lines, 0, k, c, d) == front && Kept(lines, k + 1, |lines|, c, d) == back
  {
    TidyPart(front, lines, 0, c, d);
    TidyPart(back, lines, k + 1, c, d);
  }

  lemma Cut(front: seq<string>, line: string, back: seq<string>)
    ensures var lines := front + ([line] + back); var k := |front|;
            lines[0..k] == front && lines[k] == line && lines[k + 1..|lines|] == back
  {
  }

  /** Tidy parts around an uncontinued line: replacing changes only that line. */
  lemma TidyReplaced(lines: seq<string>, front: seq<string>, line: string, back: seq<string>, repl: string, c: Test, d: Test)
    requires lines == front + ([line] + back)
    requires Tidy(front, c, d) && Closed(front, c) && Tidy(back, c, d) && !c(line) && !d(line)
    ensures Starts(lines, |front|, c) && Replaced(lines, |front|, repl, c, d) == front + ([repl] + back)
    ensures Kept(lines, 0, |front|, c, d) == front && Kept(lines, |front| + 1, |lines|, c, d) == back
  {
    var k := |front|;
    Cut(front, line, back);
    assert Starts(lines, k, c) by { assert k > 0 ==> lines[k - 1] == front[k - 1]; }
    TidyAround(lines, k, front, back, c, d);
    SingleLineInstruction(lines, k, repl, c, d);
  }

  // ----- Line by line -----

  /** The first line of the instruction that line `m` belongs to. */
  function Head(lines: seq<string>, m: nat, c: Test): (h: nat)
    requires m < |lines|
    ensures h <= m && Starts(lines, h, c)
  {
    if Starts(lines, m, c) then m else Head(lines, m - 1, c)
  }

  function Range(i: nat, e: nat): (r: seq<nat>)
    requires i <= e
    ensures |r| == e - i && forall x :: 0 <= x < |r| ==> r[x] == i + x
  {
    seq(e - i, x requires 0 <= x < e - i => i + x)
  }

  /** The positions of the kept lines. */
  function Positions(lines: seq<string>, i: nat, j: nat, c: Test, d: Test): seq<nat>
    requires i <= j <= |lines|
    decreases j - i
  {
    if i == j then []
    else
      var e := End(lines, i, j, c);
      (if d(lines[i]) then [] else Range(i, e)) + Positions(lines, e, j, c, d)
  }

  ghost predicate Increasing(p: seq<nat>) {
    forall x, y :: 0 <= x < y < |p| ==> p[x] < p[y]
  }

  ghost predicate Within(p: seq<nat>, i: nat, j: nat) {
    forall x :: 0 <= x < |p| ==> i <= p[x] < j
  }

  /** `out` are the lines at the positions `p`. */
  ghost predicate LinesAt(out: seq<string>, lines: seq<string>, p: seq<nat>) {
    |out| == |p| && forall x :: 0 <= x < |p| ==> p[x] < |lines| && out[x] == lines[p[x]]
  }

  lemma RangeConcat(i: nat, e: nat, j: nat, rest: seq<nat>)
    requires i <= e <= j && Increasing(rest) && Within(rest, e, j)
    ensures Increasing(Range(i, e) + rest) && Within(Range(i, e) + rest, i, j)
  {
  }

  lemma LinesConcat(a: seq<string>, b: seq<string>, lines: seq<string>, p: seq<nat>, q: seq<nat>)
    requires LinesAt(a, lines, p) && LinesAt(b, lines, q)
    ensures LinesAt(a + b, lines, p + q)
  {
  }

  /** The kept lines are the lines at these positions, in order. */
  lemma {:induction false} PositionsFacts(lines: seq<string>, i: nat, j: nat, c: Test, d: Test)
    requires i <= j <= |lines|
    ensures var p := Positions(lines, i, j, c, d); Increasing(p) && Within(p, i, j) && LinesAt(Kept(lines, i, j, c, d), lines, p)
    decreases j - i
  {
    if i < j {
      var e := End(lines, i, j, c);
      PositionsFacts(lines, e, j, c, d);
      var rest, kept := Positions(lines, e, j, c, d), Kept(lines, e, j, c, d);
      if d(lines[i]) {
        assert [] + rest == rest && [] + kept == kept;
      } else {
        RangeConcat(i, e, j, rest);
        LinesConcat(lines[i..e], kept, lines, Range(i, e), rest);
      }
    }
  }

  lemma {:induction false} HeadInGroup(lines: seq<string>, i: nat, m: nat, c: Test)
    requires i <= m < |lines| && Starts(lines, i, c) && forall p :: i <= p < m ==> c(lines[p])
    ensures Head(lines, m, c) == i
  {
    if i < m { HeadInGroup(lines, i, m - 1, c); }
  }

  lemma RangeMember(i: nat, e: nat, m: nat)
    requires i <= e
    ensures m in Range(i, e) <==> i <= m < e
  {
    if i <= m < e { assert Range(i, e)[m - i] == m; }
  }

  /** A line is kept exactly when the first line of its instruction is not to be left out. */
  lemma {:induction false} PositionsMember(lines: seq<string>, i: nat, j: nat, c: Test, d: Test, m: nat)
    requires i <= m < j <= |lines| && Starts(lines, i, c)
    ensures m in Positions(lines, i, j, c, d) <==> !d(lines[Head(lines, m, c)])
    decreases j - i
  {
    var e := End(lines, i, j, c);
    var rest := Positions(lines, e, j, c, d);
    EndContinues(lines, i, j, c);
    RangeMember(i, e, m);
    PositionsFacts(lines, e, j, c, d);
    if m < e {
      HeadInGroup(lines, i, m, c);
      assert m !in rest;
    } else {
      PositionsMember(lines, e, j, c, d, m);
    }
  }

  lemma {:induction false} PositionsSplit(lines: seq<string>, i: nat, k: nat, j: nat, c: Test, d: Test)
    requires i <= k <= j <= |lines| && Starts(lines, k, c)
    ensures Positions(lines, i, j, c, d) == Positions(lines, i, k, c, d) + Positions(lines, k, j, c, d)
    decreases k - i
  {
    if i < k {
      EndBelow(lines, i, k, j, c);
      var e := End(lines, i, k, c);
      PositionsSplit(lines, e, k, j, c, d);
      var g, x, y := if d(lines[i]) then [] else Range(i, e), Positions(lines, e, k, c, d), Positions(lines, k, j, c, d);
      assert g + (x + y) == (g + x) + y;
    }
  }

  /** The lines at the positions `p`, but `repl` for line `k`. */
  ghost predicate LinesBut(out: seq<string>, lines: seq<string>, p: seq<nat>, k: nat, repl: string) {
    |out| == |p| && forall x :: 0 <= x < |p| ==> p[x] < |lines| && out[x] == if p[x] == k then repl else lines[p[x]]
  }

  lemma LinesButConcat(a: seq<string>, b: seq<string>, lines: seq<string>, p: seq<nat>, q: seq<nat>, k: nat, repl: string)
    requires LinesBut(a, lines, p, k, repl) && LinesBut(b, lines, q, k, repl)
    ensures LinesBut(a + b, lines, p + q, k, repl)
  {
  }

  lemma LinesButAway(out: seq<string>, lines: seq<string>, p: seq<nat>, i: nat, j: nat, k: nat, repl: string)
    requires LinesAt(out, lines, p) && Within(p, i, j) && !(i <= k < j)
    ensures LinesBut(out, lines, p, k, repl)
  {
  }

  lemma LinesButHere(lines: seq<string>, k: nat, e: nat, repl: string)
    requires k < e <= |lines|
    ensures LinesBut([repl] + lines[k + 1..e], lines, Range(k, e), k, repl)
  {
  }

  /** `p` lists, in order, the lines whose instruction is not left out. */
  ghost predicate KeptPositions(lines: seq<string>, p: seq<nat>, c: Test, d: Test) {
    && Increasing(p) && Within(p, 0, |lines|)
    && forall m :: 0 <= m < |lines| ==> (m in p <==> !d(lines[Head(lines, m, c)]))
  }

  lemma PositionsKept(lines: seq<string>, c: Test, d: Test)
    ensures KeptPositions(lines, Positions(lines, 0, |lines|, c, d), c, d)
  {
    var n := |lines|;
    PositionsFacts(lines, 0, n, c, d);
    forall m | 0 <= m < n ensures m in Positions(lines, 0, n, c, d) <==> !d(lines[Head(lines, m, c)]) {
      PositionsMember(lines, 0, n, c, d, m);
    }
  }

  /** The whole run, line by line: a line is there exactly when the first line of its instruction is not to
      be left out, in order, and only line `k` is replaced. */
  lemma ReplacedLines(lines: seq<string>, k: nat, repl: string, c: Test, d: Test) returns (p: seq<nat>)
    requires k < |lines| && Starts(lines, k, c) && !d(lines[k])
    ensures KeptPositions(lines, p, c, d) && LinesBut(Replaced(lines, k, repl, c, d), lines, p, k, repl)
  {
    var n, e := |lines|, End(lines, k, |lines|, c);
    p := Positions(lines, 0, n, c, d);
    PositionsKept(lines, c, d);
    PositionsFacts(lines, 0, k, c, d);
    PositionsFacts(lines, e, n, c, d);
    PositionsSplit(lines, 0, k, n, c, d);
    LinesButAway(Kept(lines, 0, k, c, d), lines, Positions(lines, 0, k, c, d), 0, k, k, repl);
    LinesButAway(Kept(lines, e, n, c, d), lines, Positions(lines, e, n, c, d), e, n, k, repl);
    LinesButHere(lines, k, e, repl);
    var mid := [repl] + lines[k + 1..e];
    LinesButConcat(mid, Kept(lines, e, n, c, d), lines, Range(k, e), Positions(lines, e, n, c, d), k, repl);
    LinesButConcat(Kept(lines, 0, k, c, d), mid + Kept(lines, e, n, c, d), lines,
                   Positions(lines, 0, k, c, d), Positions(lines, k, n, c, d), k, repl);
  }
}
