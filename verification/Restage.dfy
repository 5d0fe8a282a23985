/** Named stages as whole instructions, and converting a Dockerfile twice. */
module Restage {
  import opened Json
  import opened Text
  import opened Lines
  import opened Instructions
  import opened Stages
  import opened NamedStage
  import opened Renaming

  /** Whole instructions: when the last `FROM` line is an uncontinued instruction of its own, the stage is
      the kept instructions in order, with only that line changed; and those are all the kept instructions
      of the Dockerfile. */
  lemma StageIsInstructions(lines: seq<string>, name: string)
    requires OwnInstruction(lines, DOCKERFILE)
    ensures var k := LastFrom(lines, DOCKERFILE);
            && Stage(lines, DOCKERFILE, NamedAs(name))
               == Front(lines, DOCKERFILE) + ([Named(lines[k], name)] + Back(lines, DOCKERFILE))
            && Kept(lines, 0, |lines|, Continues, Dropped)
               == Front(lines, DOCKERFILE) + ([lines[k]] + Back(lines, DOCKERFILE))
  {
    FromNotDropped(lines[LastFrom(lines, DOCKERFILE)]);
    StageParts(lines, DOCKERFILE, NamedAs(name));
  }

  // ----- Converting twice -----

  lemma TestsIgnoreCr()
    ensures IgnoresCr(Continues) && IgnoresCr(Dropped) && IgnoresCr(IsFrom)
  {
    forall s: string
      ensures Continues(StripCr(s)) == Continues(s) && Dropped(StripCr(s)) == Dropped(s) && IsFrom(StripCr(s)) == IsFrom(s)
    {
      if EndsInCr(s) {
        var t := s[..|s| - 1];
        assert s == t + ['\r'];
        TrimSpace(t, '\r');
      }
    }
  }

  lemma {:induction false} TrimNoLf(s: string)
    requires NoLf(s)
    ensures NoLf(TrimStart(s)) && NoLf(TrimEnd(s)) && NoLf(Trim(s))
  {
    TrimStartNoLf(s);
  }

  lemma {:induction false} TrimStartNoLf(s: string)
    requires NoLf(s)
    ensures NoLf(TrimStart(s))
  {
    if s != "" && IsWhitespace(s[0]) { TrimStartNoLf(s[1..]); }
  }

  lemma NamedNoLf(line: string, name: string)
    requires NoLf(line) && IsStageName(name) && IsFrom(line)
    ensures NoLf(Named(line, name))
  {
    NamedForm(line, name);
    BaseShape(line);
    TrimNoLf(line);
    var base, n := Base(line), Named(line, name);
    assert NoLf(base) by { assert forall i :: 0 <= i < |base| ==> base[i] == Trim(line)[i]; }
    assert NoLf(AS) by { assert AS == [' ', 'A', 'S', ' ']; }
    assert n == base + AS + name;
  }

  lemma NamedGood(line: string, name: string)
    requires IsFrom(line) && NoLf(line) && IsStageName(name)
    ensures GoodLine(Named(line, name), DOCKERFILE)
  {
    NamedShape(line, name);
    NamedNoLf(line, name);
    FromNotDropped(Named(line, name));
  }

  /** Nothing a second conversion would change: the image part does not end in ` AS`, no kept line but
      the last ends in a carriage return, and the last kept line is not empty. */
  predicate Settled(lines: seq<string>)
    requires Renames(lines, DOCKERFILE)
  {
    && !EndsInAs(Base(lines[LastFrom(lines, DOCKERFILE)]))
    && NoCr(Front(lines, DOCKERFILE)) && Survives(Back(lines, DOCKERFILE))
  }

  /** Converting again with the same name changes nothing if and only if the lines are settled. */
  lemma ConvertTwice(dockerfile: string, name: string)
    requires OwnInstruction(LinesOf(dockerfile), DOCKERFILE) && IsStageName(name)
    ensures ToStage(ToStage(dockerfile, name), name) == ToStage(dockerfile, name) <==> Settled(LinesOf(dockerfile))
  {
    var lines := LinesOf(dockerfile);
    var line := lines[LastFrom(lines, DOCKERFILE)];
    LinesNoLf(dockerfile);
    TestsIgnoreCr();
    FromNotDropped(line);
    NamedGood(line, name);
    NamedGood(Named(line, name), name);
    TwiceIff(dockerfile, DOCKERFILE, NamedAs(name), lines, line);
    RenameTwice(line, name);
  }

  /** Without an instruction to rename the text is returned as it is. */
  lemma NothingToRename(dockerfile: string, name: string)
    requires LastWhere(LinesOf(dockerfile), IsFrom) == None
    ensures ToStage(dockerfile, name) == dockerfile
  {
    LastWhereLast(LinesOf(dockerfile), IsFrom);
  }

  // ----- Where converting twice does change something -----

  lemma PlainFrom(line: string)
    requires Trimmed(line) && FromShape(line) && line[|line| - 1] != '\\'
    ensures IsFrom(line) && !Continues(line)
  {
    TrimmedTrim(line);
    ShapeIsFrom(line);
  }

  lemma SingleLine(line: string)
    requires !Continues(line) && !Dropped(line)
    ensures Tidy([line], Continues, Dropped)
  {
  }

  lemma EmptyLineKept()
    ensures !Continues("") && !Dropped("") && !IsFrom("")
  {
    assert Trim("") == "" && Upper("") == "";
  }

  lemma AppIsStageName()
    ensures IsStageName("app")
  {
    assert "app" == ['a', 'p', 'p'];
  }

  /** A single instruction before some kept lines: when converting twice is converting once. */
  lemma OneInstruction(dockerfile: string, line: string, back: seq<string>)
    requires LinesOf(dockerfile) == [] + ([line] + back) && IsFrom(line) && !Continues(line)
    requires Tidy(back, Continues, Dropped) && NoMatch(back, IsFrom)
    ensures ToStage(ToStage(dockerfile, "app"), "app") == ToStage(dockerfile, "app")
            <==> !EndsInAs(Base(line)) && Survives(back)
  {
    AppIsStageName();
    FromNotDropped(line);
    StageOfTidy(LinesOf(dockerfile), [], line, back, DOCKERFILE, NamedAs("app"));
    ConvertTwice(dockerfile, "app");
  }

  /** Lines that do not survive, or an image part that ends in ` AS`, make the second conversion differ. */
  lemma SecondDiffers(dockerfile: string, line: string, back: seq<string>)
    requires LinesOf(dockerfile) == [] + ([line] + back) && IsFrom(line) && !Continues(line)
    requires Tidy(back, Continues, Dropped) && NoMatch(back, IsFrom)
    requires EndsInAs(Base(line)) || !Survives(back)
    ensures ToStage(ToStage(dockerfile, "app"), "app") != ToStage(dockerfile, "app")
  {
    OneInstruction(dockerfile, line, back);
  }

  lemma LineAndEmptyLine(line: string)
    requires NoLf(line) && !EndsInCr(line)
    ensures LinesOf(line + "\n" + "\n") == [] + ([line] + [""])
  {
    var lines := [line, ""];
    LinesOfTerminated(lines);
    assert lines[1..] == [""];
    assert Join(lines, "\n") == line + "\n" + "";
    assert line + "\n" + "" == line + "\n";
  }

  lemma FromExample()
    ensures NoLf("FROM a") && !EndsInCr("FROM a") && IsFrom("FROM a") && !Continues("FROM a")
  {
    assert "FROM a" == ['F', 'R', 'O', 'M', ' ', 'a'];
    PlainFrom("FROM a");
  }

  lemma EmptyLineDoesNotSurvive()
    ensures Tidy([""], Continues, Dropped) && NoMatch([""], IsFrom) && !Survives([""])
  {
    EmptyLineKept();
    SingleLine("");
  }

  lemma EmptyLineExample()
    ensures LinesOf("FROM a\n\n") == [] + (["FROM a"] + [""])
  {
    FromExample();
    LineAndEmptyLine("FROM a");
    assert "FROM a" + "\n" + "\n" == "FROM a\n\n";
  }

  /** An empty last line: the first conversion keeps its line feed, the second loses it. */
  lemma LosesLastLine()
    ensures ToStage(ToStage("FROM a\n\n", "app"), "app") != ToStage("FROM a\n\n", "app")
  {
    EmptyLineExample();
    FromExample();
    EmptyLineDoesNotSurvive();
    SecondDiffers("FROM a\n\n", "FROM a", [""]);
  }

  lemma BaseExample()
    ensures Base("FROM AS") == "FROM AS" && EndsInAs("FROM AS") && IsFrom("FROM AS") && !Continues("FROM AS")
  {
    var d := "FROM AS";
    assert d == ['F', 'R', 'O', 'M', ' ', 'A', 'S'];
    PlainFrom(d);
    TrimmedTrim(d);
    BeforeNone(d, AS);
  }

  lemma AsExample()
    ensures LinesOf("FROM AS") == [] + (["FROM AS"] + [])
  {
    var d := "FROM AS";
    assert d == ['F', 'R', 'O', 'M', ' ', 'A', 'S'];
    LinesOfJoin([], d);
    assert [] + [d] == [d] && [] + ([d] + []) == [d];
  }

  /** An image part that ends in ` AS`: the second conversion takes it for the separator. */
  lemma TakesAsForSeparator()
    ensures ToStage(ToStage("FROM AS", "app"), "app") != ToStage("FROM AS", "app")
  {
    AsExample();
    BaseExample();
    SecondDiffers("FROM AS", "FROM AS", []);
  }

  lemma PlainLine(c: char)
    requires c in {'b', 'c'}
    ensures !Continues([c]) && !Dropped([c]) && !IsFrom([c])
  {
    TrimmedTrim([c]);
    assert Upper([c])[0] in {'B', 'C'};
    assert |Upper([c])| == 1;
  }

  lemma LinesWithCr(line: string)
    requires NoLf(line) && !EndsInCr(line)
    ensures LinesOf(line + "\n" + "b\r\r" + "\n" + "c") == [] + ([line] + ["b\r", "c"])
  {
    var front := [line, "b\r\r"];
    LinesOfJoin(front, "c");
    assert front + ["c"] == [line, "b\r\r", "c"];
    assert [line, "b\r\r", "c"][1..] == ["b\r\r", "c"] && ["b\r\r", "c"][1..] == ["c"];
    assert Join(["b\r\r", "c"], "\n") == "b\r\r" + "\n" + "c";
    Associative(line + "\n", "b\r\r" + "\n", "c");
    Associative(line + "\n", "b\r\r", "\n");
    assert "b\r\r"[..2] == "b\r";
    assert StripAll(front) == [line, "b\r"];
  }

  lemma TwoPlainLines()
    ensures Tidy(["b\r", "c"], Continues, Dropped) && NoMatch(["b\r", "c"], IsFrom) && !Survives(["b\r", "c"])
  {
    PlainLine('b');
    PlainLine('c');
    assert "b\r" == ['b'] + ['\r'];
    TrimSpace(['b'], '\r');
    assert EndsInCr(["b\r", "c"][..1][0]);
  }

  lemma CrExample()
    ensures LinesOf("FROM a\nb\r\r\nc") == [] + (["FROM a"] + ["b\r", "c"])
  {
    FromExample();
    LinesWithCr("FROM a");
    assert "FROM a" + "\n" + "b\r\r" + "\n" + "c" == "FROM a\nb\r\r\nc";
  }

  /** A carriage return before a line ending: the first conversion keeps it, the second takes it for part
      of the line ending. */
  lemma LosesCarriageReturn()
    ensures ToStage(ToStage("FROM a\nb\r\r\nc", "app"), "app") != ToStage("FROM a\nb\r\r\nc", "app")
  {
    CrExample();
    FromExample();
    TwoPlainLines();
    SecondDiffers("FROM a\nb\r\r\nc", "FROM a", ["b\r", "c"]);
  }
}
