/** Turning a Dockerfile into a named build stage, instruction by instruction. */
module NamedStage {
  import opened Json
  import opened Text
  import opened Lines
  import opened Instructions
  import opened Stages

  predicate IsFrom(line: string) {
    "FROM " <= Upper(Trim(line))
  }

  /** Instructions the stage leaves out. */
  predicate Dropped(line: string) {
    var u := Upper(Trim(line));
    "ENTRYPOINT" <= u || "CMD" <= u || "EXPOSE" <= u
  }

  predicate Continues(line: string) {
    var s := TrimEnd(line);
    s != "" && s[|s| - 1] == '\\'
  }

  const AS := " AS "

  /** The last `FROM` line under the new stage name. */
  function Named(line: string, name: string): string {
    var t := Trim(line);
    if Contains(Upper(t), AS) then Trim(Before(t, AS)) + AS + name else t + AS + name
  }

  const DOCKERFILE := Tests(Continues, Dropped, IsFrom)

  function NamedAs(name: string): Rename {
    line => Named(line, name)
  }

  lemma FromNotDropped(line: string)
    ensures !(IsFrom(line) && Dropped(line))
  {
    var u := Upper(Trim(line));
    assert "FROM " <= u ==> u[0] == 'F';
    assert "CMD" <= u ==> u[0] == 'C';
    assert "ENTRYPOINT" <= u ==> u[0] == 'E';
    assert "EXPOSE" <= u ==> u[0] == 'E';
  }

  // ----- The conversion -----

  method FindLastFrom(lines: seq<string>) returns (k: nat)
    ensures k == LastFrom(lines, DOCKERFILE)
  {
    k := 0;
    for i := 0 to |lines|
      invariant k == if LastBefore(lines, i, IsFrom).Some? then LastBefore(lines, i, IsFrom).value else 0
    {
      if IsFrom(lines[i]) { k := i; }
    }
  }

  /** One turn of the line loop; `last` says that the line is the one the first loop found. */
  method StepLine(line: string, cont: Cont, last: bool, name: string)
    returns (out: seq<string>, cont': Cont, renamed: bool)
    ensures out == Emit(line, cont, last && IsFrom(line), Named(line, name), Dropped)
    ensures cont' == Next(line, cont, Continues, Dropped)
    ensures renamed == (cont == No && last && IsFrom(line))
  {
    var continues := Continues(line);
    match cont {
      case Skip =>
        return [], if continues then Skip else No, false;
      case Keep =>
        return [line], if continues then Keep else No, false;
      case No =>
    }
    FromNotDropped(line);
    if Dropped(line) {
      return [], if continues then Skip else No, false;
    }
    cont' := if continues then Keep else No;
    if IsFrom(line) && last {
      out, renamed := [Named(line, name)], true;
    } else {
      out, renamed := [line], false;
    }
  }

  /** A turn moves a contribution from the lines to come into the result. */
  lemma Turn(lines: seq<string>, i: nat, cont: Cont, k: nat, name: string, result: seq<string>, out: seq<string>)
    requires i < |lines| && k < |lines| && IsFrom(lines[k])
    requires out == Emit(lines[i], cont, i == k && IsFrom(lines[i]), Named(lines[i], name), Dropped)
    ensures var repl := Named(lines[k], name);
            result + Run(lines, i, cont, k, repl, Continues, Dropped)
            == result + out + Run(lines, i + 1, Next(lines[i], cont, Continues, Dropped), k, repl, Continues, Dropped)
  {
    var rest := Run(lines, i + 1, Next(lines[i], cont, Continues, Dropped), k, Named(lines[k], name), Continues, Dropped);
    Regroup(result, out, rest);
  }

  /** The line loop with its continuation state. */
  method ConvertLines(lines: seq<string>, k: nat, name: string) returns (result: seq<string>, found: bool)
    requires k == LastFrom(lines, DOCKERFILE)
    ensures found == Renames(lines, DOCKERFILE)
    ensures found ==> result == Run(lines, 0, No, k, Named(lines[k], name), Continues, Dropped)
  {
    result, found := [], false;
    var cont := No;
    ghost var from := k < |lines| && IsFrom(lines[k]);
    for i := 0 to |lines|
      invariant from ==> result + Run(lines, i, cont, k, Named(lines[k], name), Continues, Dropped)
                         == Run(lines, 0, No, k, Named(lines[k], name), Continues, Dropped)
      invariant cont == No <==> Starts(lines, i, Continues)
      invariant found <==> k < i && from && Starts(lines, k, Continues)
    {
      var out, cont', renamed := StepLine(lines[i], cont, i == k, name);
      NextStarts(lines, i, cont, Continues, Dropped);
      if from { Turn(lines, i, cont, k, name, result, out); }
      result, cont, found := result + out, cont', found || renamed;
    }
    assert result + [] == result;
  }

  lemma StageIsRun(lines: seq<string>, name: string)
    requires Renames(lines, DOCKERFILE)
    ensures var k := LastFrom(lines, DOCKERFILE);
            Stage(lines, DOCKERFILE, NamedAs(name)) == Run(lines, 0, No, k, Named(lines[k], name), Continues, Dropped)
  {
    var k := LastFrom(lines, DOCKERFILE);
    FromNotDropped(lines[k]);
    RunForm(lines, k, Named(lines[k], name), Continues, Dropped);
  }

  function ToStage(dockerfile: string, name: string): string {
    Converted(dockerfile, DOCKERFILE, NamedAs(name))
  }

  method ConvertToNamedStage(dockerfile: string, name: string) returns (r: string)
    ensures r == ToStage(dockerfile, name)
  {
    var lines := LinesOf(dockerfile);
    var k := FindLastFrom(lines);
    var result, found := ConvertLines(lines, k, name);
    if found { StageIsRun(lines, name); }
    r := if found then Join(result, "\n") else dockerfile;
  }
}
