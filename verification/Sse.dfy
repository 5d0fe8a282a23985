/** Rewriting the payloads of an event stream line by line (WHATWG HTML section 9.2.5). */
module Sse {
  import opened Json
  import opened Lines

  /** From JSON payload to replacement payload; `None` when the message is left as it is. */
  type Rewriter = string -> Option<string>

  predicate IsBreak(c: char) {
    c == '\n' || c == '\r'
  }

  /** Length of `line` without its trailing line breaks. */
  function TrimLen(line: string): (n: nat)
    ensures n <= |line|
    ensures n > 0 ==> !IsBreak(line[n - 1])
    ensures forall i :: n <= i < |line| ==> IsBreak(line[i])
  {
    if line != "" && IsBreak(line[|line| - 1]) then TrimLen(line[..|line| - 1]) else |line|
  }

  function Ending(line: string): string {
    line[TrimLen(line)..]
  }

  /** The payload of a data line: what follows `data:` and at most one space. */
  function Payload(line: string): Option<string> {
    var trimmed := line[..TrimLen(line)];
    if "data: " <= trimmed then Some(trimmed[6..])
    else if "data:" <= trimmed then Some(trimmed[5..])
    else None
  }

  predicate Accepted(line: string, f: Rewriter) {
    Payload(line).Some? && f(Payload(line).value).Some?
  }

  function RewriteLine(line: string, f: Rewriter): string {
    if Accepted(line, f) then "data: " + f(Payload(line).value).value + Ending(line) else line
  }

  function RewriteLines(lines: seq<string>, f: Rewriter): (out: seq<string>)
    ensures |out| == |lines|
    ensures forall i :: 0 <= i < |lines| ==> out[i] == RewriteLine(lines[i], f)
  {
    if lines == [] then [] else [RewriteLine(lines[0], f)] + RewriteLines(lines[1..], f)
  }

  function Rewrite(t: string, f: Rewriter): string {
    Flatten(RewriteLines(SplitInclusive(t), f))
  }

  /** One turn of the loop: the text to append for `line`, and whether it was replaced. */
  method Emit(line: string, f: Rewriter) returns (piece: string, replaced: bool)
    ensures piece == RewriteLine(line, f) && replaced == Accepted(line, f)
  {
    var trimmed := line[..TrimLen(line)];
    if "data:" <= trimmed {
      var rest := trimmed[5..];
      var payload := if rest != "" && rest[0] == ' ' then rest[1..] else rest;
      assert Some(payload) == Payload(line);
      if f(payload).Some? {
        return "data: " + f(payload).value + line[|trimmed|..], true;
      }
    }
    return line, false;
  }

  /** What the lines from `i` on contribute to the output. */
  function Rest(lines: seq<string>, i: nat, f: Rewriter): string
    requires i <= |lines|
  {
    Flatten(RewriteLines(lines[i..], f))
  }

  lemma RestStep(lines: seq<string>, i: nat, f: Rewriter)
    requires i < |lines|
    ensures Rest(lines, i, f) == RewriteLine(lines[i], f) + Rest(lines, i + 1, f)
  {
    assert lines[i..][1..] == lines[i + 1..];
    var rest := RewriteLines(lines[i + 1..], f);
    assert RewriteLines(lines[i..], f) == [RewriteLine(lines[i], f)] + rest;
    assert ([RewriteLine(lines[i], f)] + rest)[1..] == rest;
  }

  lemma RestEnds(lines: seq<string>, f: Rewriter)
    ensures Rest(lines, 0, f) == Flatten(RewriteLines(lines, f)) && Rest(lines, |lines|, f) == ""
  {
    assert lines[0..] == lines && lines[|lines|..] == [];
  }

  /** The buffer loop: append each line or its replacement, and give back the input itself when
      no line was replaced. */
  method RewriteText(t: string, f: Rewriter) returns (r: string)
    ensures r == Rewrite(t, f)
  {
    var lines := SplitInclusive(t);
    var out := "";
    var changed := false;
    ghost var goal := Rest(lines, 0, f);
    for i := 0 to |lines|
      invariant out + Rest(lines, i, f) == goal
      invariant !changed ==> forall j :: 0 <= j < i ==> !Accepted(lines[j], f)
    {
      var piece, replaced := Emit(lines[i], f);
      RestStep(lines, i, f);
      assert out + (piece + Rest(lines, i + 1, f)) == (out + piece) + Rest(lines, i + 1, f);
      out := out + piece;
      changed := changed || replaced;
    }
    RestEnds(lines, f);
    r := if changed then out else t;
    if !changed { NothingAccepted(t, f); }
  }

  lemma UnchangedLines(lines: seq<string>, f: Rewriter)
    requires forall j :: 0 <= j < |lines| ==> !Accepted(lines[j], f)
    ensures RewriteLines(lines, f) == lines
  {
  }

  // ----- Framing -----

  /** Replacements are single-line, as JSON text escapes line breaks (section 7 of RFC 8259). */
  ghost predicate SingleLine(f: Rewriter) {
    forall p :: f(p).Some? ==> forall i :: 0 <= i < |f(p).value| ==> !IsBreak(f(p).value[i])
  }

  lemma {:induction false} TrimLenOf(p: string, e: string)
    requires p == "" || !IsBreak(p[|p| - 1])
    requires forall i :: 0 <= i < |e| ==> IsBreak(e[i])
    ensures TrimLen(p + e) == |p|
  {
    if e != "" {
      assert (p + e)[..|p + e| - 1] == p + e[..|e| - 1];
      TrimLenOf(p, e[..|e| - 1]);
    } else {
      assert p + e == p;
    }
  }

  predicate Breaks(e: string) {
    forall i :: 0 <= i < |e| ==> IsBreak(e[i])
  }

  /** The three parts of a data line: the field name with at most one space, the payload and the ending. */
  predicate DataLine(line: string, p: string, e: string) {
    && Breaks(e) && (p == "" || !IsBreak(p[|p| - 1]))
    && (line == "data: " + p + e || (line == "data:" + p + e && (p == "" || p[0] != ' ')))
  }

  lemma PayloadOfDataLine(line: string, p: string, e: string)
    requires DataLine(line, p, e)
    ensures Payload(line) == Some(p) && Ending(line) == e
  {
    var head := if line == "data: " + p + e then "data: " else "data:";
    var trimmed := head + p;
    TrimLenOf(trimmed, e);
    assert line[..|trimmed|] == trimmed;
    assert trimmed[|head|..] == p;
    if head == "data:" && |trimmed| >= 6 { assert trimmed[5] == p[0]; }
  }

  lemma SpaceFollows(t: string)
    requires "data:" <= t && |t| > 5 && t[5] == ' '
    ensures "data: " <= t
  {
    assert t[..6] == t[..5] + [t[5]];
  }

  lemma DataLineOfPayload(line: string)
    requires Payload(line).Some?
    ensures DataLine(line, Payload(line).value, Ending(line))
  {
    var n := TrimLen(line);
    var trimmed, p := line[..n], Payload(line).value;
    assert line == trimmed + Ending(line);
    if "data: " <= trimmed {
      assert trimmed == "data: " + p;
    } else {
      assert trimmed == "data:" + p;
      if p != "" && p[0] == ' ' { SpaceFollows(trimmed); }
    }
    if p != "" { assert p[|p| - 1] == line[n - 1]; }
  }

  /** A line carries the payload `p` exactly when it is `data:`, at most one space, `p` and a line ending. */
  lemma PayloadIff(line: string, p: string)
    ensures Payload(line) == Some(p) <==> exists e :: DataLine(line, p, e)
  {
    if Payload(line) == Some(p) { DataLineOfPayload(line); }
    if e :| DataLine(line, p, e) { PayloadOfDataLine(line, p, e); }
  }

  lemma RewriteLineShape(line: string, f: Rewriter)
    requires SingleLine(f) && IsLine(line)
    ensures IsLine(RewriteLine(line, f))
    ensures Terminated(RewriteLine(line, f)) <==> Terminated(line)
    ensures Ending(RewriteLine(line, f)) == Ending(line)
  {
    if Accepted(line, f) {
      var r := f(Payload(line).value).value;
      TrimLenOf("data: " + r, Ending(line));
      var out := RewriteLine(line, f);
      assert out == ("data: " + r) + Ending(line);
      forall i | 0 <= i < |out| - 1 ensures out[i] != '\n' {
        if i >= 6 + |r| { assert out[i] == line[i - 6 - |r| + TrimLen(line)]; }
        else if i >= 6 { assert out[i] == r[i - 6]; }
      }
    }
  }

  /** Framing survives every rewriting: the output splits into as many lines, each with the same
      terminator; a line the rewriter declined is byte for byte the same, and an accepted one
      carries exactly the replacement payload. */
  lemma FramingPreserved(t: string, f: Rewriter)
    requires SingleLine(f)
    ensures var before, after := SplitInclusive(t), SplitInclusive(Rewrite(t, f));
            && |after| == |before|
            && forall i :: 0 <= i < |before| ==>
                 && Ending(after[i]) == Ending(before[i])
                 && (!Accepted(before[i], f) ==> after[i] == before[i])
                 && (Accepted(before[i], f) ==> Payload(after[i]) == f(Payload(before[i]).value))
  {
    var before := SplitInclusive(t);
    var out := RewriteLines(before, f);
    SplitShape(t);
    forall i | 0 <= i < |before|
      ensures IsLine(out[i]) && (Terminated(out[i]) <==> Terminated(before[i])) && Ending(out[i]) == Ending(before[i])
    {
      RewriteLineShape(before[i], f);
    }
    SplitFlatten(out);
    forall i | 0 <= i < |before| && Accepted(before[i], f)
      ensures Payload(out[i]) == f(Payload(before[i]).value)
    {
      RewrittenPayload(before[i], f);
    }
  }

  lemma RewrittenPayload(line: string, f: Rewriter)
    requires SingleLine(f) && Accepted(line, f)
    ensures Payload(RewriteLine(line, f)) == f(Payload(line).value)
  {
    var r := f(Payload(line).value).value;
    assert RewriteLine(line, f) == ("data: " + r) + Ending(line);
    TrimLenOf("data: " + r, Ending(line));
    assert RewriteLine(line, f)[..6 + |r|] == "data: " + r;
    assert ("data: " + r)[6..] == r;
  }

  /** A stream in which nothing is accepted comes back unchanged. */
  lemma NothingAccepted(t: string, f: Rewriter)
    requires forall i :: 0 <= i < |SplitInclusive(t)| ==> !Accepted(SplitInclusive(t)[i], f)
    ensures Rewrite(t, f) == t
  {
    UnchangedLines(SplitInclusive(t), f);
    FlattenSplit(t);
  }
}
