/** Splitting a text into lines and joining lines into a text. */
module Lines {
  import opened Json
  import opened Text

  /** Length of the first line of `t`, terminator included. */
  function LineLen(t: string): (n: nat)
    ensures n <= |t| && (t != "" ==> n > 0)
    ensures forall i :: 0 <= i < n - 1 ==> t[i] != '\n'
    ensures n < |t| ==> t[n - 1] == '\n'
  {
    if t == "" then 0 else if t[0] == '\n' then 1 else 1 + LineLen(t[1..])
  }

  function SplitInclusive(t: string): seq<string> {
    if t == "" then [] else [t[..LineLen(t)]] + SplitInclusive(t[LineLen(t)..])
  }

  function Flatten(lines: seq<string>): string {
    if lines == [] then "" else lines[0] + Flatten(lines[1..])
  }

  lemma {:induction false} FlattenSplit(t: string)
    ensures Flatten(SplitInclusive(t)) == t
  {
    if t != "" {
      var n := LineLen(t);
      FlattenSplit(t[n..]);
      assert t == t[..n] + t[n..];
    }
  }

  /** A non-empty line whose only line feed, if any, is its last character. */
  predicate IsLine(line: string) {
    line != "" && forall i :: 0 <= i < |line| - 1 ==> line[i] != '\n'
  }

  predicate Terminated(line: string) {
    line != "" && line[|line| - 1] == '\n'
  }

  /** The shape of a split text: lines, each but the last with its terminator. */
  predicate IsSplit(lines: seq<string>) {
    && (forall i :: 0 <= i < |lines| ==> IsLine(lines[i]))
    && (forall i :: 0 <= i < |lines| - 1 ==> Terminated(lines[i]))
  }

  lemma {:induction false} SplitShape(t: string)
    ensures IsSplit(SplitInclusive(t))
  {
    if t != "" {
      var n := LineLen(t);
      SplitShape(t[n..]);
      var lines := SplitInclusive(t);
      assert forall i :: 1 <= i < |lines| ==> lines[i] == SplitInclusive(t[n..])[i - 1];
    }
  }

  lemma {:induction false} LineLenOfFirst(line: string, rest: string)
    requires IsLine(line) && (Terminated(line) || rest == "")
    ensures LineLen(line + rest) == |line|
  {
    if |line| > 1 {
      assert (line + rest)[1..] == line[1..] + rest;
      assert forall i :: 0 <= i < |line[1..]| - 1 ==> line[1..][i] == line[i + 1];
      LineLenOfFirst(line[1..], rest);
    } else {
      if line[0] != '\n' { assert (line + rest)[1..] == ""; }
    }
  }

  lemma {:induction false} SplitFlatten(lines: seq<string>)
    requires IsSplit(lines)
    ensures SplitInclusive(Flatten(lines)) == lines
  {
    if lines != [] {
      var rest := Flatten(lines[1..]);
      assert forall i :: 0 <= i < |lines[1..]| ==> lines[1..][i] == lines[i + 1];
      SplitFlatten(lines[1..]);
      if !Terminated(lines[0]) { assert lines[1..] == []; }
      LineLenOfFirst(lines[0], rest);
      assert (lines[0] + rest)[|lines[0]|..] == rest;
      assert (lines[0] + rest)[..|lines[0]|] == lines[0];
    }
  }

  // ----- Lines without their terminators -----

  function StripCr(s: string): string {
    if s != "" && s[|s| - 1] == '\r' then s[..|s| - 1] else s
  }

  /** A line without its terminator: a line feed, or a carriage return and a line feed. */
  function Content(line: string): string {
    if Terminated(line) then StripCr(line[..|line| - 1]) else line
  }

  function Contents(lines: seq<string>): (r: seq<string>)
    ensures |r| == |lines|
    ensures forall i :: 0 <= i < |lines| ==> r[i] == Content(lines[i])
  {
    seq(|lines|, i requires 0 <= i < |lines| => Content(lines[i]))
  }

  function LinesOf(t: string): seq<string> {
    Contents(SplitInclusive(t))
  }

  predicate NoLf(s: string) {
    forall i :: 0 <= i < |s| ==> s[i] != '\n'
  }

  predicate AllNoLf(lines: seq<string>) {
    forall i :: 0 <= i < |lines| ==> NoLf(lines[i])
  }

  lemma LinesNoLf(t: string)
    ensures AllNoLf(LinesOf(t))
  {
    var lines := SplitInclusive(t);
    SplitShape(t);
    forall k | 0 <= k < |lines| ensures NoLf(Content(lines[k])) { assert IsLine(lines[k]); }
  }

  // ----- Joining -----

  /** Every line with a line feed put behind it. */
  function Ended(lines: seq<string>): (r: seq<string>)
    ensures |r| == |lines|
    ensures forall i :: 0 <= i < |lines| ==> r[i] == lines[i] + "\n"
  {
    seq(|lines|, i requires 0 <= i < |lines| => lines[i] + "\n")
  }

  function StripAll(lines: seq<string>): (r: seq<string>)
    ensures |r| == |lines|
    ensures forall i :: 0 <= i < |lines| ==> r[i] == StripCr(lines[i])
  {
    seq(|lines|, i requires 0 <= i < |lines| => StripCr(lines[i]))
  }

  lemma {:induction false} JoinEnded(lines: seq<string>, last: string)
    ensures Join(lines + [last], "\n") == Flatten(Ended(lines)) + last
  {
    if lines == [] {
      assert lines + [last] == [last];
    } else {
      JoinEnded(lines[1..], last);
      assert (lines + [last])[1..] == lines[1..] + [last];
      assert Ended(lines)[1..] == Ended(lines[1..]);
    }
  }

  /** Joined lines split into the same lines again, each but the last with a line feed; an empty last
      line disappears. */
  lemma SplitJoin(lines: seq<string>, last: string)
    requires AllNoLf(lines) && NoLf(last)
    ensures SplitInclusive(Join(lines + [last], "\n")) == Ended(lines) + (if last == "" then [] else [last])
  {
    JoinEnded(lines, last);
    var parts := Ended(lines) + (if last == "" then [] else [last]);
    FlattenConcat(Ended(lines), if last == "" then [] else [last]);
    assert Flatten([last]) == last by { assert [last][1..] == []; }
    forall i | 0 <= i < |lines| ensures IsLine(parts[i]) && Terminated(parts[i]) { assert NoLf(lines[i]); }
    SplitFlatten(parts);
  }

  lemma {:induction false} FlattenConcat(a: seq<string>, b: seq<string>)
    ensures Flatten(a + b) == Flatten(a) + Flatten(b)
  {
    if a == [] {
      assert a + b == b;
      assert "" + Flatten(b) == Flatten(b);
    } else {
      FlattenConcat(a[1..], b);
      var ab := a + b;
      assert ab[0] == a[0] && ab[1..] == a[1..] + b;
      Associative(a[0], Flatten(a[1..]), Flatten(b));
    }
  }

  lemma EndedContent(line: string)
    requires NoLf(line)
    ensures Content(line + "\n") == StripCr(line) && (line != "" ==> Content(line) == line)
  {
    assert (line + "\n")[..|line|] == line;
  }

  lemma ContentsOfEnded(lines: seq<string>, last: string)
    requires AllNoLf(lines) && NoLf(last)
    ensures Contents(Ended(lines)) == StripAll(lines)
    ensures last != "" ==> Contents(Ended(lines) + [last]) == StripAll(lines) + [last]
  {
    forall i | 0 <= i < |lines| ensures Content(Ended(lines)[i]) == StripCr(lines[i]) {
      assert NoLf(lines[i]);
      EndedContent(lines[i]);
    }
    EndedContent(last);
  }

  /** Reading back joined lines strips one carriage return from each line that is followed by another. */
  lemma LinesOfJoin(lines: seq<string>, last: string)
    requires AllNoLf(lines) && NoLf(last)
    ensures LinesOf(Join(lines + [last], "\n")) == StripAll(lines) + (if last == "" then [] else [last])
  {
    SplitJoin(lines, last);
    ContentsOfEnded(lines, last);
    assert Ended(lines) + [] == Ended(lines) && StripAll(lines) + [] == StripAll(lines);
  }

  lemma {:induction false} JoinThenEnd(lines: seq<string>, sep: string)
    requires lines != []
    ensures Join(lines + [""], sep) == Join(lines, sep) + sep
  {
    if |lines| == 1 {
      assert (lines + [""])[1..] == [""];
      assert lines[0] + sep + "" == lines[0] + sep;
    } else {
      JoinThenEnd(lines[1..], sep);
      assert (lines + [""])[1..] == lines[1..] + [""];
      assert lines[0] + sep + (Join(lines[1..], sep) + sep) == Join(lines, sep) + sep;
    }
  }

  /** Joining by line feeds is injective on lists of lines. */
  lemma JoinInjective(a: seq<string>, b: seq<string>)
    requires a != [] && b != [] && AllNoLf(a) && AllNoLf(b)
    ensures Join(a, "\n") == Join(b, "\n") ==> a == b
  {
    var m, n := |a| - 1, |b| - 1;
    assert a == a[..m] + [a[m]] && b == b[..n] + [b[n]];
    SplitJoin(a[..m], a[m]);
    SplitJoin(b[..n], b[n]);
    EndedInjective(a[..m], a[m], b[..n], b[n]);
  }

  lemma EndedInjective(a: seq<string>, x: string, b: seq<string>, y: string)
    requires NoLf(x) && NoLf(y)
    ensures Ended(a) + (if x == "" then [] else [x]) == Ended(b) + (if y == "" then [] else [y]) ==> a == b && x == y
  {
    var s, t := Ended(a) + (if x == "" then [] else [x]), Ended(b) + (if y == "" then [] else [y]);
    if s == t {
      if s != [] {
        var last := s[|s| - 1];
        assert Terminated(last) <==> x == "";
        assert Terminated(last) <==> y == "";
      }
      assert |a| == |b|;
      forall i | 0 <= i < |a| ensures a[i] == b[i] {
        assert s[i] == a[i] + "\n" && t[i] == b[i] + "\n";
        assert a[i] == s[i][..|a[i]|];
      }
    }
  }

  /** The same for a text whose last line is terminated as well. */
  lemma LinesOfTerminated(lines: seq<string>)
    requires lines != [] && AllNoLf(lines)
    ensures LinesOf(Join(lines, "\n") + "\n") == StripAll(lines)
  {
    JoinThenEnd(lines, "\n");
    LinesOfJoin(lines, "");
  }

  predicate EndsInCr(s: string) {
    s != "" && s[|s| - 1] == '\r'
  }

  predicate NoCr(lines: seq<string>) {
    forall i :: 0 <= i < |lines| ==> !EndsInCr(lines[i])
  }

  lemma StripNothing(lines: seq<string>)
    ensures StripAll(lines) == lines <==> NoCr(lines)
  {
    if i :| 0 <= i < |lines| && EndsInCr(lines[i]) {
      assert |StripAll(lines)[i]| != |lines[i]|;
    }
  }

  // ----- Occurrences within a text and its lines -----

  predicate OneLine(s: string) {
    forall i :: 0 <= i < |s| ==> s[i] != '\n' && s[i] != '\r'
  }

  lemma ContentHolds(line: string, sub: string, i: nat)
    requires IsLine(line) && OneLine(sub) && i + |sub| <= |line| && line[i..i + |sub|] == sub
    ensures Contains(Content(line), sub)
  {
    var c := Content(line);
    if sub == "" {
      assert sub <= c[0..];
    } else {
      var e := i + |sub| - 1;
      assert line[i..i + |sub|][|sub| - 1] == line[e];
      assert sub[|sub| - 1] == line[e];
      assert e < |c|;
      assert c == line[..|c|];
      assert c[i..i + |sub|] == line[i..i + |sub|];
      assert sub <= c[i..];
    }
  }

  lemma FirstLineHolds(t: string, sub: string, i: nat)
    requires t != "" && OneLine(sub) && i + |sub| <= LineLen(t) && t[i..i + |sub|] == sub
    ensures LinesOf(t) != [] && Contains(LinesOf(t)[0], sub)
  {
    var n := LineLen(t);
    SplitShape(t);
    assert t[..n][i..i + |sub|] == sub;
    assert SplitInclusive(t)[0] == t[..n];
    ContentHolds(t[..n], sub, i);
  }

  lemma LinesOfRest(t: string, k: nat)
    requires t != "" && k < |LinesOf(t[LineLen(t)..])|
    ensures k + 1 < |LinesOf(t)| && LinesOf(t)[k + 1] == LinesOf(t[LineLen(t)..])[k]
  {
  }

  /** A one-line text found at position `i` lies in one of the lines. */
  lemma {:induction false} OccursAt(t: string, sub: string, i: nat) returns (k: nat)
    requires OneLine(sub) && sub != "" && i + |sub| <= |t| && t[i..i + |sub|] == sub
    ensures k < |LinesOf(t)| && Contains(LinesOf(t)[k], sub)
    decreases |t|
  {
    forall j | i <= j < i + |sub| ensures t[j] != '\n' { assert t[i..i + |sub|][j - i] == sub[j - i]; }
    var n := LineLen(t);
    if i + |sub| <= n {
      FirstLineHolds(t, sub, i);
      k := 0;
    } else {
      assert t[n..][i - n..i - n + |sub|] == t[i..i + |sub|];
      k := OccursAt(t[n..], sub, i - n);
      LinesOfRest(t, k);
      k := k + 1;
    }
  }

  lemma OccursInLine(t: string, sub: string) returns (k: nat)
    requires OneLine(sub) && sub != "" && Contains(t, sub)
    ensures k < |LinesOf(t)| && Contains(LinesOf(t)[k], sub)
  {
    var i :| 0 <= i <= |t| && sub <= t[i..];
    assert t[i..][..|sub|] == t[i..i + |sub|];
    k := OccursAt(t, sub, i);
  }

  /** Every joined line occurs in the text. */
  lemma {:induction false} JoinContains(lines: seq<string>, sep: string, k: nat)
    requires k < |lines|
    ensures Contains(Join(lines, sep), lines[k])
  {
    if |lines| == 1 {
      assert lines[0] <= lines[0][0..];
    } else if k == 0 {
      ContainsMiddle("", lines[0], sep + Join(lines[1..], sep));
      assert "" + lines[0] + (sep + Join(lines[1..], sep)) == Join(lines, sep);
    } else {
      JoinContains(lines[1..], sep, k - 1);
      var rest := Join(lines[1..], sep);
      ContainsMiddle(lines[0] + sep, rest, "");
      assert lines[0] + sep + rest + "" == Join(lines, sep);
      ContainsTransitive(Join(lines, sep), rest, lines[k]);
    }
  }

  // ----- The last line of a kind -----

  /** The last position before `j` whose line satisfies `f`. */
  function LastBefore(lines: seq<string>, j: nat, f: string -> bool): (r: Option<nat>)
    requires j <= |lines|
    ensures r.Some? ==> r.value < j
  {
    if j == 0 then None else if f(lines[j - 1]) then Some(j - 1) else LastBefore(lines, j - 1, f)
  }

  /** The last position whose line satisfies `f`. */
  function LastWhere(lines: seq<string>, f: string -> bool): (r: Option<nat>)
    ensures r.Some? ==> r.value < |lines|
  {
    LastBefore(lines, |lines|, f)
  }

  ghost predicate NoMatch(lines: seq<string>, f: string -> bool) {
    forall i :: 0 <= i < |lines| ==> !f(lines[i])
  }

  lemma {:induction false} LastBeforeLast(lines: seq<string>, j: nat, f: string -> bool)
    requires j <= |lines|
    ensures var r := LastBefore(lines, j, f);
            (r.Some? ==> f(lines[r.value])) && forall i :: (if r.Some? then r.value + 1 else 0) <= i < j ==> !f(lines[i])
  {
    if j > 0 && !f(lines[j - 1]) { LastBeforeLast(lines, j - 1, f); }
  }

  /** It is a match, and no later line is one. */
  lemma LastWhereLast(lines: seq<string>, f: string -> bool)
    ensures var r := LastWhere(lines, f);
            if r.Some? then f(lines[r.value]) && NoMatch(lines[r.value + 1..], f) else NoMatch(lines, f)
  {
    LastBeforeLast(lines, |lines|, f);
  }

  lemma {:induction false} LastBeforeIs(lines: seq<string>, j: nat, f: string -> bool, k: nat)
    requires k < j <= |lines| && f(lines[k]) && forall i :: k < i < j ==> !f(lines[i])
    ensures LastBefore(lines, j, f) == Some(k)
  {
    if k + 1 < j { LastBeforeIs(lines, j - 1, f, k); }
  }

  lemma {:induction false} NoMatchBefore(lines: seq<string>, j: nat, f: string -> bool)
    requires j <= |lines| && NoMatch(lines, f)
    ensures LastBefore(lines, j, f) == None
  {
    if j > 0 { NoMatchBefore(lines, j - 1, f); }
  }

  lemma NoMatchNone(lines: seq<string>, f: string -> bool)
    requires NoMatch(lines, f)
    ensures LastWhere(lines, f) == None
  {
    NoMatchBefore(lines, |lines|, f);
  }

  lemma {:induction false} LastBeforeFront(a: seq<string>, b: seq<string>, j: nat, f: string -> bool)
    requires j <= |a|
    ensures LastBefore(a + b, j, f) == LastBefore(a, j, f)
  {
    if j > 0 {
      assert (a + b)[j - 1] == a[j - 1];
      LastBeforeFront(a, b, j - 1, f);
    }
  }

  lemma {:induction false} LastBeforeBack(a: seq<string>, b: seq<string>, j: nat, f: string -> bool)
    requires j <= |b|
    ensures LastBefore(a + b, |a| + j, f)
         == if LastBefore(b, j, f).Some? then Some(|a| + LastBefore(b, j, f).value) else LastWhere(a, f)
  {
    if j > 0 {
      assert (a + b)[|a| + j - 1] == b[j - 1];
      LastBeforeBack(a, b, j - 1, f);
    } else {
      LastBeforeFront(a, b, |a|, f);
    }
  }

  /** The last match in a concatenation. */
  lemma LastWhereConcat(a: seq<string>, b: seq<string>, f: string -> bool)
    ensures LastWhere(a + b, f) == if LastWhere(b, f).Some? then Some(|a| + LastWhere(b, f).value) else LastWhere(a, f)
  {
    LastBeforeBack(a, b, |b|, f);
  }
}
