/** The renamed `FROM` line, and what renaming it again does. */
module Renaming {
  import opened Json
  import opened Text
  import opened Lines
  import opened NamedStage

  /** The image part of a `FROM` line: what comes before its first upper-case ` AS `, trimmed. */
  function Base(line: string): string {
    Trim(Before(Trim(line), AS))
  }

  /** A usable stage name: one line, and neither white space nor a backslash at its end. */
  predicate IsStageName(name: string) {
    name != "" && NoLf(name) && !IsWhitespace(name[|name| - 1]) && name[|name| - 1] != '\\'
  }

  lemma UpperOfAs()
    ensures Upper(AS) == AS
  {
    assert AS == [' ', 'A', 'S', ' '];
    assert AS[1..] == ['A', 'S', ' '] && AS[1..][1..] == ['S', ' '] && AS[1..][1..][1..] == [' '];
    assert AS[1..][1..][1..][1..] == "";
    assert Upper([' ']) == " ";
    assert Upper(['S', ' ']) == "S ";
    assert Upper(['A', 'S', ' ']) == "AS ";
  }

  lemma UpperContains(t: string)
    requires Contains(t, AS)
    ensures Contains(Upper(t), AS)
  {
    var i :| 0 <= i <= |t| && AS <= t[i..];
    var a, b := t[..i], t[i + 4..];
    assert t == a + AS + b;
    UpperConcat(a + AS, b);
    UpperConcat(a, AS);
    UpperOfAs();
    ContainsMiddle(Upper(a), AS, Upper(b));
  }

  /** In every branch the new line is the image part, ` AS ` and the name. */
  lemma NamedForm(line: string, name: string)
    ensures Named(line, name) == Base(line) + AS + name
  {
    var t := Trim(line);
    if !Contains(Upper(t), AS) {
      if Contains(t, AS) { UpperContains(t); }
      BeforeNone(t, AS);
      TrimTrimmed(line);
      TrimmedTrim(t);
    }
  }

  // ----- It is a `FROM` line again -----

  /** The letters of `FROM` in either case and a space. */
  predicate FromShape(t: string) {
    && |t| >= 5 && UpperChar(t[0]) == "F" && UpperChar(t[1]) == "R" && UpperChar(t[2]) == "O" && UpperChar(t[3]) == "M"
    && t[4] == ' '
  }

  lemma UpperCharOf(x: char)
    ensures UpperChar(x) != ""
    ensures UpperChar(x)[0] in {'R', 'O', 'M', ' '} ==> |UpperChar(x)| == 1
    ensures UpperChar(x)[0] == 'F' ==> |UpperChar(x)| == 1 || UpperChar(x)[1] in {'F', 'I', 'L'}
  {
  }

  lemma UpperUnfold(t: string, u: string)
    requires t != "" && u == UpperChar(t[0])
    ensures u != "" && Upper(t) == u + Upper(t[1..]) && Upper(t)[0] == u[0]
  {
    UpperCharOf(t[0]);
  }

  lemma UpperHead(t: string, c: char, rest: string)
    requires c in {'R', 'O', 'M', ' '} && [c] + rest <= Upper(t)
    ensures t != "" && UpperChar(t[0]) == [c] && rest <= Upper(t[1..])
  {
    var u := Upper(t);
    assert u[0] == c;
    UpperUnfold(t, UpperChar(t[0]));
    UpperCharOf(t[0]);
    assert u[1..] == Upper(t[1..]);
    assert rest == ([c] + rest)[1..];
  }

  lemma UpperHeadF(t: string)
    requires "FROM " <= Upper(t)
    ensures t != "" && UpperChar(t[0]) == "F" && "ROM " <= Upper(t[1..])
  {
    var u := Upper(t);
    assert u[0] == 'F' && u[1] == 'R';
    UpperUnfold(t, UpperChar(t[0]));
    UpperCharOf(t[0]);
    assert u[1..] == Upper(t[1..]);
    assert "FROM "[1..] == "ROM ";
  }

  lemma FromHasShape(t: string)
    requires "FROM " <= Upper(t)
    ensures FromShape(t)
  {
    UpperHeadF(t);
    assert "ROM " == ['R'] + "OM " && "OM " == ['O'] + "M " && "M " == ['M'] + " " && " " == [' '] + "";
    UpperHead(t[1..], 'R', "OM ");
    UpperHead(t[1..][1..], 'O', "M ");
    UpperHead(t[1..][1..][1..], 'M', " ");
    UpperHead(t[1..][1..][1..][1..], ' ', "");
    assert t[1..][1..] == t[2..] && t[2..][1..] == t[3..] && t[3..][1..] == t[4..];
    OnlySpace(t[4]);
  }

  lemma OnlySpace(x: char)
    ensures UpperChar(x) == " " <==> x == ' '
  {
  }

  lemma UpperOfHead(t: string, c: char, rest: string)
    requires t != "" && UpperChar(t[0]) == [c] && rest <= Upper(t[1..])
    ensures [c] + rest <= Upper(t)
  {
  }

  lemma ShapeIsFrom(t: string)
    requires FromShape(t)
    ensures "FROM " <= Upper(t)
  {
    OnlySpace(t[4]);
    assert t[4..][0] == ' ' && t[3..][1..] == t[4..] && t[2..][1..] == t[3..] && t[1..][1..] == t[2..];
    UpperOfHead(t[4..], ' ', "");
    UpperOfHead(t[3..], 'M', " ");
    UpperOfHead(t[2..], 'O', "M ");
    UpperOfHead(t[1..], 'R', "OM ");
    UpperOfHead(t, 'F', "ROM ");
    assert [' '] + "" == " " && ['M'] + " " == "M " && ['O'] + "M " == "OM " && ['R'] + "OM " == "ROM ";
    assert ['F'] + "ROM " == "FROM ";
  }

  lemma LettersNotSpace(x: char)
    requires UpperChar(x) in {"F", "R", "O", "M"}
    ensures !IsWhitespace(x)
  {
  }

  /** FROM in any letter case, and a space. */
  predicate FromLetters(t: string) {
    |t| >= 5 && t[0] in {'f', 'F'} && t[1] in {'r', 'R'} && t[2] in {'o', 'O'} && t[3] in {'m', 'M'} && t[4] == ' '
  }

  lemma FromChar(x: char)
    ensures UpperChar(x) == "F" <==> x in {'f', 'F'}
    ensures UpperChar(x) == "R" <==> x in {'r', 'R'}
    ensures UpperChar(x) == "O" <==> x in {'o', 'O'}
    ensures UpperChar(x) == "M" <==> x in {'m', 'M'}
  {
  }

  lemma ShapeIffLetters(t: string)
    ensures FromShape(t) <==> FromLetters(t)
  {
    if |t| >= 5 {
      FromChar(t[0]);
      FromChar(t[1]);
      FromChar(t[2]);
      FromChar(t[3]);
    }
  }

  lemma BeforeLength(t: string)
    requires FromShape(t)
    ensures 4 <= |Before(t, AS)| && Before(t, AS) <= t
  {
    BeforeFirst(t, AS);
    BeforeStops(t, AS);
    var n := |Before(t, AS)|;
    LettersNotSpace(t[0]);
    LettersNotSpace(t[1]);
    LettersNotSpace(t[2]);
    LettersNotSpace(t[3]);
    assert forall i :: 0 <= i < 4 ==> !IsWhitespace(t[i]);
    assert n < |t| ==> t[n..][0] == AS[0] == ' ';
  }

  lemma PrefixFree(a: string, b: string, sub: string)
    requires a <= b && !Contains(b, sub)
    ensures !Contains(a, sub)
  {
    forall i | 0 <= i <= |a| ensures !(sub <= a[i..]) {
      assert a[i..] <= b[i..];
      PrefixOfPrefix(sub, a[i..], b[i..]);
    }
  }

  /** The image part keeps the letters of `FROM` and has no ` AS ` of its own. */
  lemma BaseShape(line: string)
    requires IsFrom(line)
    ensures var base := Base(line); 4 <= |base| && base <= Trim(line) && Trimmed(base) && !Contains(base, AS)
    ensures FromShape(Trim(line))
  {
    var t := Trim(line);
    FromHasShape(t);
    BeforeLength(t);
    var b := Before(t, AS);
    LettersNotSpace(t[0]);
    LettersNotSpace(t[3]);
    TrimSuffix(b);
    TrimEndKeeps(b, 3);
    TrimTrimmed(b);
    BeforeFree(t, AS);
    PrefixFree(Base(line), b, AS);
  }

  /** The renamed line is a trimmed, uncontinued `FROM` line. */
  lemma NamedShape(line: string, name: string)
    requires IsFrom(line) && IsStageName(name)
    ensures var n := Named(line, name); Trim(n) == n && IsFrom(n) && !Continues(n) && n != "" && !EndsInCr(n)
  {
    BaseShape(line);
    NamedForm(line, name);
    var base, t, n := Base(line), Trim(line), Named(line, name);
    assert n == base + (AS + name);
    assert base[..4] == t[..4];
    assert forall i :: 0 <= i < 4 ==> n[i] == t[i];
    assert n[4] == ' ' by {
      if |base| > 4 { assert base[4] == t[4]; } else { assert n[4] == AS[0]; }
    }
    assert FromShape(n);
    LettersNotSpace(t[0]);
    assert n[|n| - 1] == name[|name| - 1];
    TrimmedTrim(n);
    ShapeIsFrom(n);
  }

  // ----- Renaming twice -----

  predicate EndsInAs(s: string) {
    |s| >= 3 && s[|s| - 3..] == " AS"
  }

  /** An ` AS ` before the one put in lies in the image part or overlaps its end. */
  lemma AsPosition(base: string, name: string, i: nat)
    requires i < |base| && Trimmed(base) && AS <= (base + (AS + name))[i..]
    ensures AS <= base[i..] || (i == |base| - 3 && EndsInAs(base))
  {
    var n := base + (AS + name);
    assert n[i..][0] == AS[0] && n[i..][1] == AS[1] && n[i..][2] == AS[2] && n[i..][3] == AS[3];
    assert n[i] == ' ' && n[i + 1] == 'A' && n[i + 2] == 'S' && n[i + 3] == ' ';
    assert n[|base|] == AS[0];
    if i + 4 <= |base| {
      assert base[i..][..4] == AS;
    } else {
      assert base[i..] == [' ', 'A', 'S'];
    }
  }

  lemma BeforeNamed(base: string, name: string)
    requires Trimmed(base) && !Contains(base, AS)
    ensures !EndsInAs(base) ==> Before(base + (AS + name), AS) == base
    ensures EndsInAs(base) ==> |Before(base + (AS + name), AS)| < |base|
  {
    var n := base + (AS + name);
    if EndsInAs(base) {
      var k := |base| - 3;
      assert n[k..] == " AS" + (AS + name);
      assert AS <= n[k..];
      BeforeFirst(n, AS);
    } else {
      forall i | 0 <= i < |base| ensures !(AS <= n[i..]) {
        if AS <= n[i..] { AsPosition(base, name, i); }
      }
      assert n[|base|..] == AS + name;
      BeforeAt(n, AS, |base|);
      assert n[..|base|] == base;
    }
  }

  lemma BaseOfNamed(line: string, name: string)
    requires IsFrom(line) && IsStageName(name)
    ensures !EndsInAs(Base(line)) ==> Base(Named(line, name)) == Base(line)
    ensures EndsInAs(Base(line)) ==> |Base(Named(line, name))| < |Base(line)|
  {
    var n := Named(line, name);
    BaseShape(line);
    NamedShape(line, name);
    NamedForm(line, name);
    assert n == Base(line) + (AS + name);
    BeforeNamed(Base(line), name);
    TrimmedTrim(Base(line));
    TrimShorter(Before(n, AS));
  }

  /** Renaming a renamed line leaves it alone exactly when its image part does not end in ` AS`. */
  lemma RenameTwice(line: string, name: string)
    requires IsFrom(line) && IsStageName(name)
    ensures Named(Named(line, name), name) == Named(line, name) <==> !EndsInAs(Base(line))
  {
    NamedForm(line, name);
    NamedForm(Named(line, name), name);
    BaseOfNamed(line, name);
    var b, b' := Base(line), Base(Named(line, name));
    assert b' != b ==> |b' + AS + name| < |b + AS + name|;
  }

  // ----- What the image part is -----

  lemma AsInside(image: string, rest: string, i: nat)
    requires i < |image| && AS <= (image + AS + rest)[i..]
    ensures Contains(image + " AS", AS)
  {
    var t, u := image + AS + rest, image + " AS";
    assert t[i..i + 4] == t[i..][..4];
    assert t[..|u|] == u;
    assert u[i..i + 4] == t[i..i + 4];
    assert AS <= u[i..];
  }

  /** A line with a stage name: the image part is what stands before the first ` AS `. */
  lemma BaseBeforeAs(line: string, image: string, rest: string)
    requires Trim(line) == image + AS + rest && Trimmed(image) && !Contains(image + " AS", AS)
    ensures Base(line) == image
  {
    var t := Trim(line);
    forall i | 0 <= i < |image| ensures !(AS <= t[i..]) {
      if AS <= t[i..] { AsInside(image, rest, i); }
    }
    assert t[|image|..] == AS + rest;
    BeforeAt(t, AS, |image|);
    assert t[..|image|] == image;
    TrimmedTrim(image);
  }

  /** A line without one: all of it. */
  lemma BaseWithoutAs(line: string)
    requires !Contains(Trim(line), AS)
    ensures Base(line) == Trim(line)
  {
    BeforeNone(Trim(line), AS);
    TrimTrimmed(line);
    TrimmedTrim(Trim(line));
  }
}
