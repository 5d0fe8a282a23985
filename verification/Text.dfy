/** Plain text helpers shared by the builder's transformations. */
module Text {
  import opened Json

  /** Unicode white space. */
  predicate IsWhitespace(c: char) {
    var n := c as int;
    || 0x09 <= n <= 0x0D || n == 0x20 || n == 0x85 || n == 0xA0 || n == 0x1680
    || 0x2000 <= n <= 0x200A || n == 0x2028 || n == 0x2029 || n == 0x202F || n == 0x205F || n == 0x3000
  }

  function TrimStart(s: string): (r: string)
    ensures r == "" || !IsWhitespace(r[0])
  {
    if s != "" && IsWhitespace(s[0]) then TrimStart(s[1..]) else s
  }

  function TrimEnd(s: string): (r: string)
    ensures r <= s && (r == "" || !IsWhitespace(r[|r| - 1]))
  {
    if s != "" && IsWhitespace(s[|s| - 1]) then TrimEnd(s[..|s| - 1]) else s
  }

  function Trim(s: string): string {
    TrimEnd(TrimStart(s))
  }

  /** Some occurrence of `sub` in `s`. */
  predicate Contains(s: string, sub: string) {
    exists i {:trigger s[i..]} :: 0 <= i <= |s| && sub <= s[i..]
  }

  function Join(parts: seq<string>, sep: string): string {
    if parts == [] then "" else if |parts| == 1 then parts[0] else parts[0] + sep + Join(parts[1..], sep)
  }

  lemma Associative(a: string, b: string, c: string)
    ensures a + (b + c) == a + b + c
  {
  }

  lemma ContainsMiddle(a: string, sub: string, b: string)
    ensures Contains(a + sub + b, sub)
  {
    assert sub <= (a + sub + b)[|a|..];
  }

  lemma ContainsTransitive(t: string, s: string, sub: string)
    requires Contains(t, s) && Contains(s, sub)
    ensures Contains(t, sub)
  {
    var i :| 0 <= i <= |t| && s <= t[i..];
    var j :| 0 <= j <= |s| && sub <= s[j..];
    assert s == t[i..i + |s|];
    assert sub <= t[i + j..];
  }

  // ----- Upper case -----

  /** Upper case of one character, complete for every character whose upper case has an ASCII letter;
      the other characters stand for themselves. */
  function UpperChar(c: char): string {
    if 'a' <= c <= 'z' then [(c as int - 32) as char]
    else if c < '\U{0080}' then [c]
    else match c as int
      case 0x00DF => "SS"
      case 0x0131 => "I"
      case 0x0149 => "\U{02BC}N"
      case 0x017F => "S"
      case 0x01F0 => "J\U{030C}"
      case 0x1E96 => "H\U{0331}"
      case 0x1E97 => "T\U{0308}"
      case 0x1E98 => "W\U{030A}"
      case 0x1E99 => "Y\U{030A}"
      case 0x1E9A => "A\U{02BE}"
      case 0xFB00 => "FF"
      case 0xFB01 => "FI"
      case 0xFB02 => "FL"
      case 0xFB03 => "FFI"
      case 0xFB04 => "FFL"
      case 0xFB05 => "ST"
      case 0xFB06 => "ST"
      case _ => [c]
  }

  function Upper(s: string): string {
    if s == "" then "" else UpperChar(s[0]) + Upper(s[1..])
  }

  lemma {:induction false} UpperConcat(a: string, b: string)
    ensures Upper(a + b) == Upper(a) + Upper(b)
  {
    if a == "" {
      assert a + b == b;
    } else {
      UpperConcat(a[1..], b);
      assert (a + b)[1..] == a[1..] + b;
      assert (a + b)[0] == a[0];
      Associative(UpperChar(a[0]), Upper(a[1..]), Upper(b));
    }
  }

  // ----- Trimmed texts -----

  /** Neither end is white space. */
  predicate Trimmed(s: string) {
    s == "" || (!IsWhitespace(s[0]) && !IsWhitespace(s[|s| - 1]))
  }

  lemma TrimTrimmed(s: string)
    ensures Trimmed(Trim(s))
  {
  }

  lemma TrimmedTrim(s: string)
    requires Trimmed(s)
    ensures Trim(s) == s && TrimEnd(s) == s
  {
  }

  lemma {:induction false} TrimStartShorter(s: string)
    ensures |TrimStart(s)| <= |s|
  {
    if s != "" && IsWhitespace(s[0]) { TrimStartShorter(s[1..]); }
  }

  lemma TrimShorter(s: string)
    ensures |Trim(s)| <= |s|
  {
    TrimStartShorter(s);
  }

  /** White space at the end makes no difference. */
  lemma {:induction false} TrimSpace(s: string, c: char)
    requires IsWhitespace(c)
    ensures Trim(s + [c]) == Trim(s) && TrimEnd(s + [c]) == TrimEnd(s)
  {
    assert (s + [c])[..|s|] == s;
    if s == "" {
      assert (s + [c])[1..] == "";
    } else if IsWhitespace(s[0]) {
      assert (s + [c])[1..] == s[1..] + [c];
      TrimSpace(s[1..], c);
    }
  }

  /** A text that starts with something else is only trimmed at its end. */
  lemma TrimSuffix(s: string)
    requires s != "" && !IsWhitespace(s[0])
    ensures Trim(s) == TrimEnd(s) && Trim(s) <= s
  {
  }

  lemma {:induction false} TrimEndKeeps(s: string, k: nat)
    requires k < |s| && !IsWhitespace(s[k])
    ensures k < |TrimEnd(s)|
  {
    if IsWhitespace(s[|s| - 1]) { TrimEndKeeps(s[..|s| - 1], k); }
  }

  predicate AllSpace(s: string) {
    forall i :: 0 <= i < |s| ==> IsWhitespace(s[i])
  }

  lemma {:induction false} TrimStartSplits(s: string) returns (n: nat)
    ensures n <= |s| && AllSpace(s[..n]) && TrimStart(s) == s[n..]
  {
    if s != "" && IsWhitespace(s[0]) {
      n := TrimStartSplits(s[1..]);
      assert s[..n + 1] == [s[0]] + s[1..][..n] && s[n + 1..] == s[1..][n..];
      n := n + 1;
    } else {
      n := 0;
      assert s[0..] == s;
    }
  }

  lemma SpaceGrows(f: string, c: char, n: nat)
    requires n <= |f| && AllSpace(f[n..]) && IsWhitespace(c)
    ensures AllSpace((f + [c])[n..]) && (f + [c])[..n] == f[..n]
  {
    assert (f + [c])[n..] == f[n..] + [c];
  }

  lemma {:induction false} TrimEndSplits(s: string)
    ensures TrimEnd(s) == s[..|TrimEnd(s)|] && AllSpace(s[|TrimEnd(s)|..])
  {
    if s != "" && IsWhitespace(s[|s| - 1]) {
      var f, c := s[..|s| - 1], s[|s| - 1];
      TrimEndSplits(f);
      assert s == f + [c];
      SpaceGrows(f, c, |TrimEnd(f)|);
    }
  }

  lemma {:induction false} TrimEndAt(s: string, n: nat)
    requires n < |s| && !IsWhitespace(s[n]) && AllSpace(s[n + 1..])
    ensures TrimEnd(s) == s[..n + 1]
  {
    if n + 1 < |s| {
      var f := s[..|s| - 1];
      assert s[n + 1..][|s| - 2 - n] == s[|s| - 1];
      assert f[n + 1..] == s[n + 1..][..|s| - 2 - n];
      TrimEndAt(f, n);
      assert f[..n + 1] == s[..n + 1];
    } else {
      assert s[..n + 1] == s;
    }
  }

  /** Trimming takes away white space at both ends and nothing else. */
  lemma TrimSplits(s: string)
    ensures exists a, b :: s == a + Trim(s) + b && AllSpace(a) && AllSpace(b)
    ensures Trimmed(Trim(s))
  {
    var n := TrimStartSplits(s);
    TrimEndSplits(TrimStart(s));
    var a, t := s[..n], s[n..];
    var b := t[|Trim(s)|..];
    assert s == a + t && t == Trim(s) + b;
    assert s == a + Trim(s) + b;
    TrimTrimmed(s);
  }

  lemma {:induction false} TrimStartSkips(a: string, t: string)
    requires AllSpace(a)
    ensures TrimStart(a + t) == TrimStart(t)
  {
    if a == "" {
      assert a + t == t;
    } else {
      assert (a + t)[0] == a[0] && (a + t)[1..] == a[1..] + t;
      TrimStartSkips(a[1..], t);
    }
  }

  /** Trimming finds the text between the white space. */
  lemma TrimOf(a: string, s: string, b: string)
    requires AllSpace(a) && AllSpace(b) && Trimmed(s)
    ensures Trim(a + s + b) == s
  {
    Associative(a, s, b);
    TrimStartSkips(a, s + b);
    if s == "" {
      assert s + b == b && b + "" == b;
      TrimStartSkips(b, "");
    } else {
      var n := |s| - 1;
      assert (s + b)[n + 1..] == b;
      TrimEndAt(s + b, n);
      assert (s + b)[..n + 1] == s;
    }
  }

  // ----- The part before a separator -----

  /** The text before the first occurrence of `sub`, or all of it. */
  function Before(s: string, sub: string): string {
    if s == "" || sub <= s then "" else [s[0]] + Before(s[1..], sub)
  }

  /** It is a prefix, no longer than the position of any occurrence. */
  lemma {:induction false} BeforeFirst(s: string, sub: string)
    ensures Before(s, sub) <= s
    ensures forall i {:trigger s[i..]} :: 0 <= i <= |s| && sub <= s[i..] ==> |Before(s, sub)| <= i
  {
    if s != "" && !(sub <= s) {
      BeforeFirst(s[1..], sub);
      assert s[0..] == s;
      forall i | 0 < i <= |s| && sub <= s[i..] ensures |Before(s, sub)| <= i { assert s[1..][i - 1..] == s[i..]; }
    }
  }

  /** It stops early only at an occurrence. */
  lemma {:induction false} BeforeStops(s: string, sub: string)
    ensures |Before(s, sub)| < |s| ==> sub <= s[|Before(s, sub)|..]
    ensures |Before(s, sub)| <= |s|
  {
    if s != "" && !(sub <= s) {
      BeforeStops(s[1..], sub);
      assert s[1..][|Before(s[1..], sub)|..] == s[|Before(s, sub)|..];
    }
  }

  lemma BeforeNone(s: string, sub: string)
    requires !Contains(s, sub)
    ensures Before(s, sub) == s
  {
    BeforeFirst(s, sub);
    BeforeStops(s, sub);
  }

  lemma PrefixOfPrefix(a: string, b: string, c: string)
    ensures a <= b <= c ==> a <= c
  {
  }

  lemma OccursInPrefix(b: string, s: string, sub: string, i: nat)
    requires b <= s && i <= |b| && sub <= b[i..]
    ensures sub <= s[i..] && i + |sub| <= |b|
  {
    assert b[i..] <= s[i..];
    PrefixOfPrefix(sub, b[i..], s[i..]);
  }

  /** It has no occurrence of its own. */
  lemma BeforeFree(s: string, sub: string)
    requires sub != ""
    ensures !Contains(Before(s, sub), sub)
  {
    BeforeFirst(s, sub);
    var b := Before(s, sub);
    forall i | 0 <= i <= |b| ensures !(sub <= b[i..]) {
      if sub <= b[i..] { OccursInPrefix(b, s, sub, i); }
    }
  }

  lemma BeforeAt(s: string, sub: string, k: nat)
    requires k <= |s| && sub <= s[k..] && forall i {:trigger s[i..]} :: 0 <= i < k ==> !(sub <= s[i..])
    ensures Before(s, sub) == s[..k]
  {
    BeforeFirst(s, sub);
    BeforeStops(s, sub);
  }
}
