/** JSON string literals and arrays of them (RFC 8259), as printed and parsed for Dockerfile exec forms. */
module JsonText {
  import opened Json
  import opened Text

  const HEX := "0123456789abcdef"

  function EscapeChar(c: char): string {
    if c == '"' then "\\\""
    else if c == '\\' then "\\\\"
    else if c == '\n' then "\\n"
    else if c == '\r' then "\\r"
    else if c == '\t' then "\\t"
    else if c == '\U{0008}' then "\\b"
    else if c == '\U{000C}' then "\\f"
    else if c < ' ' then "\\u00" + [HEX[c as int / 16], HEX[c as int % 16]]
    else [c]
  }

  function EscapeAll(s: string): string {
    if s == "" then "" else EscapeChar(s[0]) + EscapeAll(s[1..])
  }

  function Print(s: string): string {
    "\"" + EscapeAll(s) + "\""
  }

  function HexDigit(c: char): Option<int> {
    if '0' <= c <= '9' then Some(c as int - '0' as int)
    else if 'a' <= c <= 'f' then Some(c as int - 'a' as int + 10)
    else if 'A' <= c <= 'F' then Some(c as int - 'A' as int + 10)
    else None
  }

  function Hex4(t: string): Option<int> {
    if |t| < 4 || HexDigit(t[0]).None? || HexDigit(t[1]).None? || HexDigit(t[2]).None? || HexDigit(t[3]).None? then None
    else Some(HexDigit(t[0]).value * 4096 + HexDigit(t[1]).value * 256 + HexDigit(t[2]).value * 16 + HexDigit(t[3]).value)
  }

  /** A `\u` escape after its `u`: one code point, or a surrogate pair; lone surrogates are errors. */
  function ParseUnicode(t: string): (r: Option<(char, string)>)
    ensures r.Some? ==> |r.value.1| < |t|
  {
    match Hex4(t)
    case None => None
    case Some(hi) =>
      if 0 <= hi < 0xD800 || 0xE000 <= hi < 0x1_0000 then Some((hi as char, t[4..]))
      else if |t| >= 10 && 0xD800 <= hi < 0xDC00 && t[4..6] == "\\u" && Hex4(t[6..]).Some?
              && 0xDC00 <= Hex4(t[6..]).value < 0xE000 then
        Some(((0x1_0000 + (hi - 0xD800) * 0x400 + (Hex4(t[6..]).value - 0xDC00)) as char, t[10..]))
      else None
  }

  /** An escape after its backslash. */
  function ParseEscape(t: string): (r: Option<(char, string)>)
    ensures r.Some? ==> |r.value.1| < |t|
  {
    if t == "" then None
    else if t[0] == '"' || t[0] == '\\' || t[0] == '/' then Some((t[0], t[1..]))
    else if t[0] == 'n' then Some(('\n', t[1..]))
    else if t[0] == 'r' then Some(('\r', t[1..]))
    else if t[0] == 't' then Some(('\t', t[1..]))
    else if t[0] == 'b' then Some(('\U{0008}', t[1..]))
    else if t[0] == 'f' then Some(('\U{000C}', t[1..]))
    else if t[0] == 'u' then ParseUnicode(t[1..])
    else None
  }

  /** The text of a literal after its opening quote, and what follows its closing quote. */
  function ParseString(t: string): (r: Option<(string, string)>)
    ensures r.Some? ==> |r.value.1| < |t|
    decreases |t|
  {
    if t == "" then None
    else if t[0] == '"' then Some(("", t[1..]))
    else if t[0] < ' ' then None
    else
      var head := if t[0] == '\\' then ParseEscape(t[1..]) else Some((t[0], t[1..]));
      if head.None? then None
      else
        match ParseString(head.value.1)
        case None => None
        case Some((s, rest)) => Some(([head.value.0] + s, rest))
  }

  predicate IsJsonSpace(c: char) {
    c == ' ' || c == '\t' || c == '\n' || c == '\r'
  }

  function SkipSpace(t: string): (r: string)
    ensures |r| <= |t|
  {
    if t != "" && IsJsonSpace(t[0]) then SkipSpace(t[1..]) else t
  }

  /** The remaining elements, from the start of one up to the closing bracket. */
  function ParseElements(t: string): Option<seq<string>>
    decreases |t|
  {
    var t := SkipSpace(t);
    if t == "" || t[0] != '"' then None
    else
      match ParseString(t[1..])
      case None => None
      case Some((s, rest)) =>
        var rest := SkipSpace(rest);
        if rest == "" then None
        else if rest[0] == ',' then
          match ParseElements(rest[1..])
          case None => None
          case Some(more) => Some([s] + more)
        else if rest[0] == ']' && SkipSpace(rest[1..]) == "" then Some([s])
        else None
  }

  /** A JSON array of strings. */
  function ParseArray(t: string): Option<seq<string>> {
    var t := SkipSpace(t);
    if t == "" || t[0] != '[' then None
    else
      var rest := SkipSpace(t[1..]);
      if rest != "" && rest[0] == ']' then (if SkipSpace(rest[1..]) == "" then Some([]) else None)
      else ParseElements(t[1..])
  }

  // ----- Printing and parsing back -----

  lemma ControlParses(c: char, t: string)
    requires c < ' ' && |EscapeChar(c)| != 2
    ensures ParseEscape((EscapeChar(c) + t)[1..]) == Some((c, t))
  {
    var h, l := HEX[c as int / 16], HEX[c as int % 16];
    var u := "00" + [h, l] + t;
    var e := (EscapeChar(c) + t)[1..];
    assert e == "u" + u;
    assert e[1..] == u;
    ControlHex(c as int, t);
    assert u[4..] == t;
  }

  lemma EscapeParses(c: char, t: string)
    requires EscapeChar(c)[0] == '\\'
    ensures ParseEscape((EscapeChar(c) + t)[1..]) == Some((c, t))
  {
    if |EscapeChar(c)| == 2 {
      assert (EscapeChar(c) + t)[1..] == [EscapeChar(c)[1]] + t;
    } else {
      ControlParses(c, t);
    }
  }

  lemma ControlHex(n: int, t: string)
    requires 0 <= n < 32
    ensures Hex4("00" + [HEX[n / 16], HEX[n % 16]] + t) == Some(n)
  {
    HexValue(n / 16);
    HexValue(n % 16);
    HexValue(0);
  }

  lemma HexValue(d: int)
    requires 0 <= d < 16
    ensures HexDigit(HEX[d]) == Some(d)
  {
    assert HEX == ['0', '1', '2', '3', '4', '5', '6', '7', '8', '9', 'a', 'b', 'c', 'd', 'e', 'f'];
  }

  lemma CharParses(c: char, tail: string, s: string, rest: string)
    requires ParseString(tail) == Some((s, rest))
    ensures ParseString(EscapeChar(c) + tail) == Some(([c] + s, rest))
  {
    var t := EscapeChar(c) + tail;
    if EscapeChar(c)[0] == '\\' {
      EscapeParses(c, tail);
    } else {
      assert t[1..] == tail;
    }
  }

  /** A printed literal parses back to its text, whatever follows it. */
  lemma {:induction false} PrintParses(s: string, rest: string)
    ensures ParseString(EscapeAll(s) + "\"" + rest) == Some((s, rest))
  {
    if s == "" {
      assert EscapeAll(s) + "\"" + rest == "\"" + rest;
      assert ("\"" + rest)[1..] == rest;
    } else {
      var tail := EscapeAll(s[1..]) + "\"" + rest;
      PrintParses(s[1..], rest);
      CharParses(s[0], tail, s[1..], rest);
      Associative(EscapeChar(s[0]), EscapeAll(s[1..]), "\"");
      Associative(EscapeChar(s[0]), EscapeAll(s[1..]) + "\"", rest);
      assert s == [s[0]] + s[1..];
    }
  }

  function PrintAll(parts: seq<string>): seq<string> {
    if parts == [] then [] else [Print(parts[0])] + PrintAll(parts[1..])
  }

  lemma SpaceBefore(t: string)
    requires t != "" && t[0] == '"'
    ensures ParseElements(" " + t) == ParseElements(t)
  {
    assert (" " + t)[1..] == t;
    assert SkipSpace(t) == t && SkipSpace(" " + t) == t;
  }

  lemma LastElement(s: string)
    ensures ParseElements(Print(s) + "]") == Some([s])
  {
    PrintedHead(s, "]");
    assert SkipSpace("]") == "]" && "]"[1..] == "";
  }

  lemma PrintedHead(s: string, after: string)
    ensures var t := Print(s) + after; t[0] == '"' && SkipSpace(t) == t && ParseString(t[1..]) == Some((s, after))
  {
    var t := Print(s) + after;
    assert t[1..] == EscapeAll(s) + "\"" + after;
    PrintParses(s, after);
  }

  lemma OneMoreElement(s: string, after: string, parts: seq<string>)
    requires after != "" && after[0] == ',' && ParseElements(after[1..]) == Some(parts)
    ensures ParseElements(Print(s) + after) == Some([s] + parts)
  {
    PrintedHead(s, after);
    assert SkipSpace(after) == after;
  }

  /** The elements and the closing bracket of a printed array. */
  function Elements(parts: seq<string>): string {
    Join(PrintAll(parts), ", ") + "]"
  }

  lemma JoinStep(parts: seq<string>, sep: string)
    requires |parts| > 1
    ensures Join(parts, sep) == parts[0] + sep + Join(parts[1..], sep)
  {
  }

  lemma ElementsUnfold(parts: seq<string>)
    requires parts != []
    ensures |parts| == 1 ==> Elements(parts) == Print(parts[0]) + "]"
    ensures |parts| > 1 ==> Elements(parts) == Print(parts[0]) + (", " + Elements(parts[1..]))
  {
    var printed := PrintAll(parts);
    assert printed[1..] == PrintAll(parts[1..]);
    if |parts| == 1 {
      assert parts[1..] == [];
    } else {
      assert PrintAll(parts[1..]) != [];
      JoinStep(printed, ", ");
      var rest := Join(PrintAll(parts[1..]), ", ");
      Associative(Print(parts[0]) + ", ", rest, "]");
      Associative(Print(parts[0]), ", ", rest + "]");
    }
  }

  /** Elements joined by `, ` parse back to the same list. */
  lemma {:induction false} ElementsParse(parts: seq<string>)
    requires parts != []
    ensures Elements(parts)[0] == '"' && ParseElements(Elements(parts)) == Some(parts)
  {
    ElementsUnfold(parts);
    if |parts| == 1 {
      assert parts == [parts[0]];
      LastElement(parts[0]);
    } else {
      var more := Elements(parts[1..]);
      ElementsParse(parts[1..]);
      SpaceBefore(more);
      assert (", " + more)[1..] == " " + more;
      OneMoreElement(parts[0], ", " + more, parts[1..]);
      assert parts == [parts[0]] + parts[1..];
    }
  }

  /** A printed array parses back to its elements: no element can break out of it. */
  lemma ArrayParses(parts: seq<string>)
    ensures ParseArray("[" + Join(PrintAll(parts), ", ") + "]") == Some(parts)
  {
    var t := "[" + Join(PrintAll(parts), ", ") + "]";
    if parts == [] {
      assert t == "[]";
      assert t[1..] == "]" && t[1..][1..] == "";
    } else {
      ElementsParse(parts);
      assert t[1..] == Join(PrintAll(parts), ", ") + "]";
      assert SkipSpace(t) == t && SkipSpace(t[1..]) == t[1..];
    }
  }

  // ----- Unicode escapes -----

  function Hex4Text(n: nat): string
    requires n < 0x1_0000
  {
    [HEX[n / 0x1000], HEX[n / 0x100 % 0x10], HEX[n / 0x10 % 0x10], HEX[n % 0x10]]
  }

  lemma Nibbles(n: nat)
    ensures n == n / 0x1000 * 0x1000 + n / 0x100 % 0x10 * 0x100 + n / 0x10 % 0x10 * 0x10 + n % 0x10
  {
    var q := n / 0x10;
    var r := q / 0x10;
    assert r == n / 0x100 && r / 0x10 == n / 0x1000;
    assert q == r * 0x10 + q % 0x10 && r == r / 0x10 * 0x10 + r % 0x10;
  }

  lemma Hex4Of(n: nat, rest: string)
    requires n < 0x1_0000
    ensures Hex4(Hex4Text(n) + rest) == Some(n) && (Hex4Text(n) + rest)[4..] == rest
  {
    var t := Hex4Text(n) + rest;
    Nibbles(n);
    HexValue(n / 0x1000);
    HexValue(n / 0x100 % 0x10);
    HexValue(n / 0x10 % 0x10);
    HexValue(n % 0x10);
    assert t[0] == HEX[n / 0x1000] && t[1] == HEX[n / 0x100 % 0x10] && t[2] == HEX[n / 0x10 % 0x10] && t[3] == HEX[n % 0x10];
  }

  /** Four hexadecimal digits stand for the character with that number, unless it is half of a pair. */
  lemma UnicodeEscapeParses(n: nat, rest: string)
    requires n < 0xD800 || 0xE000 <= n < 0x1_0000
    ensures ParseUnicode(Hex4Text(n) + rest) == Some((n as char, rest))
  {
    Hex4Of(n, rest);
  }

  lemma PairParses(t: string, hi: int, lo: int, c: char, rest: string)
    requires |t| >= 10 && t[4..6] == "\\u" && t[10..] == rest
    requires Hex4(t) == Some(hi) && Hex4(t[6..]) == Some(lo)
    requires 0xD800 <= hi < 0xDC00 && 0xDC00 <= lo < 0xE000
    requires c as int == 0x1_0000 + (hi - 0xD800) * 0x400 + (lo - 0xDC00)
    ensures ParseUnicode(t) == Some((c, rest))
  {
  }

  lemma PairText(a: string, b: string, rest: string, t: string)
    requires |a| == 4 && |b| == 4 && t == a + ("\\u" + (b + rest))
    ensures |t| >= 10 && t[4..6] == "\\u" && t[6..] == b + rest && t[10..] == rest
  {
  }

  lemma Halves(m: nat, hi: int, lo: int)
    requires m < 0x10_0000 && hi == 0xD800 + m / 0x400 && lo == 0xDC00 + m % 0x400
    ensures 0xD800 <= hi < 0xDC00 && 0xDC00 <= lo < 0xE000 && m == (hi - 0xD800) * 0x400 + (lo - 0xDC00)
  {
  }

  /** A character beyond these is written as a pair. */
  lemma SurrogatePairParses(c: char, hi: nat, lo: nat, rest: string)
    requires c as int >= 0x1_0000
    requires hi == 0xD800 + (c as int - 0x1_0000) / 0x400 && lo == 0xDC00 + (c as int - 0x1_0000) % 0x400
    ensures hi < 0x1_0000 && lo < 0x1_0000
    ensures ParseUnicode(Hex4Text(hi) + ("\\u" + (Hex4Text(lo) + rest))) == Some((c, rest))
  {
    Halves(c as int - 0x1_0000, hi, lo);
    var t := Hex4Text(hi) + ("\\u" + (Hex4Text(lo) + rest));
    Hex4Of(hi, "\\u" + (Hex4Text(lo) + rest));
    Hex4Of(lo, rest);
    PairText(Hex4Text(hi), Hex4Text(lo), rest, t);
    PairParses(t, hi, lo, c, rest);
  }

  /** A raw control character is not allowed in a literal. */
  lemma RawControlRejected(a: string, c: char, rest: string)
    requires c < ' ' && forall i :: 0 <= i < |a| ==> a[i] >= ' ' && a[i] != '"' && a[i] != '\\'
    ensures ParseString(a + [c] + rest) == None
  {
    var t := a + [c] + rest;
    if a != "" {
      assert t[0] == a[0] && t[1..] == a[1..] + [c] + rest;
      RawControlRejected(a[1..], c, rest);
    }
  }

  /** Hexadecimal digits count the same in upper case. */
  lemma HexCase(c: char)
    requires 'A' <= c <= 'F'
    ensures HexDigit(c) == HexDigit((c as int + 32) as char) && HexDigit(c).Some?
  {
  }

  /** The two-character escapes. */
  lemma SimpleEscapes(t: string)
    ensures ParseEscape("\"" + t) == Some(('"', t)) && ParseEscape("\\" + t) == Some(('\\', t)) && ParseEscape("/" + t) == Some(('/', t))
    ensures ParseEscape("n" + t) == Some(('\n', t)) && ParseEscape("r" + t) == Some(('\r', t)) && ParseEscape("t" + t) == Some(('\t', t))
    ensures ParseEscape("b" + t) == Some(('\U{0008}', t)) && ParseEscape("f" + t) == Some(('\U{000C}', t))
  {
    assert ("\"" + t)[1..] == t && ("\\" + t)[1..] == t && ("/" + t)[1..] == t && ("n" + t)[1..] == t;
    assert ("r" + t)[1..] == t && ("t" + t)[1..] == t && ("b" + t)[1..] == t && ("f" + t)[1..] == t;
  }

  // ----- What follows an array -----

  lemma LastElementBefore(s: string, x: string)
    ensures ParseElements(Print(s) + ("]" + x)) == if SkipSpace(x) == "" then Some([s]) else None
  {
    PrintedHead(s, "]" + x);
    var rest := "]" + x;
    assert SkipSpace(rest) == rest && rest[1..] == x;
  }

  lemma MoreElements(s: string, after: string)
    requires after != "" && after[0] == ','
    ensures ParseElements(Print(s) + after) ==
      match ParseElements(after[1..])
      case None => None
      case Some(parts) => Some([s] + parts)
  {
    PrintedHead(s, after);
    assert SkipSpace(after) == after;
  }

  /** One more element in front of what is parsed already. */
  lemma OneMore(s: string, more: string, x: string, rest: Option<seq<string>>)
    requires more != "" && more[0] == '"' && ParseElements(more + x) == rest
    ensures ParseElements(Print(s) + (", " + more) + x) ==
      match rest
      case None => None
      case Some(parts) => Some([s] + parts)
  {
    var after := ", " + more + x;
    Associative(Print(s), ", " + more, x);
    assert after[1..] == " " + (more + x);
    SpaceBefore(more + x);
    MoreElements(s, after);
  }

  lemma OpensWithQuote(parts: seq<string>)
    requires parts != []
    ensures Elements(parts) != "" && Elements(parts)[0] == '"'
  {
    ElementsUnfold(parts);
  }

  /** Only white space may follow the closing bracket. */
  lemma {:induction false} ElementsThen(parts: seq<string>, x: string)
    requires parts != []
    ensures ParseElements(Elements(parts) + x) == if SkipSpace(x) == "" then Some(parts) else None
    decreases |parts|
  {
    ElementsUnfold(parts);
    if |parts| == 1 {
      assert parts == [parts[0]];
      Associative(Print(parts[0]), "]", x);
      LastElementBefore(parts[0], x);
    } else {
      ElementsThen(parts[1..], x);
      OpensWithQuote(parts[1..]);
      OneMore(parts[0], Elements(parts[1..]), x, ParseElements(Elements(parts[1..]) + x));
      assert parts == [parts[0]] + parts[1..];
    }
  }

  lemma OpensQuoted(u: string)
    requires u != "" && u[0] == '"'
    ensures ParseArray("[" + u) == ParseElements(u)
  {
    var t := "[" + u;
    assert t[1..] == u;
    assert SkipSpace(t) == t && SkipSpace(u) == u;
  }

  /** A printed array followed by anything but white space is not an array. */
  lemma TrailingTextRejected(parts: seq<string>, x: string)
    requires parts != [] && SkipSpace(x) != ""
    ensures ParseArray("[" + (Elements(parts) + x)) == None
  {
    ElementsThen(parts, x);
    OpensWithQuote(parts);
    OpensQuoted(Elements(parts) + x);
  }

  // ----- White space -----

  predicate Blank(w: string) {
    forall i :: 0 <= i < |w| ==> w[i] in {' ', '\t', '\n', '\r'}
  }

  lemma {:induction false} BlankSkipped(w: string, t: string)
    requires Blank(w)
    ensures SkipSpace(w + t) == SkipSpace(t)
  {
    if w == "" {
      assert w + t == t;
    } else {
      assert w[0] in {' ', '\t', '\n', '\r'} && (w + t)[0] == w[0] && (w + t)[1..] == w[1..] + t;
      BlankSkipped(w[1..], t);
    }
  }

  /** White space before an element or an array does not matter. */
  lemma BlankBefore(w: string, t: string)
    requires Blank(w)
    ensures ParseElements(w + t) == ParseElements(t)
    ensures ParseArray(w + t) == ParseArray(t)
  {
    BlankSkipped(w, t);
  }

  /** Brackets with nothing or white space between them are the empty array, if only white space follows. */
  lemma EmptyArray(w: string, x: string)
    requires Blank(w)
    ensures ParseArray("[" + (w + ("]" + x))) == if SkipSpace(x) == "" then Some([]) else None
  {
    var rest := "]" + x;
    var t := "[" + (w + rest);
    assert t[1..] == w + rest && rest[1..] == x;
    BlankSkipped(w, rest);
    assert SkipSpace(t) == t && SkipSpace(rest) == rest;
  }
}
