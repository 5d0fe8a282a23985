/** What the tokens of a command line are: an independent grammar for the tokenizer. */
module Words {
  import opened Json
  import opened Text
  import opened Command

  /** A command line in pieces: white space between words, bare characters, quoted text, and at the very end
      possibly a quote that is never closed. */
  datatype Piece = Gap(c: char) | Bare(c: char) | Quoted(q: char, text: string) | Unclosed(q: char, text: string)

  type Line = seq<Piece>

  predicate PieceOk(p: Piece) {
    match p
    case Gap(c) => IsWhitespace(c)
    case Bare(c) => !IsWhitespace(c) && !IsQuote(c)
    case Quoted(q, text) => IsQuote(q) && q !in text
    case Unclosed(q, text) => IsQuote(q) && q !in text
  }

  /** Every piece is well formed, and an unclosed quote comes last. */
  predicate LineOk(line: Line) {
    && (forall i :: 0 <= i < |line| ==> PieceOk(line[i]))
    && (forall i :: 0 <= i < |line| - 1 ==> !line[i].Unclosed?)
  }

  function PieceText(p: Piece): string {
    match p
    case Gap(c) => [c]
    case Bare(c) => [c]
    case Quoted(q, text) => [q] + text + [q]
    case Unclosed(q, text) => [q] + text
  }

  function LineText(line: Line, i: nat): string
    requires i <= |line|
    decreases |line| - i
  {
    if i == |line| then "" else PieceText(line[i]) + LineText(line, i + 1)
  }

  /** What a piece adds to its word: quotes are taken off. */
  function Meaning(p: Piece): string {
    match p
    case Gap(_) => ""
    case Bare(c) => [c]
    case Quoted(_, text) => text
    case Unclosed(_, text) => text
  }

  /** Where the word that piece `i` belongs to ends. */
  function WordEnd(line: Line, i: nat): (e: nat)
    requires i <= |line|
    ensures i <= e <= |line|
    ensures i < |line| && !line[i].Gap? ==> i < e
    decreases |line| - i
  {
    if i == |line| || line[i].Gap? then i else WordEnd(line, i + 1)
  }

  function WordText(line: Line, i: nat, e: nat): string
    requires i <= e <= |line|
    decreases e - i
  {
    if i == e then "" else Meaning(line[i]) + WordText(line, i + 1, e)
  }

  /** The words: the texts of the longest runs of pieces without white space between them. */
  function WordsOf(line: Line, i: nat): seq<string>
    requires i <= |line|
    decreases |line| - i
  {
    if i == |line| then []
    else if line[i].Gap? then WordsOf(line, i + 1)
    else [WordText(line, i, WordEnd(line, i))] + WordsOf(line, WordEnd(line, i))
  }

  // ----- One piece -----

  lemma FeedPiece(l: Lexer, p: Piece)
    requires l.quote.None? && PieceOk(p)
    ensures FeedAll(l, PieceText(p)) ==
      match p
      case Gap(_) => if l.inToken then Lexer(l.tokens + [l.cur], "", None, false) else l
      case Bare(c) => l.(cur := l.cur + [c], inToken := true)
      case Quoted(_, text) => l.(cur := l.cur + text, inToken := true)
      case Unclosed(q, text) => l.(cur := l.cur + text, inToken := true, quote := Some(q))
  {
    match p
    case Gap(c) => FeedOne(l, c);
    case Bare(c) => FeedOne(l, c);
    case Quoted(q, text) =>
      FeedInside(l, q, text);
      FeedConcat(l, [q] + text, [q]);
      FeedOne(FeedAll(l, [q] + text), q);
    case Unclosed(q, text) => FeedInside(l, q, text);
  }

  lemma FeedInside(l: Lexer, q: char, text: string)
    requires l.quote.None? && IsQuote(q) && q !in text
    ensures FeedAll(l, [q] + text) == l.(cur := l.cur + text, inToken := true, quote := Some(q))
  {
    FeedOne(l, q);
    FeedConcat(l, [q], text);
    FeedQuoted(Feed(l, q), text);
  }

  // ----- The whole line -----

  /** What is found in the rest of a line when a word is under way with `cur` read of it. */
  lemma {:induction false} FeedWord(l: Lexer, line: Line, i: nat)
    requires LineOk(line) && i <= |line| && l.quote.None? && l.inToken
    ensures var e := WordEnd(line, i);
            Finish(FeedAll(l, LineText(line, i))) == l.tokens + [l.cur + WordText(line, i, e)] + WordsOf(line, e)
    decreases |line| - i, 0
  {
    if i == |line| {
      assert l.cur + "" == l.cur;
    } else {
      FeedConcat(l, PieceText(line[i]), LineText(line, i + 1));
      FeedPiece(l, line[i]);
      var next := FeedAll(l, PieceText(line[i]));
      if line[i].Gap? {
        FeedBetween(next, line, i + 1);
        assert l.cur + "" == l.cur;
      } else if line[i].Unclosed? {
        assert i + 1 == |line|;
        assert WordText(line, i, i + 1) == line[i].text + "" == line[i].text;
      } else {
        FeedWord(next, line, i + 1);
        Associative(l.cur, Meaning(line[i]), WordText(line, i + 1, WordEnd(line, i)));
      }
    }
  }

  /** A piece that is not white space starts a word. */
  lemma StartsWord(l: Lexer, p: Piece)
    requires l.quote.None? && PieceOk(p) && !p.Gap?
    ensures FeedAll(l, PieceText(p)) == FeedAll(l.(inToken := true), PieceText(p))
  {
    FeedPiece(l, p);
    FeedPiece(l.(inToken := true), p);
  }

  lemma FeedFirst(l: Lexer, line: Line, i: nat)
    requires LineOk(line) && i < |line| && l.quote.None? && !l.inToken && l.cur == ""
    ensures FeedAll(l, LineText(line, i)) ==
      if line[i].Gap? then FeedAll(l, LineText(line, i + 1)) else FeedAll(l.(inToken := true), LineText(line, i))
  {
    FeedConcat(l, PieceText(line[i]), LineText(line, i + 1));
    if line[i].Gap? {
      FeedPiece(l, line[i]);
    } else {
      StartsWord(l, line[i]);
      FeedConcat(l.(inToken := true), PieceText(line[i]), LineText(line, i + 1));
    }
  }

  lemma WordsStep(line: Line, i: nat)
    requires i < |line|
    ensures WordsOf(line, i) ==
      if line[i].Gap? then WordsOf(line, i + 1) else [WordText(line, i, WordEnd(line, i))] + WordsOf(line, WordEnd(line, i))
  {
  }

  /** And when none is. */
  lemma {:induction false} FeedBetween(l: Lexer, line: Line, i: nat)
    requires LineOk(line) && i <= |line| && l.quote.None? && !l.inToken && l.cur == ""
    ensures Finish(FeedAll(l, LineText(line, i))) == l.tokens + WordsOf(line, i)
    decreases |line| - i, 1
  {
    if i < |line| {
      FeedFirst(l, line, i);
      WordsStep(line, i);
      if line[i].Gap? {
        FeedBetween(l, line, i + 1);
      } else {
        FeedWord(l.(inToken := true), line, i);
        Regrouped(l.tokens, WordText(line, i, WordEnd(line, i)), WordsOf(line, WordEnd(line, i)));
      }
    }
  }

  lemma Regrouped(tokens: seq<string>, word: string, rest: seq<string>)
    ensures tokens + ["" + word] + rest == tokens + ([word] + rest)
  {
    assert "" + word == word;
  }

  /** However a command line is written in pieces, its tokens are the words of those pieces. */
  lemma TokensAreWords(line: Line)
    requires LineOk(line)
    ensures Tokens(LineText(line, 0)) == WordsOf(line, 0)
  {
    FeedBetween(START, line, 0);
  }

  // ----- Every text is such a line -----

  /** How much of `s` comes before the first `q`, if there is one. */
  function Closing(s: string, q: char): (n: nat)
    ensures n <= |s| && q !in s[..n] && (n < |s| ==> s[n] == q)
  {
    if s == "" || s[0] == q then 0
    else
      var n := Closing(s[1..], q);
      assert s[..n + 1] == [s[0]] + s[1..][..n];
      n + 1
  }

  function PiecesOf(s: string): Line
    decreases |s|
  {
    if s == "" then []
    else if IsQuote(s[0]) then
      var n := Closing(s[1..], s[0]);
      if n == |s| - 1 then [Unclosed(s[0], s[1..])] else [Quoted(s[0], s[1..][..n])] + PiecesOf(s[n + 2..])
    else [if IsWhitespace(s[0]) then Gap(s[0]) else Bare(s[0])] + PiecesOf(s[1..])
  }

  lemma SameText(a: Line, i: nat, b: Line, j: nat)
    requires i < |a| && j < |b| && a[i] == b[j] && LineText(a, i + 1) == LineText(b, j + 1)
    ensures LineText(a, i) == LineText(b, j)
  {
  }

  lemma {:induction false} LineTextShift(longer: Line, line: Line, i: nat)
    requires 1 <= |longer| && longer[1..] == line && i <= |line|
    ensures LineText(longer, i + 1) == LineText(line, i)
    decreases |line| - i
  {
    if i < |line| {
      LineTextShift(longer, line, i + 1);
      assert longer[1..][i] == longer[i + 1];
      SameText(longer, i + 1, line, i);
    }
  }

  lemma ConsOk(p: Piece, line: Line)
    requires PieceOk(p) && !p.Unclosed? && LineOk(line)
    ensures LineOk([p] + line) && LineText([p] + line, 0) == PieceText(p) + LineText(line, 0)
  {
    LineTextShift([p] + line, line, 0);
  }

  lemma UnclosedOk(s: string)
    requires s != "" && IsQuote(s[0]) && s[0] !in s[1..]
    ensures var line := [Unclosed(s[0], s[1..])]; LineOk(line) && LineText(line, 0) == s
  {
    var line := [Unclosed(s[0], s[1..])];
    assert LineText(line, 1) == "";
    assert [s[0]] + s[1..] + "" == s;
  }

  lemma QuotedOk(s: string, n: nat, rest: Line)
    requires n + 2 <= |s| && IsQuote(s[0]) && s[0] !in s[1..][..n] && s[n + 1] == s[0]
    requires LineOk(rest) && LineText(rest, 0) == s[n + 2..]
    ensures var line := [Quoted(s[0], s[1..][..n])] + rest; LineOk(line) && LineText(line, 0) == s
  {
    ConsOk(Quoted(s[0], s[1..][..n]), rest);
    InThree(s, n, s[0]);
  }

  lemma InThree(s: string, n: nat, q: char)
    requires n + 2 <= |s| && s[0] == q && s[n + 1] == q
    ensures [q] + s[1..][..n] + [q] + s[n + 2..] == s
  {
  }

  lemma {:induction false} PiecesFacts(s: string)
    ensures LineOk(PiecesOf(s)) && LineText(PiecesOf(s), 0) == s
    decreases |s|
  {
    if s == "" {
    } else if IsQuote(s[0]) {
      var n := Closing(s[1..], s[0]);
      if n == |s| - 1 {
        assert s[1..][..n] == s[1..];
        UnclosedOk(s);
      } else {
        PiecesFacts(s[n + 2..]);
        QuotedOk(s, n, PiecesOf(s[n + 2..]));
      }
    } else {
      PiecesFacts(s[1..]);
      ConsOk(if IsWhitespace(s[0]) then Gap(s[0]) else Bare(s[0]), PiecesOf(s[1..]));
      assert [s[0]] + s[1..] == s;
    }
  }

  /** A text has the tokens `tokens` if and only if it can be written in pieces whose words they are. */
  lemma TokensIff(s: string, tokens: seq<string>)
    ensures Tokens(s) == tokens <==> exists line: Line :: LineOk(line) && LineText(line, 0) == s && WordsOf(line, 0) == tokens
  {
    PiecesFacts(s);
    TokensAreWords(PiecesOf(s));
    if line: Line :| LineOk(line) && LineText(line, 0) == s && WordsOf(line, 0) == tokens { TokensAreWords(line); }
  }
}
