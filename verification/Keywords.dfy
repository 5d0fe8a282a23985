/** Which texts spell a Dockerfile keyword in any letter case, character by character. */
module Keywords {
  import opened Text

  /** The character is the letter `u` in either case, or a special character whose upper case is or, at the
      end of the word, starts with it: dotless i, long s, and t with diaeresis. */
  predicate SpellsLetter(c: char, u: char, last: bool) {
    || c == u || c as int == u as int + 32
    || (u == 'I' && c == '\U{0131}') || (u == 'S' && c == '\U{017F}') || (last && u == 'T' && c == '\U{1E97}')
  }

  predicate Spells(t: string, word: string) {
    |word| <= |t| && forall i :: 0 <= i < |word| ==> SpellsLetter(t[i], word[i], i == |word| - 1)
  }

  const LETTERS := {'C', 'M', 'D', 'E', 'N', 'T', 'R', 'Y', 'P', 'O', 'I', 'X', 'S'}

  predicate PlainAt(word: string, i: nat)
    requires i < |word|
  {
    && word[i] in LETTERS
    && (word[i] == 'S' ==> i + 1 < |word| && word[i + 1] != 'S' && word[i + 1] != 'T')
    && (word[i] == 'Y' ==> i + 1 < |word|)
  }

  /** The letters of the keywords, and none where a ligature or an accented letter could stand for two. */
  predicate PlainWord(word: string) {
    forall i :: 0 <= i < |word| ==> PlainAt(word, i)
  }

  lemma PlainTail(word: string)
    requires word != "" && PlainWord(word)
    ensures PlainWord(word[1..])
  {
    forall i | 0 <= i < |word| - 1 ensures PlainAt(word[1..], i) {
      assert PlainAt(word, i + 1);
    }
  }

  lemma SingleUpper(x: char, u: char)
    requires u in LETTERS
    ensures UpperChar(x) == [u] <==> SpellsLetter(x, u, false)
  {
  }

  lemma LongUpper(x: char, u: char)
    requires u in LETTERS
    requires |UpperChar(x)| != 1
    ensures UpperChar(x) != "" && !SpellsLetter(x, u, false)
    ensures UpperChar(x)[0] == u ==>
      || (u == 'S' && UpperChar(x)[1] in {'S', 'T'})
      || (u == 'T' && x == '\U{1E97}' && UpperChar(x)[1] == '\U{0308}')
      || (u == 'Y' && UpperChar(x)[1] == '\U{030A}')
    ensures x == '\U{1E97}' ==> UpperChar(x)[0] == 'T'
  {
  }

  lemma NeverEmpty(x: char)
    ensures UpperChar(x) != ""
  {
  }

  lemma NoMarks()
    ensures '\U{0308}' !in LETTERS && '\U{030A}' !in LETTERS
  {
  }

  lemma SpellsStep(t: string, word: string)
    requires t != "" && word != ""
    ensures Spells(t, word) <==> SpellsLetter(t[0], word[0], |word| == 1) && Spells(t[1..], word[1..])
  {
    if SpellsLetter(t[0], word[0], |word| == 1) && Spells(t[1..], word[1..]) {
      forall i | 0 <= i < |word| ensures SpellsLetter(t[i], word[i], i == |word| - 1) {
        if i > 0 { assert t[i] == t[1..][i - 1] && word[i] == word[1..][i - 1]; }
      }
    }
    if Spells(t, word) {
      forall i | 0 <= i < |word| - 1 ensures SpellsLetter(t[1..][i], word[1..][i], i == |word| - 2) {
        assert SpellsLetter(t[i + 1], word[i + 1], i + 1 == |word| - 1);
      }
    }
  }

  lemma PrefixStep(word: string, u: string, rest: string)
    requires word != "" && u != ""
    ensures |u| == 1 ==> (word <= u + rest <==> word[0] == u[0] && word[1..] <= rest)
    ensures |u| > 1 ==> (word <= u + rest ==> word[0] == u[0] && (|word| > 1 ==> word[1] == u[1]))
    ensures |u| > 1 && |word| == 1 ==> (word <= u + rest <==> word[0] == u[0])
  {
    var s := u + rest;
    if |u| == 1 { assert s[1..] == rest; }
    if |u| == 1 && word[0] == u[0] && word[1..] <= rest { assert word == [word[0]] + word[1..]; }
    if word <= s { assert word[0] == s[0]; }
    if word <= s && |word| > 1 { assert word[1] == s[1]; }
    if |word| == 1 && word[0] == u[0] { assert word == s[..1]; }
  }

  /** A text's upper case starts with a keyword exactly when its characters spell the keyword. */
  lemma {:induction false} UpperSpells(t: string, word: string)
    requires PlainWord(word)
    ensures word <= Upper(t) <==> Spells(t, word)
    decreases |word|
  {
    if word != "" && t != "" {
      var u := UpperChar(t[0]);
      assert PlainAt(word, 0);
      NeverEmpty(t[0]);
      PrefixStep(word, u, Upper(t[1..]));
      SpellsStep(t, word);
      if |u| == 1 {
        SingleUpper(t[0], word[0]);
        PlainTail(word);
        UpperSpells(t[1..], word[1..]);
      } else {
        LongUpper(t[0], word[0]);
        if |word| > 1 { assert PlainAt(word, 1); }
        NoMarks();
      }
    }
  }

  lemma KeywordsPlain()
    ensures PlainWord("CMD") && PlainWord("ENTRYPOINT") && PlainWord("EXPOSE")
  {
    assert "CMD" == ['C', 'M', 'D'];
    assert "ENTRYPOINT" == ['E', 'N', 'T', 'R', 'Y', 'P', 'O', 'I', 'N', 'T'];
    assert "EXPOSE" == ['E', 'X', 'P', 'O', 'S', 'E'];
  }
}
