/** An independent description of identifier scanning: a word is the
    maximal leading run of letters and digits, and the character after the
    run decides what happens next. The lemmas show that the character-by-
    character loop of the lexer computes exactly this, and what the whole
    lexer does with a word and its terminator. */
module WordSpec {
  import opened Results
  import opened Lexer
  import opened SeqFacts

  /** The length of the longest prefix of `s` made of letters and digits. */
  function WordRun(s: string): (n: nat)
    ensures n <= |s|
    ensures forall i :: 0 <= i < n ==> IsWordChar(s[i])
    ensures n < |s| ==> !IsWordChar(s[n])
  {
    if |s| == 0 || !IsWordChar(s[0]) then 0 else 1 + WordRun(s[1..])
  }

  /** What happens at the character after a word: the end of input, a
      space, a newline or a push-back character ends the scan, anything else
      aborts. Looking at the character bumps the column; a newline also bumps
      the line; only a push-back character stays in the input. */
  function EndWord(word: string, after: string, loc: Loc): Result<WordScan, LexError> {
    if |after| == 0 then Ok(WordScan(word, [], loc))
    else
      var c := after[0];
      var l := NextColumn(loc, 1);
      if c == ' ' then Ok(WordScan(word, after[1..], l))
      else if IsPushBack(c) then Ok(WordScan(word, after, l))
      else if c == '\n' then Ok(WordScan(word, after[1..], NextLine(l)))
      else Err(UnexpectedChar(c, l))
  }

  /** The outcome of the identifier loop, stated by the run: the whole run
      joins the word, one column per character, and the character after it
      decides the rest. */
  function ExpectedWord(s: string, loc: Loc, word: string): Result<WordScan, LexError> {
    var n := WordRun(s);
    EndWord(word + s[..n], s[n..], NextColumn(loc, n))
  }

  /** The identifier loop computes the run-based outcome on every input. */
  lemma {:induction false} ScanWordMatchesRun(s: string, loc: Loc, word: string)
    ensures ScanWord(s, loc, word) == ExpectedWord(s, loc, word)
    decreases |s|
  {
    var n := WordRun(s);
    if |s| > 0 && IsWordChar(s[0]) {
      var loc' := NextColumn(loc, 1);
      assert GetFirst(s) == Some((s[0], s[1..]));
      assert ScanWord(s, loc, word) == ScanWord(s[1..], loc', word + [s[0]]);
      ScanWordMatchesRun(s[1..], loc', word + [s[0]]);
      assert WordRun(s[1..]) == n - 1;
      ShiftSlices(word, s, n);
      assert NextColumn(loc', n - 1) == NextColumn(loc, n);
    } else {
      assert n == 0;
      assert s[..0] == [] && s[0..] == s && word + [] == word;
      assert NextColumn(loc, 0) == loc;
      assert ExpectedWord(s, loc, word) == EndWord(word, s, loc);
    }
  }

  /** The keyword table is inverted by `Spelling`: no word is lost, and a
      word becomes an identifier exactly when it is not one of the thirteen
      reserved words. */
  lemma ClassifySpelling(w: string, loc: Loc)
    ensures Spelling(Classify(w, loc)) == w
    ensures Classify(w, loc).Identifier? <==> w !in Reserved
  {
  }

  /** Every keyword the table knows comes out as itself; `for` and `endfor`
      have no entry and come out as identifiers. */
  lemma KeywordTable(k: KeywordKind, loc: Loc)
    ensures Classify(KeywordText(k), loc) ==
      if k == For || k == EndFor then Identifier(KeywordText(k), loc) else Keyword(k, loc)
  {
  }

  predicate IsWord(w: string) {
    |w| > 0 && IsLetter(w[0]) && forall i :: 0 <= i < |w| ==> IsWordChar(w[i])
  }

  lemma {:induction false} WordRunOfWord(w: string, t: string)
    requires forall i :: 0 <= i < |w| ==> IsWordChar(w[i])
    requires |t| > 0 ==> !IsWordChar(t[0])
    ensures WordRun(w + t) == |w|
    decreases |w|
  {
    if |w| > 0 {
      var w' := w[1..];
      assert forall i :: 0 <= i < |w'| ==> IsWordChar(w'[i]) by {
        forall i | 0 <= i < |w'| ensures IsWordChar(w'[i]) {
          assert w'[i] == w[i + 1];
        }
      }
      WordRunOfWord(w', t);
      assert (w + t)[0] == w[0];
      assert (w + t)[1..] == w' + t;
    } else {
      assert w + t == t;
    }
  }

  /** A whole word at the end of input is taken in one scan. */
  lemma ScanWholeWord(w: string, loc: Loc)
    requires IsWord(w)
    ensures ScanWord(w, loc, "") == Ok(WordScan(w, [], NextColumn(loc, |w|)))
  {
    WordRunOfWord(w, []);
    assert w + [] == w;
    ScanWordMatchesRun(w, loc, "");
    assert w[..|w|] == w && w[|w|..] == [];
    assert "" + w == w;
    assert ExpectedWord(w, loc, "") == EndWord(w, [], NextColumn(loc, |w|));
  }

  /** A word followed by a non-word character is taken in one scan, and the
      character after it is handled by `EndWord`. */
  lemma ScanWordThen(w: string, c: char, s: string, loc: Loc)
    requires IsWord(w) && !IsWordChar(c)
    ensures ScanWord(w + [c] + s, loc, "") == EndWord(w, [c] + s, NextColumn(loc, |w|))
  {
    var input := w + [c] + s;
    assert input == w + ([c] + s);
    WordRunOfWord(w, [c] + s);
    ScanWordMatchesRun(input, loc, "");
    assert input[..|w|] == w;
    assert input[|w|..] == [c] + s;
    assert "" + w == w;
    assert ExpectedWord(input, loc, "") == EndWord(w, [c] + s, NextColumn(loc, |w|));
  }

  /** The identifier arm is the one taken when the input starts with a letter. */
  lemma StepAtLetter(s: string, loc: Loc)
    requires |s| > 0 && IsLetter(s[0])
    ensures Step(s, loc) == WordStep(s, loc)
  {
  }

  /** One outer step over a word and the character after it. */
  lemma StepAtWordThen(w: string, c: char, s: string, loc: Loc)
    requires IsWord(w) && !IsWordChar(c)
    ensures Step(w + [c] + s, loc) ==
      match EndWord(w, [c] + s, NextColumn(loc, |w|))
      case Err(e) => Err(e)
      case Ok(ws) => Ok(StepOut([Classify(ws.word, ws.loc)], ws.rest, ws.loc))
  {
    ScanWordThen(w, c, s, loc);
    assert (w + [c] + s)[0] == w[0];
    StepAtLetter(w + [c] + s, loc);
  }

  /** A word at the end of input becomes exactly one token, classified by
      the keyword table and located one column per character further on. */
  lemma WordAtEnd(w: string, loc: Loc)
    requires IsWord(w)
    ensures LexFrom(w, loc) == Ok([Classify(w, NextColumn(loc, |w|))])
  {
    var l := NextColumn(loc, |w|);
    ScanWholeWord(w, loc);
    StepAtLetter(w, loc);
    assert Step(w, loc) == Ok(StepOut([Classify(w, l)], [], l));
    LexFromStep(w, loc);
    assert LexFrom([], l) == Ok([]);
    assert [Classify(w, l)] + [] == [Classify(w, l)];
  }

  /** The outer step after a word and a space, newline or push-back
      character `c`, and the error for any other character. */
  lemma StepAfterWord(w: string, c: char, s: string, loc: Loc)
    requires IsWord(w) && !IsWordChar(c)
    ensures var l := NextColumn(loc, |w| + 1);
      && (c == ' ' ==> Step(w + [c] + s, loc) == Ok(StepOut([Classify(w, l)], s, l)))
      && (c == '\n' ==> Step(w + [c] + s, loc) == Ok(StepOut([Classify(w, NextLine(l))], s, NextLine(l))))
      && (IsPushBack(c) ==> Step(w + [c] + s, loc) == Ok(StepOut([Classify(w, l)], [c] + s, l)))
      && (c != ' ' && c != '\n' && !IsPushBack(c) ==> Step(w + [c] + s, loc) == Err(UnexpectedChar(c, l)))
  {
    StepAtWordThen(w, c, s, loc);
    ConsTail(c, s);
  }

  /** A word followed by a character `c`: a space or newline is consumed
      with it (the newline also moves to the next line, and the token carries
      that line); one of `/ + - * . =` is scanned again after the token; any
      other non-word character aborts. In each case the column has moved on
      by the word's length plus one. */
  lemma WordThenTerminator(w: string, c: char, s: string, loc: Loc)
    requires IsWord(w) && !IsWordChar(c)
    ensures var l := NextColumn(loc, |w| + 1);
      && (c == ' ' ==> LexFrom(w + [c] + s, loc) == Prepend([Classify(w, l)], LexFrom(s, l)))
      && (c == '\n' ==>
            LexFrom(w + [c] + s, loc) == Prepend([Classify(w, NextLine(l))], LexFrom(s, NextLine(l))))
      && (IsPushBack(c) ==> LexFrom(w + [c] + s, loc) == Prepend([Classify(w, l)], LexFrom([c] + s, l)))
      && (c != ' ' && c != '\n' && !IsPushBack(c) ==> LexFrom(w + [c] + s, loc) == Err(UnexpectedChar(c, l)))
  {
    StepAfterWord(w, c, s, loc);
    LexFromStep(w + [c] + s, loc);
  }
}
