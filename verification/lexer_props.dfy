/** What the whole lexer does with each top-level character, and worked
    examples built from those facts and from the word and number lemmas. */
module LexerProps {
  import opened Results
  import opened Helpers
  import opened Lexer
  import opened WordSpec
  import opened NumberSpec
  import opened SeqFacts

  /** `+ - * ( ) =` each become one token, one column further on. */
  lemma SingleCharArm(c: char, s: string, loc: Loc)
    requires SingleCharToken(c, NextColumn(loc, 1)).Some?
    ensures LexFrom([c] + s, loc)
         == Prepend([SingleCharToken(c, NextColumn(loc, 1)).value], LexFrom(s, NextColumn(loc, 1)))
  {
    ConsTail(c, s);
    LexFromStep([c] + s, loc);
  }

  /** A space between tokens is skipped without moving the column. */
  lemma SpaceArm(s: string, loc: Loc)
    ensures LexFrom([' '] + s, loc) == LexFrom(s, loc)
  {
    ConsTail(' ', s);
    LexFromStep([' '] + s, loc);
    PrependNothing(LexFrom(s, loc));
  }

  /** A newline between tokens moves to the next line and keeps the column. */
  lemma NewlineArm(s: string, loc: Loc)
    ensures LexFrom(['\n'] + s, loc) == LexFrom(s, NextLine(loc))
  {
    ConsTail('\n', s);
    LexFromStep(['\n'] + s, loc);
    PrependNothing(LexFrom(s, NextLine(loc)));
  }

  /** A `/` always takes the character after it too and becomes an integer
      division, two columns further on, whatever that character is. */
  lemma SlashArm(c: char, s: string, loc: Loc)
    ensures LexFrom(['/', c] + s, loc)
         == Prepend([Operator(IntegerDivide, NextColumn(loc, 2))], LexFrom(s, NextColumn(loc, 2)))
  {
    PairTail('/', c, s);
    LexFromStep(['/', c] + s, loc);
  }

  /** A `/` as the last character has no second character to take. */
  lemma LoneSlash(loc: Loc)
    ensures LexFrom("/", loc) == Err(MissingChar(loc))
  {
    LexFromStep("/", loc);
  }

  /** A `"` is matched but never consumed, so the scan can make no
      progress. */
  lemma QuoteArm(s: string, loc: Loc)
    ensures LexFrom(['"'] + s, loc) == Err(NoProgress(loc))
  {
    LexFromStep(['"'] + s, loc);
  }

  /** A character with no arm of its own (for example `9`, `,`, a tab or
      `.` between tokens) aborts the scan at the current location. */
  lemma UnhandledArm(c: char, s: string, loc: Loc)
    requires !IsHandled(c)
    ensures LexFrom([c] + s, loc) == Err(UnexpectedChar(c, loc))
  {
    LexFromStep([c] + s, loc);
  }

  /** A word ended by `+ - * =` (push-back characters with a token of their
      own): the word's token, then the operator's token. The operator
      character is counted once when it ends the word and again when it is
      scanned, so the operator sits two columns after the word's last
      character. */
  lemma OperatorAfterWord(w: string, c: char, s: string, loc: Loc)
    requires IsWord(w) && IsPushBack(c) && SingleCharToken(c, loc).Some?
    ensures var l := NextColumn(loc, |w| + 1);
      LexFrom(w + [c] + s, loc)
      == Prepend([Classify(w, l), SingleCharToken(c, NextColumn(l, 1)).value], LexFrom(s, NextColumn(l, 1)))
  {
    var l := NextColumn(loc, |w| + 1);
    WordThenTerminator(w, c, s, loc);
    SingleCharArm(c, s, l);
    PrependTwice(Classify(w, l), SingleCharToken(c, NextColumn(l, 1)).value, LexFrom(s, NextColumn(l, 1)));
  }

  /** A word ended by `/`: the `/` is scanned again and takes the character
      after it with it, whatever that is, as an integer division. So `x//y`
      and `x/y` both give an integer division, and in `x/y` the `y` is lost. */
  lemma SlashAfterWord(w: string, c: char, s: string, loc: Loc)
    requires IsWord(w)
    ensures var l := NextColumn(loc, |w| + 1);
      LexFrom(w + ['/', c] + s, loc)
      == Prepend([Classify(w, l), Operator(IntegerDivide, NextColumn(l, 2))], LexFrom(s, NextColumn(l, 2)))
  {
    var l := NextColumn(loc, |w| + 1);
    RegroupPair(w, '/', c, s);
    WordThenTerminator(w, '/', [c] + s, loc);
    SlashArm(c, s, l);
    PrependTwice(Classify(w, l), Operator(IntegerDivide, NextColumn(l, 2)), LexFrom(s, NextColumn(l, 2)));
  }

  // ---------------------------------------------------------------------
  // Worked examples
  // ---------------------------------------------------------------------

  function One(digits: string): Number {
    Number(None, None, digits)
  }

  /** `a/b`: the `b` is swallowed by the division. */
  lemma ExampleSingleSlash()
    ensures Lex("a/b") == Ok([Identifier("a", Loc(1, 2)), Operator(IntegerDivide, Loc(1, 4))])
  {
    var a, div := Identifier("a", Loc(1, 2)), Operator(IntegerDivide, Loc(1, 4));
    SlashAfterWord("a", 'b', [], Loc(1, 0));
    assert NextColumn(Loc(1, 0), |"a"| + 1) == Loc(1, 2) && NextColumn(Loc(1, 2), 2) == Loc(1, 4);
    assert Classify("a", Loc(1, 2)) == a;
    assert LexFrom([], Loc(1, 4)) == Ok([]);
    assert [a, div] + [] == [a, div];
    assert "a" + ['/', 'b'] + [] == "a/b";
  }

  /** A one-letter word is never reserved. */
  lemma ShortWordIsIdentifier(w: string, loc: Loc)
    requires |w| == 1
    ensures Classify(w, loc) == Identifier(w, loc)
  {
    ClassifySpelling(w, loc);
  }

  lemma OneAtEnd(l: Loc)
    ensures LexFrom("1", l) == Ok([Literal(NumberValue(One("1")), NextColumn(l, 1))])
  {
    assert Render(One("1")) == "1";
    NumberRoundTrip(One("1"), l);
  }

  lemma XEqualsThen(l: Loc)
    ensures LexFrom("x=1", l)
         == Prepend([Identifier("x", NextColumn(l, 2)), Operator(Equals, NextColumn(l, 3))], LexFrom("1", NextColumn(l, 3)))
  {
    var l2, l3 := NextColumn(l, 2), NextColumn(l, 3);
    OperatorAfterWord("x", '=', "1", l);
    assert NextColumn(l, |"x"| + 1) == l2 && NextColumn(l2, 1) == l3;
    ShortWordIsIdentifier("x", l2);
    assert SingleCharToken('=', l3) == Some(Operator(Equals, l3));
    OneOneOne('x', '=', '1');
  }

  lemma XEqualsOne(l: Loc)
    ensures LexFrom("x=1", l) == Ok([Identifier("x", NextColumn(l, 2)), Operator(Equals, NextColumn(l, 3)),
                                     Literal(NumberValue(One("1")), NextColumn(l, 4))])
  {
    var l3 := NextColumn(l, 3);
    XEqualsThen(l);
    OneAtEnd(l3);
    assert NextColumn(l3, 1) == NextColumn(l, 4);
    TwoThenOne(Identifier("x", NextColumn(l, 2)), Operator(Equals, l3), Literal(NumberValue(One("1")), NextColumn(l, 4)));
  }

  /** `x=1`: the `=` ends the identifier and is then scanned again; exactly
      three tokens come out, with no end-of-sequence token after them. */
  lemma ExampleAssignment()
    ensures Lex("x=1") == Ok([Identifier("x", Loc(1, 2)), Operator(Equals, Loc(1, 3)),
                              Literal(NumberValue(One("1")), Loc(1, 4))])
  {
    XEqualsOne(Loc(1, 0));
  }

  lemma XSlashSlashY(l: Loc)
    ensures LexFrom("x//y", l) == Ok([Identifier("x", NextColumn(l, 2)), Operator(IntegerDivide, NextColumn(l, 4)),
                                      Identifier("y", NextColumn(l, 5))])
  {
    var l2, l4, l5 := NextColumn(l, 2), NextColumn(l, 4), NextColumn(l, 5);
    var x, div, y := Identifier("x", l2), Operator(IntegerDivide, l4), Identifier("y", l5);
    SlashAfterWord("x", '/', "y", l);
    assert NextColumn(l, |"x"| + 1) == l2 && NextColumn(l2, 2) == l4;
    ShortWordIsIdentifier("x", l2);
    WordAtEnd("y", l4);
    assert NextColumn(l4, |"y"|) == l5;
    ShortWordIsIdentifier("y", l5);
    TwoThenOne(x, div, y);
    OneTwoOne('x', '/', '/', 'y');
  }

  /** `x//y`: the `/` that ends the identifier is scanned again and the
      pair becomes one integer division. */
  lemma ExampleIntegerDivide()
    ensures Lex("x//y") == Ok([Identifier("x", Loc(1, 2)), Operator(IntegerDivide, Loc(1, 4)),
                               Identifier("y", Loc(1, 5))])
  {
    XSlashSlashY(Loc(1, 0));
  }

  /** `for` is not in the keyword table. */
  lemma ExampleFor()
    ensures Lex("for") == Ok([Identifier("for", Loc(1, 3))])
  {
    WordAtEnd("for", Loc(1, 0));
  }

  /** `1.03e8`: base, decimal and exponent fragments. */
  lemma ExampleScientific()
    ensures Lex("1.03e8") == Ok([Literal(NumberValue(Number(Some("8"), Some("03"), "1")), Loc(1, 6))])
  {
    var n := Number(Some("8"), Some("03"), "1");
    assert Render(n) == "1.03e8";
    NumberRoundTrip(n, Loc(1, 0));
  }

  /** `1.`: a trailing point leaves no decimal fragment, and is no error. */
  lemma ExampleTrailingPoint()
    ensures Lex("1.") == Ok([Literal(NumberValue(One("1")), Loc(1, 2))])
  {
    NumberRunOf("1.", []);
    assert "1." + [] == "1.";
    ScanTo("1.", Loc(1, 0));
    assert "1." == "1" + ['.'];
    RouteMarker("1", '.');
    assert "1" == [] + ['1'];
    RouteDigit([], '1');
    assert FragmentsOf("1.") == One("1");
    FinishAtEnd("1.", Loc(1, 0));
  }

  /** `1e2.3`: a `.` after the exponent switches back to the decimal
      fragment, so this reads as 1.3e2. */
  lemma ExampleDecimalAfterExponent()
    ensures Lex("1e2.3") == Ok([Literal(NumberValue(Number(Some("2"), Some("3"), "1")), Loc(1, 5))])
  {
    NumberRunOf("1e2.3", []);
    assert "1e2.3" + [] == "1e2.3";
    RoutingOfExample();
    FinishAtEnd("1e2.3", Loc(1, 0));
  }

  lemma RoutingOfExample()
    ensures FragmentsOf("1e2.3") == Number(Some("2"), Some("3"), "1")
  {
    assert "1" == [] + ['1'];
    RouteDigit([], '1');
    assert "1e" == "1" + ['e'];
    RouteMarker("1", 'e');
    assert "1e2" == "1e" + ['2'];
    RouteDigit("1e", '2');
    assert "1e2." == "1e2" + ['.'];
    RouteMarker("1e2", '.');
    assert "1e2.3" == "1e2." + ['3'];
    FlagsTrackMarkers("1e2.");
    RouteDigit("1e2.", '3');
  }

  /** `1 2` at any location: the space after the first number drops it. */
  lemma OneSpaceTwo(l: Loc)
    ensures LexFrom("1 2", l) == Ok([Literal(NumberValue(One("2")), NextColumn(l, 3))])
  {
    assert Render(One("1")) == "1";
    assert Render(One("2")) == "2";
    OneOneOne('1', ' ', '2');
    NumberThenTerminator(One("1"), ' ', "2", l);
    NumberRoundTrip(One("2"), NextColumn(l, 2));
  }

  /** `1 2`: a number followed by a space is dropped. */
  lemma ExampleDroppedNumber()
    ensures Lex("1 2") == Ok([Literal(NumberValue(One("2")), Loc(1, 3))])
  {
    OneSpaceTwo(Loc(1, 0));
  }

  /** `9` is not a digit to this lexer. */
  lemma ExampleNine()
    ensures Lex("9") == Err(UnexpectedChar('9', Loc(1, 0)))
  {
    assert "9" == ['9'] + [];
    UnhandledArm('9', [], Loc(1, 0));
  }

  /** A string literal never gets past its opening quote. */
  lemma ExampleQuote()
    ensures Lex("\"a\"") == Err(NoProgress(Loc(1, 0)))
  {
    assert "\"a\"" == ['"'] + "a\"";
    QuoteArm("a\"", Loc(1, 0));
  }

  // ---------------------------------------------------------------------
  // Helpers for the number examples that are not written `Render(n)`
  // ---------------------------------------------------------------------

  /** A whole number at the end of input scans to the routing of its text. */
  lemma ScanTo(p: string, loc: Loc)
    requires |p| > 0 && NumberRun(p) == |p|
    ensures NumberLoop(p, loc, NewState(), NewNumber())
         == Ok(NumberScan(Some(FragmentsOf(p)), [], NextColumn(loc, |p|)))
  {
    assert FlagsAfter([]) == NewState();
    assert FragmentsOf([]) == NewNumber();
    NumberLoopMatchesRouting([], p, loc);
    assert p[..|p|] == p && p[|p|..] == [];
    assert [] + p == p;
  }

  lemma FinishAtEnd(p: string, loc: Loc)
    requires |p| > 0 && IsLexDigit(p[0]) && NumberRun(p) == |p|
    ensures LexFrom(p, loc) == Ok([Literal(NumberValue(FragmentsOf(p)), NextColumn(loc, |p|))])
  {
    var l := NextColumn(loc, |p|);
    var tok := Literal(NumberValue(FragmentsOf(p)), l);
    ScanTo(p, loc);
    StepAtDigit(p, loc);
    assert Step(p, loc) == Ok(StepOut([tok], [], l));
    LexFromStep(p, loc);
    assert LexFrom([], l) == Ok([]);
    assert [tok] + [] == [tok];
  }
}
