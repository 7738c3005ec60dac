/** Where the lexer's failures come from. Every abort is caused by the input
    and located at or after the point the scan started from: an unexpected
    character is a character of the input, and never a space or a newline;
    a missing character means the input ends in a `/`; no progress means the
    input holds a `"`. */
module LexErrors {
  import opened Results
  import opened Helpers
  import opened Lexer
  import opened WordSpec
  import opened NumberSpec

  predicate IsSuffix(t: string, s: string) {
    |t| <= |s| && t == s[|s| - |t|..]
  }

  /** The error `e`, raised by a scan of `s` from `loc`, is explained by `s`. */
  predicate ErrorFromInput(s: string, loc: Loc, e: LexError) {
    && LocLe(loc, e.loc)
    && match e
       case UnexpectedChar(c, _) => c in s && c != ' ' && c != '\n'
       case MissingChar(_) => |s| > 0 && s[|s| - 1] == '/'
       case NoProgress(_) => '"' in s
  }

  /** What one iteration guarantees about its leftover input and its errors. */
  predicate StepFacts(s: string, loc: Loc, r: Result<StepOut, LexError>) {
    && (r.Ok? ==> IsSuffix(r.value.rest, s))
    && (r.Err? ==> ErrorFromInput(s, loc, r.error))
  }

  /** The character after a word leaves a suffix and explains its errors. */
  lemma EndWordFacts(w: string, s: string, n: nat, l: Loc, loc: Loc)
    requires n <= |s| && LocLe(loc, l)
    ensures var r := EndWord(w, s[n..], l);
      && (r.Ok? ==> IsSuffix(r.value.rest, s))
      && (r.Err? ==> ErrorFromInput(s, loc, r.error))
  {
    if n < |s| {
      assert s[n..][0] == s[n] && s[n..][1..] == s[n + 1..];
    }
  }

  /** The same for the character after a number. */
  lemma EndNumberFacts(p: string, s: string, n: nat, l: Loc, loc: Loc)
    requires n <= |s| && LocLe(loc, l)
    ensures var r := EndNumber(p, s[n..], l);
      && (r.Ok? ==> IsSuffix(r.value.rest, s))
      && (r.Err? ==> ErrorFromInput(s, loc, r.error))
  {
    if n < |s| {
      assert s[n..][0] == s[n] && s[n..][1..] == s[n + 1..];
    } else {
      assert s[|s|..] == [];
    }
  }

  /** The identifier loop leaves a suffix of its input and explains its
      errors by that input. */
  lemma ScanWordFacts(s: string, loc: Loc)
    ensures var r := ScanWord(s, loc, "");
      && (r.Ok? ==> IsSuffix(r.value.rest, s))
      && (r.Err? ==> ErrorFromInput(s, loc, r.error))
  {
    var n := WordRun(s);
    ScanWordMatchesRun(s, loc, "");
    EndWordFacts("" + s[..n], s, n, NextColumn(loc, n), loc);
  }

  /** The same for the number loop, started from fresh flags. */
  lemma NumberLoopFacts(s: string, loc: Loc)
    ensures var r := NumberLoop(s, loc, NewState(), NewNumber());
      && (r.Ok? ==> IsSuffix(r.value.rest, s))
      && (r.Err? ==> ErrorFromInput(s, loc, r.error))
  {
    var n := NumberRun(s);
    assert FlagsAfter([]) == NewState();
    assert FragmentsOf([]) == NewNumber();
    NumberLoopMatchesRouting([], s, loc);
    EndNumberFacts([] + s[..n], s, n, NextColumn(loc, n), loc);
  }

  lemma WordStepFacts(s: string, loc: Loc)
    requires |s| > 0 && IsLetter(s[0])
    ensures StepFacts(s, loc, WordStep(s, loc))
  {
    ScanWordFacts(s, loc);
  }

  lemma NumberStepFacts(s: string, loc: Loc)
    requires |s| > 0 && IsLexDigit(s[0])
    ensures StepFacts(s, loc, NumberStep(s, loc))
  {
    NumberLoopFacts(s, loc);
  }

  /** Every arm of the outer loop leaves a suffix of its input and explains
      its errors by that input. */
  lemma StepFactsHold(s: string, loc: Loc)
    requires |s| > 0
    ensures StepFacts(s, loc, Step(s, loc))
  {
    if IsLetter(s[0]) {
      StepAtLetter(s, loc);
      WordStepFacts(s, loc);
    } else if IsLexDigit(s[0]) {
      StepAtDigit(s, loc);
      NumberStepFacts(s, loc);
    } else if s[0] == '/' && |s| < 2 {
      assert s[|s| - 1] == '/';
    } else {
      assert s[0] in s;
    }
  }

  /** An error explained by a suffix, raised from a later location, is
      explained by the whole input from the earlier location. */
  lemma ErrorFromSuffix(t: string, s: string, l: Loc, loc: Loc, e: LexError)
    requires IsSuffix(t, s) && LocLe(loc, l) && ErrorFromInput(t, l, e)
    ensures ErrorFromInput(s, loc, e)
  {
    var k := |s| - |t|;
    if e.UnexpectedChar? {
      var i :| 0 <= i < |t| && t[i] == e.ch;
      assert s[k + i] == e.ch;
    } else if e.NoProgress? {
      var i :| 0 <= i < |t| && t[i] == '"';
      assert s[k + i] == '"';
    }
  }

  /** Every failed scan is explained by its input, and located at or after
      where it started. */
  lemma {:induction false} LexFromErrors(s: string, loc: Loc)
    ensures LexFrom(s, loc).Err? ==> ErrorFromInput(s, loc, LexFrom(s, loc).error)
    decreases |s|
  {
    if |s| > 0 {
      StepFactsHold(s, loc);
      LexFromStep(s, loc);
      match Step(s, loc)
      case Err(_) =>
      case Ok(out) =>
        LexFromErrors(out.rest, out.loc);
        var r := LexFrom(out.rest, out.loc);
        if r.Err? {
          ErrorFromSuffix(out.rest, s, out.loc, loc, r.error);
        }
    }
  }

  /** The lexer fails only for a reason found in its input: a character of
      the input other than a space or newline, a final `/`, or a `"`. */
  lemma LexErrorsFromInput(input: string)
    ensures Lex(input).Err? ==> ErrorFromInput(input, Loc(1, 0), Lex(input).error)
  {
    LexFromErrors(input, Loc(1, 0));
  }

  predicate IsBlank(s: string) {
    forall i :: 0 <= i < |s| ==> s[i] == ' ' || s[i] == '\n'
  }

  /** No error is explained by input made only of spaces and newlines. */
  lemma BlankExplainsNothing(s: string, loc: Loc, e: LexError)
    requires IsBlank(s)
    ensures !ErrorFromInput(s, loc, e)
  {
  }

  /** Input made only of spaces and newlines never fails, from any
      location. */
  lemma BlankNeverFailsFrom(s: string, loc: Loc)
    requires IsBlank(s)
    ensures LexFrom(s, loc).Ok?
  {
    LexFromErrors(s, loc);
    var r := LexFrom(s, loc);
    if r.Err? {
      assert ErrorFromInput(s, loc, r.error);
      BlankExplainsNothing(s, loc, r.error);
      assert false;
    }
  }

  /** Input made only of spaces and newlines never fails. */
  lemma BlankNeverFails(input: string)
    requires IsBlank(input)
    ensures Lex(input).Ok?
  {
    BlankNeverFailsFrom(input, Loc(1, 0));
  }
}
