/** The character-level lexer of src/parser/lexer.rs: its token vocabulary and
    the left-to-right scan that turns source text into located tokens.

    The Rust `lexer` is one `while` loop over a mutable input string with an
    inner loop for identifiers and one for numbers. Here one iteration of the
    outer loop is `Step`, the inner loops are `ScanWord` and `NumberLoop`, and
    the outer loop is the recursion `LexFrom`. Every `panic!` becomes a
    `LexError`, and the `"` arm, which consumes nothing and so never ends, is
    reported as `NoProgress`. */
module Lexer {
  import opened Results
  import opened Helpers

  // ---------------------------------------------------------------------
  // Vocabulary
  // ---------------------------------------------------------------------

  /** A number literal kept as three digit strings (`exponent`, `decimal`,
      `base`, in the field order of the Rust struct). */
  datatype Number = Number(exponent: Option<string>, decimal: Option<string>, base: string)

  datatype LiteralValue =
    | NumberValue(number: Number)
    | BoolValue(b: bool)
    | StringValue(text: string)

  datatype KeywordKind =
    If | ElseIf | EndIf | For | EndFor | While | EndWhile | Function | EndFunction | Return

  datatype OperatorKind =
    Plus | Minus | Times | Divide | IntegerDivide | Modulo | And | Or | Not | Equals

  /** Line and column. The source starts at (1, 0) and only ever increments
      either component. */
  datatype Loc = Loc(line: nat, column: nat)

  /** `TokenValue`: every variant but `Separator` carries a location. */
  datatype TokenValue =
    | Identifier(name: string, loc: Loc)
    | Keyword(keyword: KeywordKind, loc: Loc)
    | Separator(text: string)
    | Operator(op: OperatorKind, loc: Loc)
    | Literal(value: LiteralValue, loc: Loc)
    | Comment(text: string, loc: Loc)
    | OpenBracket(loc: Loc)
    | CloseBracket(loc: Loc)

  /** The ways the Rust lexer aborts or fails to finish. */
  datatype LexError =
    | UnexpectedChar(ch: char, loc: Loc)   // a `panic!` on an unhandled character
    | MissingChar(loc: Loc)                // `get_first` on an empty input (an `unwrap` of `None`)
    | NoProgress(loc: Loc)                 // the `"` arm: the scan never advances

  // ---------------------------------------------------------------------
  // Numbers
  // ---------------------------------------------------------------------

  /** `Number::new()`: no fragment collected yet. */
  function NewNumber(): (n: Number)
    ensures n.exponent.None? && n.decimal.None? && n.base == ""
  {
    Number(None, None, "")
  }

  /** `Number::from_values`: a field-by-field copy, so each argument lands in
      the field of the same name. */
  function FromValues(exponent: Option<string>, decimal: Option<string>, base: string): (n: Number)
    ensures n.exponent == exponent && n.decimal == decimal && n.base == base
  {
    Number(exponent, decimal, base)
  }

  predicate AllLexDigits(s: string) {
    forall i :: 0 <= i < |s| ==> IsLexDigit(s[i])
  }

  /** Every fragment holds only digits, and an optional fragment that is
      present is non-empty. */
  predicate FragmentsWellFormed(n: Number) {
    && AllLexDigits(n.base)
    && (n.decimal.Some? ==> n.decimal.value != [] && AllLexDigits(n.decimal.value))
    && (n.exponent.Some? ==> n.exponent.value != [] && AllLexDigits(n.exponent.value))
  }

  /** The numbers the lexer can produce: well-formed fragments and a base digit. */
  predicate NumberWellFormed(n: Number) {
    n.base != [] && FragmentsWellFormed(n)
  }

  /** The text a number literal is written as: `base`, then `.decimal` and
      `eexponent` when those fragments are present. */
  function Render(n: Number): string {
    n.base
    + (if n.decimal.Some? then ['.'] + n.decimal.value else [])
    + (if n.exponent.Some? then ['e'] + n.exponent.value else [])
  }

  // ---------------------------------------------------------------------
  // Characters and locations
  // ---------------------------------------------------------------------

  predicate IsLetter(c: char) {
    'a' <= c <= 'z' || 'A' <= c <= 'Z'
  }

  /** The digit patterns are the exclusive range `'0'..'9'`, so `'9'` is not
      a digit to this lexer. */
  predicate IsLexDigit(c: char) {
    '0' <= c < '9'
  }

  predicate IsWordChar(c: char) {
    IsLetter(c) || IsLexDigit(c)
  }

  /** The characters that end an identifier and are then scanned again. */
  predicate IsPushBack(c: char) {
    c == '/' || c == '+' || c == '-' || c == '*' || c == '.' || c == '='
  }

  predicate IsNumberChar(c: char) {
    IsLexDigit(c) || c == '.' || c == 'e'
  }

  /** The characters the outer `match` has an arm for. */
  predicate IsHandled(c: char) {
    || IsLetter(c) || IsLexDigit(c)
    || c == '"' || c == '\n' || c == '/' || c == ' '
    || c == '+' || c == '-' || c == '*' || c == '(' || c == ')' || c == '='
  }

  function NextColumn(loc: Loc, k: nat): Loc {
    Loc(loc.line, loc.column + k)
  }

  function NextLine(loc: Loc): Loc {
    Loc(loc.line + 1, loc.column)
  }

  predicate LocLe(a: Loc, b: Loc) {
    a.line <= b.line && a.column <= b.column
  }

  /** `get_first`: removes and returns the first character. The Rust function
      panics on an empty input; here that is `None`. */
  function GetFirst(s: string): (r: Option<(char, string)>)
    ensures r.None? <==> |s| == 0
    ensures r.Some? ==> r.value.0 == s[0] && r.value.1 == s[1..]
    ensures r.Some? ==> [r.value.0] + r.value.1 == s
  {
    if |s| == 0 then None else Some((s[0], s[1..]))
  }

  // ---------------------------------------------------------------------
  // Words
  // ---------------------------------------------------------------------

  const Reserved: set<string> :=
    {"true", "false", "and", "or", "not", "if", "endif", "elseif",
     "function", "endfunction", "while", "endwhile", "return"}

  function KeywordText(k: KeywordKind): string {
    match k
    case If => "if"
    case ElseIf => "elseif"
    case EndIf => "endif"
    case For => "for"
    case EndFor => "endfor"
    case While => "while"
    case EndWhile => "endwhile"
    case Function => "function"
    case EndFunction => "endfunction"
    case Return => "return"
  }

  /** The word a token produced by `Classify` was made from: the inverse of
      the keyword table. */
  function Spelling(t: TokenValue): string {
    match t
    case Identifier(name, _) => name
    case Keyword(k, _) => KeywordText(k)
    case Literal(BoolValue(b), _) => if b then "true" else "false"
    case Operator(And, _) => "and"
    case Operator(Or, _) => "or"
    case Operator(Not, _) => "not"
    case _ => ""
  }

  /** The `match identifier.as_str()` table applied to a finished word.
      `for` and `endfor` are not in it and come out as identifiers. */
  function Classify(word: string, loc: Loc): (t: TokenValue)
    ensures !t.Separator? && t.loc == loc
    ensures t.Identifier? ==> t.name == word && word !in Reserved
  {
    if word == "true" then Literal(BoolValue(true), loc)
    else if word == "false" then Literal(BoolValue(false), loc)
    else if word == "and" then Operator(And, loc)
    else if word == "or" then Operator(Or, loc)
    else if word == "not" then Operator(Not, loc)
    else if word == "if" then Keyword(If, loc)
    else if word == "endif" then Keyword(EndIf, loc)
    else if word == "elseif" then Keyword(ElseIf, loc)
    else if word == "function" then Keyword(Function, loc)
    else if word == "endfunction" then Keyword(EndFunction, loc)
    else if word == "while" then Keyword(While, loc)
    else if word == "endwhile" then Keyword(EndWhile, loc)
    else if word == "return" then Keyword(Return, loc)
    else Identifier(word, loc)
  }

  /** Where the identifier loop stopped: the word, the input left over and
      the location reached. */
  datatype WordScan = WordScan(word: string, rest: string, loc: Loc)

  /** The inner loop of the identifier arm. Each character taken bumps the
      column. Letters and digits extend the word; a space or newline ends it
      and is consumed (the newline also bumps the line); one of `/ + - * . =`
      ends it and is put back in front of the input; the end of input ends
      it; anything else aborts. */
  function ScanWord(s: string, loc: Loc, word: string): (r: Result<WordScan, LexError>)
    ensures r.Ok? ==> word <= r.value.word && |r.value.word| - |word| + |r.value.rest| <= |s|
    ensures r.Ok? ==> forall i :: |word| <= i < |r.value.word| ==> IsWordChar(r.value.word[i])
    ensures r.Ok? && |s| > 0 && IsWordChar(s[0]) ==>
      |r.value.word| > |word| && r.value.word[|word|] == s[0]
    ensures r.Ok? ==> LocLe(loc, r.value.loc)
    decreases |s|
  {
    match GetFirst(s)
    case None => Ok(WordScan(word, s, loc))
    case Some((c, rest)) =>
      var loc' := NextColumn(loc, 1);
      if IsWordChar(c) then ScanWord(rest, loc', word + [c])
      else if c == ' ' then Ok(WordScan(word, rest, loc'))
      else if IsPushBack(c) then Ok(WordScan(word, [c] + rest, loc'))
      else if c == '\n' then Ok(WordScan(word, rest, NextLine(loc')))
      else Err(UnexpectedChar(c, loc'))
  }

  // ---------------------------------------------------------------------
  // Number literals
  // ---------------------------------------------------------------------

  /** Appends one character to an optional fragment, creating it if absent. */
  function Extend(fragment: Option<string>, c: char): (r: Option<string>)
    ensures fragment.None? ==> r == Some([c])
    ensures fragment.Some? ==> r == Some(fragment.value + [c])
    ensures r.Some? && r.value != []
    ensures r.value[|r.value| - 1] == c
  {
    match fragment
    case None => Some([c])
    case Some(f) => Some(f + [c])
  }

  /** Routes one digit: to `decimal` when the decimal flag is set, else to
      `exponent` when the exponent flag is set, else to `base`. */
  function AppendDigit(state: NumberState, number: Number, c: char): Number {
    if state.decimal then number.(decimal := Extend(number.decimal, c))
    else if state.exponent then number.(exponent := Extend(number.exponent, c))
    else number.(base := number.base + [c])
  }

  /** Where the number loop stopped: the literal (`None` when a space ended
      it, because that path leaves the loop by `break` without emitting), the
      input left over and the location reached. */
  datatype NumberScan = NumberScan(number: Option<Number>, rest: string, loc: Loc)

  /** The inner loop of the number arm. Each character taken bumps the
      column. Digits are routed by the flags, `.` calls `set_dec(true)`, `e`
      calls `set_exp(true)`; the end of input or a newline (which bumps the
      line) emits the literal; a space drops it; anything else aborts. */
  function NumberLoop(s: string, loc: Loc, state: NumberState, number: Number): (r: Result<NumberScan, LexError>)
    ensures r.Ok? ==> |r.value.rest| <= |s| && (|s| > 0 ==> |r.value.rest| < |s|)
    ensures r.Ok? ==> LocLe(loc, r.value.loc)
    ensures r.Ok? && r.value.number.Some? && FragmentsWellFormed(number) ==>
      FragmentsWellFormed(r.value.number.value)
    ensures r.Ok? && r.value.number.Some? && number.base != [] ==> r.value.number.value.base != []
    decreases |s|
  {
    match GetFirst(s)
    case None =>
      Ok(NumberScan(Some(FromValues(number.exponent, number.decimal, number.base)), s, loc))
    case Some((c, rest)) =>
      var loc' := NextColumn(loc, 1);
      if IsLexDigit(c) then NumberLoop(rest, loc', state, AppendDigit(state, number, c))
      else if c == '.' then NumberLoop(rest, loc', SetDec(state, true), number)
      else if c == 'e' then NumberLoop(rest, loc', SetExp(state, true), number)
      else if c == ' ' then Ok(NumberScan(None, rest, loc'))
      else if c == '\n' then
        Ok(NumberScan(Some(FromValues(number.exponent, number.decimal, number.base)), rest, NextLine(loc')))
      else Err(UnexpectedChar(c, loc'))
  }

  // ---------------------------------------------------------------------
  // The scan
  // ---------------------------------------------------------------------

  /** The tokens this lexer can emit. It never produces a separator, a
      comment, a string literal, `Divide`, `Modulo`, or the keywords `For`
      and `EndFor`. */
  predicate Emittable(t: TokenValue) {
    match t
    case Identifier(name, _) =>
      name != [] && IsLetter(name[0]) && name !in Reserved
      && forall i :: 0 <= i < |name| ==> IsWordChar(name[i])
    case Keyword(k, _) => k != For && k != EndFor
    case Separator(_) => false
    case Operator(op, _) => op != Divide && op != Modulo
    case Literal(v, _) => v.BoolValue? || (v.NumberValue? && NumberWellFormed(v.number))
    case Comment(_, _) => false
    case OpenBracket(_) => true
    case CloseBracket(_) => true
  }

  /** The token of the single-character arms `+ - * ( ) =`. */
  function SingleCharToken(c: char, loc: Loc): Option<TokenValue> {
    if c == '+' then Some(Operator(Plus, loc))
    else if c == '-' then Some(Operator(Minus, loc))
    else if c == '*' then Some(Operator(Times, loc))
    else if c == '(' then Some(OpenBracket(loc))
    else if c == ')' then Some(CloseBracket(loc))
    else if c == '=' then Some(Operator(Equals, loc))
    else None
  }

  /** What one iteration of the outer loop did: the tokens pushed (none or
      one), the input left over and the location reached. */
  datatype StepOut = StepOut(emitted: seq<TokenValue>, rest: string, loc: Loc)

  /** What every successful iteration of the outer loop guarantees: it
      shortens the input, pushes at most one token, of the emittable kinds,
      located where the scan stopped, and the location never moves
      backwards. */
  predicate StepInvariant(s: string, loc: Loc, out: StepOut) {
    && |s| > 0
    && |out.rest| < |s|
    && |out.emitted| <= 1
    && (forall t :: t in out.emitted ==> Emittable(t) && t.loc == out.loc)
    && LocLe(loc, out.loc)
  }

  /** The identifier arm: scan a word and classify it. */
  function WordStep(s: string, loc: Loc): (r: Result<StepOut, LexError>)
    requires |s| > 0 && IsLetter(s[0])
    ensures r.Ok? ==> StepInvariant(s, loc, r.value)
  {
    match ScanWord(s, loc, "")
    case Err(e) => Err(e)
    case Ok(w) => Ok(StepOut([Classify(w.word, w.loc)], w.rest, w.loc))
  }

  /** The number arm: scan a literal from fresh flags and an empty number. */
  function NumberStep(s: string, loc: Loc): (r: Result<StepOut, LexError>)
    requires |s| > 0 && IsLexDigit(s[0])
    ensures r.Ok? ==> StepInvariant(s, loc, r.value)
  {
    match NumberLoop(s, loc, NewState(), NewNumber())
    case Err(e) => Err(e)
    case Ok(n) =>
      var emitted := if n.number.Some? then [Literal(NumberValue(n.number.value), n.loc)] else [];
      Ok(StepOut(emitted, n.rest, n.loc))
  }

  /** The `/` arm. The lookahead iterator is taken from the unconsumed input,
      so the character it sees is this same `/` and only the `//` branch is
      reachable: two characters are taken, whatever the second one is. */
  function SlashStep(s: string, loc: Loc): (r: Result<StepOut, LexError>)
    requires |s| > 0 && s[0] == '/'
    ensures r.Ok? <==> |s| >= 2
    ensures r.Ok? ==> r.value == StepOut([Operator(IntegerDivide, NextColumn(loc, 2))], s[2..], NextColumn(loc, 2))
  {
    var next := s[0];
    if next == '/' then
      match GetFirst(s)
      case None => Err(MissingChar(loc))
      case Some((_, afterFirst)) =>
        match GetFirst(afterFirst)
        case None => Err(MissingChar(loc))
        case Some((_, afterSecond)) =>
          var loc' := NextColumn(loc, 2);
          Ok(StepOut([Operator(IntegerDivide, loc')], afterSecond, loc'))
    else Err(UnexpectedChar(next, loc))
  }

  /** One iteration of the outer `while`, dispatching on the first remaining
      character. */
  function Step(s: string, loc: Loc): (r: Result<StepOut, LexError>)
    requires |s| > 0
    ensures r.Ok? ==> StepInvariant(s, loc, r.value)
    ensures s[0] == '"' ==> r == Err(NoProgress(loc))
    ensures s[0] == '/' ==> (r.Ok? <==> |s| >= 2)
    ensures s[0] == '/' && |s| >= 2 ==>
      r == Ok(StepOut([Operator(IntegerDivide, NextColumn(loc, 2))], s[2..], NextColumn(loc, 2)))
    ensures SingleCharToken(s[0], NextColumn(loc, 1)).Some? ==>
      r == Ok(StepOut([SingleCharToken(s[0], NextColumn(loc, 1)).value], s[1..], NextColumn(loc, 1)))
    ensures s[0] == ' ' ==> r == Ok(StepOut([], s[1..], loc))
    ensures s[0] == '\n' ==> r == Ok(StepOut([], s[1..], NextLine(loc)))
    ensures !IsHandled(s[0]) ==> r == Err(UnexpectedChar(s[0], loc))
  {
    var c := s[0];
    if IsLetter(c) then WordStep(s, loc)
    else if IsLexDigit(c) then NumberStep(s, loc)
    else if c == '"' then Err(NoProgress(loc))
    else if c == '\n' then Ok(StepOut([], s[1..], NextLine(loc)))
    else if c == '/' then SlashStep(s, loc)
    else if SingleCharToken(c, NextColumn(loc, 1)).Some? then
      var loc' := NextColumn(loc, 1);
      Ok(StepOut([SingleCharToken(c, loc').value], s[1..], loc'))
    else if c == ' ' then Ok(StepOut([], s[1..], loc))
    else Err(UnexpectedChar(c, loc))
  }

  /** Prepends tokens to a successful result; errors pass through. */
  function Prepend(ts: seq<TokenValue>, r: Result<seq<TokenValue>, LexError>): Result<seq<TokenValue>, LexError> {
    match r
    case Ok(rest) => Ok(ts + rest)
    case Err(e) => Err(e)
  }

  /** Prepending nothing changes nothing. */
  lemma PrependNothing(r: Result<seq<TokenValue>, LexError>)
    ensures Prepend([], r) == r
  {
    if r.Ok? {
      assert [] + r.value == r.value;
    }
  }

  /** Prepending twice is prepending once. */
  lemma PrependTwice(a: TokenValue, b: TokenValue, r: Result<seq<TokenValue>, LexError>)
    ensures Prepend([a], Prepend([b], r)) == Prepend([a, b], r)
  {
    if r.Ok? {
      assert [a] + ([b] + r.value) == [a, b] + r.value;
    }
  }

  /** What the lexer promises of a successful scan of `s` from `loc`: at
      most one token per character, only tokens of the emittable kinds, none
      located before `loc`, and locations in non-decreasing order. */
  predicate WellLexed(s: string, loc: Loc, ts: seq<TokenValue>) {
    && |ts| <= |s|
    && (forall i :: 0 <= i < |ts| ==> Emittable(ts[i]) && LocLe(loc, ts[i].loc))
    && (forall i, j :: 0 <= i < j < |ts| ==> LocLe(ts[i].loc, ts[j].loc))
  }

  /** The outer loop of `lexer` from location `loc`: repeat `Step` until the
      input is empty; the first error aborts the whole scan. No end-of-sequence
      token is appended. */
  function LexFrom(s: string, loc: Loc): Result<seq<TokenValue>, LexError>
    decreases |s|
  {
    if |s| == 0 then Ok([])
    else
      match Step(s, loc)
      case Err(e) => Err(e)
      case Ok(out) => Prepend(out.emitted, LexFrom(out.rest, out.loc))
  }

  /** One unfolding of the outer loop. */
  lemma LexFromStep(s: string, loc: Loc)
    requires |s| > 0
    ensures LexFrom(s, loc) ==
      match Step(s, loc)
      case Err(e) => Err(e)
      case Ok(out) => Prepend(out.emitted, LexFrom(out.rest, out.loc))
  {
  }

  /** Every successful scan is well lexed: each step adds at most one token,
      located where that step stopped, and later steps never move back. */
  lemma {:induction false} LexFromWellLexed(s: string, loc: Loc)
    ensures LexFrom(s, loc).Ok? ==> WellLexed(s, loc, LexFrom(s, loc).value)
    decreases |s|
  {
    if |s| > 0 {
      match Step(s, loc)
      case Err(_) =>
      case Ok(out) =>
        LexFromWellLexed(out.rest, out.loc);
        var r := LexFrom(out.rest, out.loc);
        if r.Ok? {
          var ts := out.emitted + r.value;
          assert LexFrom(s, loc) == Ok(ts);
          forall i | 0 <= i < |ts|
            ensures Emittable(ts[i]) && LocLe(loc, ts[i].loc)
          {
            if i >= |out.emitted| {
              assert ts[i] == r.value[i - |out.emitted|];
            }
          }
          forall i, j | 0 <= i < j < |ts|
            ensures LocLe(ts[i].loc, ts[j].loc)
          {
            if i < |out.emitted| {
              assert ts[i] in out.emitted;
              assert ts[j] == r.value[j - |out.emitted|];
            } else {
              assert ts[i] == r.value[i - |out.emitted|];
              assert ts[j] == r.value[j - |out.emitted|];
            }
          }
        }
    }
  }

  /** `lexer`: scans the whole input from location (1, 0). */
  function Lex(input: string): (r: Result<seq<TokenValue>, LexError>)
    ensures r.Ok? ==> WellLexed(input, Loc(1, 0), r.value)
  {
    LexFromWellLexed(input, Loc(1, 0));
    LexFrom(input, Loc(1, 0))
  }
}
