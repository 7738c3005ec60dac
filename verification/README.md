# A verified model of the pseudocode compiler's lexer

The repository compiles a small pseudocode language. Its only working
logic is the character-level lexer in `src/parser/lexer.rs`. The lexer
walks the source text left to right and produces located tokens:

- identifiers;
- keywords;
- operators, including `and`, `or` and `not`;
- boolean literals;
- number literals kept as three digit strings (`base`, `decimal`,
  `exponent`);
- brackets.

Which fragment a digit joins is decided by the two-flag `NumberState` of
`src/parser/helpers.rs`.

This project models that lexer in Dafny as pure functions over
`seq<char>`:

- `Helpers` (helpers.dfy) holds `NumberState` and its constructor and
  setters. Each setter returns the updated state instead of mutating it.
- `Lexer` (lexer.dfy) holds the token vocabulary, `get_first`,
  `Number::new` and `Number::from_values`, and the scan itself:
  - `Step` is one iteration of the outer `while`;
  - `ScanWord` and `NumberLoop` are the two inner loops;
  - `LexFrom` is the outer loop, a recursion on the remaining input;
  - `Lex` starts it at line 1, column 0.

  Every `panic!` becomes a `LexError`. The `"` arm consumes nothing, so the
  Rust loop never ends there; the model reports it as the error
  `NoProgress`.
- `WordSpec` (word_spec.dfy) describes identifier scanning independently
  of the loop. A word is the maximal run of letters and digits, and the
  character after the run decides the outcome. The lemmas prove that the
  loop computes exactly this and what the whole lexer does after a word.
- `NumberSpec` (number_spec.dfy) describes number scanning independently
  of the flags. A digit goes to the fragment named by the last `.` or `e`
  before it. The lemmas prove that the flag machine computes this routing.
  They also prove that a literal written
  `base ('.' decimal)? ('e' exponent)?` lexes back into exactly those
  fragments.
- `LexErrors` (errors.dfy) states where failures come from. Every failure
  is located at or after the start of the scan, and is explained by the
  input:
  - an unexpected character occurs in the input and is neither a space nor
    a newline;
  - a missing character means the input ends in `/`;
  - no progress means the input holds a `"`.
- `LexerProps` (lexer_props.dfy) states what each top-level character
  does to the whole scan, plus worked examples.
- `Results` (results.dfy) and `SeqFacts` (seq_facts.dfy) hold the
  `Option`/`Result` types and small sequence identities.

The model keeps the lexer's behaviour as written, including its quirks:

- The digit patterns are the exclusive range `'0'..'9'`, so `9` is
  rejected wherever a digit is expected. A `9` right after a `/` is
  swallowed by the `/` arm instead: `x/9` gives `x` and `IntegerDivide`.
- The `/` arm takes its lookahead from input that still starts with that
  same `/`. So every `/` becomes `IntegerDivide` and takes two characters.
  `x/y` loses the `y`, and a lone final `/` fails.
- A number followed by a space leaves its loop by `break` and emits no
  token.
- A `.` after an `e` switches digits back to the decimal fragment, so
  `1e2.3` reads as 1.3e2. A trailing `.` or `e` leaves its fragment
  absent; it is not an error.
- The column is never reset. A top-level space or newline does not move
  it. A character that ends a word and is pushed back is counted twice:
  once when it ends the word, once when it is scanned again. A token ended
  by a newline carries the already incremented line.
- `for` and `endfor` are not in the keyword table and come out as
  identifiers.
- No end-of-sequence token is appended.

The repository's tests (`src/tests/lexer.rs`) describe a different lexer
API. There, `x=1` ends with an end-of-sequence token, `==` is one token
and a single `/` is `Divide`. Where they disagree with
`src/parser/lexer.rs`, this model follows the code.

## Model

| member | source | states |
|---|---|---|
| `Helpers.NewState` | src/parser/helpers.rs:8-10 | a fresh state has neither the exponent nor the decimal flag set |
| `Helpers.SetExp` | src/parser/helpers.rs:11-16 | the exponent flag becomes the argument; entering exponent mode clears the decimal flag, leaving it keeps the decimal flag |
| `Helpers.SetDec` | src/parser/helpers.rs:17-19 | the decimal flag becomes the argument and the exponent flag is untouched |
| `Helpers.SettersIdempotent` | src/parser/helpers.rs:11-19 | applying either setter twice with the same argument equals applying it once |
| `Helpers.BothFlagsReachable` | src/parser/helpers.rs:11-19 | there is no "one flag at most" invariant: `set_exp(true)` then `set_dec(true)` leaves both flags set |
| `Lexer.NewNumber` | src/parser/lexer.rs:14-20 | a new number has no exponent, no decimal and an empty base |
| `Lexer.FromValues` | src/parser/lexer.rs:21-33 | each argument lands in the field of the same name, unchanged |
| `Lexer.GetFirst` | src/parser/lexer.rs:98-102 | fails exactly on empty input; otherwise returns the first character and the rest, which put back together give the input |
| `Lexer.Classify` | src/parser/lexer.rs:148-191 | the token of a finished word is located where the scan stopped and is never a separator; it is an identifier only for a word outside the thirteen reserved words, and then it carries the word |
| `Lexer.ScanWord` | src/parser/lexer.rs:116-147 | the identifier loop only extends the word it started with, only with letters and digits, takes at least the first character when it is one, consumes no more than its input, and never moves the location back |
| `Lexer.Extend` | src/parser/lexer.rs:207-223 | an absent fragment becomes the one-digit fragment; a present fragment keeps all its digits and gains the new digit at its end |
| `Lexer.NumberLoop` | src/parser/lexer.rs:200-251 | the number loop consumes at least one character of non-empty input, never moves the location back, and keeps fragments all-digit, present fragments non-empty and a non-empty base non-empty |
| `Lexer.WordStep` | src/parser/lexer.rs:115-194 | a successful identifier iteration shortens the input, pushes at most one emittable token, located where it stopped, and never moves the location back |
| `Lexer.NumberStep` | src/parser/lexer.rs:196-252 | the same guarantees for a successful number iteration |
| `Lexer.SlashStep` | src/parser/lexer.rs:259-283 | the `/` arm succeeds exactly when two characters remain; it then takes both and pushes `IntegerDivide` two columns on |
| `Lexer.Step` | src/parser/lexer.rs:111-320 | one iteration keeps the step guarantees above. `"` makes no progress. `+ - * ( ) =` push their token one column on. A space is skipped without moving the column. A newline moves to the next line. Any unhandled character aborts at the current location |
| `Lexer.LexFromWellLexed` | src/parser/lexer.rs:105-323 | a successful scan from any location yields at most one token per character. Every token is of a kind the lexer can emit, none lies before the start, and locations never decrease in either component |
| `Lexer.Lex` | src/parser/lexer.rs:105-323 | the lexer, started at line 1, column 0, yields a well-lexed token sequence whenever it succeeds |
| `WordSpec.ScanWordMatchesRun` | src/parser/lexer.rs:116-147 | the identifier loop takes the whole run of letters and digits, one column per character, then ends as the next character dictates: end of input, a space, a newline (next line) or a push-back character (left in the input); any other character aborts |
| `WordSpec.ClassifySpelling` | src/parser/lexer.rs:148-191 | classification loses no word: the token's spelling gives the word back, and the token is an identifier exactly when the word is not reserved |
| `WordSpec.KeywordTable` | src/parser/lexer.rs:148-191 | every keyword's text comes out as that keyword, except `for` and `endfor`, which come out as identifiers |
| `WordSpec.ScanWholeWord` | src/parser/lexer.rs:144-147 | a word at the end of input is taken whole, one column per character |
| `WordSpec.WordAtEnd` | src/parser/lexer.rs:115-191 | a word at the end of input becomes exactly one classified token, located one column per character further on |
| `WordSpec.StepAfterWord` | src/parser/lexer.rs:129-142 | the iteration over a word and the character after it: a space is consumed, a newline is consumed and moves the token to the next line, a push-back character stays in the input, anything else aborts |
| `WordSpec.WordThenTerminator` | src/parser/lexer.rs:129-142 | the same four outcomes for the whole scan: the word's token, then the scan of what follows from the location reached |
| `NumberSpec.FlagsTrackMarkers` | src/parser/lexer.rs:228-233 | after any sequence of characters, exponent mode holds exactly when an `e` was seen, and decimal mode exactly when the latest marker was `.` |
| `NumberSpec.RouteDigit` | src/parser/lexer.rs:205-227 | routing a digit by the flags (decimal first, then exponent, then base) agrees with routing it by the last marker, and leaves the flags alone |
| `NumberSpec.RouteMarker` | src/parser/lexer.rs:228-233 | a `.` or `e` changes only the flags, by `set_dec(true)` or `set_exp(true)`, and adds no digit to any fragment |
| `NumberSpec.NumberLoopMatchesRouting` | src/parser/lexer.rs:200-251 | the number loop takes the whole run of digits, `.` and `e`, routes each digit to the fragment of its last marker, and then ends as the next character dictates |
| `NumberSpec.RenderFragments` | src/parser/lexer.rs:205-233 | routing the characters of a rendered number gives back its base, decimal and exponent fragments |
| `NumberSpec.NumberRoundTrip` | src/parser/lexer.rs:196-251 | a number written `base ('.' decimal)? ('e' exponent)?` with non-empty digit runs lexes to exactly that number, as the only token, one column per character on |
| `NumberSpec.StepAfterNumber` | src/parser/lexer.rs:234-243 | the iteration over a number and the character after it: a space ends the loop with no token, a newline emits the number on the next line, anything else aborts one column past the number |
| `NumberSpec.NumberThenTerminator` | src/parser/lexer.rs:234-243 | after a number, a space drops it with no token, a newline emits it on the next line, and any other character aborts |
| `LexErrors.ScanWordFacts` | src/parser/lexer.rs:116-147 | the identifier loop leaves a suffix of its input, and its only abort is on a character of the input that is neither a space nor a newline, at or after the start |
| `LexErrors.NumberLoopFacts` | src/parser/lexer.rs:200-251 | the same for the number loop |
| `LexErrors.StepFactsHold` | src/parser/lexer.rs:111-320 | every iteration of the outer loop leaves a suffix of its input; its errors are an input character other than space or newline, a lone final `/`, or a `"`, located at or after the start |
| `LexErrors.LexFromErrors` | src/parser/lexer.rs:111-321 | a failed scan from any location is explained by its input and located at or after that location |
| `LexErrors.LexErrorsFromInput` | src/parser/lexer.rs:105-323 | the lexer fails only on a non-blank input character, a final `/` or a `"`, never before line 1, column 0 |
| `LexErrors.BlankNeverFails` | src/parser/lexer.rs:255-258 | input made only of spaces and newlines never fails: the newline arm, like the space arm, cannot abort |
| `LexerProps.SingleCharArm` | src/parser/lexer.rs:284-316 | `+ - * ( ) =` each consume one character and push their token one column on |
| `LexerProps.SpaceArm` | src/parser/lexer.rs:309-311 | a top-level space is consumed without a token and without moving the column |
| `LexerProps.NewlineArm` | src/parser/lexer.rs:255-258 | a top-level newline is consumed without a token and moves to the next line, keeping the column |
| `LexerProps.SlashArm` | src/parser/lexer.rs:259-268 | `/` followed by any character becomes `IntegerDivide` two columns on and takes both characters |
| `LexerProps.LoneSlash` | src/parser/lexer.rs:259-267 | a `/` as the last character fails for want of a second character |
| `LexerProps.QuoteArm` | src/parser/lexer.rs:254 | a `"` makes no progress, whatever follows it |
| `LexerProps.UnhandledArm` | src/parser/lexer.rs:317-319 | a character with no arm aborts the scan at the current location |
| `LexerProps.OperatorAfterWord` | src/parser/lexer.rs:132-135 | a word ended by `+ - * =` gives the word's token, then the operator's token one column further, as the character is counted twice |
| `LexerProps.SlashAfterWord` | src/parser/lexer.rs:132-135 | a word ended by `/` gives the word's token, then `IntegerDivide`, which also takes the character after the `/` |
| `LexerProps.ExampleAssignment` | src/parser/lexer.rs:312-316 | `x=1` lexes to exactly the identifier `x`, `Equals` and the number 1, with no end-of-sequence token |
| `LexerProps.ExampleIntegerDivide` | src/parser/lexer.rs:259-268 | `x//y` lexes to `x`, `IntegerDivide`, `y` |
| `LexerProps.ExampleSingleSlash` | src/parser/lexer.rs:260-263 | `a/b` lexes to `a` and `IntegerDivide`; the `b` is swallowed |
| `LexerProps.ExampleFor` | src/parser/lexer.rs:188-190 | `for` lexes to an identifier |
| `LexerProps.ExampleScientific` | src/parser/lexer.rs:205-233 | `1.03e8` lexes to one number with base `1`, decimal `03` and exponent `8` |
| `LexerProps.ExampleTrailingPoint` | src/parser/lexer.rs:228-230 | `1.` lexes to the number 1 with no decimal fragment, not to an error |
| `LexerProps.ExampleDecimalAfterExponent` | src/parser/lexer.rs:206-233 | `1e2.3` lexes to base `1`, decimal `3`, exponent `2` |
| `LexerProps.ExampleDroppedNumber` | src/parser/lexer.rs:234-236 | `1 2` lexes to the number 2 alone |
| `LexerProps.ExampleNine` | src/parser/lexer.rs:196 | `9` aborts as an unexpected character |
| `LexerProps.ExampleQuote` | src/parser/lexer.rs:254 | a string literal makes no progress at its opening quote |

## Left out

- The `' '` and `'0'..'9'` branches of the `/` arm (src/parser/lexer.rs:269-281) are unreachable, because the lookahead always sees the `/` itself. They are not modelled. So `Divide` is never produced, and neither is `Modulo`.
- `Lexer.Lex`: its own contract states only the well-lexed guarantees. The exact output is stated per character class by the `LexerProps`, `WordSpec` and `NumberSpec` lemmas, not by one closed-form postcondition.
- The `"` arm diverges in Rust. The model reports the error `NoProgress` at the quote's location instead of looping.
- The texts of the `panic!` messages are not modelled; the identifier and number loops print line and column swapped. A panic is the `LexError` value with the character and location.
- `Loc` components are `i32` in Rust and `nat` here. Overflow after 2^31 - 1 characters or lines is not modelled.
- `src/parser/mod.rs` is a superseded duplicate lexer and is not part of this model. The same goes for `src/tokeniser/mod.rs`, which classifies numbers with floating point and discards its tokens.
- The parser, AST arena and code generation are not modelled: `src/parser/parser.rs` and `src/tree/mod.rs` are stubs, and the transpiler calls into a regex library.
- `src/lib.rs` is glue and is not modelled, and neither is the web editor under `app/`.
- Tests in `src/tests/` written for a different lexer API are not modelled: the end-of-sequence token, `==` as one token and a single `/` as `Divide`.
