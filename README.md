# parse_math tokenizer and parser shell, in Dafny

This project models the lexical front end of the `parse_math` arithmetic-expression evaluator
(Rust). It has two parts:

- The **tokenizer** (`src/parsemath/tokenizer.rs`) is a single forward cursor over the input
  characters with one character of lookahead. Each call of `next` returns one of:
  - an operator or parenthesis token,
  - a number read greedily from a run of digits and '.',
  - `EOF` at end of input,
  - `None`, meaning a lexical failure.
- The **parser shell** (`src/parsemath/parser.rs`) owns a tokenizer and keeps one token of
  lookahead in `current_token`. `new` pulls the first token and `get_next_token` advances.
  Both fail with `InvalidOperator("Invalid character")` when the tokenizer fails. The
  `ParseError` enum renders both of its variants as "Error in evaluating " followed by the
  description.

Modules:

- `Wrappers` (`wrappers.dfy`): `Option` and `Result`.
- `Tokens` (`tokens.dfy`): the `Token` datatype.
  - `Num` carries its lexeme (a `string`) instead of an `f64`.
  - Also here: the symbol table, token texts, and `ParsesAsFloat`. `ParsesAsFloat` marks the
    lexemes that Rust's float conversion accepts.
- `Lexer` (`lexer.dfy`):
  - `Step` is the reference definition of one call of `next`. It maps the input and a
    cursor to the call's result and the new cursor.
  - `Run` is `n` successive calls.
  - `Lex` pulls tokens until `EOF` or a failure. It terminates on the measure `|input| - pos`.
  - The `Tokenizer` class holds `input` and `pos`. Its `Next` method is the peek loop of the
    source, proved equal to `Step`.
- `Parsing` (`parser.dfy`): `ParseError`, `Display`, and the `Parser` class.
  - `New` and `GetNextToken` are proved against `Step`.
  - Two ghost fields record what the parser has seen. `pulled` holds every tokenizer result,
    failures included. `trace` holds the successive values of `currentToken`.

Rust's `char::is_numeric` is a Unicode property. The model takes it as a parameter
`numeric: char -> bool`. The predicate `IsNumericClass` fixes it only on ASCII, where it
holds exactly for '0'..'9'. Nothing else about non-ASCII characters is assumed.

Where the design description of the system and the code differ, the model follows the code:

- On empty input, `Parser::new` succeeds with `current_token = EOF`. The description says
  construction on empty input fails.
- At end of input, every call returns `Some(EOF)`, not just the first one.
- The tokenizer is usable after a `None`. A digit run followed by '(' consumes the digits and
  leaves the '(' for the next call. An invalid character consumes just that character. The
  description says the tokenizer never yields past a lexical error.
- The number scan accepts any number of '.' characters and any Unicode numeric character
  after the first digit. The description speaks of "a single `.`".
- Nothing skips whitespace: a space is an invalid character.

## Model

| member | source | states |
|---|---|---|
| Tokens.SymbolTokenInverse | src/parsemath/tokenizer.rs:43-49 | the seven single-character arms and the token texts are mutually inverse; a character has a token exactly when it is one of `+ - * / ^ ( )` |
| Tokens.DotCount | src/parsemath/tokenizer.rs:28-33 | counts the '.' of a lexeme; zero exactly when the lexeme holds no '.' |
| Lexer.NumberEnd | src/parsemath/tokenizer.rs:31-39 | the peek loop stops at the first index at or after the start that is neither numeric nor '.', or at end of input; every character before it is numeric or '.' |
| Lexer.Step | src/parsemath/tokenizer.rs:24-53 | one call never moves the cursor past the end; it yields `EOF` exactly at end of input and then leaves the cursor there; every other call advances it by at least one character |
| Lexer.Run | src/parsemath/tokenizer.rs:21-53 | `n` successive calls give `n` results and a cursor within the input |
| Lexer.Lex | src/parsemath/tokenizer.rs:24-53 | pulling tokens terminates on the measure `|input| - pos`; a successful stream ends with its only `EOF` |
| Lexer.SymbolStep | src/parsemath/tokenizer.rs:43-49 | each of `+ - * / ^ ( )` yields exactly its own token and consumes exactly that one character |
| Lexer.EndStep | src/parsemath/tokenizer.rs:50 | at end of input the call yields `Some(EOF)` and the cursor stays at the end |
| Lexer.InvalidStep | src/parsemath/tokenizer.rs:51 | a character that is neither an ASCII digit nor a symbol yields `None` and consumes only itself |
| Lexer.NumberStep | src/parsemath/tokenizer.rs:28-41 | a `Num` lexeme is exactly the text consumed; it starts with an ASCII digit and contains only numeric or '.' characters; it is maximal, because the cursor stops at end of input or at a peeked character that is none of numeric, '.' and '(' |
| Lexer.NumberStepComplete | src/parsemath/tokenizer.rs:28-41 | conversely, a digit whose run is not followed by '(' yields `Num` of the whole run, with the cursor at the run's end |
| Lexer.DigitsBeforeParen | src/parsemath/tokenizer.rs:31-35 | a digit run directly followed by '(' yields `None`; the run is consumed and the '(' is not, so the next call yields `LeftParen` |
| Lexer.StepText | src/parsemath/tokenizer.rs:24-53 | the text of a token read by a successful call is exactly the input that call consumed |
| Lexer.RunSnoc | src/parsemath/tokenizer.rs:24-53 | one more call appends exactly the next call's result to the stream |
| Lexer.EndRepeats | src/parsemath/tokenizer.rs:50 | once the input is exhausted, any number of further calls all yield `EOF` and the cursor stays at the end |
| Lexer.EofIsFinal | src/parsemath/tokenizer.rs:25-50 | after the first `EOF` in a stream, every later result is `EOF` |
| Lexer.LexAgreesWithRun | src/parsemath/tokenizer.rs:24-53 | pulling as many tokens as `Lex` returns gives exactly those tokens and leaves the cursor at the end of input |
| Lexer.LexText | src/parsemath/tokenizer.rs:24-53 | a successful tokenization loses and adds nothing: the texts of its tokens concatenate to the remaining input |
| Lexer.LexPositiveInteger | src/parsemath/tokenizer.rs:62-65 | "34" gives `Num("34")`, then `EOF` |
| Lexer.LexMixedChars | src/parsemath/tokenizer.rs:74-80 | "3+4" gives `Num("3")`, `Add`, `Num("4")`, then `EOF` |
| Lexer.LexDecimalNumber | src/parsemath/tokenizer.rs:83-86 | "34.5" gives `Num("34.5")`, then `EOF` |
| Lexer.LexSeveralDots | src/parsemath/tokenizer.rs:28-41 | "1.2.3" is collected whole as one `Num`; its lexeme is one on which the float conversion fails |
| Lexer.RunDigitBeforeParen | src/parsemath/tokenizer.rs:31-35 | "2(3" gives `None`, `LeftParen`, `Num("3")`, `EOF` |
| Lexer.Tokenizer.constructor | src/parsemath/tokenizer.rs:13-17 | a new tokenizer holds the input with its cursor before the first character |
| Lexer.Tokenizer.Next | src/parsemath/tokenizer.rs:24-53 | the result and the new cursor are exactly `Step` of the old cursor |
| Parsing.DisplayFormat | src/parsemath/parser.rs:49-56 | every message is "Error in evaluating " followed by the error's description |
| Parsing.DisplaySameIffSameDescription | src/parsemath/parser.rs:49-56 | two errors render the same message exactly when their descriptions are equal, whichever their variants |
| Parsing.Produced | src/parsemath/parser.rs:28-35 | the tokens among the tokenizer's results, failures dropped, are no more than the results |
| Parsing.ProducedAllSome | src/parsemath/parser.rs:28-35 | when no call failed, the tokens produced are the results themselves |
| Parsing.Parser.constructor | src/parsemath/parser.rs:22-25 | the struct literal: a tokenizer that has made one call, with that call's token as `currentToken` |
| Parsing.Parser.New | src/parsemath/parser.rs:16-26 | fails with `InvalidOperator("Invalid character")` exactly when the first call returns `None`; otherwise `currentToken` is the first token, the cursor is after it, and the invariant holds |
| Parsing.Parser.GetNextToken | src/parsemath/parser.rs:28-35 | the tokenizer makes exactly one call; on success `currentToken` becomes that call's token; on failure the result is `InvalidOperator("Invalid character")` and `currentToken` is unchanged; the invariant that `currentToken` is the last token produced is preserved |
| Parsing.TraceIsStreamPrefix | src/parsemath/parser.rs:16-35 | while no advance has failed, the successive values of `currentToken` are exactly the first tokens of the tokenizer's stream |
| Parsing.ParseOnePlusTwo | src/parsemath/parser.rs:65-78 | on "1+2" the current token is `Num("1")`, then `Add`, then `Num("2")` after two advances |

## Left out

- Float conversion (src/parsemath/tokenizer.rs:41): `Num` keeps its lexeme, and IEEE-754
  arithmetic is not modelled. The source's `unwrap` panics on lexemes such as "1.2.3".
  `Tokens.ParsesAsFloat` marks the lexemes Rust's parser accepts, and the model does not
  abort on the others.
- Unicode `is_numeric` (src/parsemath/tokenizer.rs:32): it is a parameter, constrained only on
  ASCII. The Unicode tables are outside the model.
- The expression grammar and evaluator (precedence, `^` associativity, unary minus): the two
  source files contain no code for them.
- `UnableToParse` is declared and rendered, but no code in these files constructs it.
- `fmt::Formatter` and `write!`: `Display` is plain string concatenation.
- The `#[ignore]`d test at src/parsemath/tokenizer.rs:88-92: its expected value is wrong.
  `Lexer.InvalidStep` states what the code really does with "#$%".
- The `Iterator` and `Peekable` library machinery: an explicit index cursor `pos` replaces it.
- `Token` is defined here because `token.rs` is not part of this model.
- The `Tokenizer` borrowing its input (`&'a str` lifetimes): the input is an immutable
  `string` field.
