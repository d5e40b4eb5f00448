/** The closed set of lexical units the tokenizer produces, and the character classes it tests. */
module Tokens {
  import opened Wrappers

  /** A token. `Num` keeps the scanned lexeme instead of the `f64` the source converts it to. */
  datatype Token =
    | Num(lexeme: string)
    | Add
    | Subtract
    | Multiply
    | Divide
    | Caret
    | LeftParen
    | RightParen
    | EOF

  predicate IsAsciiDigit(c: char) {
    '0' <= c <= '9'
  }

  predicate IsAscii(c: char) {
    (c as int) < 128
  }

  /** The seven characters that form a token on their own. */
  const Symbols: string := "+-*/^()"

  /** The token a single operator or parenthesis character stands for, if any. */
  function SymbolToken(c: char): Option<Token> {
    match c
    case '+' => Some(Add)
    case '-' => Some(Subtract)
    case '*' => Some(Multiply)
    case '/' => Some(Divide)
    case '^' => Some(Caret)
    case '(' => Some(LeftParen)
    case ')' => Some(RightParen)
    case _ => None
  }

  /** The text a token was scanned from: its lexeme, its symbol, or nothing for `EOF`. */
  function TokenText(t: Token): string {
    match t
    case Num(lexeme) => lexeme
    case Add => "+"
    case Subtract => "-"
    case Multiply => "*"
    case Divide => "/"
    case Caret => "^"
    case LeftParen => "("
    case RightParen => ")"
    case EOF => ""
  }

  predicate IsSymbolToken(t: Token) {
    !t.Num? && !t.EOF?
  }

  /** The symbol table and the rendering are inverse to each other, in both directions. */
  lemma SymbolTokenInverse(c: char, t: Token)
    ensures SymbolToken(c) == Some(t) <==> IsSymbolToken(t) && TokenText(t) == [c]
    ensures SymbolToken(c).Some? <==> c in Symbols
  {
  }

  /** Number of '.' characters in a lexeme. */
  function DotCount(s: string): (n: nat)
    ensures n <= |s|
    ensures n == 0 <==> '.' !in s
  {
    if s == [] then 0 else (if s[0] == '.' then 1 else 0) + DotCount(s[1..])
  }

  /**
   * Whether Rust's `str::parse::<f64>` accepts a lexeme of the kind the tokenizer produces
   * (it always starts with an ASCII digit and never holds an exponent or a sign): only ASCII
   * digits and at most one '.'. A `Num` lexeme outside this set is one on which the source's
   * `unwrap` panics.
   */
  predicate ParsesAsFloat(lexeme: string) {
    (forall k :: 0 <= k < |lexeme| ==> IsAsciiDigit(lexeme[k]) || lexeme[k] == '.') &&
    DotCount(lexeme) <= 1
  }
}
