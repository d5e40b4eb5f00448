/**
 * The parser shell: the error taxonomy with its message, and a parser that owns a tokenizer
 * and buffers one token of lookahead in `currentToken`.
 */
module Parsing {
  import opened Wrappers
  import opened Tokens
  import opened Lexer

  /** The two kinds of error the parser reports, each with a description. */
  datatype ParseError = UnableToParse(description: string) | InvalidOperator(description: string)

  const MessagePrefix: string := "Error in evaluating "

  /** `Display` for `ParseError`. */
  function Display(e: ParseError): string {
    match e
    case UnableToParse(d) => MessagePrefix + d
    case InvalidOperator(d) => MessagePrefix + d
  }

  /** The error both `new` and `get_next_token` return when the tokenizer fails. */
  const InvalidCharacter: ParseError := InvalidOperator("Invalid character")

  /** Every message is the fixed prefix followed by the error's description. */
  lemma DisplayFormat(e: ParseError)
    ensures |Display(e)| == |MessagePrefix| + |e.description|
    ensures Display(e)[..|MessagePrefix|] == MessagePrefix
    ensures Display(e)[|MessagePrefix|..] == e.description
  {
  }

  /**
   * Two errors render the same message exactly when they carry the same description, so the
   * message does not tell the two kinds apart.
   */
  lemma DisplaySameIffSameDescription(e1: ParseError, e2: ParseError)
    ensures Display(e1) == Display(e2) <==> e1.description == e2.description
  {
    DisplayFormat(e1);
    DisplayFormat(e2);
  }

  /** The tokens among a sequence of tokenizer results, failures dropped, in order. */
  function Produced(results: seq<Option<Token>>): (ts: seq<Token>)
    ensures |ts| <= |results|
  {
    if results == [] then []
    else
      var last := results[|results| - 1];
      Produced(results[..|results| - 1]) + (if last.Some? then [last.value] else [])
  }

  /** When no call failed, the tokens produced are the results themselves. */
  lemma {:induction false} ProducedAllSome(ts: seq<Token>)
    ensures Produced(Somes(ts)) == ts
    decreases |ts|
  {
    if ts != [] {
      var n := |ts|;
      assert Somes(ts)[..n - 1] == Somes(ts[..n - 1]);
      ProducedAllSome(ts[..n - 1]);
      assert ts == ts[..n - 1] + [ts[n - 1]];
    }
  }

  class Parser {
    const tokenizer: Tokenizer
    var currentToken: Token
    /** Every result the tokenizer has returned to this parser, failures included. */
    ghost var pulled: seq<Option<Token>>
    /** The successive values of `currentToken`. */
    ghost var trace: seq<Token>

    /**
     * The tokenizer has made exactly `|pulled|` calls from the start of its input, with the
     * results in `pulled`; the first one succeeded; `trace` lists the tokens among them and
     * `currentToken` is the last token the tokenizer produced.
     */
    ghost predicate Valid()
      reads this, tokenizer
    {
      tokenizer.Valid() &&
      Run(tokenizer.numeric, tokenizer.input, 0, |pulled|) == (pulled, tokenizer.pos) &&
      |pulled| >= 1 && pulled[0].Some? &&
      trace == Produced(pulled) && |trace| >= 1 && currentToken == trace[|trace| - 1]
    }

    /** The struct literal of `new`: a tokenizer that has made its first call, and that token. */
    constructor (lexer: Tokenizer, curToken: Token)
      requires lexer.Valid()
      requires Step(lexer.numeric, lexer.input, 0) == (Some(curToken), lexer.pos)
      ensures Valid() && tokenizer == lexer && currentToken == curToken
      ensures pulled == [Some(curToken)] && trace == [curToken]
    {
      tokenizer := lexer;
      currentToken := curToken;
      pulled := [Some(curToken)];
      trace := [curToken];
      new;
      assert Run(lexer.numeric, lexer.input, 0, 1) == ([Some(curToken)] + [], lexer.pos);
      assert [Some(curToken)] + [] == pulled;
      assert Produced(pulled) == Produced([]) + [curToken];
    }

    /**
     * `Parser::new`: pull the first token; fail with "Invalid character" exactly when that
     * call fails. On empty input the first token is `EOF` and construction succeeds.
     */
    static method New(expr: string, numeric: char -> bool) returns (r: Result<Parser, ParseError>)
      requires IsNumericClass(numeric)
      ensures r.Err? <==> Step(numeric, expr, 0).0.None?
      ensures r.Err? ==> r.error == InvalidCharacter
      ensures r.Ok? ==> fresh(r.value) && fresh(r.value.tokenizer) && r.value.Valid()
      ensures r.Ok? ==> r.value.tokenizer.input == expr && r.value.tokenizer.numeric == numeric
      ensures r.Ok? ==> Step(numeric, expr, 0).0 == Some(r.value.currentToken)
      ensures r.Ok? ==> r.value.tokenizer.pos == Step(numeric, expr, 0).1
      ensures r.Ok? ==> r.value.pulled == [Some(r.value.currentToken)]
      ensures r.Ok? ==> r.value.trace == [r.value.currentToken]
    {
      var lexer := new Tokenizer(expr, numeric);
      var first := lexer.Next();
      if first.None? {
        return Err(InvalidCharacter);
      }
      var parser := new Parser(lexer, first.value);
      return Ok(parser);
    }

    /**
     * `get_next_token`: pull one token into `currentToken`. On a tokenizer failure return
     * "Invalid character" before the assignment, so `currentToken` keeps its value; the
     * tokenizer's cursor has moved in both cases.
     */
    method GetNextToken() returns (r: Result<(), ParseError>)
      requires Valid()
      modifies this, tokenizer
      ensures Valid()
      ensures var (t, p) := Step(tokenizer.numeric, tokenizer.input, old(tokenizer.pos));
        tokenizer.pos == p && pulled == old(pulled) + [t] &&
        (r.Ok? <==> t.Some?) &&
        (t.Some? ==> currentToken == t.value && trace == old(trace) + [t.value]) &&
        (t.None? ==> r == Err(InvalidCharacter) && currentToken == old(currentToken) &&
                     trace == old(trace))
    {
      ghost var n := |pulled|;
      RunSnoc(tokenizer.numeric, tokenizer.input, 0, n);
      var next := tokenizer.Next();
      pulled := pulled + [next];
      assert pulled[..n] == old(pulled);
      if next.None? {
        return Err(InvalidCharacter);
      }
      currentToken := next.value;
      trace := trace + [next.value];
      return Ok(());
    }
  }

  /**
   * As long as no advance has failed, the successive values of `currentToken` are exactly
   * the first tokens of the tokenizer's stream.
   */
  lemma TraceIsStreamPrefix(p: Parser)
    requires p.Valid()
    requires forall k :: 0 <= k < |p.pulled| ==> p.pulled[k].Some?
    ensures Somes(p.trace) == Run(p.tokenizer.numeric, p.tokenizer.input, 0, |p.trace|).0
  {
    var pulled := p.pulled;
    var ts := seq(|pulled|, k requires 0 <= k < |pulled| => pulled[k].value);
    assert Somes(ts) == pulled;
    ProducedAllSome(ts);
  }

  /**
   * The parser's own test: on "1+2" the current token is `Num("1")`, then `Add` and then
   * `Num("2")` after two advances.
   */
  method ParseOnePlusTwo(numeric: char -> bool) returns (tokens: seq<Token>)
    requires IsNumericClass(numeric)
    ensures tokens == [Num("1"), Add, Num("2")]
  {
    assert !numeric('+');
    assert NumberEnd(numeric, "1+2", 1) == 1 && NumberEnd(numeric, "1+2", 3) == 3;
    assert "1+2"[0..1] == "1" && "1+2"[2..3] == "2";
    assert Step(numeric, "1+2", 0) == (Some(Num("1")), 1);
    assert Step(numeric, "1+2", 1) == (Some(Add), 2);
    assert Step(numeric, "1+2", 2) == (Some(Num("2")), 3);
    var created := Parser.New("1+2", numeric);
    var parser := created.value;
    tokens := [parser.currentToken];
    var advanced := parser.GetNextToken();
    tokens := tokens + [parser.currentToken];
    advanced := parser.GetNextToken();
    tokens := tokens + [parser.currentToken];
  }
}
