/**
 * The tokenizer: a single forward cursor over the input characters with one character of
 * lookahead. `Step` is the reference definition of one call of `next`; the `Tokenizer`
 * class holds the cursor and its `Next` method, a peek loop, is proved to behave as `Step`.
 */
module Lexer {
  import opened Wrappers
  import opened Tokens

  /**
   * Rust's `char::is_numeric` holds for every Unicode numeric character. The model takes it
   * as a parameter and fixes it only on ASCII, where it holds exactly for '0'..'9'.
   */
  ghost predicate IsNumericClass(numeric: char -> bool) {
    forall c: char :: IsAscii(c) ==> (numeric(c) <==> IsAsciiDigit(c))
  }

  /** A character the number scan takes after the leading digit. */
  predicate InNumber(numeric: char -> bool, c: char) {
    numeric(c) || c == '.'
  }

  /** The end of the run of number characters in `s` that starts at `i`. */
  function NumberEnd(numeric: char -> bool, s: string, i: nat): (j: nat)
    requires i <= |s|
    ensures i <= j <= |s|
    ensures forall k :: i <= k < j ==> InNumber(numeric, s[k])
    ensures j == |s| || !InNumber(numeric, s[j])
    decreases |s| - i
  {
    if i < |s| && InNumber(numeric, s[i]) then NumberEnd(numeric, s, i + 1) else i
  }

  /**
   * One call of the tokenizer with the cursor at `pos`: the result of the call and the new
   * cursor. `None` is a lexical failure, `Some(EOF)` the end of input.
   */
  function Step(numeric: char -> bool, s: string, pos: nat): (r: (Option<Token>, nat))
    requires pos <= |s|
    ensures pos <= r.1 <= |s|
    ensures r.0 == Some(EOF) <==> pos == |s|
    ensures r.0 == Some(EOF) ==> r.1 == pos
    ensures r.0 != Some(EOF) ==> pos < r.1
  {
    if pos == |s| then (Some(EOF), pos)
    else if IsAsciiDigit(s[pos]) then
      var end := NumberEnd(numeric, s, pos + 1);
      if end < |s| && s[end] == '(' then (None, end) else (Some(Num(s[pos..end])), end)
    else (SymbolToken(s[pos]), pos + 1)
  }

  /** The results of `n` successive calls starting with the cursor at `pos`, and the final cursor. */
  function Run(numeric: char -> bool, s: string, pos: nat, n: nat): (r: (seq<Option<Token>>, nat))
    requires pos <= |s|
    ensures |r.0| == n && pos <= r.1 <= |s|
    decreases n
  {
    if n == 0 then ([], pos)
    else
      var (t, p) := Step(numeric, s, pos);
      var (rest, q) := Run(numeric, s, p, n - 1);
      ([t] + rest, q)
  }

  /**
   * Pull tokens until `EOF` or the first lexical failure. It terminates because every call
   * that does not return `EOF` moves the cursor forward, so `|s| - pos` decreases.
   */
  function Lex(numeric: char -> bool, s: string, pos: nat): (r: Option<seq<Token>>)
    requires pos <= |s|
    ensures r.Some? ==> |r.value| >= 1 && r.value[|r.value| - 1] == EOF
    ensures r.Some? ==> forall k :: 0 <= k < |r.value| - 1 ==> r.value[k] != EOF
    decreases |s| - pos
  {
    var (t, p) := Step(numeric, s, pos);
    match t
    case None => None
    case Some(EOF) => Some([EOF])
    case Some(tok) =>
      match Lex(numeric, s, p)
      case None => None
      case Some(rest) => Some([tok] + rest)
  }

  function Somes<T>(xs: seq<T>): (r: seq<Option<T>>)
    ensures |r| == |xs| && forall k :: 0 <= k < |xs| ==> r[k] == Some(xs[k])
  {
    seq(|xs|, k requires 0 <= k < |xs| => Some(xs[k]))
  }

  /** The concatenated source text of a sequence of tokens. */
  function Text(ts: seq<Token>): string {
    if ts == [] then [] else TokenText(ts[0]) + Text(ts[1..])
  }

  // ---------------------------------------------------------------- one call

  /** Each of `+ - * / ^ ( )` yields exactly its token and consumes only that character. */
  lemma SymbolStep(numeric: char -> bool, s: string, pos: nat)
    requires pos < |s| && s[pos] in Symbols
    ensures var (t, p) := Step(numeric, s, pos);
      p == pos + 1 && t.Some? && IsSymbolToken(t.value) && TokenText(t.value) == [s[pos]]
  {
  }

  /** At end of input the call yields `EOF` and leaves the cursor at the end. */
  lemma EndStep(numeric: char -> bool, s: string)
    ensures Step(numeric, s, |s|) == (Some(EOF), |s|)
  {
  }

  /** A character that is neither an ASCII digit nor a symbol fails and consumes only itself. */
  lemma InvalidStep(numeric: char -> bool, s: string, pos: nat)
    requires pos < |s| && !IsAsciiDigit(s[pos]) && s[pos] !in Symbols
    ensures Step(numeric, s, pos) == (None, pos + 1)
  {
  }

  /**
   * A `Num` lexeme is the text between the old and the new cursor; it starts with an ASCII
   * digit, holds only number characters, and is maximal: the cursor stops at the end of input
   * or at a character that is neither numeric nor '.' nor '(' and is left for the next call.
   */
  lemma NumberStep(numeric: char -> bool, s: string, pos: nat, lexeme: string)
    requires IsNumericClass(numeric)
    requires pos <= |s| && Step(numeric, s, pos).0 == Some(Num(lexeme))
    ensures var p := Step(numeric, s, pos).1;
      lexeme == s[pos..p] && |lexeme| >= 1 && IsAsciiDigit(lexeme[0]) &&
      (forall k :: 0 <= k < |lexeme| ==> InNumber(numeric, lexeme[k])) &&
      (p == |s| || (!InNumber(numeric, s[p]) && s[p] != '('))
  {
  }

  /** Conversely, a digit whose number run is not followed by '(' yields that whole run. */
  lemma NumberStepComplete(numeric: char -> bool, s: string, pos: nat)
    requires pos < |s| && IsAsciiDigit(s[pos])
    requires var j := NumberEnd(numeric, s, pos + 1); j == |s| || s[j] != '('
    ensures var j := NumberEnd(numeric, s, pos + 1);
      Step(numeric, s, pos) == (Some(Num(s[pos..j])), j)
  {
  }

  /**
   * A number run directly followed by '(' fails; its characters are consumed, the '(' is
   * only peeked, so the next call yields `LeftParen`.
   */
  lemma DigitsBeforeParen(numeric: char -> bool, s: string, pos: nat)
    requires pos < |s| && IsAsciiDigit(s[pos])
    requires var j := NumberEnd(numeric, s, pos + 1); j < |s| && s[j] == '('
    ensures var j := NumberEnd(numeric, s, pos + 1);
      Step(numeric, s, pos) == (None, j) && Step(numeric, s, j) == (Some(LeftParen), j + 1)
  {
  }

  /** The token text read by a successful call is exactly the input it consumed. */
  lemma StepText(numeric: char -> bool, s: string, pos: nat)
    requires pos <= |s| && Step(numeric, s, pos).0.Some?
    ensures var (t, p) := Step(numeric, s, pos); TokenText(t.value) == s[pos..p]
  {
  }

  // ---------------------------------------------------------------- many calls

  /** One more call appends one result: the stream seen from the end. */
  lemma {:induction false} RunSnoc(numeric: char -> bool, s: string, pos: nat, n: nat)
    requires pos <= |s|
    ensures var (rs, q) := Run(numeric, s, pos, n);
      Run(numeric, s, pos, n + 1) == (rs + [Step(numeric, s, q).0], Step(numeric, s, q).1)
    decreases n
  {
    var (t, p) := Step(numeric, s, pos);
    if n == 0 {
      assert Run(numeric, s, pos, 1) == ([t] + [], p);
      assert [t] + [] == [] + [t];
    } else {
      RunSnoc(numeric, s, p, n - 1);
      var (rest, q) := Run(numeric, s, p, n - 1);
      var x := Step(numeric, s, q).0;
      assert Run(numeric, s, pos, n) == ([t] + rest, q);
      assert Run(numeric, s, p, n) == (rest + [x], Step(numeric, s, q).1);
      assert Run(numeric, s, pos, n + 1) == ([t] + (rest + [x]), Step(numeric, s, q).1);
      assert [t] + (rest + [x]) == ([t] + rest) + [x];
    }
  }

  /** Once the input is exhausted, every further call yields `EOF` and the cursor stays put. */
  lemma {:induction false} EndRepeats(numeric: char -> bool, s: string, n: nat)
    ensures Run(numeric, s, |s|, n).1 == |s|
    ensures forall k :: 0 <= k < n ==> Run(numeric, s, |s|, n).0[k] == Some(EOF)
    decreases n
  {
    if n > 0 {
      EndRepeats(numeric, s, n - 1);
    }
  }

  /** After the first `EOF` of a stream, every later call yields `EOF` as well. */
  lemma {:induction false} EofIsFinal(numeric: char -> bool, s: string, pos: nat, n: nat, i: nat, j: nat)
    requires pos <= |s| && i <= j < n
    requires Run(numeric, s, pos, n).0[i] == Some(EOF)
    ensures Run(numeric, s, pos, n).0[j] == Some(EOF)
    decreases n
  {
    var (t, p) := Step(numeric, s, pos);
    if i == 0 {
      assert t == Some(EOF);
      EndRepeats(numeric, s, n);
    } else {
      EofIsFinal(numeric, s, p, n - 1, i - 1, j - 1);
    }
  }

  /** Pulling as many tokens as `Lex` returns yields exactly those tokens and ends the input. */
  lemma {:induction false} LexAgreesWithRun(numeric: char -> bool, s: string, pos: nat)
    requires pos <= |s| && Lex(numeric, s, pos).Some?
    ensures var ts := Lex(numeric, s, pos).value;
      Run(numeric, s, pos, |ts|) == (Somes(ts), |s|)
    decreases |s| - pos
  {
    var (t, p) := Step(numeric, s, pos);
    var ts := Lex(numeric, s, pos).value;
    if t == Some(EOF) {
      assert ts == [EOF];
      assert Run(numeric, s, pos, 1) == ([t] + [], p);
      assert Somes(ts) == [t] + [];
    } else {
      LexAgreesWithRun(numeric, s, p);
      var rest := Lex(numeric, s, p).value;
      assert ts == [t.value] + rest;
      assert Run(numeric, s, pos, |ts|) == ([t] + Somes(rest), |s|);
      assert Somes(ts) == [t] + Somes(rest);
    }
  }

  /** A successful tokenization loses and adds nothing: the token texts spell the input. */
  lemma {:induction false} LexText(numeric: char -> bool, s: string, pos: nat)
    requires pos <= |s| && Lex(numeric, s, pos).Some?
    ensures Text(Lex(numeric, s, pos).value) == s[pos..]
    decreases |s| - pos
  {
    var r := Step(numeric, s, pos);
    if r.0 == Some(EOF) {
      LexEnd(numeric, s, pos);
      assert Text([EOF]) == TokenText(EOF) + Text([]);
    } else {
      var t, p := r.0.value, r.1;
      LexCons(numeric, s, pos);
      var rest := Lex(numeric, s, p).value;
      StepText(numeric, s, pos);
      LexText(numeric, s, p);
      TextCons(t, rest);
      SliceSplit(s, pos, p);
    }
  }

  lemma SliceSplit(s: string, i: nat, j: nat)
    requires i <= j <= |s|
    ensures s[i..] == s[i..j] + s[j..]
  {
  }

  /** At end of input the stream is just `EOF`. */
  lemma LexEnd(numeric: char -> bool, s: string, pos: nat)
    requires pos <= |s| && Step(numeric, s, pos).0 == Some(EOF)
    ensures Lex(numeric, s, pos) == Some([EOF])
  {
  }

  /** A successful stream that does not end at once is the first token followed by the rest. */
  lemma LexCons(numeric: char -> bool, s: string, pos: nat)
    requires pos <= |s| && Lex(numeric, s, pos).Some? && Step(numeric, s, pos).0 != Some(EOF)
    ensures var (t, p) := Step(numeric, s, pos);
      t.Some? && Lex(numeric, s, p).Some? &&
      Lex(numeric, s, pos).value == [t.value] + Lex(numeric, s, p).value
  {
  }

  lemma TextCons(t: Token, ts: seq<Token>)
    ensures Text([t] + ts) == TokenText(t) + Text(ts)
  {
    assert ([t] + ts)[1..] == ts;
  }

  // ---------------------------------------------------------------- worked inputs

  /** "34" is one number. */
  lemma LexPositiveInteger(numeric: char -> bool)
    requires IsNumericClass(numeric)
    ensures Lex(numeric, "34", 0) == Some([Num("34"), EOF])
  {
    assert numeric('3') && numeric('4');
    assert NumberEnd(numeric, "34", 1) == 2;
    assert "34"[0..2] == "34";
    assert Step(numeric, "34", 0) == (Some(Num("34")), 2);
    assert Lex(numeric, "34", 2) == Some([EOF]);
    assert [Num("34")] + [EOF] == [Num("34"), EOF];
  }

  /** "3+4" is a number, an `Add` and a number. */
  lemma LexMixedChars(numeric: char -> bool)
    requires IsNumericClass(numeric)
    ensures Lex(numeric, "3+4", 0) == Some([Num("3"), Add, Num("4"), EOF])
  {
    assert !numeric('+');
    assert NumberEnd(numeric, "3+4", 1) == 1;
    assert NumberEnd(numeric, "3+4", 3) == 3;
    assert "3+4"[0..1] == "3" && "3+4"[2..3] == "4";
    assert Step(numeric, "3+4", 0) == (Some(Num("3")), 1);
    assert Step(numeric, "3+4", 1) == (Some(Add), 2);
    assert Step(numeric, "3+4", 2) == (Some(Num("4")), 3);
    assert Lex(numeric, "3+4", 3) == Some([EOF]);
    assert [Num("4")] + [EOF] == [Num("4"), EOF];
    assert Lex(numeric, "3+4", 2) == Some([Num("4"), EOF]);
    assert [Add] + [Num("4"), EOF] == [Add, Num("4"), EOF];
    assert Lex(numeric, "3+4", 1) == Some([Add, Num("4"), EOF]);
    assert [Num("3")] + [Add, Num("4"), EOF] == [Num("3"), Add, Num("4"), EOF];
  }

  /** "34.5" is one number, the '.' included. */
  lemma LexDecimalNumber(numeric: char -> bool)
    requires IsNumericClass(numeric)
    ensures Lex(numeric, "34.5", 0) == Some([Num("34.5"), EOF])
  {
    assert numeric('4') && numeric('5');
    assert NumberEnd(numeric, "34.5", 1) == 4;
    assert "34.5"[0..4] == "34.5";
    assert Step(numeric, "34.5", 0) == (Some(Num("34.5")), 4);
    assert Lex(numeric, "34.5", 4) == Some([EOF]);
    assert [Num("34.5")] + [EOF] == [Num("34.5"), EOF];
  }

  /**
   * The scan does not limit the number of '.' characters: "1.2.3" is collected whole, and it
   * is a lexeme the source's float conversion rejects.
   */
  lemma LexSeveralDots(numeric: char -> bool)
    requires IsNumericClass(numeric)
    ensures Lex(numeric, "1.2.3", 0) == Some([Num("1.2.3"), EOF])
    ensures !ParsesAsFloat("1.2.3")
  {
    assert numeric('2') && numeric('3');
    assert NumberEnd(numeric, "1.2.3", 1) == 5;
    assert "1.2.3"[0..5] == "1.2.3";
    assert Step(numeric, "1.2.3", 0) == (Some(Num("1.2.3")), 5);
    assert Lex(numeric, "1.2.3", 5) == Some([EOF]);
    assert [Num("1.2.3")] + [EOF] == [Num("1.2.3"), EOF];
    assert DotCount("1.2.3") == 2 by {
      assert "1.2.3"[1..] == ".2.3";
      assert ".2.3"[1..] == "2.3";
      assert "2.3"[1..] == ".3";
      assert ".3"[1..] == "3";
    }
  }

  /** "2(3": the digit run before '(' fails, and the '(' is what the next call reads. */
  lemma RunDigitBeforeParen(numeric: char -> bool)
    requires IsNumericClass(numeric)
    ensures Run(numeric, "2(3", 0, 4).0 == [None, Some(LeftParen), Some(Num("3")), Some(EOF)]
  {
    assert NumberEnd(numeric, "2(3", 1) == 1;
    assert NumberEnd(numeric, "2(3", 3) == 3;
    assert Step(numeric, "2(3", 0) == (None, 1);
    assert Step(numeric, "2(3", 1) == (Some(LeftParen), 2);
    assert "2(3"[2..3] == "3";
    assert Step(numeric, "2(3", 2) == (Some(Num("3")), 3);
    assert Step(numeric, "2(3", 3) == (Some(EOF), 3);
  }

  // ---------------------------------------------------------------- the cursor

  /** The tokenizer state: the input, the numeric classification it uses, and the cursor. */
  class Tokenizer {
    const input: string
    const numeric: char -> bool
    var pos: nat

    ghost predicate Valid()
      reads this
    {
      pos <= |input| && IsNumericClass(numeric)
    }

    /** `Tokenizer::new`: the cursor starts before the first character. */
    constructor (expr: string, numeric: char -> bool)
      requires IsNumericClass(numeric)
      ensures Valid() && input == expr && this.numeric == numeric && pos == 0
    {
      input := expr;
      this.numeric := numeric;
      pos := 0;
    }

    /** `next`: one call of the tokenizer, as `Step` defines it. */
    method Next() returns (t: Option<Token>)
      requires Valid()
      modifies this
      ensures Valid()
      ensures (t, pos) == Step(numeric, input, old(pos))
    {
      if pos == |input| {
        return Some(EOF);
      }
      ghost var start := pos;
      var c := input[pos];
      pos := pos + 1;
      if '0' <= c <= '9' {
        var number := [c];
        while pos < |input|
          invariant start < pos <= |input|
          invariant number == input[start..pos]
          invariant NumberEnd(numeric, input, pos) == NumberEnd(numeric, input, start + 1)
          decreases |input| - pos
        {
          var next := input[pos];
          if numeric(next) || next == '.' {
            number := number + [next];
            pos := pos + 1;
          } else if next == '(' {
            return None;
          } else {
            break;
          }
        }
        t := Some(Num(number));
      } else {
        match c
        case '+' => t := Some(Add);
        case '-' => t := Some(Subtract);
        case '*' => t := Some(Multiply);
        case '/' => t := Some(Divide);
        case '^' => t := Some(Caret);
        case '(' => t := Some(LeftParen);
        case ')' => t := Some(RightParen);
        case _ => t := None;
      }
    }
  }
}
