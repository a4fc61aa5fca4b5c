/**
 * The unit tests of `src/lexer.rs` and `src/parser.rs`, stated over the model:
 * the tokens `test_lexer` expects, the trees `test_parser` expects (compared as
 * trees) and the values `test_eval` expects.
 *
 * Each test input is written as the laid-out text of a token sequence
 * (`LexerProps.Layout`), so that `LayoutThenLex` gives its tokens and the parser
 * lemmas give its tree; every fact about a concrete sequence or string is a lemma
 * of its own.
 */
module SourceTests {
  import opened Base
  import opened Lexing
  import opened Ast
  import opened Parsing
  import opened Evaluation
  import opened LexerProps
  import opened ParserProps

  /** `do_parser`: a fresh lexer over the input, a parser over that lexer, one parse. */
  method DoParser(input: seq<char>) returns (r: Option<Expr>)
    ensures r == ParseText(input)
  {
    var lexer := new Lexer(input);
    var parser := new Parser(lexer);
    r := parser.Parse();
  }

  /** The steps of the lexer over "1 + 2": a number, the operator, a number, then the end. */
  lemma OnePlusTwoSteps(s: seq<char>)
    requires s == "1 + 2"
    ensures LexStep(s, 0) == Lexed(Some(Token.Number(1)), 1)
    ensures LexStep(s, 1) == Lexed(Some(Token.Plus), 3)
    ensures LexStep(s, 3) == Lexed(Some(Token.Number(2)), 5)
    ensures LexStep(s, 5) == Lexed(None, 5)
  {
    assert s[0..1] == "1" && s[4..5] == "2";
    NumberToken(s, 0, 0, 1);
    OperatorToken(s, 1, 2);
    NumberToken(s, 3, 4, 5);
    EndOfInput(s, 5);
  }

  /** `test_lexer`: four calls of `token` on "1 + 2". */
  method TestLexer() returns (tokens: seq<Option<Token>>)
    ensures tokens == [Some(Token.Number(1)), Some(Token.Plus), Some(Token.Number(2)), None]
  {
    var lexer := new Lexer("1 + 2");
    OnePlusTwoSteps(lexer.input);
    var first := lexer.NextToken();
    var second := lexer.NextToken();
    var third := lexer.NextToken();
    var fourth := lexer.NextToken();
    tokens := [first, second, third, fourth];
  }

  /** Text laid out from tokens whose parse is known parses to that tree. */
  lemma ParsesTo(input: seq<char>, ts: seq<Token>, spaced: seq<bool>, e: Expr)
    requires |spaced| == |ts| && Separated(ts, spaced) && input == Layout(ts, spaced)
    requires ParseTokens(Wrap(ts)) == Some(e)
    ensures ParseText(input) == Some(e)
  {
    LayoutThenLex(ts, spaced);
  }

  // "1 + 2"

  lemma OnePlusTwoText()
    ensures Layout([Token.Number(1), Token.Plus, Token.Number(2)], [true, true, false]) == "1 + 2"
  {
  }

  lemma OnePlusTwoSeparated(ts: seq<Token>, spaced: seq<bool>)
    requires ts == [Token.Number(1), Token.Plus, Token.Number(2)] && spaced == [true, true, false]
    ensures Separated(ts, spaced)
  {
  }

  lemma OnePlusTwoTokens(ts: seq<Token>)
    requires ts == [Token.Number(1), Token.Plus, Token.Number(2)]
    ensures ParseTokens(Wrap(ts)) == Some(InfixExpr(Expr.Number(1), Op.Plus, Expr.Number(2)))
  {
    var links := [Link(Op.Plus, 2)];
    assert ts == [Token.Number(1)] + LinkTokens(links);
    ChainLeftAssociative(1, links, Sum);
  }

  /** `"1 + 2"` parses to `1 + 2`. */
  lemma ParseOnePlusTwo(input: seq<char>)
    requires input == "1 + 2"
    ensures ParseText(input) == Some(InfixExpr(Expr.Number(1), Op.Plus, Expr.Number(2)))
  {
    var ts, spaced := [Token.Number(1), Token.Plus, Token.Number(2)], [true, true, false];
    OnePlusTwoText();
    OnePlusTwoSeparated(ts, spaced);
    OnePlusTwoTokens(ts);
    ParsesTo(input, ts, spaced, InfixExpr(Expr.Number(1), Op.Plus, Expr.Number(2)));
  }

  /** An input laid out from the tokens of `a + b * c` parses to `a + (b * c)`. */
  lemma SumOfProductParses(input: seq<char>, ts: seq<Token>, spaced: seq<bool>, a: Expr, b: Expr, c: Expr)
    requires WellFormed(a) && WellFormed(b) && WellFormed(c)
    requires ts == Print(a) + [Token.Plus] + Print(b) + [Token.Times] + Print(c)
    requires |spaced| == |ts| && Separated(ts, spaced) && input == Layout(ts, spaced)
    ensures ParseText(input) == Some(InfixExpr(a, Op.Plus, InfixExpr(b, Op.Times, c)))
  {
    ProductBindsTighterOnTheRight(a, Op.Plus, b, Op.Times, c);
    ParsesTo(input, ts, spaced, InfixExpr(a, Op.Plus, InfixExpr(b, Op.Times, c)));
  }

  // "- 1 + 2 * 3"

  lemma NegatedSumText()
    ensures Layout([Token.Minus, Token.Number(1), Token.Plus, Token.Number(2), Token.Times, Token.Number(3)], 
                   [true, true, true, true, true, false]) == "- 1 + 2 * 3"
  {
  }

  lemma NegatedSumSeparated(ts: seq<Token>, spaced: seq<bool>)
    requires ts == [Token.Minus, Token.Number(1), Token.Plus, Token.Number(2), Token.Times, Token.Number(3)]
    requires spaced == [true, true, true, true, true, false]
    ensures Separated(ts, spaced)
  {
  }

  lemma NegatedSumTokens(ts: seq<Token>)
    requires ts == [Token.Minus, Token.Number(1), Token.Plus, Token.Number(2), Token.Times, Token.Number(3)]
    ensures ts == Print(PrefixExpr(Op.Minus, Expr.Number(1))) + [Token.Plus] + Print(Expr.Number(2))
                  + [Token.Times] + Print(Expr.Number(3))
  {
  }

  /** `"- 1 + 2 * 3"` parses to `(-1) + (2 * 3)`: the minus binds tightest. */
  lemma ParseNegatedSum(input: seq<char>)
    requires input == "- 1 + 2 * 3"
    ensures ParseText(input)
      == Some(InfixExpr(PrefixExpr(Op.Minus, Expr.Number(1)), Op.Plus, InfixExpr(Expr.Number(2), Op.Times, Expr.Number(3))))
  {
    var ts := [Token.Minus, Token.Number(1), Token.Plus, Token.Number(2), Token.Times, Token.Number(3)];
    var spaced := [true, true, true, true, true, false];
    NegatedSumText();
    NegatedSumSeparated(ts, spaced);
    NegatedSumTokens(ts);
    SumOfProductParses(input, ts, spaced, PrefixExpr(Op.Minus, Expr.Number(1)), Expr.Number(2), Expr.Number(3));
  }

  // "1 + 2 * 3"

  lemma SumOfProductText()
    ensures Layout([Token.Number(1), Token.Plus, Token.Number(2), Token.Times, Token.Number(3)], 
                   [true, true, true, true, false]) == "1 + 2 * 3"
  {
  }

  lemma SumOfProductSeparated(ts: seq<Token>, spaced: seq<bool>)
    requires ts == [Token.Number(1), Token.Plus, Token.Number(2), Token.Times, Token.Number(3)]
    requires spaced == [true, true, true, true, false]
    ensures Separated(ts, spaced)
  {
  }

  lemma SumOfProductTokens(ts: seq<Token>)
    requires ts == [Token.Number(1), Token.Plus, Token.Number(2), Token.Times, Token.Number(3)]
    ensures ts == Print(Expr.Number(1)) + [Token.Plus] + Print(Expr.Number(2)) + [Token.Times] + Print(Expr.Number(3))
  {
  }

  /** `"1 + 2 * 3"` parses to `1 + (2 * 3)`. */
  lemma ParseSumOfProduct(input: seq<char>)
    requires input == "1 + 2 * 3"
    ensures ParseText(input)
      == Some(InfixExpr(Expr.Number(1), Op.Plus, InfixExpr(Expr.Number(2), Op.Times, Expr.Number(3))))
  {
    var ts := [Token.Number(1), Token.Plus, Token.Number(2), Token.Times, Token.Number(3)];
    var spaced := [true, true, true, true, false];
    SumOfProductText();
    SumOfProductSeparated(ts, spaced);
    SumOfProductTokens(ts);
    SumOfProductParses(input, ts, spaced, Expr.Number(1), Expr.Number(2), Expr.Number(3));
  }

  // "1 + (2 + 3) * -(3 / 3)"

  /** The tokens of the grouped test and the spaces after them. */
  predicate GroupedLayout(ts: seq<Token>, spaced: seq<bool>) {
    ts == [Token.Number(1), Token.Plus, LParen, Token.Number(2), Token.Plus, Token.Number(3), RParen,
           Token.Times, Token.Minus, LParen, Token.Number(3), Token.Divides, Token.Number(3), RParen]
    && spaced == [true, true, false, true, true, false, true, true, false, false, true, true, false, false]
  }

  lemma GroupedPieces(ts: seq<Token>, spaced: seq<bool>)
    requires GroupedLayout(ts, spaced)
    ensures ts[..5] == [Token.Number(1), Token.Plus, LParen, Token.Number(2), Token.Plus]
    ensures spaced[..5] == [true, true, false, true, true]
    ensures ts[5..10] == [Token.Number(3), RParen, Token.Times, Token.Minus, LParen]
    ensures spaced[5..10] == [false, true, true, false, false]
    ensures ts[10..] == [Token.Number(3), Token.Divides, Token.Number(3), RParen]
    ensures spaced[10..] == [true, true, false, false]
  {
  }

  lemma FirstPieceText()
    ensures Layout([Token.Number(1), Token.Plus, LParen, Token.Number(2), Token.Plus], [true, true, false, true, true])
            == "1 + (2 + "
  {
  }

  lemma SecondPieceText()
    ensures Layout([Token.Number(3), RParen, Token.Times, Token.Minus, LParen], [false, true, true, false, false])
            == "3) * -("
  {
  }

  lemma ThirdPieceText()
    ensures Layout([Token.Number(3), Token.Divides, Token.Number(3), RParen], [true, true, false, false]) == "3 / 3)"
  {
  }

  lemma GroupedPiecesJoin()
    ensures "1 + (2 + " + "3) * -(" + "3 / 3)" == "1 + (2 + 3) * -(3 / 3)"
  {
  }

  lemma GroupedPiecesText(ts: seq<Token>, spaced: seq<bool>)
    requires GroupedLayout(ts, spaced)
    ensures Layout(ts, spaced) == "1 + (2 + " + "3) * -(" + "3 / 3)"
  {
    GroupedPieces(ts, spaced);
    FirstPieceText();
    SecondPieceText();
    ThirdPieceText();
    LayoutInThree(ts, spaced, 5, 10, "1 + (2 + ", "3) * -(", "3 / 3)");
  }

  lemma GroupedText(ts: seq<Token>, spaced: seq<bool>)
    requires GroupedLayout(ts, spaced)
    ensures Layout(ts, spaced) == "1 + (2 + 3) * -(3 / 3)"
  {
    GroupedPiecesText(ts, spaced);
    GroupedPiecesJoin();
  }

  lemma GroupedSeparated(ts: seq<Token>, spaced: seq<bool>)
    requires GroupedLayout(ts, spaced)
    ensures Separated(ts, spaced)
  {
  }

  lemma GroupedTokens(ts: seq<Token>, spaced: seq<bool>)
    requires GroupedLayout(ts, spaced)
    ensures ts == Print(Expr.Number(1)) + [Token.Plus] + Print(InfixExpr(Expr.Number(2), Op.Plus, Expr.Number(3)))
                  + [Token.Times] + Print(PrefixExpr(Op.Minus, InfixExpr(Expr.Number(3), Op.Divides, Expr.Number(3))))
  {
  }

  /** `"1 + (2 + 3) * -(3 / 3)"`: the group is one operand and no node stands for the parentheses. */
  lemma ParseGrouped(input: seq<char>)
    requires input == "1 + (2 + 3) * -(3 / 3)"
    ensures ParseText(input)
      == Some(InfixExpr(Expr.Number(1), Op.Plus,
                        InfixExpr(InfixExpr(Expr.Number(2), Op.Plus, Expr.Number(3)), Op.Times,
                                  PrefixExpr(Op.Minus, InfixExpr(Expr.Number(3), Op.Divides, Expr.Number(3))))))
  {
    var ts := [Token.Number(1), Token.Plus, LParen, Token.Number(2), Token.Plus, Token.Number(3), RParen,
               Token.Times, Token.Minus, LParen, Token.Number(3), Token.Divides, Token.Number(3), RParen];
    var spaced := [true, true, false, true, true, false, true, true, false, false, true, true, false, false];
    GroupedText(ts, spaced);
    GroupedSeparated(ts, spaced);
    GroupedTokens(ts, spaced);
    SumOfProductParses(input, ts, spaced, Expr.Number(1), InfixExpr(Expr.Number(2), Op.Plus, Expr.Number(3)),
                       PrefixExpr(Op.Minus, InfixExpr(Expr.Number(3), Op.Divides, Expr.Number(3))));
  }

  /** `test_parser`: the trees of its two inputs. */
  lemma TestParser(sum: seq<char>, negated: seq<char>)
    requires sum == "1 + 2" && negated == "- 1 + 2 * 3"
    ensures ParseText(sum) == Some(InfixExpr(Expr.Number(1), Op.Plus, Expr.Number(2)))
    ensures ParseText(negated)
      == Some(InfixExpr(PrefixExpr(Op.Minus, Expr.Number(1)), Op.Plus, InfixExpr(Expr.Number(2), Op.Times, Expr.Number(3))))
  {
    ParseOnePlusTwo(sum);
    ParseNegatedSum(negated);
  }

  lemma EvalSum()
    ensures Eval(InfixExpr(Expr.Number(1), Op.Plus, Expr.Number(2))) == Ok(3)
  {
  }

  lemma EvalSumOfProduct()
    ensures Eval(InfixExpr(Expr.Number(1), Op.Plus, InfixExpr(Expr.Number(2), Op.Times, Expr.Number(3)))) == Ok(7)
  {
  }

  lemma EvalGrouped()
    ensures Eval(InfixExpr(Expr.Number(1), Op.Plus,
                           InfixExpr(InfixExpr(Expr.Number(2), Op.Plus, Expr.Number(3)), Op.Times,
                                     PrefixExpr(Op.Minus, InfixExpr(Expr.Number(3), Op.Divides, Expr.Number(3))))))
            == Ok(-4)
  {
  }

  /** `test_eval`: what `do_eval` gives on its three inputs, over mathematical integers. */
  lemma TestEval(sum: seq<char>, product: seq<char>, grouped: seq<char>)
    requires sum == "1 + 2" && product == "1 + 2 * 3" && grouped == "1 + (2 + 3) * -(3 / 3)"
    ensures ParseText(sum).Some? && Eval(ParseText(sum).value) == Ok(3)
    ensures ParseText(product).Some? && Eval(ParseText(product).value) == Ok(7)
    ensures ParseText(grouped).Some? && Eval(ParseText(grouped).value) == Ok(-4)
  {
    ParseOnePlusTwo(sum);
    EvalSum();
    ParseSumOfProduct(product);
    EvalSumOfProduct();
    ParseGrouped(grouped);
    EvalGrouped();
  }
}
