/**
 * What the front end does with a line holding a character it does not know: the
 * lexer yields `None` for it and goes on, and the parser stops at that `None`.
 * No error is reported for the line.
 */
module UnknownInput {
  import opened Base
  import opened Lexing
  import opened Ast
  import opened Parsing
  import opened ParserProps

  /** The four calls of `token` on "1 & 2": a number, nothing for `&`, a number, the end. */
  lemma UnknownCharacterLexSteps(s: seq<char>)
    requires s == "1 & 2"
    ensures LexStep(s, 0) == Lexed(Some(Token.Number(1)), 1)
    ensures LexStep(s, 1) == Lexed(None, 3)
    ensures LexStep(s, 3) == Lexed(Some(Token.Number(2)), 5)
    ensures SkipWhitespace(s, 5) == 5 && LexAll(s, 5) == []
  {
    assert s[0..1] == "1" && s[4..5] == "2";
    NumberToken(s, 0, 0, 1);
    UnknownCharacter(s, 1, 2);
    NumberToken(s, 3, 4, 5);
    EndOfInput(s, 5);
  }

  /** The lexer yields nothing for `&` and carries on with the `2` after it. */
  lemma UnknownCharacterSteps(s: seq<char>)
    requires s == "1 & 2"
    ensures LexAll(s, 0) == [Some(Token.Number(1)), None, Some(Token.Number(2))]
  {
    UnknownCharacterLexSteps(s);
    LexAllStep(s, 0);
    LexAllStep(s, 1);
    LexAllStep(s, 3);
  }

  /**
   * The `None` that `&` leaves in the lookahead ends the loop after `1`, so the
   * line parses to `1` and the `2` after it changes nothing.
   */
  lemma UnknownCharacterEndsParse(s: seq<char>)
    requires s == "1 & 2"
    ensures ParseText(s) == Some(Expr.Number(1))
  {
    UnknownCharacterSteps(s);
    var st := InitialState([Some(Token.Number(1)), None, Some(Token.Number(2))]);
    assert st == TokenState(Some(Token.Number(1)), None, [Some(Token.Number(2))]);
    LoopStops(Expr.Number(1), st, Lowest);
  }
}
