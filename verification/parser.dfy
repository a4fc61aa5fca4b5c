/**
 * The precedence-climbing parser of `src/parser.rs`. The parser holds a current
 * and a lookahead token and pulls further tokens from its lexer one at a time.
 *
 * The functions below give the meaning of each parser method over a `TokenState`:
 * the two token slots and every token the lexer has yet to produce. The `Parser`
 * class is the imperative original, and each of its methods is proved to compute
 * the function of the same role.
 */
module Parsing {
  import opened Base
  import opened Chars
  import opened Lexing
  import opened Ast

  /** Binding strength, ordered as declared: `LOWEST < SUM < PRODUCT < PREFIX`. */
  datatype Precedence = Lowest | Sum | Product | Prefix

  function Rank(p: Precedence): nat {
    match p
    case Lowest => 0
    case Sum => 1
    case Product => 2
    case Prefix => 3
  }

  /** The derived `PartialOrd` comparison `a < b`. */
  predicate Below(a: Precedence, b: Precedence) {
    Rank(a) < Rank(b)
  }

  /** `Parser::token_precedence`. */
  function TokenPrecedence(t: Token): (p: Precedence)
    ensures p == Sum <==> t == Token.Plus || t == Token.Minus
    ensures p == Product <==> t == Token.Times || t == Token.Divides
    ensures p != Prefix
  {
    match t
    case Plus | Minus => Sum
    case Times | Divides => Product
    case _ => Lowest
  }

  /** `Parser::peek_precedence`: an absent lookahead binds least. */
  function PeekPrecedence(peek: Option<Token>): (p: Precedence)
    ensures peek.None? ==> p == Lowest
    ensures peek.Some? ==> p == TokenPrecedence(peek.value)
  {
    match peek
    case None => Lowest
    case Some(t) => TokenPrecedence(t)
  }

  /** Tokens of the same variant, whatever number they hold (`mem::discriminant`). */
  predicate SameVariant(a: Token, b: Token) {
    match (a, b)
    case (Number(_), Number(_)) => true
    case _ => a == b
  }

  /** `Parser::is_peek`: the lookahead is there and has the variant of `t`. */
  predicate IsPeek(peek: Option<Token>, t: Token)
    ensures IsPeek(peek, t) ==> peek.Some?
  {
    peek.Some? && SameVariant(peek.value, t)
  }

  predicate IsOperator(t: Token) {
    t.Plus? || t.Minus? || t.Times? || t.Divides?
  }

  /** The operator label an infix node gets from its token. */
  function OperatorOf(t: Token): (op: Op)
    requires IsOperator(t)
    ensures t.Plus? <==> op == Op.Plus
    ensures t.Minus? <==> op == Op.Minus
    ensures t.Times? <==> op == Op.Times
  {
    match t
    case Plus => Op.Plus
    case Minus => Op.Minus
    case Times => Op.Times
    case Divides => Op.Divides
  }

  /** The two token slots of the parser and everything its lexer has yet to yield. */
  datatype TokenState = TokenState(curr: Option<Token>, peek: Option<Token>, rest: seq<Option<Token>>)

  /** Decreases with every token shift that has something to shift. */
  function Measure(st: TokenState): nat {
    3 * |st.rest| + (if st.curr.Some? then 1 else 0) + (if st.peek.Some? then 2 else 0)
  }

  /**
   * `Parser::next`: the lookahead becomes the current token and the lexer supplies
   * a new lookahead (none once it is exhausted).
   */
  function NextState(st: TokenState): (r: TokenState)
    ensures r.curr == st.peek
    ensures st.rest != [] ==> r.peek == st.rest[0] && r.rest == st.rest[1..]
    ensures st.rest == [] ==> r.peek == None && r.rest == []
    ensures Measure(r) <= Measure(st)
    ensures st.curr.Some? || st.peek.Some? || st.rest != [] ==> Measure(r) < Measure(st)
  {
    if st.rest == [] then TokenState(st.peek, None, [])
    else TokenState(st.peek, st.rest[0], st.rest[1..])
  }

  /** `Parser::new`: both slots are filled by asking the lexer twice. */
  function InitialState(tokens: seq<Option<Token>>): (st: TokenState)
    ensures st.curr == (if |tokens| > 0 then tokens[0] else None)
    ensures st.peek == (if |tokens| > 1 then tokens[1] else None)
    ensures st.rest == if |tokens| > 2 then tokens[2..] else []
  {
    NextState(NextState(TokenState(None, None, tokens)))
  }

  /** What a parse method returns, together with the token state it leaves. */
  datatype Parsed = Parsed(expr: Option<Expr>, st: TokenState)

  /** `Parser::parse_expression(precedence)`. */
  function Expression(st: TokenState, precedence: Precedence): (r: Parsed)
    ensures Measure(r.st) <= Measure(st)
    ensures r.expr.Some? ==> WellFormed(r.expr.value)
    decreases Measure(st), 3
  {
    var left := PrefixProduction(st);
    if left.expr.None? then left else InfixLoop(left.expr.value, left.st, precedence)
  }

  /**
   * The loop of `parse_expression`: while there is a lookahead that binds more
   * strongly than `precedence`, shift and extend `left` with an infix production.
   */
  function InfixLoop(left: Expr, st: TokenState, precedence: Precedence): (r: Parsed)
    ensures Measure(r.st) <= Measure(st)
    ensures r.expr.Some? && WellFormed(left) ==> WellFormed(r.expr.value)
    decreases Measure(st), 2
  {
    if st.peek.Some? && Below(precedence, PeekPrecedence(st.peek)) then
      var next := InfixProduction(left, NextState(st));
      if next.expr.None? then next else InfixLoop(next.expr.value, next.st, precedence)
    else Parsed(Some(left), st)
  }

  /** `Parser::parse_prefix`: dispatch on the current token. */
  function PrefixProduction(st: TokenState): (r: Parsed)
    ensures Measure(r.st) <= Measure(st)
    ensures r.expr.Some? ==> WellFormed(r.expr.value)
    ensures r.expr.Some? ==> st.curr.Some? && (st.curr.value.Minus? || st.curr.value.Number? || st.curr.value.LParen?)
    decreases Measure(st), 2
  {
    match st.curr
    case Some(Minus) => MinusProduction(st)
    case Some(Number(_)) => NumberProduction(st)
    case Some(LParen) => GroupedProduction(st)
    case _ => Parsed(None, st)
  }

  /** `Parser::parse_minus`: a unary minus over an operand parsed at `PREFIX`. */
  function MinusProduction(st: TokenState): (r: Parsed)
    requires st.curr.Some?
    ensures Measure(r.st) <= Measure(st)
    ensures r.expr.Some? ==> WellFormed(r.expr.value) && r.expr.value.PrefixExpr?
    decreases Measure(st), 1
  {
    var operand := Expression(NextState(st), Prefix);
    if operand.expr.None? then operand
    else Parsed(Some(PrefixExpr(Op.Minus, operand.expr.value)), operand.st)
  }

  /** `Parser::parse_number`: a leaf for a current `Number` token; no shift. */
  function NumberProduction(st: TokenState): (r: Parsed)
    ensures r.st == st
    ensures r.expr.Some? <==> st.curr.Some? && st.curr.value.Number?
    ensures r.expr.Some? ==> r.expr.value == Expr.Number(st.curr.value.value)
  {
    match st.curr
    case Some(Number(n)) => Parsed(Some(Expr.Number(n)), st)
    case _ => Parsed(None, st)
  }

  /**
   * `Parser::parse_grouped_expression`: an expression at `LOWEST` that must be
   * followed by `)`; the group is the inner tree itself.
   */
  function GroupedProduction(st: TokenState): (r: Parsed)
    requires st.curr.Some?
    ensures Measure(r.st) <= Measure(st)
    ensures r.expr.Some? ==> WellFormed(r.expr.value)
    decreases Measure(st), 1
  {
    var inner := Expression(NextState(st), Lowest);
    if IsPeek(inner.st.peek, RParen) then Parsed(inner.expr, NextState(inner.st))
    else Parsed(None, inner.st)
  }

  /** `Parser::parse_infix`: an operator token starts an infix node, anything else ends `left`. */
  function InfixProduction(left: Expr, st: TokenState): (r: Parsed)
    ensures Measure(r.st) <= Measure(st)
    ensures r.expr.Some? && WellFormed(left) ==> WellFormed(r.expr.value)
    decreases Measure(st), 2
  {
    match st.curr
    case None => Parsed(None, st)
    case Some(t) =>
      if IsOperator(t) then InfixExpressionProduction(left, st) else Parsed(Some(left), st)
  }

  /**
   * `Parser::parse_infix_expression`: the right operand is parsed at the operator's
   * own precedence, which makes operators of one precedence associate to the left.
   */
  function InfixExpressionProduction(left: Expr, st: TokenState): (r: Parsed)
    requires st.curr.Some? && IsOperator(st.curr.value)
    ensures Measure(r.st) <= Measure(st)
    ensures r.expr.Some? && WellFormed(left) ==> WellFormed(r.expr.value)
    ensures r.expr.Some? ==> r.expr.value.InfixExpr? && r.expr.value.left == left
                             && r.expr.value.op == OperatorOf(st.curr.value)
    decreases Measure(st), 1
  {
    var token := st.curr.value;
    var right := Expression(NextState(st), TokenPrecedence(token));
    if right.expr.None? then right
    else Parsed(Some(InfixExpr(left, OperatorOf(token), right.expr.value)), right.st)
  }

  /** `Parser::parse` over a token stream: an expression at `LOWEST`. */
  function ParseTokens(tokens: seq<Option<Token>>): (r: Option<Expr>)
    ensures r.Some? ==> WellFormed(r.value)
  {
    Expression(InitialState(tokens), Lowest).expr
  }

  /** Lexing then parsing a whole input line. */
  function ParseText(input: seq<char>): (r: Option<Expr>)
    ensures r.Some? ==> WellFormed(r.value)
  {
    ParseTokens(LexAll(input, 0))
  }

  /** Rust's `struct Parser`: its own lexer and the current and lookahead tokens. */
  class Parser {
    const lexer: Lexer
    var curr: Option<Token>
    var peek: Option<Token>

    /** The token slots together with everything the lexer has yet to yield. */
    ghost function State(): TokenState
      reads this, lexer
    {
      TokenState(curr, peek, LexAll(lexer.input, lexer.position))
    }

    /** `Parser::new`. */
    constructor (lexer: Lexer)
      modifies lexer
      ensures this.lexer == lexer
      ensures State() == InitialState(old(LexAll(lexer.input, lexer.position)))
    {
      LexAllStep(lexer.input, lexer.position);
      var first := lexer.NextToken();
      LexAllStep(lexer.input, lexer.position);
      var second := lexer.NextToken();
      this.lexer := lexer;
      curr := first;
      peek := second;
    }

    /** `Parser::next`. */
    method Next()
      modifies this, lexer
      ensures State() == NextState(old(State()))
    {
      LexAllStep(lexer.input, lexer.position);
      curr := peek;
      peek := lexer.NextToken();
    }

    /** `Parser::parse`. */
    method Parse() returns (r: Option<Expr>)
      modifies this, lexer
      ensures Parsed(r, State()) == Expression(old(State()), Lowest)
    {
      r := ParseExpression(Lowest);
    }

    /** `Parser::parse_expression`. */
    method ParseExpression(precedence: Precedence) returns (r: Option<Expr>)
      modifies this, lexer
      ensures Parsed(r, State()) == Expression(old(State()), precedence)
      decreases Measure(State()), 3
    {
      var prefix := ParsePrefix();
      if prefix.None? {
        return None;
      }
      var left := prefix.value;
      while peek.Some? && Below(precedence, PeekPrecedence(peek))
        invariant Expression(old(State()), precedence) == InfixLoop(left, State(), precedence)
        invariant Measure(State()) <= old(Measure(State()))
        decreases Measure(State())
      {
        Next();
        var infix := ParseInfix(left);
        if infix.None? {
          return None;
        }
        left := infix.value;
      }
      return Some(left);
    }

    /** `Parser::parse_prefix`. */
    method ParsePrefix() returns (r: Option<Expr>)
      modifies this, lexer
      ensures Parsed(r, State()) == PrefixProduction(old(State()))
      decreases Measure(State()), 2
    {
      match curr
      case Some(Minus) => r := ParseMinus();
      case Some(Number(_)) => r := ParseNumber();
      case Some(LParen) => r := ParseGroupedExpression();
      case _ => r := None;
    }

    /** `Parser::parse_minus`. */
    method ParseMinus() returns (r: Option<Expr>)
      requires curr.Some?
      modifies this, lexer
      ensures Parsed(r, State()) == MinusProduction(old(State()))
      decreases Measure(State()), 1
    {
      Next();
      var number := ParseExpression(Prefix);
      if number.None? {
        return None;
      }
      return Some(PrefixExpr(Op.Minus, number.value));
    }

    /** `Parser::parse_number`. */
    method ParseNumber() returns (r: Option<Expr>)
      ensures Parsed(r, State()) == NumberProduction(State())
    {
      match curr
      case Some(Number(n)) => r := Some(Expr.Number(n));
      case _ => r := None;
    }

    /** `Parser::parse_grouped_expression`. */
    method ParseGroupedExpression() returns (r: Option<Expr>)
      requires curr.Some?
      modifies this, lexer
      ensures Parsed(r, State()) == GroupedProduction(old(State()))
      decreases Measure(State()), 1
    {
      Next();
      var expression := ParseExpression(Lowest);
      if IsPeek(peek, RParen) {
        Next();
        return expression;
      } else {
        return None;
      }
    }

    /** `Parser::parse_infix`. */
    method ParseInfix(left: Expr) returns (r: Option<Expr>)
      modifies this, lexer
      ensures Parsed(r, State()) == InfixProduction(left, old(State()))
      decreases Measure(State()), 2
    {
      if curr.None? {
        return None;
      }
      if IsOperator(curr.value) {
        r := ParseInfixExpression(left);
      } else {
        r := Some(left);
      }
    }

    /** `Parser::parse_infix_expression`. */
    method ParseInfixExpression(left: Expr) returns (r: Option<Expr>)
      requires curr.Some? && IsOperator(curr.value)
      modifies this, lexer
      ensures Parsed(r, State()) == InfixExpressionProduction(left, old(State()))
      decreases Measure(State()), 1
    {
      var token := curr.value;
      var operator := OperatorOf(token);
      var precedence := TokenPrecedence(token);
      Next();
      var right := ParseExpression(precedence);
      if right.None? {
        return None;
      }
      return Some(InfixExpr(left, operator, right.value));
    }
  }
}
