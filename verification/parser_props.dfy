/**
 * What the precedence-climbing parser promises, stated over token streams:
 * printing a tree with full parentheses and parsing it back gives the same tree,
 * operators of one precedence associate to the left, and multiplication and
 * division bind more tightly than addition and subtraction.
 */
module ParserProps {
  import opened Base
  import opened Chars
  import opened Lexing
  import opened Ast
  import opened Parsing
  import opened LexerProps

  /** The token that stands for an operator. */
  function OpToken(op: Op): (t: Token)
    ensures IsOperator(t) && OperatorOf(t) == op
  {
    match op
    case Plus => Token.Plus
    case Minus => Token.Minus
    case Times => Token.Times
    case Divides => Token.Divides
  }

  /**
   * A token sequence for a tree: numbers as they are, a unary minus before its
   * operand, and every infix node inside its own parentheses.
   */
  function Print(e: Expr): (ts: seq<Token>)
    ensures ts != []
  {
    match e
    case Number(n) => [Token.Number(n)]
    case PrefixExpr(_, right) => [Token.Minus] + Print(right)
    case InfixExpr(left, op, right) => [LParen] + Print(left) + [OpToken(op)] + Print(right) + [RParen]
  }

  function Head(stream: seq<Option<Token>>): Option<Token> {
    if stream == [] then None else stream[0]
  }

  /** The parser state with `curr` current and `stream` still to come. */
  function At(curr: Option<Token>, stream: seq<Option<Token>>): (st: TokenState)
    ensures st.peek == Head(stream)
  {
    if stream == [] then TokenState(curr, None, []) else TokenState(curr, stream[0], stream[1..])
  }

  /** The state in which the first token of `ts` is current and the rest of `ts`, then `tail`, is to come. */
  function Start(ts: seq<Token>, tail: seq<Option<Token>>): TokenState
    requires ts != []
  {
    At(Some(ts[0]), Wrap(ts[1..]) + tail)
  }

  /** The state in which the last token of `ts` is current and `tail` is to come. */
  function End(ts: seq<Token>, tail: seq<Option<Token>>): TokenState
    requires ts != []
  {
    At(Some(ts[|ts| - 1]), tail)
  }

  lemma NextAt(curr: Option<Token>, x: Option<Token>, stream: seq<Option<Token>>)
    ensures NextState(At(curr, [x] + stream)) == At(x, stream)
  {
    assert ([x] + stream)[1..] == stream;
  }

  lemma NextIntoStart(curr: Option<Token>, ts: seq<Token>, tail: seq<Option<Token>>)
    requires ts != []
    ensures NextState(At(curr, Wrap(ts) + tail)) == Start(ts, tail)
  {
    assert Wrap(ts) + tail == [Some(ts[0])] + (Wrap(ts[1..]) + tail);
    NextAt(curr, Some(ts[0]), Wrap(ts[1..]) + tail);
  }

  /** The parser's initial state over a stream of lexed tokens. */
  lemma InitialStart(ts: seq<Token>)
    requires ts != []
    ensures InitialState(Wrap(ts)) == Start(ts, [])
  {
    var first := NextState(TokenState(None, None, Wrap(ts)));
    assert first == At(None, Wrap(ts));
    assert Wrap(ts) + [] == Wrap(ts);
    NextIntoStart(None, ts, []);
  }

  /** The infix loop stops at once when the lookahead does not bind more strongly. */
  lemma LoopStops(left: Expr, st: TokenState, precedence: Precedence)
    requires !(st.peek.Some? && Below(precedence, PeekPrecedence(st.peek)))
    ensures InfixLoop(left, st, precedence) == Parsed(Some(left), st)
  {
  }

  /** A current `Number` token is a whole operand when the lookahead does not bind more strongly. */
  lemma NumberOperand(st: TokenState, n: u64, precedence: Precedence)
    requires st.curr == Some(Token.Number(n))
    requires !(st.peek.Some? && Below(precedence, PeekPrecedence(st.peek)))
    ensures Expression(st, precedence) == Parsed(Some(Expr.Number(n)), st)
  {
    assert PrefixProduction(st) == Parsed(Some(Expr.Number(n)), st);
    LoopStops(Expr.Number(n), st, precedence);
  }

  /**
   * A prefix production started on the first token of a printed tree returns
   * that tree and stops on its last token, whatever follows.
   */
  lemma {:induction false} PrefixRoundTrip(e: Expr, tail: seq<Option<Token>>)
    requires WellFormed(e)
    ensures PrefixProduction(Start(Print(e), tail)) == Parsed(Some(e), End(Print(e), tail))
    decreases e, 2
  {
    match e
    case Number(n) =>
      NumberRoundTrip(n, tail);
    case PrefixExpr(op, x) =>
      assert Start(Print(e), tail).curr == Some(Token.Minus);
      MinusRoundTrip(e, tail);
    case InfixExpr(l, op, r) =>
      assert Start(Print(e), tail).curr == Some(LParen);
      GroupRoundTrip(e, tail);
  }

  lemma NumberRoundTrip(n: u64, tail: seq<Option<Token>>)
    ensures PrefixProduction(Start(Print(Expr.Number(n)), tail)) == Parsed(Some(Expr.Number(n)), End(Print(Expr.Number(n)), tail))
  {
    var p := Print(Expr.Number(n));
    assert p[1..] == [];
    assert Wrap(p[1..]) + tail == tail;
  }

  lemma {:induction false} MinusRoundTrip(e: Expr, tail: seq<Option<Token>>)
    requires WellFormed(e) && e.PrefixExpr?
    ensures MinusProduction(Start(Print(e), tail)) == Parsed(Some(e), End(Print(e), tail))
    decreases e, 0
  {
    var p := Print(e);
    var xs := Print(e.right);
    assert p[1..] == xs;
    NextIntoStart(Some(Token.Minus), xs, tail);
    ExpressionRoundTrip(e.right, tail, Prefix);
  }

  /** The parenthesised group printed for an infix node parses back to that node. */
  lemma {:induction false} GroupRoundTrip(e: Expr, tail: seq<Option<Token>>)
    requires WellFormed(e) && e.InfixExpr?
    ensures GroupedProduction(Start(Print(e), tail)) == Parsed(Some(e), End(Print(e), tail))
    decreases e, 1
  {
    var p := Print(e);
    var ls, rs, o := Print(e.left), Print(e.right), OpToken(e.op);
    var rtail := [Some(RParen)] + tail;
    var tail1 := [Some(o)] + (Wrap(rs) + rtail);
    GroupTokens(ls, o, rs, tail);
    assert p == [LParen] + ls + [o] + rs + [RParen];
    assert Start(p, tail) == At(Some(LParen), Wrap(ls) + tail1);
    // the opening parenthesis is shifted, then the operands and the operator are parsed
    NextIntoStart(Some(LParen), ls, tail1);
    InnerRoundTrip(e, tail);
    // the closing parenthesis is shifted
    NextAt(Some(rs[|rs| - 1]), Some(RParen), tail);
  }

  /** Inside the parentheses: left operand, operator and right operand parse back to the node. */
  lemma {:induction false} InnerRoundTrip(e: Expr, tail: seq<Option<Token>>)
    requires WellFormed(e) && e.InfixExpr?
    ensures var rtail := [Some(RParen)] + tail;
      var tail1 := [Some(OpToken(e.op))] + (Wrap(Print(e.right)) + rtail);
      Expression(Start(Print(e.left), tail1), Lowest) == Parsed(Some(e), End(Print(e.right), rtail))
    decreases e, 0
  {
    var l, op, r := e.left, e.op, e.right;
    var ls, rs := Print(l), Print(r);
    var rtail := [Some(RParen)] + tail;
    var tail1 := [Some(OpToken(op))] + (Wrap(rs) + rtail);
    PrefixRoundTrip(l, tail1);
    var endL := End(ls, tail1);
    // the operator is shifted and the right operand parsed at its precedence
    ExpressionRoundTrip(r, rtail, TokenPrecedence(OpToken(op)));
    NextOperand(l, endL.curr, op, r, rtail, r, End(rs, rtail));
    // the closing parenthesis does not bind, so the loop stops
    LoopOnce(l, endL, Lowest, e, End(rs, rtail));
  }

  lemma GroupTokens(ls: seq<Token>, o: Token, rs: seq<Token>, tail: seq<Option<Token>>)
    ensures var p := [LParen] + ls + [o] + rs + [RParen];
      Wrap(p[1..]) + tail == Wrap(ls) + ([Some(o)] + (Wrap(rs) + ([Some(RParen)] + tail)))
  {
    var p := [LParen] + ls + [o] + rs + [RParen];
    assert p[1..] == ls + [o] + rs + [RParen];
    WrapAppend(ls + [o] + rs, [RParen]);
    WrapAppend(ls + [o], rs);
    WrapAppend(ls, [o]);
  }

  /**
   * An expression parse started on a printed tree returns that tree when the
   * token after it does not bind more strongly than `precedence`.
   */
  lemma {:induction false} ExpressionRoundTrip(e: Expr, tail: seq<Option<Token>>, precedence: Precedence)
    requires WellFormed(e)
    requires !Below(precedence, PeekPrecedence(Head(tail)))
    ensures Expression(Start(Print(e), tail), precedence) == Parsed(Some(e), End(Print(e), tail))
    decreases e, 3
  {
    PrefixRoundTrip(e, tail);
    LoopStops(e, End(Print(e), tail), precedence);
  }

  /** Parsing the printed tokens of a tree gives the tree back. */
  lemma PrintThenParse(e: Expr)
    requires WellFormed(e)
    ensures ParseTokens(Wrap(Print(e))) == Some(e)
  {
    InitialStart(Print(e));
    ExpressionRoundTrip(e, [], Lowest);
  }

  /** A unary minus whose operand fails to parse fails too. */
  lemma MinusOperandFails(st: TokenState)
    requires st.curr.Some? && Expression(NextState(st), Prefix).expr.None?
    ensures MinusProduction(st).expr.None?
  {
  }

  /** An infix node whose right operand fails to parse fails too. */
  lemma InfixOperandFails(left: Expr, st: TokenState)
    requires st.curr.Some? && IsOperator(st.curr.value)
    requires Expression(NextState(st), TokenPrecedence(st.curr.value)).expr.None?
    ensures InfixExpressionProduction(left, st).expr.None?
  {
  }

  /** An operator in the lookahead whose infix node fails makes the whole loop fail. */
  lemma LoopFails(left: Expr, st: TokenState, precedence: Precedence)
    requires st.peek.Some? && Below(precedence, PeekPrecedence(st.peek))
    requires InfixProduction(left, NextState(st)).expr.None?
    ensures InfixLoop(left, st, precedence).expr.None?
  {
  }

  /** An operator with nothing after it has no right operand. */
  lemma LastOperatorFails(left: Expr, o: Token)
    requires IsOperator(o)
    ensures InfixProduction(left, TokenState(Some(o), None, [])).expr.None?
  {
    var st := TokenState(Some(o), None, []);
    assert NextState(st) == TokenState(None, None, []);
    assert PrefixProduction(NextState(st)).expr.None?;
    InfixOperandFails(left, st);
  }

  /** The parser's initial state over a printed tree followed by one more token. */
  lemma StartBeforeLast(pa: seq<Token>, o: Token)
    requires pa != []
    ensures InitialState(Wrap(pa + [o])) == Start(pa, [Some(o)])
  {
    var ts := pa + [o];
    InitialStart(ts);
    assert ts[1..] == pa[1..] + [o];
    WrapAppend(pa[1..], [o]);
    assert Wrap([o]) == [Some(o)];
  }

  /** A whole line that ends in an operator with no right operand does not parse. */
  lemma TrailingOperatorFails(a: Expr, op: Op)
    requires WellFormed(a)
    ensures ParseTokens(Wrap(Print(a) + [OpToken(op)])) == None
  {
    var pa, o := Print(a), OpToken(op);
    StartBeforeLast(pa, o);
    PrefixRoundTrip(a, [Some(o)]);
    var endA := End(pa, [Some(o)]);
    assert endA.peek == Some(o) && endA.rest == [];
    assert NextState(endA) == TokenState(Some(o), None, []);
    LastOperatorFails(a, o);
    LoopFails(a, endA, Lowest);
  }

  /** One operator followed by a number. */
  datatype Link = Link(op: Op, operand: u64)

  /** The tokens `op operand op operand ...` of a chain of links. */
  function LinkTokens(links: seq<Link>): seq<Token> {
    if links == [] then []
    else [OpToken(links[0].op), Token.Number(links[0].operand)] + LinkTokens(links[1..])
  }

  /** The left-nested tree `((acc op1 n1) op2 n2) ...`. */
  function FoldLinks(acc: Expr, links: seq<Link>): Expr
    decreases |links|
  {
    if links == [] then acc
    else FoldLinks(InfixExpr(acc, links[0].op, Expr.Number(links[0].operand)), links[1..])
  }

  /** Every operator of the chain has the given precedence. */
  predicate SameTier(links: seq<Link>, tier: Precedence) {
    forall i :: 0 <= i < |links| ==> TokenPrecedence(OpToken(links[i].op)) == tier
  }

  /** One round of the loop over a chain: the first link is taken in, the rest is still to come. */
  lemma ChainLink(acc: Expr, curr: Option<Token>, links: seq<Link>, tier: Precedence)
    requires tier == Sum || tier == Product
    requires links != [] && TokenPrecedence(OpToken(links[0].op)) == tier
    requires |links| > 1 ==> TokenPrecedence(OpToken(links[1].op)) == tier
    ensures var k := links[0];
      InfixLoop(acc, At(curr, Wrap(LinkTokens(links))), Lowest)
        == InfixLoop(InfixExpr(acc, k.op, Expr.Number(k.operand)),
                     At(Some(Token.Number(k.operand)), Wrap(LinkTokens(links[1..]))), Lowest)
  {
    var k, more := links[0], links[1..];
    var o, num := OpToken(k.op), Token.Number(k.operand);
    var w := Wrap(LinkTokens(more));
    WrapAppend([o, num], LinkTokens(more));
    assert Wrap(LinkTokens(links)) == [Some(o)] + ([Some(num)] + w);
    NextAt(curr, Some(o), [Some(num)] + w);
    NextAt(Some(o), Some(num), w);
    // the right operand is a number and the next operator does not bind more strongly
    if more != [] {
      assert w[0] == Some(OpToken(more[0].op));
    }
    NumberOperand(At(Some(num), w), k.operand, tier);
    var st := At(curr, Wrap(LinkTokens(links)));
    LoopStep(acc, st, Lowest, InfixExpr(acc, k.op, Expr.Number(k.operand)), At(Some(num), w));
  }

  lemma {:induction false} ChainLoop(acc: Expr, curr: Option<Token>, links: seq<Link>, tier: Precedence)
    requires tier == Sum || tier == Product
    requires SameTier(links, tier)
    ensures InfixLoop(acc, At(curr, Wrap(LinkTokens(links))), Lowest).expr == Some(FoldLinks(acc, links))
    decreases |links|
  {
    if links != [] {
      var k, more := links[0], links[1..];
      assert SameTier(more, tier) by {
        forall i | 0 <= i < |more| ensures TokenPrecedence(OpToken(more[i].op)) == tier {
          assert more[i] == links[i + 1];
        }
      }
      ChainLink(acc, curr, links, tier);
      ChainLoop(InfixExpr(acc, k.op, Expr.Number(k.operand)), Some(Token.Number(k.operand)), more, tier);
    }
  }

  /**
   * A number followed by operators of one precedence, each with a number,
   * parses to the left-nested tree: `1 - 2 - 3` is `(1 - 2) - 3`.
   */
  lemma ChainLeftAssociative(first: u64, links: seq<Link>, tier: Precedence)
    requires tier == Sum || tier == Product
    requires SameTier(links, tier)
    ensures ParseTokens(Wrap([Token.Number(first)] + LinkTokens(links))) == Some(FoldLinks(Expr.Number(first), links))
  {
    var ts := [Token.Number(first)] + LinkTokens(links);
    InitialStart(ts);
    assert ts[1..] == LinkTokens(links);
    assert Wrap(ts[1..]) + [] == Wrap(LinkTokens(links));
    var s0 := At(Some(Token.Number(first)), Wrap(LinkTokens(links)));
    assert Start(ts, []) == s0;
    assert PrefixProduction(s0) == Parsed(Some(Expr.Number(first)), s0);
    ChainLoop(Expr.Number(first), Some(Token.Number(first)), links, tier);
  }

  predicate Additive(op: Op) { op == Op.Plus || op == Op.Minus }
  predicate Multiplicative(op: Op) { op == Op.Times || op == Op.Divides }

  /** Splitting the first part off a token sequence that starts a parse. */
  lemma StartAppend(x: seq<Token>, y: seq<Token>, tail: seq<Option<Token>>)
    requires x != []
    ensures Start(x + y, tail) == Start(x, Wrap(y) + tail)
  {
    assert (x + y)[0] == x[0];
    assert (x + y)[1..] == x[1..] + y;
    WrapAppend(x[1..], y);
    assert Wrap(x[1..]) + Wrap(y) + tail == Wrap(x[1..]) + (Wrap(y) + tail);
  }

  /** The stream after the first operand of `a o1 b o2 c`. */
  lemma TwoOperatorTokens(o1: Token, pb: seq<Token>, o2: Token, pc: seq<Token>)
    ensures Wrap([o1] + pb + [o2] + pc) + [] == [Some(o1)] + (Wrap(pb) + ([Some(o2)] + Wrap(pc)))
  {
    WrapAppend([o1] + pb + [o2], pc);
    WrapAppend([o1] + pb, [o2]);
    WrapAppend([o1], pb);
  }

  /** The start of the parse of `a o1 b o2 c`: the first operand is current. */
  lemma MixedStart(a: Expr, o1: Token, b: Expr, o2: Token, c: Expr)
    ensures var pa, pb, pc := Print(a), Print(b), Print(c);
      InitialState(Wrap(pa + [o1] + pb + [o2] + pc))
        == Start(pa, [Some(o1)] + (Wrap(pb) + ([Some(o2)] + Wrap(pc))))
  {
    var pa, pb, pc := Print(a), Print(b), Print(c);
    var ts := pa + [o1] + pb + [o2] + pc;
    assert ts == pa + ([o1] + pb + [o2] + pc);
    InitialStart(ts);
    StartAppend(pa, [o1] + pb + [o2] + pc, []);
    TwoOperatorTokens(o1, pb, o2, pc);
  }

  /**
   * After the current token, an operator and then the printed tokens of an operand
   * that extends to the end: the infix production parses that operand at the
   * operator's precedence.
   */
  lemma LastOperand(left: Expr, last: Option<Token>, op: Op, c: Expr)
    requires WellFormed(c)
    ensures var pc := Print(c);
      InfixProduction(left, NextState(At(last, [Some(OpToken(op))] + Wrap(pc))))
        == Parsed(Some(InfixExpr(left, op, c)), End(pc, []))
  {
    var pc, o := Print(c), OpToken(op);
    NextAt(last, Some(o), Wrap(pc));
    assert Wrap(pc) + [] == Wrap(pc);
    NextIntoStart(Some(o), pc, []);
    ExpressionRoundTrip(c, [], TokenPrecedence(o));
  }

  /** `b * c` parsed at the precedence of a sum, from the first token of `b`. */
  lemma ProductOperand(b: Expr, mul: Op, c: Expr)
    requires WellFormed(b) && WellFormed(c) && Multiplicative(mul)
    ensures var tailC := [Some(OpToken(mul))] + Wrap(Print(c));
      Expression(Start(Print(b), tailC), Sum) == Parsed(Some(InfixExpr(b, mul, c)), End(Print(c), []))
  {
    var pb, pc := Print(b), Print(c);
    var tailC := [Some(OpToken(mul))] + Wrap(pc);
    var product := InfixExpr(b, mul, c);
    PrefixRoundTrip(b, tailC);
    var endB := End(pb, tailC);
    LastOperand(b, endB.curr, mul, c);
    LoopStops(product, End(pc, []), Sum);
    assert InfixLoop(b, endB, Sum) == Parsed(Some(product), End(pc, []));
  }

  /** One round of the infix loop: the lookahead binds more strongly, so `left` is extended. */
  lemma LoopStep(left: Expr, st: TokenState, precedence: Precedence, r: Expr, mid: TokenState)
    requires st.peek.Some? && Below(precedence, PeekPrecedence(st.peek))
    requires InfixProduction(left, NextState(st)) == Parsed(Some(r), mid)
    ensures InfixLoop(left, st, precedence) == InfixLoop(r, mid, precedence)
  {
  }

  /** The infix loop extends `left` once, and then the lookahead no longer binds more strongly. */
  lemma LoopOnce(left: Expr, st: TokenState, precedence: Precedence, r: Expr, fin: TokenState)
    requires st.peek.Some? && Below(precedence, PeekPrecedence(st.peek))
    requires InfixProduction(left, NextState(st)) == Parsed(Some(r), fin)
    requires !(fin.peek.Some? && Below(precedence, PeekPrecedence(fin.peek)))
    ensures InfixLoop(left, st, precedence) == Parsed(Some(r), fin)
  {
    LoopStops(r, fin, precedence);
  }

  /**
   * After the current token, an operator and then the printed tokens of an operand
   * followed by `tail`: the infix production parses that operand at the
   * operator's precedence.
   */
  lemma NextOperand(left: Expr, last: Option<Token>, op: Op, b: Expr, tail: seq<Option<Token>>, r: Expr, fin: TokenState)
    requires Expression(Start(Print(b), tail), TokenPrecedence(OpToken(op))) == Parsed(Some(r), fin)
    ensures InfixProduction(left, NextState(At(last, [Some(OpToken(op))] + (Wrap(Print(b)) + tail))))
        == Parsed(Some(InfixExpr(left, op, r)), fin)
  {
    var o := OpToken(op);
    NextAt(last, Some(o), Wrap(Print(b)) + tail);
    NextIntoStart(Some(o), Print(b), tail);
  }

  /** After the first operand of `a + b * c`: the loop takes in `+ (b * c)` and stops at the end. */
  lemma SumOfProductLoop(a: Expr, add: Op, b: Expr, mul: Op, c: Expr)
    requires WellFormed(b) && WellFormed(c)
    requires Additive(add) && Multiplicative(mul)
    ensures var tailA := [Some(OpToken(add))] + (Wrap(Print(b)) + ([Some(OpToken(mul))] + Wrap(Print(c))));
      InfixLoop(a, End(Print(a), tailA), Lowest)
        == Parsed(Some(InfixExpr(a, add, InfixExpr(b, mul, c))), End(Print(c), []))
  {
    var tailC := [Some(OpToken(mul))] + Wrap(Print(c));
    var tailA := [Some(OpToken(add))] + (Wrap(Print(b)) + tailC);
    var endA, fin := End(Print(a), tailA), End(Print(c), []);
    ProductOperand(b, mul, c);
    NextOperand(a, endA.curr, add, b, tailC, InfixExpr(b, mul, c), fin);
    LoopOnce(a, endA, Lowest, InfixExpr(a, add, InfixExpr(b, mul, c)), fin);
  }

  /** `a + b * c` parses as `a + (b * c)`, whatever trees the three operands are. */
  lemma ProductBindsTighterOnTheRight(a: Expr, add: Op, b: Expr, mul: Op, c: Expr)
    requires WellFormed(a) && WellFormed(b) && WellFormed(c)
    requires Additive(add) && Multiplicative(mul)
    ensures ParseTokens(Wrap(Print(a) + [OpToken(add)] + Print(b) + [OpToken(mul)] + Print(c)))
            == Some(InfixExpr(a, add, InfixExpr(b, mul, c)))
  {
    var tailA := [Some(OpToken(add))] + (Wrap(Print(b)) + ([Some(OpToken(mul))] + Wrap(Print(c))));
    MixedStart(a, OpToken(add), b, OpToken(mul), c);
    PrefixRoundTrip(a, tailA);
    SumOfProductLoop(a, add, b, mul, c);
  }

  /** After the first operand of `a * b + c`: the loop takes in `* b`, then `+ c`, and stops at the end. */
  lemma ProductThenSumLoop(a: Expr, mul: Op, b: Expr, add: Op, c: Expr)
    requires WellFormed(b) && WellFormed(c)
    requires Additive(add) && Multiplicative(mul)
    ensures var tailA := [Some(OpToken(mul))] + (Wrap(Print(b)) + ([Some(OpToken(add))] + Wrap(Print(c))));
      InfixLoop(a, End(Print(a), tailA), Lowest)
        == Parsed(Some(InfixExpr(InfixExpr(a, mul, b), add, c)), End(Print(c), []))
  {
    var pb, pc := Print(b), Print(c);
    var tailC := [Some(OpToken(add))] + Wrap(pc);
    var tailA := [Some(OpToken(mul))] + (Wrap(pb) + tailC);
    var product := InfixExpr(a, mul, b);
    var endA, endB := End(Print(a), tailA), End(pb, tailC);
    ExpressionRoundTrip(b, tailC, Product);
    NextOperand(a, endA.curr, mul, b, tailC, b, endB);
    LastOperand(product, endB.curr, add, c);
    LoopStep(a, endA, Lowest, product, endB);
    LoopOnce(product, endB, Lowest, InfixExpr(product, add, c), End(pc, []));
  }

  /** `a * b + c` parses as `(a * b) + c`, whatever trees the three operands are. */
  lemma ProductBindsTighterOnTheLeft(a: Expr, mul: Op, b: Expr, add: Op, c: Expr)
    requires WellFormed(a) && WellFormed(b) && WellFormed(c)
    requires Additive(add) && Multiplicative(mul)
    ensures ParseTokens(Wrap(Print(a) + [OpToken(mul)] + Print(b) + [OpToken(add)] + Print(c)))
            == Some(InfixExpr(InfixExpr(a, mul, b), add, c))
  {
    var tailA := [Some(OpToken(mul))] + (Wrap(Print(b)) + ([Some(OpToken(add))] + Wrap(Print(c))));
    MixedStart(a, OpToken(mul), b, OpToken(add), c);
    PrefixRoundTrip(a, tailA);
    ProductThenSumLoop(a, mul, b, add, c);
  }

  /** `is_peek` compares variants only: any number matches any number, and nothing matches an absent lookahead. */
  lemma IsPeekVariant(peek: Option<Token>, t: Token)
    ensures IsPeek(peek, t) <==> peek.Some? && (if t.Number? then peek.value.Number? else peek.value == t)
  {
  }

  /**
   * A group is accepted only when the lookahead after its inner expression is `)`,
   * which is then shifted; the group is the inner tree itself.
   */
  lemma GroupedNeedsClosing(st: TokenState)
    requires st.curr.Some?
    ensures var inner, r := Expression(NextState(st), Lowest), GroupedProduction(st);
      if inner.st.peek == Some(RParen) then r == Parsed(inner.expr, NextState(inner.st))
      else r == Parsed(None, inner.st)
  {
    var inner := Expression(NextState(st), Lowest);
    IsPeekVariant(inner.st.peek, RParen);
  }

  /** A lookahead that is not an operator never binds: the loop returns `left` and leaves the token unconsumed. */
  lemma NonOperatorStops(left: Expr, st: TokenState, precedence: Precedence)
    requires st.peek.Some? ==> !IsOperator(st.peek.value)
    ensures InfixLoop(left, st, precedence) == Parsed(Some(left), st)
  {
    if st.peek.Some? {
      assert PeekPrecedence(st.peek) == Lowest;
    }
  }
}
