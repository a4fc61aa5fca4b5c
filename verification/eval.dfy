/**
 * `eval` of `src/lexer.rs`: reduces an expression tree to a number, left operand
 * first. Values are mathematical integers, so negation and subtraction are exact;
 * division truncates toward zero and a zero divisor is an error.
 */
module Evaluation {
  import opened Base
  import opened Chars
  import opened Ast

  datatype EvalError = DivisionByZero

  function Abs(x: int): nat {
    if x < 0 then -x else x
  }

  /** Integer division that rounds toward zero, as Rust's `/` does. */
  function TruncDiv(a: int, b: int): (q: int)
    requires b != 0
    ensures Abs(q) <= Abs(a)
    ensures q != 0 ==> (q < 0 <==> (a < 0) != (b < 0))
  {
    var m := Abs(a) / Abs(b);
    QuotientBound(Abs(a), Abs(b));
    if (a >= 0) == (b > 0) then m else -m
  }

  /** A quotient by a positive divisor is no larger than the dividend. */
  lemma QuotientBound(x: nat, y: nat)
    requires y > 0
    ensures x / y <= x
  {
    var q := x / y;
    assert x == q * y + x % y;
    MultipleBound(q, y);
  }

  lemma MultipleBound(q: nat, y: nat)
    requires y > 0
    ensures q <= q * y
  {
    var k: nat := y - 1;
    assert q * y == q + q * k;
  }

  /**
   * The truncating quotient is the one whose remainder is smaller than the divisor
   * and takes the sign of the dividend; its magnitude is the quotient of the magnitudes.
   */
  lemma TruncDivRemainder(a: int, b: int)
    requires b != 0
    ensures var q := TruncDiv(a, b);
      Abs(q) == Abs(a) / Abs(b) &&
      Abs(a - q * b) < Abs(b) &&
      (a - q * b == 0 || (a - q * b < 0 <==> a < 0))
  {
    var q := TruncDiv(a, b);
    var m, rem := Abs(a) / Abs(b), Abs(a) % Abs(b);
    var mb := m * Abs(b);
    assert Abs(a) == mb + rem && 0 <= rem < Abs(b);
    TruncDivTimesDivisor(a, b, q, m, mb);
    TruncRemainder(a, b, q, m, mb, rem);
  }

  /** With the quotient times the divisor known, the remainder is the magnitudes' remainder, signed like the dividend. */
  lemma TruncRemainder(a: int, b: int, q: int, m: int, mb: int, rem: int)
    requires b != 0 && q == TruncDiv(a, b) && m == Abs(a) / Abs(b)
    requires Abs(a) == mb + rem && 0 <= rem < Abs(b)
    requires q * b == (if a >= 0 then mb else -mb)
    ensures Abs(q) == m
    ensures a - q * b == (if a >= 0 then rem else -rem)
  {
    if a >= 0 {
      assert Abs(a) == a;
      assert a - q * b == a - mb;
    } else {
      assert Abs(a) == -a;
      assert a - q * b == a + mb;
    }
    if (a >= 0) == (b > 0) { assert q == m; } else { assert q == -m; }
  }

  /** The truncating quotient times the divisor is the magnitudes' multiple, with the dividend's sign. */
  lemma TruncDivTimesDivisor(a: int, b: int, q: int, m: int, mb: int)
    requires b != 0 && q == TruncDiv(a, b) && m == Abs(a) / Abs(b) && mb == m * Abs(b)
    ensures q * b == (if a >= 0 then mb else -mb)
  {
    if b > 0 {
      if a < 0 { NegateFactor(m, b); }
    } else {
      NegateFactor(m, -b);
      if a >= 0 { NegateFactor(-m, b); } else { assert m * b == m * -(-b); }
    }
  }

  lemma NegateFactor(x: int, y: int)
    ensures (-x) * y == -(x * y) && x * (-y) == -(x * y)
  {
  }

  /** One binary operator applied to two evaluated operands. */
  function Apply(op: Op, a: int, b: int): (r: Result<int, EvalError>)
    ensures r.Err? <==> op == Divides && b == 0
  {
    match op
    case Plus => Ok(a + b)
    case Minus => Ok(a - b)
    case Times => Ok(a * b)
    case Divides => if b == 0 then Err(DivisionByZero) else Ok(TruncDiv(a, b))
  }

  /** No infix node of the tree is a division. */
  predicate DivisionFree(e: Expr) {
    match e
    case Number(_) => true
    case PrefixExpr(_, right) => DivisionFree(right)
    case InfixExpr(left, op, right) => op != Divides && DivisionFree(left) && DivisionFree(right)
  }

  /**
   * `eval`: a prefix node negates its operand whatever its label says. Only a
   * division can fail, so a tree without one always has a value.
   */
  function Eval(e: Expr): (r: Result<int, EvalError>)
    ensures DivisionFree(e) ==> r.Ok?
  {
    match e
    case Number(n) => Ok(n as int)
    case PrefixExpr(_, right) =>
      (match Eval(right)
       case Ok(v) => Ok(-v)
       case Err(err) => Err(err))
    case InfixExpr(left, op, right) =>
      match Eval(left)
      case Err(err) => Err(err)
      case Ok(a) =>
        match Eval(right)
        case Err(err) => Err(err)
        case Ok(b) => Apply(op, a, b)
  }

  /** Every node of a tree, the root included. */
  function Subterms(e: Expr): (s: set<Expr>)
    ensures e in s
  {
    match e
    case Number(_) => {e}
    case PrefixExpr(_, right) => {e} + Subterms(right)
    case InfixExpr(left, _, right) => {e} + Subterms(left) + Subterms(right)
  }

  /** Some division in the tree has a right operand that evaluates to zero. */
  predicate DividesByZero(e: Expr) {
    exists d :: d in Subterms(e) && d.InfixExpr? && d.op == Divides && Eval(d.right) == Ok(0)
  }

  /** Evaluation fails exactly when some division in the tree has a zero divisor. */
  lemma {:induction false} EvalFailsIffDividesByZero(e: Expr)
    ensures Eval(e).Err? <==> DividesByZero(e)
  {
    match e
    case Number(_) =>
      assert Subterms(e) == {e};
    case PrefixExpr(_, right) =>
      EvalFailsIffDividesByZero(right);
      if DividesByZero(e) {
        var d :| d in Subterms(e) && d.InfixExpr? && d.op == Divides && Eval(d.right) == Ok(0);
        assert d != e;
        assert DividesByZero(right);
      }
      if DividesByZero(right) {
        var d :| d in Subterms(right) && d.InfixExpr? && d.op == Divides && Eval(d.right) == Ok(0);
        assert d in Subterms(e);
      }
    case InfixExpr(left, op, right) =>
      EvalFailsIffDividesByZero(left);
      EvalFailsIffDividesByZero(right);
      if DividesByZero(e) {
        var d :| d in Subterms(e) && d.InfixExpr? && d.op == Divides && Eval(d.right) == Ok(0);
        if d == e {
          assert Eval(e).Err?;
        } else if d in Subterms(left) {
          assert DividesByZero(left);
        } else {
          assert DividesByZero(right);
        }
      }
      if Eval(e).Err? {
        if Eval(left).Err? {
          var d :| d in Subterms(left) && d.InfixExpr? && d.op == Divides && Eval(d.right) == Ok(0);
          assert d in Subterms(e);
        } else if Eval(right).Err? {
          var d :| d in Subterms(right) && d.InfixExpr? && d.op == Divides && Eval(d.right) == Ok(0);
          assert d in Subterms(e);
        } else {
          assert e in Subterms(e);
        }
      }
  }
}
