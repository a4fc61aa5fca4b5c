/**
 * The character lexer of `src/lexer.rs`: a cursor over a character sequence that
 * yields one token per call, skipping whitespace, taking maximal runs of number
 * characters and mapping the six operator and parenthesis characters.
 */
module Lexing {
  import opened Base
  import opened Chars

  datatype Token = Number(value: u64) | Plus | Minus | Times | Divides | LParen | RParen

  /** `Lexer::is_number`: an ASCII digit or a full stop. */
  predicate IsNumber(c: char) {
    IsAsciiDigit(c) || c == '.'
  }

  /** The number characters are exactly the ten digits and the full stop. */
  lemma NumberCharacters(c: char)
    ensures IsNumber(c) <==> c in "0123456789."
  {
  }

  /** The token of a character that is not a number character, if it has one. */
  function SingleCharToken(c: char): (t: Option<Token>)
    ensures t.Some? <==> c in "+-*/()"
    ensures t.Some? ==> !t.value.Number?
  {
    match c
    case '+' => Some(Plus)
    case '-' => Some(Minus)
    case '*' => Some(Times)
    case '/' => Some(Divides)
    case '(' => Some(LParen)
    case ')' => Some(RParen)
    case _ => None
  }

  /** Where the whitespace skipping loop of `Lexer::token` stops when it starts at `pos`. */
  function SkipWhitespace(s: seq<char>, pos: nat): (r: nat)
    ensures pos <= r && (pos <= |s| ==> r <= |s|)
    ensures forall i | pos <= i < r :: i < |s| && IsWhitespace(s[i])
    ensures r < |s| ==> !IsWhitespace(s[r])
    decreases |s| - pos
  {
    if pos < |s| && IsWhitespace(s[pos]) then SkipWhitespace(s, pos + 1) else pos
  }

  /** The end of the run of number characters that starts at `i`. */
  function RunEnd(s: seq<char>, i: nat): (r: nat)
    ensures i <= r && (i <= |s| ==> r <= |s|)
    ensures forall k | i <= k < r :: k < |s| && IsNumber(s[k])
    ensures r < |s| ==> !IsNumber(s[r])
    decreases |s| - i
  {
    if i < |s| && IsNumber(s[i]) then RunEnd(s, i + 1) else i
  }

  /** What one call of `Lexer::token` returns, and the cursor position it leaves. */
  datatype Lexed = Lexed(token: Option<Token>, next: nat)

  /** The result of `Lexer::token` on input `s` with the cursor at `pos`. */
  function LexStep(s: seq<char>, pos: nat): (r: Lexed)
    ensures pos <= r.next
    ensures pos <= |s| ==> r.next <= |s|
    ensures SkipWhitespace(s, pos) < |s| ==> pos < r.next
  {
    var p := SkipWhitespace(s, pos);
    if p >= |s| then Lexed(None, p)
    else if IsNumber(s[p]) then
      var e := RunEnd(s, p);
      Lexed(match ParseU64(s[p..e]) case Some(n) => Some(Number(n)) case None => None, e)
    else Lexed(SingleCharToken(s[p]), p + 1)
  }

  /**
   * Everything the lexer yields from `pos` on, until only whitespace is left: a
   * `None` for a malformed number or an unknown character is kept, and lexing
   * goes on after it.
   */
  function LexAll(s: seq<char>, pos: nat): (r: seq<Option<Token>>)
    decreases |s| - pos
  {
    if SkipWhitespace(s, pos) >= |s| then []
    else
      var r := LexStep(s, pos);
      [r.token] + LexAll(s, r.next)
  }

  /** Every element of the stream uses up at least one character of the input. */
  lemma {:induction false} LexAllLength(s: seq<char>, pos: nat)
    requires pos <= |s|
    ensures |LexAll(s, pos)| <= |s| - pos
    decreases |s| - pos
  {
    if SkipWhitespace(s, pos) < |s| {
      LexAllLength(s, LexStep(s, pos).next);
    }
  }

  /** `LexAll` is the sequence of what successive calls of `Lexer::token` return. */
  lemma LexAllStep(s: seq<char>, pos: nat)
    ensures var r := LexStep(s, pos);
      if LexAll(s, pos) == [] then r.token == None && LexAll(s, r.next) == []
      else LexAll(s, pos)[0] == r.token && LexAll(s, pos)[1..] == LexAll(s, r.next)
  {
    var r := LexStep(s, pos);
    if SkipWhitespace(s, pos) >= |s| {
      assert SkipWhitespace(s, r.next) == r.next;
    }
  }

  /** With a non-whitespace character left, the stream is one call's token followed by the rest. */
  lemma LexAllCons(s: seq<char>, pos: nat, t: Option<Token>, next: nat)
    requires SkipWhitespace(s, pos) < |s| && LexStep(s, pos) == Lexed(t, next)
    ensures LexAll(s, pos) == [t] + LexAll(s, next)
  {
  }

  /** The whitespace skipping stops exactly at the first non-whitespace character. */
  lemma SkipWhitespaceAt(s: seq<char>, pos: nat, p: nat)
    requires pos <= p <= |s|
    requires forall i | pos <= i < p :: IsWhitespace(s[i])
    requires p < |s| ==> !IsWhitespace(s[p])
    ensures SkipWhitespace(s, pos) == p
  {
  }

  /** A run of number characters ends exactly at the first other character. */
  lemma RunEndAt(s: seq<char>, p: nat, e: nat)
    requires p <= e <= |s|
    requires forall i | p <= i < e :: IsNumber(s[i])
    requires e < |s| ==> !IsNumber(s[e])
    ensures RunEnd(s, p) == e
  {
  }

  /**
   * After the whitespace, a maximal run of ASCII digits becomes exactly one
   * `Number` token holding its decimal value, and the cursor stops right after it.
   */
  lemma NumberToken(s: seq<char>, pos: nat, p: nat, e: nat)
    requires pos <= p < e <= |s|
    requires forall i | pos <= i < p :: IsWhitespace(s[i])
    requires AllDigits(s[p..e])
    requires e < |s| ==> !IsNumber(s[e])
    requires DecimalValue(s[p..e]) <= U64_MAX
    ensures LexStep(s, pos) == Lexed(Some(Number(DecimalValue(s[p..e]) as u64)), e)
  {
    assert IsAsciiDigit(s[p..e][0]);
    SkipWhitespaceAt(s, pos, p);
    forall i | p <= i < e ensures IsNumber(s[i]) {
      assert s[i] == s[p..e][i - p];
    }
    RunEndAt(s, p, e);
    ParseDigits(s[p..e]);
  }

  /**
   * A maximal run of number characters that holds a full stop, or whose value
   * does not fit in a `u64`, yields no token; the cursor still moves past the run.
   */
  lemma MalformedNumber(s: seq<char>, pos: nat, p: nat, e: nat)
    requires pos <= p < e <= |s|
    requires forall i | pos <= i < p :: IsWhitespace(s[i])
    requires forall i | p <= i < e :: IsNumber(s[i])
    requires e < |s| ==> !IsNumber(s[e])
    requires !AllDigits(s[p..e]) || DecimalValue(s[p..e]) > U64_MAX
    ensures LexStep(s, pos) == Lexed(None, e)
  {
    assert !IsWhitespace(s[p]) by { assert IsNumber(s[p]); }
    SkipWhitespaceAt(s, pos, p);
    RunEndAt(s, p, e);
    if AllDigits(s[p..e]) {
      ParseDigits(s[p..e]);
    } else {
      var k :| 0 <= k < e - p && !IsAsciiDigit(s[p..e][k]);
      assert s[p..e][k] == s[p + k];
      ParseRejectsNonDigit(s[p..e], k);
    }
  }

  /**
   * After the whitespace, each of `+ - * / ( )` becomes its own token and uses up
   * exactly one character.
   */
  lemma OperatorToken(s: seq<char>, pos: nat, p: nat)
    requires pos <= p < |s|
    requires forall i | pos <= i < p :: IsWhitespace(s[i])
    requires s[p] in "+-*/()"
    ensures var r := LexStep(s, pos);
      r.next == p + 1 &&
      r.token == Some(match s[p]
                      case '+' => Plus case '-' => Minus case '*' => Times
                      case '/' => Divides case '(' => LParen case _ => RParen)
  {
    SkipWhitespaceAt(s, pos, p);
  }

  /**
   * After the whitespace, any character that is neither a number character nor
   * one of `+ - * / ( )` yields no token, and the cursor still moves past it.
   */
  lemma UnknownCharacter(s: seq<char>, pos: nat, p: nat)
    requires pos <= p < |s|
    requires forall i | pos <= i < p :: IsWhitespace(s[i])
    requires !IsWhitespace(s[p]) && !IsNumber(s[p]) && s[p] !in "+-*/()"
    ensures LexStep(s, pos) == Lexed(None, p + 1)
  {
    SkipWhitespaceAt(s, pos, p);
  }

  /** When only whitespace is left, no token comes and the cursor stops at the end. */
  lemma EndOfInput(s: seq<char>, pos: nat)
    requires pos <= |s|
    requires forall i | pos <= i < |s| :: IsWhitespace(s[i])
    ensures LexStep(s, pos) == Lexed(None, |s|)
    ensures LexAll(s, pos) == []
  {
    SkipWhitespaceAt(s, pos, |s|);
  }

  lemma SliceExtend(s: seq<char>, i: nat, j: nat)
    requires i <= j < |s|
    ensures s[i..j + 1] == s[i..j] + [s[j]]
  {
  }

  /** The step of `LexStep` on a run of number characters, with the run's ends as variables. */
  lemma LexStepNumber(s: seq<char>, pos: nat, p: nat, e: nat)
    requires SkipWhitespace(s, pos) == p && p < |s| && IsNumber(s[p]) && RunEnd(s, p) == e
    ensures LexStep(s, pos) == Lexed(match ParseU64(s[p..e]) case Some(n) => Some(Number(n)) case None => None, e)
  {
  }

  /** The step of `LexStep` on a character that does not start a number. */
  lemma LexStepSingle(s: seq<char>, pos: nat, p: nat)
    requires SkipWhitespace(s, pos) == p && p < |s| && !IsNumber(s[p])
    ensures LexStep(s, pos) == Lexed(SingleCharToken(s[p]), p + 1)
  {
  }

  /** Rust's `struct Lexer`: the input characters and the cursor. */
  class Lexer {
    const input: seq<char>
    var position: nat

    /** `Lexer::new`. */
    constructor (input: seq<char>)
      ensures this.input == input && position == 0
    {
      this.input := input;
      position := 0;
    }

    /** `Lexer::curr`: the character under the cursor. */
    function Curr(): (c: Option<char>)
      reads this
      ensures c.Some? <==> position < |input|
      ensures c.Some? ==> c.value == input[position]
    {
      if position < |input| then Some(input[position]) else None
    }

    /** `Lexer::peek`: the character after the cursor. */
    function Peek(): (c: Option<char>)
      reads this
      ensures c.Some? <==> position + 1 < |input|
      ensures c.Some? ==> c.value == input[position + 1]
    {
      if position + 1 < |input| then Some(input[position + 1]) else None
    }

    /** `Lexer::next`: moves the cursor one character on. */
    method Next()
      modifies this
      ensures position == old(position) + 1
    {
      position := position + 1;
    }

    /** The first loop of `Lexer::token`: moves the cursor past the whitespace under it. */
    method SkipSpaces()
      modifies this
      ensures position == SkipWhitespace(input, old(position))
    {
      while Curr().Some? && IsWhitespace(Curr().value)
        invariant old(position) <= position
        invariant SkipWhitespace(input, old(position)) == SkipWhitespace(input, position)
        decreases |input| - position
      {
        Next();
      }
    }

    /**
     * The second loop of `Lexer::token`: with a number character under the cursor,
     * collects the run of number characters that starts there and leaves the cursor
     * on its last character.
     */
    method ReadNumber() returns (number: seq<char>)
      requires position < |input| && IsNumber(input[position])
      modifies this
      ensures position + 1 == RunEnd(input, old(position))
      ensures number == input[old(position)..position + 1]
    {
      number := [Curr().value];
      while Peek().Some? && IsNumber(Peek().value)
        invariant old(position) <= position < |input|
        invariant number == input[old(position)..position + 1]
        invariant RunEnd(input, old(position)) == RunEnd(input, position + 1)
        decreases |input| - position
      {
        Next();
        SliceExtend(input, old(position), position);
        number := number + [Curr().value];
      }
    }

    /** `Lexer::token`: yields the next token and moves the cursor past it. */
    method NextToken() returns (token: Option<Token>)
      modifies this
      ensures Lexed(token, position) == LexStep(input, old(position))
    {
      SkipSpaces();
      if Curr().None? {
        return None;
      }
      var curr := Curr().value;
      if IsNumber(curr) {
        var start := position;
        var number := ReadNumber();
        LexStepNumber(input, old(position), start, position + 1);
        token := match ParseU64(number) case Some(n) => Some(Number(n)) case None => None;
      } else {
        LexStepSingle(input, old(position), position);
        token := SingleCharToken(curr);
      }
      Next();
    }
  }
}
