/**
 * The flat tokenizer of `src/main.rs` against the character lexer of
 * `src/lexer.rs`: on text made only of whitespace, digits and signs, running the
 * iterator to its end yields exactly the tokens the lexer yields.
 */
module FlatProps {
  import opened Base
  import opened Chars
  import opened Lexing
  import opened LexerProps
  import opened FlatTokenizer

  /** What calling `next` until it reports the end yields, or the first panic. */
  function FlatTokens(s: seq<char>): (r: Result<seq<Token>, Panic>)
    decreases |s|
  {
    var a := NextStep(s);
    match a.step
    case Done => Ok([])
    case Fail(p) => Err(p)
    case Yield(t) =>
      match FlatTokens(a.rest)
      case Ok(ts) => Ok([t] + ts)
      case Err(p) => Err(p)
  }

  /** Text the flat tokenizer can read to its end: whitespace, digits and signs only. */
  predicate SignsAndDigits(s: seq<char>) {
    forall i :: 0 <= i < |s| ==> IsWhitespace(s[i]) || IsAsciiDigit(s[i]) || s[i] == '+' || s[i] == '-'
  }

  /** The whitespace before the first token, seen from the suffix that starts at `pos`. */
  lemma SuffixWhitespace(s: seq<char>, pos: nat, p: nat)
    requires pos <= p <= |s| && SkipWhitespace(s, pos) == p
    ensures forall i :: 0 <= i < p - pos ==> IsWhitespace(s[pos..][i])
  {
    forall i | 0 <= i < p - pos ensures IsWhitespace(s[pos..][i]) {
      assert s[pos..][i] == s[pos + i];
    }
  }

  /** Only whitespace left: both report the end. */
  lemma EndAgrees(s: seq<char>, pos: nat)
    requires pos <= |s| && SkipWhitespace(s, pos) >= |s|
    ensures NextStep(s[pos..]).step.Done? && LexAll(s, pos) == []
  {
    SuffixWhitespace(s, pos, |s|);
    NextAtEnd(s[pos..]);
  }

  /** A sign after the whitespace: both yield its token and go on right after it. */
  lemma SignAgrees(s: seq<char>, pos: nat, p: nat) returns (next: nat)
    requires pos <= p < |s| && SkipWhitespace(s, pos) == p && (s[p] == '+' || s[p] == '-')
    ensures pos < next <= |s|
    ensures var a := NextStep(s[pos..]);
      a.step.Yield? && LexStep(s, pos) == Lexed(Some(a.step.token), next) && a.rest == s[next..]
  {
    next := p + 1;
    var u, k := s[pos..], p - pos;
    SuffixSlices(s, pos, p, next, k, k + 1);
    SuffixWhitespace(s, pos, p);
    NextSign(u, k);
    OperatorToken(s, pos, p);
  }

  /**
   * A run of digits after the whitespace: the flat tokenizer panics when its value
   * does not fit; otherwise both yield the same number and go on after the run.
   */
  lemma NumberAgrees(s: seq<char>, pos: nat, p: nat) returns (next: nat)
    requires SignsAndDigits(s)
    requires pos <= p < |s| && SkipWhitespace(s, pos) == p && IsAsciiDigit(s[p])
    ensures pos < next <= |s|
    ensures var a := NextStep(s[pos..]);
      a.step.Fail? ||
      (a.step.Yield? && LexStep(s, pos) == Lexed(Some(a.step.token), next) && a.rest == s[next..])
  {
    next := DigitRun(s, p);
    FlatNumberAt(s, pos, p, next);
    if DecimalValue(s[p..next]) <= U64_MAX {
      NumberToken(s, pos, p, next);
    }
  }

  /** `NextNumber` for the suffix from `pos`, in positions of the whole text. */
  lemma FlatNumberAt(s: seq<char>, pos: nat, p: nat, e: nat)
    requires pos <= p < e <= |s| && SkipWhitespace(s, pos) == p
    requires AllDigits(s[p..e]) && (e < |s| ==> !IsAsciiDigit(s[e]))
    ensures NextStep(s[pos..]) == Advanced(
      if DecimalValue(s[p..e]) <= U64_MAX then Yield(Number(DecimalValue(s[p..e]) as u64))
      else Fail(ParseIntError), s[e..])
  {
    var u, k, f := s[pos..], p - pos, e - pos;
    SuffixSlices(s, pos, p, e, k, f);
    SuffixWhitespace(s, pos, p);
    NextNumber(u, k, f);
  }

  /** On whitespace, digits and signs, a run of number characters is a run of digits. */
  lemma DigitRun(s: seq<char>, p: nat) returns (e: nat)
    requires SignsAndDigits(s) && p < |s| && IsAsciiDigit(s[p])
    ensures e == RunEnd(s, p) && p < e <= |s|
    ensures AllDigits(s[p..e]) && (e < |s| ==> !IsAsciiDigit(s[e]))
  {
    e := RunEnd(s, p);
    var run := s[p..e];
    forall i | 0 <= i < |run| ensures IsAsciiDigit(run[i]) {
      assert run[i] == s[p + i] && IsNumber(s[p + i]);
    }
  }

  /** The first step from `pos` on: when the flat tokenizer yields, the lexer yields the same. */
  lemma StepAgrees(s: seq<char>, pos: nat) returns (next: nat)
    requires SignsAndDigits(s) && pos <= |s| && SkipWhitespace(s, pos) < |s|
    ensures pos < next <= |s|
    ensures var a := NextStep(s[pos..]);
      a.step.Fail? ||
      (a.step.Yield? && LexStep(s, pos) == Lexed(Some(a.step.token), next) && a.rest == s[next..])
  {
    var p := SkipWhitespace(s, pos);
    if s[p] == '+' || s[p] == '-' {
      next := SignAgrees(s, pos, p);
    } else {
      next := NumberAgrees(s, pos, p);
    }
  }

  lemma FlatTokensCons(u: seq<char>)
    requires NextStep(u).step.Yield? && FlatTokens(u).Ok?
    ensures FlatTokens(NextStep(u).rest).Ok?
    ensures FlatTokens(u).value == [NextStep(u).step.token] + FlatTokens(NextStep(u).rest).value
  {
  }

  /** From any cursor, a flat tokenization that does not panic is what the lexer yields. */
  lemma {:induction false} FlatAgreesAt(s: seq<char>, pos: nat)
    requires SignsAndDigits(s) && pos <= |s| && FlatTokens(s[pos..]).Ok?
    ensures LexAll(s, pos) == Wrap(FlatTokens(s[pos..]).value)
    decreases |s| - pos
  {
    if SkipWhitespace(s, pos) >= |s| {
      EndAgrees(s, pos);
    } else {
      var next := StepAgrees(s, pos);
      var u := s[pos..];
      FlatTokensCons(u);
      var t := NextStep(u).step.token;
      LexAllCons(s, pos, Some(t), next);
      FlatAgreesAt(s, next);
      WrapCons(FlatTokens(u).value);
    }
  }

  /**
   * On whitespace, digits and signs, the flat tokenizer of `src/main.rs` either
   * panics on a number that does not fit in a `u64`, or yields exactly the tokens
   * the character lexer of `src/lexer.rs` yields.
   */
  lemma FlatAgreesWithLexer(s: seq<char>)
    requires SignsAndDigits(s)
    ensures FlatTokens(s).Ok? ==> LexAll(s, 0) == Wrap(FlatTokens(s).value)
  {
    if FlatTokens(s).Ok? {
      assert s[0..] == s;
      FlatAgreesAt(s, 0);
    }
  }
}
