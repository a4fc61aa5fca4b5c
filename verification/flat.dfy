/**
 * The second tokenizer of `src/main.rs`: an iterator over a string slice that
 * knows only `+`, `-` and decimal numbers, and stops the program on anything else.
 * Its token type has the same variants as the character lexer's, so `Lexing.Token`
 * stands for both.
 */
module FlatTokenizer {
  import opened Base
  import opened Chars
  import opened Lexing
  import opened SplitDigits
  import opened LexerProps

  /** The ways the tokenizer and its helper stop the program with `panic!`/`unwrap`. */
  datatype Panic =
    | ExpectedNumber(found: Token)  // `Token::expect_num` on another token
    | InvalidTokenStream            // no token starts at the cursor
    | ParseIntError                 // `from_str_radix(..).unwrap()` on a numeral that does not fit

  /** `Token::expect_num`: the value of a number token; any other token panics. */
  function ExpectNum(t: Token): (r: Result<u64, Panic>)
    ensures r.Ok? <==> t.Number?
    ensures r.Ok? ==> r.value == t.value
    ensures r.Err? ==> r.error == ExpectedNumber(t)
  {
    match t
    case Number(n) => Ok(n)
    case _ => Err(ExpectedNumber(t))
  }

  /** `str::trim_start`: the string without its leading whitespace. */
  function TrimStart(s: seq<char>): (r: seq<char>)
    ensures |r| <= |s| && r == s[|s| - |r|..]
    ensures forall i :: 0 <= i < |s| - |r| ==> IsWhitespace(s[i])
    ensures r == [] || !IsWhitespace(r[0])
  {
    if s != [] && IsWhitespace(s[0]) then TrimStart(s[1..]) else s
  }

  /** What one call of `next` does: yield a token, report the end, or panic. */
  datatype Step = Yield(token: Token) | Done | Fail(panic: Panic)

  /** The outcome of one call of `next` and the string the iterator holds afterwards. */
  datatype Advanced = Advanced(step: Step, rest: seq<char>)

  /**
   * `TokenIter::next` on the held string `s`: the string is trimmed first; a
   * leading sign is one token; otherwise the leading run of digits is a number
   * and the string becomes what follows it, before the value is checked.
   */
  function NextStep(s: seq<char>): (r: Advanced)
    ensures |r.rest| <= |s|
    ensures r.step.Yield? ==> |r.rest| < |s|
    ensures r.step.Done? ==> r.rest == []
  {
    var t := TrimStart(s);
    if t == [] then Advanced(Done, t)
    else if t[0] == '+' then Advanced(Yield(Plus), t[1..])
    else if t[0] == '-' then Advanced(Yield(Minus), t[1..])
    else
      var (digits, remain) := SplitDigit(t);
      if digits != [] then
        Advanced(match ParseU64(digits)
                 case Some(n) => Yield(Number(n))
                 case None => Fail(ParseIntError), remain)
      else Advanced(Fail(InvalidTokenStream), t)
  }

  /** A suffix of a suffix is a suffix. */
  lemma SuffixOfSuffix(s: seq<char>, t: seq<char>, k: nat, rest: seq<char>)
    requires |t| <= |s| && t == s[|s| - |t|..] && k <= |t| && rest == t[k..]
    ensures rest == s[|s| - |rest|..]
  {
  }

  /**
   * Every call of `next` leaves the iterator holding a suffix of what it held
   * before, a strictly shorter one when a token comes out.
   */
  lemma NextKeepsSuffix(s: seq<char>)
    ensures var r := NextStep(s);
      r.rest == s[|s| - |r.rest|..] && (r.step.Yield? ==> |r.rest| < |s|)
  {
    var k := NextCut(s);
    SuffixOfSuffix(s, TrimStart(s), k, NextStep(s).rest);
  }

  /** Where in the trimmed string the held string starts after `next`. */
  lemma NextCut(s: seq<char>) returns (k: nat)
    ensures k <= |TrimStart(s)| && NextStep(s).rest == TrimStart(s)[k..]
  {
    var t := TrimStart(s);
    if t == [] {
      k := 0;
    } else if t[0] == '+' || t[0] == '-' {
      k := 1;
    } else {
      var (digits, remain) := SplitDigit(t);
      k := if digits != [] then |digits| else 0;
      assert remain == t[|digits|..];
    }
  }

  /** The iterator returned by `tokenize`: the part of the input not yet consumed. */
  class TokenIter {
    var s: seq<char>

    /** `tokenize`: the iterator holds the whole input and has done nothing yet. */
    constructor (s: seq<char>)
      ensures this.s == s
    {
      this.s := s;
    }

    /** `TokenIter::next`. */
    method Next() returns (step: Step)
      modifies this
      ensures Advanced(step, s) == NextStep(old(s))
    {
      s := TrimStart(s);
      if s == [] {
        return Done;
      }
      if s[0] == '+' {
        s := s[1..];
        return Yield(Plus);
      }
      if s[0] == '-' {
        s := s[1..];
        return Yield(Minus);
      }
      var (digits, remain) := SplitDigit(s);
      if digits != [] {
        s := remain;
        var value := ParseU64(digits);
        if value.None? {
          return Fail(ParseIntError);
        }
        return Yield(Number(value.value));
      }
      return Fail(InvalidTokenStream);
    }
  }

  /** Trimming stops exactly at the first character that is not whitespace. */
  lemma TrimStartAt(s: seq<char>, k: nat)
    requires k <= |s| && (forall i :: 0 <= i < k ==> IsWhitespace(s[i]))
    requires k < |s| ==> !IsWhitespace(s[k])
    ensures TrimStart(s) == s[k..]
  {
  }

  /** Nothing but whitespace left: the iterator reports the end and holds the empty string. */
  lemma NextAtEnd(s: seq<char>)
    requires forall i :: 0 <= i < |s| ==> IsWhitespace(s[i])
    ensures NextStep(s) == Advanced(Done, [])
  {
    TrimStartAt(s, |s|);
  }

  /** A sign after the whitespace is its own token, and exactly one character is consumed. */
  lemma NextSign(s: seq<char>, k: nat)
    requires k < |s| && (forall i :: 0 <= i < k ==> IsWhitespace(s[i]))
    requires s[k] == '+' || s[k] == '-'
    ensures NextStep(s) == Advanced(Yield(if s[k] == '+' then Plus else Minus), s[k + 1..])
  {
    TrimStartAt(s, k);
  }

  /**
   * A maximal run of digits after the whitespace is one number token with its
   * decimal value, or a panic when the value does not fit in a `u64`; either way
   * the iterator then holds what follows the run.
   */
  lemma NextNumber(s: seq<char>, k: nat, e: nat)
    requires k < e <= |s| && (forall i :: 0 <= i < k ==> IsWhitespace(s[i]))
    requires AllDigits(s[k..e]) && (e < |s| ==> !IsAsciiDigit(s[e]))
    ensures NextStep(s) == Advanced(
      if DecimalValue(s[k..e]) <= U64_MAX then Yield(Number(DecimalValue(s[k..e]) as u64))
      else Fail(ParseIntError), s[e..])
  {
    var t, digits, remain := s[k..], s[k..e], s[e..];
    SplitAfterWhitespace(s, k, e);
    assert IsAsciiDigit(digits[0]) && t[0] == digits[0];
    NextDigits(s, t, digits, remain);
    ParseDigits(digits);
  }

  /** `next` after the whitespace, on a leading run of digits: its parse, and what follows it. */
  lemma NextDigits(s: seq<char>, t: seq<char>, digits: seq<char>, remain: seq<char>)
    requires TrimStart(s) == t && t != [] && t[0] != '+' && t[0] != '-'
    requires SplitDigit(t) == (digits, remain) && digits != []
    ensures NextStep(s) == Advanced(match ParseU64(digits)
                                    case Some(n) => Yield(Number(n))
                                    case None => Fail(ParseIntError), remain)
  {
  }

  lemma SplitAfterWhitespace(s: seq<char>, k: nat, e: nat)
    requires k < e <= |s| && (forall i :: 0 <= i < k ==> IsWhitespace(s[i]))
    requires AllDigits(s[k..e]) && (e < |s| ==> !IsAsciiDigit(s[e]))
    ensures TrimStart(s) == s[k..] && SplitDigit(s[k..]) == (s[k..e], s[e..])
  {
    assert s[k] == s[k..e][0] && IsAsciiDigit(s[k]);
    TrimStartAt(s, k);
    SliceJoin(s, k, e);
    assert e < |s| ==> s[e..][0] == s[e];
    SplitDigitUnique(s[k..], s[k..e], s[e..]);
  }

  /**
   * Any other character after the whitespace, `* / ( )` included, stops the
   * program with "Invalid token stream"; the iterator then holds the trimmed string.
   */
  lemma NextInvalid(s: seq<char>, k: nat)
    requires k < |s| && (forall i :: 0 <= i < k ==> IsWhitespace(s[i]))
    requires !IsWhitespace(s[k]) && s[k] != '+' && s[k] != '-' && !IsAsciiDigit(s[k])
    ensures NextStep(s) == Advanced(Fail(InvalidTokenStream), s[k..])
  {
    TrimStartAt(s, k);
    SplitLeadingNonNumeric(s[k..]);
  }
}
