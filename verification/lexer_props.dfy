/**
 * What the lexer promises about whole inputs: whitespace between tokens does not
 * matter, and the text of a token sequence (numbers in decimal, tokens separated
 * by optional spaces, with a space between two numbers) lexes back to exactly that sequence.
 */
module LexerProps {
  import opened Base
  import opened Chars
  import opened Lexing

  /** A stream in which the lexer produced every token. */
  function Wrap(ts: seq<Token>): (r: seq<Option<Token>>)
    ensures |r| == |ts|
    ensures forall i :: 0 <= i < |ts| ==> r[i] == Some(ts[i])
  {
    seq(|ts|, i requires 0 <= i < |ts| => Some(ts[i]))
  }

  lemma WrapAppend(a: seq<Token>, b: seq<Token>)
    ensures Wrap(a + b) == Wrap(a) + Wrap(b)
  {
  }

  /** The character of an operator or parenthesis token. */
  function OperatorChar(t: Token): (c: char)
    requires !t.Number?
    ensures SingleCharToken(c) == Some(t)
  {
    match t
    case Plus => '+'
    case Minus => '-'
    case Times => '*'
    case Divides => '/'
    case LParen => '('
    case RParen => ')'
  }

  lemma WrapCons(ts: seq<Token>)
    requires ts != []
    ensures Wrap(ts) == [Some(ts[0])] + Wrap(ts[1..])
  {
  }

  /** The characters of one token: a decimal numeral or the operator's own character. */
  function TokenText(t: Token): (s: seq<char>)
    ensures s != []
  {
    if t.Number? then DecimalString(t.value as nat) else [OperatorChar(t)]
  }

  /**
   * Tokens written out one after another, each followed by a single space where
   * `spaced` says so.
   */
  function Layout(ts: seq<Token>, spaced: seq<bool>): seq<char>
    requires |spaced| == |ts|
  {
    if ts == [] then []
    else TokenText(ts[0]) + (if spaced[0] then [' '] else []) + Layout(ts[1..], spaced[1..])
  }

  /** No two numbers are written next to each other without a space between them. */
  predicate Separated(ts: seq<Token>, spaced: seq<bool>)
    requires |spaced| == |ts|
  {
    forall i :: 0 <= i < |ts| - 1 && ts[i].Number? && !spaced[i] ==> !ts[i + 1].Number?
  }

  /** Every token followed by a space. */
  function AllSpaced(ts: seq<Token>): (spaced: seq<bool>)
    ensures |spaced| == |ts| && Separated(ts, spaced)
  {
    seq(|ts|, i => true)
  }

  /** A whitespace character under the cursor changes nothing the lexer yields. */
  lemma LexAllSkipsWhitespace(s: seq<char>, pos: nat, next: nat)
    requires pos < |s| && IsWhitespace(s[pos]) && next == pos + 1
    ensures LexAll(s, pos) == LexAll(s, next)
  {
    SkipsWhitespace(s, pos, next);
  }

  lemma SkipsWhitespace(s: seq<char>, pos: nat, next: nat)
    requires pos < |s| && IsWhitespace(s[pos]) && next == pos + 1
    ensures SkipWhitespace(s, pos) == SkipWhitespace(s, next)
  {
  }

  /**
   * With a token's text under the cursor, the lexer yields that token and stops
   * right after the text, provided a number is not followed directly by another
   * number character.
   */
  lemma LexStepTokenText(s: seq<char>, pos: nat, t: Token)
    requires pos + |TokenText(t)| <= |s| && s[pos..pos + |TokenText(t)|] == TokenText(t)
    requires t.Number? && pos + |TokenText(t)| < |s| ==> !IsNumber(s[pos + |TokenText(t)|])
    ensures !IsWhitespace(s[pos])
    ensures LexStep(s, pos) == Lexed(Some(t), pos + |TokenText(t)|)
  {
    var text := TokenText(t);
    assert s[pos] == text[0];
    if t.Number? {
      assert IsAsciiDigit(text[0]) by { DecimalValueOfString(t.value as nat); }
      DecimalValueOfString(t.value as nat);
      NumberToken(s, pos, pos, pos + |text|);
    } else {
      OperatorToken(s, pos, pos);
    }
  }

  /** The tail of a separated token sequence is separated. */
  lemma SeparatedTail(ts: seq<Token>, spaced: seq<bool>)
    requires |spaced| == |ts| && ts != [] && Separated(ts, spaced)
    ensures Separated(ts[1..], spaced[1..])
  {
    forall i | 0 <= i < |ts| - 2 && ts[1..][i].Number? && !spaced[1..][i]
      ensures !ts[1..][i + 1].Number?
    {
      assert ts[1..][i] == ts[i + 1] && spaced[1..][i] == spaced[i + 1] && ts[1..][i + 1] == ts[i + 2];
    }
  }

  /** A suffix made of three parts, in positions of the whole sequence. */
  lemma ThreeParts(s: seq<char>, pos: nat, a: seq<char>, b: seq<char>, c: seq<char>) returns (n: nat, m: nat)
    requires pos <= |s| && s[pos..] == a + b + c
    ensures n == pos + |a| && m == n + |b| && m <= |s|
    ensures s[pos..n] == a && s[m..] == c
    ensures b != [] ==> s[n] == b[0]
    ensures b == [] && c != [] ==> s[n] == c[0]
  {
    n := pos + |a|;
    m := n + |b|;
    assert s[pos..n] == s[pos..][..|a|];
    assert s[m..] == s[pos..][|a| + |b|..];
    if n < |s| {
      assert s[n] == s[pos..][|a|];
    }
  }

  /**
   * The laid-out text of one or more tokens: the lexer yields the first token and
   * stops right after its text, where the optional space and then the text of the
   * others follow.
   */
  lemma LayoutStep(s: seq<char>, pos: nat, ts: seq<Token>, spaced: seq<bool>) returns (n: nat, m: nat)
    requires |spaced| == |ts| && ts != [] && Separated(ts, spaced)
    requires pos <= |s| && s[pos..] == Layout(ts, spaced)
    ensures pos < n <= m <= |s| && s[m..] == Layout(ts[1..], spaced[1..])
    ensures if spaced[0] then n < |s| && s[n] == ' ' && m == n + 1 else m == n
    ensures !IsWhitespace(s[pos]) && LexStep(s, pos) == Lexed(Some(ts[0]), n)
  {
    var text := TokenText(ts[0]);
    var gap: seq<char> := if spaced[0] then [' '] else [];
    var rest := Layout(ts[1..], spaced[1..]);
    n, m := ThreeParts(s, pos, text, gap, rest);
    if ts[0].Number? && !spaced[0] && n < |s| {
      NotGlued(ts, spaced, rest);
    }
    LexStepTokenText(s, pos, ts[0]);
  }

  /** The text after a number written with no space starts with an operator character. */
  lemma NotGlued(ts: seq<Token>, spaced: seq<bool>, rest: seq<char>)
    requires |spaced| == |ts| && ts != [] && Separated(ts, spaced) && ts[0].Number? && !spaced[0]
    requires rest == Layout(ts[1..], spaced[1..]) && rest != []
    ensures !IsNumber(rest[0])
  {
    assert ts[1..][0] == ts[1];
    assert rest[0] == TokenText(ts[1])[0];
  }

  /**
   * Lexing from a cursor with the laid-out text of a token sequence ahead of it
   * gives back that sequence.
   */
  lemma {:induction false} LayoutThenLexAt(s: seq<char>, pos: nat, ts: seq<Token>, spaced: seq<bool>)
    requires |spaced| == |ts| && Separated(ts, spaced)
    requires pos <= |s| && s[pos..] == Layout(ts, spaced)
    ensures LexAll(s, pos) == Wrap(ts)
    decreases |ts|
  {
    if ts == [] {
      EndOfInput(s, pos);
    } else {
      var n, m := LayoutStep(s, pos, ts, spaced);
      SkipWhitespaceAt(s, pos, pos);
      LexAllCons(s, pos, Some(ts[0]), n);
      if spaced[0] {
        LexAllSkipsWhitespace(s, n, m);
      }
      SeparatedTail(ts, spaced);
      LayoutThenLexAt(s, m, ts[1..], spaced[1..]);
      WrapCons(ts);
    }
  }

  /**
   * Lexing the laid-out text of a token sequence gives back that sequence: the
   * spaces between tokens matter only between two numbers.
   */
  lemma LayoutThenLex(ts: seq<Token>, spaced: seq<bool>)
    requires |spaced| == |ts| && Separated(ts, spaced)
    ensures LexAll(Layout(ts, spaced), 0) == Wrap(ts)
  {
    LayoutThenLexAt(Layout(ts, spaced), 0, ts, spaced);
  }

  lemma Regroup(a: seq<char>, x: seq<char>, y: seq<char>)
    ensures a + (x + y) == (a + x) + y
  {
  }

  /** The head and the tail of a concatenation whose left part is not empty. */
  lemma ConsAppend<T>(a: seq<T>, b: seq<T>)
    requires a != []
    ensures (a + b)[0] == a[0] && (a + b)[1..] == a[1..] + b
  {
  }

  /** A suffix cut at `e` is the slice up to `e` and the suffix from `e`. */
  lemma SliceJoin<T>(s: seq<T>, k: nat, e: nat)
    requires k <= e <= |s|
    ensures s[k..e] + s[e..] == s[k..]
  {
  }

  /** Slices of the suffix from `pos`, named by their positions in `s`. */
  lemma SuffixSlices<T>(s: seq<T>, pos: nat, p: nat, e: nat, k: nat, f: nat)
    requires pos <= p <= e <= |s| && k == p - pos && f == e - pos
    ensures s[pos..][k..f] == s[p..e] && s[pos..][f..] == s[e..]
    ensures e < |s| ==> s[pos..][f] == s[e]
    ensures p < |s| ==> s[pos..][k] == s[p]
  {
  }

  /** The text of two token sequences one after the other is the two texts one after the other. */
  lemma {:induction false} LayoutAppend(t1: seq<Token>, s1: seq<bool>, t2: seq<Token>, s2: seq<bool>)
    requires |s1| == |t1| && |s2| == |t2|
    ensures Layout(t1 + t2, s1 + s2) == Layout(t1, s1) + Layout(t2, s2)
    decreases |t1|
  {
    if t1 == [] {
      assert t1 + t2 == t2 && s1 + s2 == s2;
    } else {
      ConsAppend(t1, t2);
      ConsAppend(s1, s2);
      LayoutAppend(t1[1..], s1[1..], t2, s2);
      var head := TokenText(t1[0]) + (if s1[0] then [' '] else []);
      Regroup(head, Layout(t1[1..], s1[1..]), Layout(t2, s2));
    }
  }

  /** The text of a token sequence cut anywhere is the two texts one after the other. */
  lemma LayoutSplit(ts: seq<Token>, spaced: seq<bool>, i: nat)
    requires |spaced| == |ts| && i <= |ts|
    ensures Layout(ts, spaced) == Layout(ts[..i], spaced[..i]) + Layout(ts[i..], spaced[i..])
  {
    SliceJoin(ts, 0, i);
    SliceJoin(spaced, 0, i);
    LayoutAppend(ts[..i], spaced[..i], ts[i..], spaced[i..]);
  }

  /** The text of a token sequence cut in two places is the three texts one after the other. */
  lemma LayoutInThree(ts: seq<Token>, spaced: seq<bool>, i: nat, j: nat, x1: seq<char>, x2: seq<char>, x3: seq<char>)
    requires |spaced| == |ts| && i <= j <= |ts|
    requires Layout(ts[..i], spaced[..i]) == x1 && Layout(ts[i..j], spaced[i..j]) == x2
    requires Layout(ts[j..], spaced[j..]) == x3
    ensures Layout(ts, spaced) == x1 + x2 + x3
  {
    var tail, tailSpaced := ts[i..], spaced[i..];
    SuffixSlices(ts, i, i, j, 0, j - i);
    SuffixSlices(spaced, i, i, j, 0, j - i);
    LayoutSplit(tail, tailSpaced, j - i);
    assert Layout(tail, tailSpaced) == x2 + x3;
    LayoutSplit(ts, spaced, i);
    Regroup(x1, x2, x3);
  }

  /** With a space after every token, any token sequence lexes back from its text. */
  lemma SpacedLayoutThenLex(ts: seq<Token>)
    ensures LexAll(Layout(ts, AllSpaced(ts)), 0) == Wrap(ts)
  {
    LayoutThenLex(ts, AllSpaced(ts));
  }
}
