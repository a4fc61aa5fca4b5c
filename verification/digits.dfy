/**
 * `split_digit` of `src/lib.rs` (and its copy in `src/main.rs`): a string cut
 * where its leading run of numeric characters ends.
 */
module SplitDigits {
  import opened Base
  import opened Chars

  /**
   * `str::find` with the predicate "not numeric": the index of the first character
   * that is not a digit, if there is one.
   */
  function FindNonNumeric(s: seq<char>): (r: Option<nat>)
    ensures r.Some? ==> r.value < |s| && !IsAsciiDigit(s[r.value])
    ensures r.Some? ==> forall k :: 0 <= k < r.value ==> IsAsciiDigit(s[k])
    ensures r.None? ==> AllDigits(s)
  {
    if s == [] then None
    else if !IsAsciiDigit(s[0]) then Some(0)
    else match FindNonNumeric(s[1..])
      case Some(i) => Some(i + 1)
      case None => None
  }

  /**
   * `split_digit`: the longest prefix of numeric characters and what follows it;
   * with no non-numeric character the whole string is the prefix.
   */
  function SplitDigit(s: seq<char>): (r: (seq<char>, seq<char>))
    ensures r.0 + r.1 == s
    ensures AllDigits(r.0)
    ensures r.1 == [] || !IsAsciiDigit(r.1[0])
  {
    var cut := match FindNonNumeric(s) case Some(i) => i case None => |s|;
    (s[..cut], s[cut..])
  }

  /** The split is the only one with those three properties. */
  lemma SplitDigitUnique(s: seq<char>, digits: seq<char>, rest: seq<char>)
    requires digits + rest == s && AllDigits(digits) && (rest == [] || !IsAsciiDigit(rest[0]))
    ensures SplitDigit(s) == (digits, rest)
  {
    var (d, r) := SplitDigit(s);
    assert d == s[..|d|] && digits == s[..|digits|];
  }

  /** A string of digits only is all prefix. */
  lemma SplitAllNumeric(s: seq<char>)
    requires AllDigits(s)
    ensures SplitDigit(s) == (s, [])
  {
    SplitDigitUnique(s, s, []);
  }

  /** A string that starts with a non-numeric character has an empty prefix. */
  lemma SplitLeadingNonNumeric(s: seq<char>)
    requires s != [] && !IsAsciiDigit(s[0])
    ensures SplitDigit(s) == ([], s)
  {
    SplitDigitUnique(s, [], s);
  }
}
