/**
 * The parts of Python's `str` the server relies on: `strip()` with and
 * without a character argument, and the word count `len(s.split())`.
 */
module Text {

  /** The characters Python's `str.isspace()` accepts; `strip()` and `split()`
      with no argument trim and separate on exactly these. */
  predicate IsSpace(c: char) {
    || c == ' '
    || ('\t' <= c <= '\r')
    || ('\U{1C}' <= c <= '\U{1F}')
    || c == '\U{85}' || c == '\U{A0}' || c == '\U{1680}'
    || ('\U{2000}' <= c <= '\U{200A}')
    || c == '\U{2028}' || c == '\U{2029}' || c == '\U{202F}' || c == '\U{205F}' || c == '\U{3000}'
  }

  /** What a `strip` call removes: whitespace (`s.strip()`) or the characters
      of its argument (`s.strip('"')`). */
  datatype Trimmed = Whitespace | OneOf(chars: set<char>)

  predicate Member(c: char, k: Trimmed) {
    match k
    case Whitespace => IsSpace(c)
    case OneOf(cs) => c in cs
  }

  /** Length of the longest prefix of `s` made of trimmed characters. */
  function LeadingCount(s: string, k: Trimmed): (n: nat)
    ensures n <= |s|
    ensures forall i :: 0 <= i < n ==> Member(s[i], k)
    ensures n < |s| ==> !Member(s[n], k)
  {
    if |s| == 0 || !Member(s[0], k) then 0 else 1 + LeadingCount(s[1..], k)
  }

  /** Length of the longest suffix of `s` made of trimmed characters. */
  function TrailingCount(s: string, k: Trimmed): (n: nat)
    ensures n <= |s|
    ensures forall i :: |s| - n <= i < |s| ==> Member(s[i], k)
    ensures n < |s| ==> !Member(s[|s| - n - 1], k)
  {
    if |s| == 0 || !Member(s[|s| - 1], k) then 0 else 1 + TrailingCount(s[..|s| - 1], k)
  }

  /** The slice `[lo, hi)` of a string that `strip` keeps. */
  datatype Span = Span(lo: nat, hi: nat)

  function StripSpan(s: string, k: Trimmed): (sp: Span)
    ensures sp.lo <= sp.hi <= |s|
    ensures forall i :: 0 <= i < sp.lo ==> Member(s[i], k)
    ensures forall i :: sp.hi <= i < |s| ==> Member(s[i], k)
    ensures sp.lo < sp.hi ==> !Member(s[sp.lo], k) && !Member(s[sp.hi - 1], k)
  {
    var lo := LeadingCount(s, k);
    var t := s[lo..];
    var n := TrailingCount(t, k);
    assert n < |t| ==> !Member(t[|t| - n - 1], k);
    Span(lo, |s| - n)
  }

  /** `s.strip(...)`: the longest infix of `s` that neither starts nor ends
      with a trimmed character, everything outside it being trimmed. */
  function Strip(s: string, k: Trimmed): (r: string)
    ensures |r| <= |s|
    ensures |r| > 0 ==> !Member(r[0], k) && !Member(r[|r| - 1], k)
    ensures r == s[StripSpan(s, k).lo..StripSpan(s, k).hi]
  {
    var sp := StripSpan(s, k);
    s[sp.lo..sp.hi]
  }

  /** `r` is a contiguous piece of `s`. */
  predicate IsInfix(r: string, s: string) {
    exists i, j :: 0 <= i <= j <= |s| && r == s[i..j]
  }

  /** Stripping keeps a contiguous piece of the input. */
  lemma StripIsInfix(s: string, k: Trimmed)
    ensures IsInfix(Strip(s, k), s)
  {
    var sp := StripSpan(s, k);
    assert Strip(s, k) == s[sp.lo..sp.hi];
  }

  /** A piece of a piece of `s` is a piece of `s`. */
  lemma InfixOfInfix(r: string, m: string, s: string)
    requires IsInfix(r, m) && IsInfix(m, s)
    ensures IsInfix(r, s)
  {
    var i, j :| 0 <= i <= j <= |m| && r == m[i..j];
    var a, b :| 0 <= a <= b <= |s| && m == s[a..b];
    assert |r| == |s[a + i..a + j]|;
    forall n | 0 <= n < |r| ensures r[n] == s[a + i..a + j][n] {
      assert r[n] == m[i + n] == s[a + i + n];
    }
    assert r == s[a + i..a + j];
  }

  /** Stripping twice is stripping once. */
  lemma StripIdempotent(s: string, k: Trimmed)
    ensures Strip(Strip(s, k), k) == Strip(s, k)
  {
  }

  /** A string that neither starts nor ends with a trimmed character is
      left as it is. */
  lemma StripKeepsUntrimmed(s: string, k: Trimmed)
    requires |s| > 0 && !Member(s[0], k) && !Member(s[|s| - 1], k)
    ensures Strip(s, k) == s
  {
  }

  /** A string made only of trimmed characters strips to the empty string. */
  lemma StripAllTrimmed(s: string, k: Trimmed)
    requires forall i :: 0 <= i < |s| ==> Member(s[i], k)
    ensures Strip(s, k) == ""
  {
  }

  /** Number of words in `s` when the character before it was (`afterSpace`)
      or was not whitespace: a word starts at every non-space character that
      follows a space or the start of the text. */
  function WordsFrom(s: string, afterSpace: bool): (n: nat)
    ensures n <= |s|
    // two words need a space between them
    ensures n <= (|s| + (if afterSpace then 1 else 0)) / 2
  {
    if |s| == 0 then 0
    else (if afterSpace && !IsSpace(s[0]) then 1 else 0) + WordsFrom(s[1..], IsSpace(s[0]))
  }

  /** `len(s.split())`. */
  function WordCount(s: string): (n: nat)
    ensures n <= (|s| + 1) / 2
    ensures |s| > 0 && !IsSpace(s[0]) ==> n >= 1
  {
    WordsFrom(s, true)
  }

  /** A text without words is all whitespace, and conversely. */
  lemma {:induction false} NoWordsIffBlank(s: string)
    ensures WordCount(s) == 0 <==> forall i :: 0 <= i < |s| ==> IsSpace(s[i])
    decreases |s|
  {
    if |s| > 0 {
      NoWordsIffBlank(s[1..]);
      assert forall i :: 1 <= i < |s| ==> s[i] == s[1..][i - 1];
    }
  }

  /** Splitting at a whitespace character adds the word counts of both sides. */
  lemma {:induction false} WordCountSplitsAtSpace(a: string, c: char, b: string, afterSpace: bool)
    requires IsSpace(c)
    ensures WordsFrom(a + [c] + b, afterSpace) == WordsFrom(a, afterSpace) + WordsFrom(b, true)
    decreases |a|
  {
    if |a| == 0 {
      assert a + [c] + b == [c] + b;
      assert ([c] + b)[1..] == b;
    } else {
      assert (a + [c] + b)[0] == a[0];
      assert (a + [c] + b)[1..] == a[1..] + [c] + b;
      WordCountSplitsAtSpace(a[1..], c, b, IsSpace(a[0]));
    }
  }

  /** A non-empty run without whitespace is exactly one word. */
  lemma {:induction false} SingleWord(s: string, afterSpace: bool)
    requires |s| > 0 && forall i :: 0 <= i < |s| ==> !IsSpace(s[i])
    ensures WordsFrom(s, afterSpace) == (if afterSpace then 1 else 0)
    decreases |s|
  {
    if |s| > 1 {
      SingleWord(s[1..], false);
    }
  }
}
