/** The string operations the coordinator relies on: Foundation's
    `trimmingCharacters(in: .whitespacesAndNewlines)` and `hasPrefix`. */
module Text {

  /** Membership in Foundation's `whitespacesAndNewlines` set: the Unicode
      separator categories Zs, Zl and Zp, U+0009 to U+000D, and U+0085. */
  predicate IsWhitespace(c: char) {
    || ('\U{0009}' <= c <= '\U{000D}')
    || c == ' ' || c == '\U{0085}' || c == '\U{00A0}' || c == '\U{1680}'
    || ('\U{2000}' <= c <= '\U{200A}')
    || c == '\U{2028}' || c == '\U{2029}' || c == '\U{202F}' || c == '\U{205F}' || c == '\U{3000}'
  }

  /** Every character of `s` from index `lo` up to (not including) `hi` is whitespace. */
  predicate WhitespaceIn(s: string, lo: nat, hi: nat)
    requires lo <= hi <= |s|
  {
    forall k :: lo <= k < hi ==> IsWhitespace(s[k])
  }

  predicate AllWhitespace(s: string) {
    WhitespaceIn(s, 0, |s|)
  }

  /** The index of the first non-whitespace character at or after `from`,
      or `|s|` when there is none. */
  function ContentStart(s: string, from: nat): (i: nat)
    requires from <= |s|
    ensures from <= i <= |s| && WhitespaceIn(s, from, i)
    ensures i < |s| ==> !IsWhitespace(s[i])
    decreases |s| - from
  {
    if from < |s| && IsWhitespace(s[from]) then ContentStart(s, from + 1) else from
  }

  /** The index just past the last non-whitespace character before `hi`,
      not going below `lo`. */
  function ContentEnd(s: string, lo: nat, hi: nat): (j: nat)
    requires lo <= hi <= |s|
    ensures lo <= j <= hi && WhitespaceIn(s, j, hi)
    ensures j > lo ==> !IsWhitespace(s[j - 1])
    decreases hi - lo
  {
    if lo < hi && IsWhitespace(s[hi - 1]) then ContentEnd(s, lo, hi - 1) else hi
  }

  /** `trimmingCharacters(in: .whitespacesAndNewlines)`: a stretch of `s`
      that neither starts nor ends with whitespace, with only whitespace cut
      away on either side; it is empty exactly when `s` is all whitespace. */
  function Trim(s: string): (r: string)
    ensures exists i :: 0 <= i <= |s| - |r| && r == s[i..i + |r|]
                        && WhitespaceIn(s, 0, i) && WhitespaceIn(s, i + |r|, |s|)
    ensures r != [] ==> !IsWhitespace(r[0]) && !IsWhitespace(r[|r| - 1])
    ensures r == [] <==> AllWhitespace(s)
  {
    var i := ContentStart(s, 0);
    var j := ContentEnd(s, i, |s|);
    assert j > i ==> s[i..j][0] == s[i] && s[i..j][j - i - 1] == s[j - 1];
    assert j == i ==> i == |s|;
    assert 0 <= i <= |s| - (j - i) && s[i..j] == s[i..i + (j - i)];
    s[i..j]
  }

  /** Swift's `hasPrefix`. */
  predicate HasPrefix(s: string, p: string) {
    |p| <= |s| && s[..|p|] == p
  }
}
