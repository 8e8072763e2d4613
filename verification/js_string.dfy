/** The two JavaScript string operations the screens rely on: `trim()` and `split(sep)[0]`. */
module JsString {

  /** ECMAScript WhiteSpace and LineTerminator code points, the characters `trim()` removes. */
  predicate IsWhitespace(c: char) {
    c in {'\t', '\n', '\U{B}', '\U{C}', '\r', ' ', '\U{A0}', '\U{1680}',
          '\U{2028}', '\U{2029}', '\U{202F}', '\U{205F}', '\U{3000}', '\U{FEFF}'}
    || ('\U{2000}' <= c <= '\U{200A}')
  }

  /** Drops leading whitespace: the result is the suffix of `s` that starts at its first non-whitespace character. */
  function TrimStart(s: string): (r: string)
    ensures |r| <= |s| && r == s[|s| - |r|..]
    ensures forall i :: 0 <= i < |s| - |r| ==> IsWhitespace(s[i])
    ensures r != [] ==> !IsWhitespace(r[0])
    decreases |s|
  {
    if s != [] && IsWhitespace(s[0]) then TrimStart(s[1..]) else s
  }

  /** Drops trailing whitespace: the result is the prefix of `s` that ends at its last non-whitespace character. */
  function TrimEnd(s: string): (r: string)
    ensures |r| <= |s| && r == s[..|r|]
    ensures forall i :: |r| <= i < |s| ==> IsWhitespace(s[i])
    ensures r != [] ==> !IsWhitespace(r[|r| - 1])
    decreases |s|
  {
    if s != [] && IsWhitespace(s[|s| - 1]) then TrimEnd(s[..|s| - 1]) else s
  }

  /** `s.trim()`: the contiguous part of `s` left after removing whitespace from both ends;
      neither end of the result is whitespace. */
  function Trim(s: string): (r: string)
    ensures var a := |s| - |TrimStart(s)|;
      (&& a + |r| <= |s|
       && r == s[a..a + |r|]
       && (forall i :: 0 <= i < a ==> IsWhitespace(s[i]))
       && (forall i :: a + |r| <= i < |s| ==> IsWhitespace(s[i])))
    ensures r != [] ==> !IsWhitespace(r[0]) && !IsWhitespace(r[|r| - 1])
  {
    TrimEnd(TrimStart(s))
  }

  /** `s.trim() === ''` holds exactly when every character of `s` is whitespace (the empty string included). */
  lemma TrimEmptyIffBlank(s: string)
    ensures Trim(s) == [] <==> forall i :: 0 <= i < |s| ==> IsWhitespace(s[i])
  {
  }

  /** `s.split(sep)[0]`: the part of `s` before its first `sep`, or the whole of `s` when it holds none. */
  function SplitHead(s: string, sep: char): (head: string)
    ensures |head| <= |s| && head == s[..|head|]
    ensures sep !in head
    ensures |head| < |s| ==> s[|head|] == sep
  {
    if s == [] || s[0] == sep then [] else [s[0]] + SplitHead(s[1..], sep)
  }

  /** The three facts SplitHead promises pin its result down: any prefix of `s` free of `sep` and
      followed by `sep` or by the end of `s` is that result. */
  lemma SplitHeadUnique(s: string, sep: char, k: string)
    requires |k| <= |s| && k == s[..|k|]
    requires sep !in k
    requires |k| < |s| ==> s[|k|] == sep
    ensures k == SplitHead(s, sep)
  {
  }
}
