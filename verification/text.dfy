/**
  The few Python string operations the script relies on: `str.strip()`,
  `str.upper()` and `s.split(sep)[-1]`.
 */
module Text {

  /**
    Python's `str.isspace` for one character: the characters whose
    bidirectional class is WS, B or S, or whose category is Zs.
   */
  predicate IsSpace(c: char) {
    || ('\t' <= c <= '\r')
    || ('\U{1C}' <= c <= '\U{1F}')
    || c == ' '
    || c == '\U{85}'
    || c == '\U{A0}'
    || c == '\U{1680}'
    || ('\U{2000}' <= c <= '\U{200A}')
    || c == '\U{2028}'
    || c == '\U{2029}'
    || c == '\U{202F}'
    || c == '\U{205F}'
    || c == '\U{3000}'
  }

  /** Among ASCII characters, exactly these ten count as whitespace. */
  lemma AsciiWhitespace(c: char)
    requires c as int < 128
    ensures IsSpace(c) <==> c in "\t\n\U{B}\U{C}\r\U{1C}\U{1D}\U{1E}\U{1F} "
  {
  }

  /** Neither end of `s` is whitespace (vacuously so for the empty string). */
  predicate IsTrimmed(s: string) {
    |s| == 0 || (!IsSpace(s[0]) && !IsSpace(s[|s| - 1]))
  }

  /** `s` without its leading whitespace. */
  function TrimStart(s: string): (r: string)
    ensures |r| <= |s| && r == s[|s| - |r|..]
    ensures forall k :: 0 <= k < |s| - |r| ==> IsSpace(s[k])
    ensures |r| > 0 ==> !IsSpace(r[0])
  {
    if |s| > 0 && IsSpace(s[0]) then TrimStart(s[1..]) else s
  }

  /** `s` without its trailing whitespace. */
  function TrimEnd(s: string): (r: string)
    ensures |r| <= |s| && r == s[..|r|]
    ensures forall k :: |r| <= k < |s| ==> IsSpace(s[k])
    ensures |r| > 0 ==> !IsSpace(r[|r| - 1])
  {
    if |s| > 0 && IsSpace(s[|s| - 1]) then TrimEnd(s[..|s| - 1]) else s
  }

  /** `r` is the slice of `s` starting at `i`, and only whitespace of `s` lies outside it. */
  predicate IsSliceAmidSpace(s: string, r: string, i: int) {
    && 0 <= i <= |s| - |r|
    && r == s[i..i + |r|]
    && (forall k :: 0 <= k < i ==> IsSpace(s[k]))
    && (forall k :: i + |r| <= k < |s| ==> IsSpace(s[k]))
  }

  /**
    Python's `s.strip()`: the slice of `s` that is left once the whitespace
    at both ends is removed.
   */
  function Strip(s: string): (r: string)
    ensures IsTrimmed(r)
    ensures exists i :: IsSliceAmidSpace(s, r, i)
  {
    var t := TrimStart(s);
    var r := TrimEnd(t);
    assert IsSliceAmidSpace(s, r, |s| - |t|);
    r
  }

  /** A string whose ends are not whitespace is its own strip. */
  lemma StripTrimmed(s: string)
    requires IsTrimmed(s)
    ensures Strip(s) == s
  {
  }

  /** Stripping twice is stripping once. */
  lemma StripIdempotent(s: string)
    ensures Strip(Strip(s)) == Strip(s)
  {
    StripTrimmed(Strip(s));
  }

  /** Leading whitespace makes no difference to the strip. */
  lemma StripSkipsLeadingSpace(c: char, s: string)
    requires IsSpace(c)
    ensures Strip([c] + s) == Strip(s)
  {
    assert ([c] + s)[1..] == s;
  }

  /** Python's `s.split(sep)[-1]`: whatever follows the last `sep`, or all of `s` if it has none. */
  function LastField(s: string, sep: char): (r: string)
    ensures sep !in r
    ensures |r| <= |s| && r == s[|s| - |r|..]
    ensures |r| < |s| ==> s[|s| - |r| - 1] == sep
  {
    if |s| == 0 || s[|s| - 1] == sep then []
    else
      var r := LastField(s[..|s| - 1], sep) + [s[|s| - 1]];
      assert s == s[..|s| - 1] + [s[|s| - 1]];
      r
  }

  /** The last field of `p`, `sep`, `t` is `t` when `t` holds no `sep`. */
  lemma {:induction false} LastFieldAfterSeparator(p: string, sep: char, t: string)
    requires sep !in t
    ensures LastField(p + [sep] + t, sep) == t
    decreases |t|
  {
    var s := p + [sep] + t;
    if |t| > 0 {
      var init := t[..|t| - 1];
      assert s[..|s| - 1] == p + [sep] + init;
      assert t[|t| - 1] in t;
      LastFieldAfterSeparator(p, sep, init);
      assert t == init + [t[|t| - 1]];
    }
  }

  /** Python's `str.upper` on one character, for ASCII letters. */
  function UpperChar(c: char): char {
    if 'a' <= c <= 'z' then (c as int - 32) as char else c
  }

  /** Python's `str.upper`, for ASCII letters. */
  function Upper(s: string): (r: string)
    ensures |r| == |s|
    ensures forall k :: 0 <= k < |r| ==> !('a' <= r[k] <= 'z')
    ensures forall k :: 0 <= k < |s| && !('a' <= s[k] <= 'z') ==> r[k] == s[k]
    ensures forall k :: 0 <= k < |s| && 'a' <= s[k] <= 'z' ==> r[k] as int == s[k] as int - 32
  {
    seq(|s|, k requires 0 <= k < |s| => UpperChar(s[k]))
  }

  /** Upper-casing is idempotent. */
  lemma UpperIdempotent(s: string)
    ensures Upper(Upper(s)) == Upper(s)
  {
  }

}
