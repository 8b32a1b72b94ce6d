/**
 * String primitives of JavaScript that the intent analyzer relies on:
 * the characters `\s` matches and `trim` removes, ASCII case handling
 * (`toLowerCase` and the case-insensitive `i` flag of a regular expression),
 * `includes`, and the option type used for "no match" and `null`.
 */
module JsText {

  datatype Option<T> = None | Some(value: T)

  /** JavaScript WhiteSpace and LineTerminator code points: what `\s` matches and what `trim` removes. */
  predicate IsWhitespace(c: char) {
    c == '\t' || c == '\n' || c == '\U{B}' || c == '\U{C}' || c == '\r' || c == ' ' ||
    c == '\U{A0}' || c == '\U{1680}' || ('\U{2000}' <= c <= '\U{200A}') ||
    c == '\U{2028}' || c == '\U{2029}' || c == '\U{202F}' || c == '\U{205F}' ||
    c == '\U{3000}' || c == '\U{FEFF}'
  }

  /** The characters the regular-expression dot `.` does not match. */
  predicate IsLineTerminator(c: char) {
    c == '\n' || c == '\r' || c == '\U{2028}' || c == '\U{2029}'
  }

  predicate IsAsciiLetter(c: char) {
    ('A' <= c <= 'Z') || ('a' <= c <= 'z')
  }

  function UpperAscii(c: char): char {
    if 'a' <= c <= 'z' then (c as int - 32) as char else c
  }

  function LowerAscii(c: char): char {
    if 'A' <= c <= 'Z' then (c as int + 32) as char else c
  }

  /**
   * Character equality under the `i` flag. Without the `u` flag JavaScript
   * compares the upper-case forms and never lets a non-ASCII character stand
   * for an ASCII one, so for the ASCII-only patterns of the analyzer this is
   * exactly ASCII case folding.
   */
  predicate SameIgnoringCase(a: char, b: char) {
    UpperAscii(a) == UpperAscii(b)
  }

  /** `toLowerCase`, restricted to ASCII letters. */
  function ToLower(s: string): (r: string)
    ensures |r| == |s|
    ensures forall i :: 0 <= i < |s| ==>
              SameIgnoringCase(r[i], s[i]) && !('A' <= r[i] <= 'Z') && (r[i] == s[i] || 'A' <= s[i] <= 'Z')
  {
    seq(|s|, i requires 0 <= i < |s| => LowerAscii(s[i]))
  }

  /** Two strings that differ at most in the case of ASCII letters. */
  predicate SameTextIgnoringCase(a: string, b: string) {
    |a| == |b| && forall i :: 0 <= i < |a| ==> SameIgnoringCase(a[i], b[i])
  }

  lemma LowerOfSameCase(a: char, b: char)
    requires SameIgnoringCase(a, b)
    ensures LowerAscii(a) == LowerAscii(b)
  {
  }

  /** Inputs that differ only in letter case lower-case to the same string. */
  lemma ToLowerIgnoresCase(a: string, b: string)
    requires SameTextIgnoringCase(a, b)
    ensures ToLower(a) == ToLower(b)
  {
    forall i | 0 <= i < |a|
      ensures ToLower(a)[i] == ToLower(b)[i]
    {
      LowerOfSameCase(a[i], b[i]);
    }
  }

  /** The literal `w` occurs at position `i` of `s`, compared as under the `i` flag. */
  predicate LiteralAt(s: string, i: nat, w: string) {
    i + |w| <= |s| && LiteralFrom(s, i, w, 0)
  }

  /** Characters `k..` of the literal `w` match from position `i + k` of `s`. */
  predicate LiteralFrom(s: string, i: nat, w: string, k: nat)
    decreases |w| - k
  {
    k >= |w| || (i + k < |s| && SameIgnoringCase(s[i + k], w[k]) && LiteralFrom(s, i, w, k + 1))
  }

  lemma {:induction false} LiteralFromPrefix(s: string, t: string, i: nat, w: string, k: nat)
    requires s <= t && LiteralFrom(s, i, w, k)
    ensures LiteralFrom(t, i, w, k)
    decreases |w| - k
  {
    if k < |w| {
      LiteralFromPrefix(s, t, i, w, k + 1);
    }
  }

  /** A literal found in a prefix of a string is found in the string. */
  lemma LiteralAtPrefix(s: string, t: string, i: nat, w: string)
    requires s <= t && LiteralAt(s, i, w)
    ensures LiteralAt(t, i, w)
  {
    LiteralFromPrefix(s, t, i, w, 0);
  }

  /** `w` occurs exactly, with case, at position `i` of `s`. */
  predicate OccursAt(s: string, i: nat, w: string) {
    i + |w| <= |s| && s[i..i + |w|] == w
  }

  /** `s.includes(w)`. */
  predicate Includes(s: string, w: string) {
    exists i :: 0 <= i <= |s| && OccursAt(s, i, w)
  }

  /** A string that includes `v` includes everything `v` includes. */
  lemma IncludesTransitive(s: string, v: string, w: string)
    requires Includes(s, v) && Includes(v, w)
    ensures Includes(s, w)
  {
    var i :| 0 <= i <= |s| && OccursAt(s, i, v);
    var j :| 0 <= j <= |v| && OccursAt(v, j, w);
    forall k | 0 <= k < |w|
      ensures s[i + j..i + j + |w|][k] == w[k]
    {
      assert w[k] == v[j + k] == s[i..i + |v|][j + k];
    }
    assert s[i + j..i + j + |w|] == w;
    assert OccursAt(s, i + j, w);
  }

  predicate AllWhitespace(s: string, from: nat, to: nat)
    requires from <= to <= |s|
  {
    forall k :: from <= k < to ==> IsWhitespace(s[k])
  }

  predicate NoLineTerminator(s: string) {
    forall i :: 0 <= i < |s| ==> !IsLineTerminator(s[i])
  }

  lemma NoLineTerminatorSlice(s: string, a: nat, b: nat)
    requires a <= b <= |s| && NoLineTerminator(s)
    ensures NoLineTerminator(s[a..b])
  {
    forall i | 0 <= i < b - a ensures !IsLineTerminator(s[a..b][i]) {
      assert s[a..b][i] == s[a + i];
    }
  }

  /** The length of the run of whitespace that starts at `i` (greedy `\s*`). */
  function WhitespaceRun(s: string, i: nat): (n: nat)
    requires i <= |s|
    ensures i + n <= |s|
    ensures AllWhitespace(s, i, i + n)
    ensures i + n == |s| || !IsWhitespace(s[i + n])
    decreases |s| - i
  {
    if i == |s| || !IsWhitespace(s[i]) then 0 else 1 + WhitespaceRun(s, i + 1)
  }

  /** The length of the run of whitespace that ends the string. */
  function TrailingWhitespace(s: string): (n: nat)
    ensures n <= |s|
    ensures AllWhitespace(s, |s| - n, |s|)
    ensures n == |s| || !IsWhitespace(s[|s| - n - 1])
  {
    if |s| == 0 || !IsWhitespace(s[|s| - 1]) then 0
    else
      var m := TrailingWhitespace(s[..|s| - 1]);
      assert forall k :: |s| - 1 - m <= k < |s| - 1 ==> s[..|s| - 1][k] == s[k];
      m + 1
  }

  /** No leading and no trailing whitespace. */
  predicate IsTrimmed(s: string) {
    s == [] || (!IsWhitespace(s[0]) && !IsWhitespace(s[|s| - 1]))
  }

  /** `trimStart`: drops the leading whitespace. */
  function TrimStart(s: string): (r: string)
    ensures |r| <= |s| && r == s[|s| - |r|..]
    ensures AllWhitespace(s, 0, |s| - |r|)
    ensures r == [] || !IsWhitespace(r[0])
  {
    s[WhitespaceRun(s, 0)..]
  }

  /** `trimEnd`: drops the trailing whitespace. */
  function TrimEnd(s: string): (r: string)
    ensures r <= s
    ensures AllWhitespace(s, |r|, |s|)
    ensures r == [] || !IsWhitespace(r[|r| - 1])
  {
    s[..|s| - TrailingWhitespace(s)]
  }

  /** `trim`: drops whitespace at both ends. */
  function Trim(s: string): (r: string)
    ensures IsTrimmed(r)
  {
    TrimEnd(TrimStart(s))
  }

  /** Trimming a string that is already trimmed changes nothing. */
  lemma TrimTrimmed(s: string)
    requires IsTrimmed(s)
    ensures Trim(s) == s
  {
    if s != [] {
      assert WhitespaceRun(s, 0) == 0;
      assert TrailingWhitespace(s[0..]) == 0;
    }
  }

  /**
   * Trimming a prefix of a string that has no leading whitespace only drops
   * whitespace from its end, so the result is again a prefix.
   */
  lemma TrimPrefix(s: string, i: nat)
    requires i <= |s| && (s == [] || !IsWhitespace(s[0]))
    ensures Trim(s[..i]) <= s
  {
    var p := s[..i];
    assert WhitespaceRun(p, 0) == 0;
    assert p[0..] == p;
  }

  lemma TrimNoLineTerminator(s: string)
    requires NoLineTerminator(s)
    ensures NoLineTerminator(Trim(s))
  {
    var t := TrimStart(s);
    NoLineTerminatorSlice(s, |s| - |t|, |s|);
    NoLineTerminatorSlice(t, 0, |Trim(s)|);
  }
}
