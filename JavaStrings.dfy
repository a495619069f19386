/**
  The java.lang.String operations the pipeline relies on. A Java string is a
  sequence of Unicode code points here (`string` is `seq<char>`). Whitespace
  and the ASCII control range are written out; the locale- and table-driven
  case mappings and normalisation come in as parameters (`UnicodeData`).
 */
module JavaStrings {

  /** Character.isWhitespace: the space, line and paragraph separators other
      than the three no-break spaces, plus U+0009..U+000D and U+001C..U+001F. */
  predicate IsWhitespace(c: char) {
    || c == ' '
    || ('\t' <= c <= '\r')
    || ('\U{1C}' <= c <= '\U{1F}')
    || c == '\U{1680}'
    || ('\U{2000}' <= c <= '\U{2006}')
    || ('\U{2008}' <= c <= '\U{200A}')
    || c == '\U{2028}' || c == '\U{2029}'
    || c == '\U{205F}' || c == '\U{3000}'
  }

  /** What String.trim drops at both ends: every code point up to U+0020. */
  predicate IsTrimmable(c: char) {
    c <= ' '
  }

  /** String.isBlank: empty or only whitespace. */
  predicate IsBlank(s: string) {
    forall k :: 0 <= k < |s| ==> IsWhitespace(s[k])
  }

  /** Length of the longest prefix of `s` whose characters all satisfy `p`. */
  function LeadingRun(s: string, p: char -> bool): (n: nat)
    ensures n <= |s|
    ensures forall k :: 0 <= k < n ==> p(s[k])
    ensures n < |s| ==> !p(s[n])
  {
    if s == [] || !p(s[0]) then 0 else 1 + LeadingRun(s[1..], p)
  }

  /** Length of the longest suffix of `s` whose characters all satisfy `p`. */
  function TrailingRun(s: string, p: char -> bool): (n: nat)
    ensures n <= |s|
    ensures forall k :: |s| - n <= k < |s| ==> p(s[k])
    ensures n < |s| ==> !p(s[|s| - 1 - n])
  {
    if s == [] || !p(s[|s| - 1]) then 0 else 1 + TrailingRun(s[..|s| - 1], p)
  }

  /** Removes the characters satisfying `p` from both ends: the common shape
      of String.strip and String.trim. The result is the infix of `s` that
      starts at `LeadingRun(s, p)`; it is empty exactly when every character
      of `s` satisfies `p`, and otherwise neither end satisfies `p`. */
  function TrimBy(s: string, p: char -> bool): (r: string)
    ensures |r| <= |s|
    ensures LeadingRun(s, p) + |r| <= |s|
    ensures r == s[LeadingRun(s, p)..LeadingRun(s, p) + |r|]
    ensures forall k :: LeadingRun(s, p) + |r| <= k < |s| ==> p(s[k])
    ensures r == [] <==> forall k :: 0 <= k < |s| ==> p(s[k])
    ensures r != [] ==> !p(r[0]) && !p(r[|r| - 1])
  {
    var lead := LeadingRun(s, p);
    var t := s[lead..];
    var r := t[..|t| - TrailingRun(t, p)];
    assert r == s[lead..lead + |r|];
    assert forall k :: lead + |r| <= k < |s| ==> s[k] == t[k - lead];
    assert r != [] ==> r[0] == s[lead] && r[|r| - 1] == t[|t| - 1 - TrailingRun(t, p)];
    assert lead < |s| ==> t[0] == s[lead];
    r
  }

  /** String.strip. */
  function Strip(s: string): (r: string)
    ensures r == [] <==> IsBlank(s)
    ensures r != [] ==> !IsWhitespace(r[0]) && !IsWhitespace(r[|r| - 1])
  {
    TrimBy(s, IsWhitespace)
  }

  /** String.trim. */
  function Trim(s: string): (r: string)
    ensures r != [] ==> !IsTrimmable(r[0]) && !IsTrimmable(r[|r| - 1])
  {
    TrimBy(s, IsTrimmable)
  }

  /** Trimming twice trims nothing more. */
  lemma TrimByIdempotent(s: string, p: char -> bool)
    ensures TrimBy(TrimBy(s, p), p) == TrimBy(s, p)
  {
    var r := TrimBy(s, p);
    if r != [] {
      assert LeadingRun(r, p) == 0;
      assert TrailingRun(r, p) == 0;
      assert r[0..][..|r|] == r;
    }
  }

  /** Every character of the stripped text was a character of the text, so
      any property all the text's characters have survives stripping. */
  lemma StripKeeps(s: string, q: char -> bool)
    requires forall k :: 0 <= k < |s| ==> q(s[k])
    ensures forall k :: 0 <= k < |Strip(s)| ==> q(Strip(s)[k])
  {
    var r, n := Strip(s), LeadingRun(s, IsWhitespace);
    forall k | 0 <= k < |r|
      ensures q(r[k])
    {
      assert r[k] == s[n + k];
    }
  }

  /** String.endsWith. */
  predicate EndsWith(s: string, suffix: string) {
    |suffix| <= |s| && s[|s| - |suffix|..] == suffix
  }

  /** The Unicode tables and locale behaviour the pipeline reaches through
      the Java library; the model does not fix their contents. */
  datatype UnicodeData = UnicodeData(
    /** Normalizer.normalize(_, Normalizer.Form.NFKC) */
    nfkc: string -> string,
    /** membership in the regex class \p{C} (general category "other") */
    isOther: char -> bool,
    /** Character.toUpperCase on one code point */
    toUpperChar: char -> char,
    /** Character.toLowerCase on one code point */
    toLowerChar: char -> char,
    /** String.toLowerCase() in the JVM's default locale */
    toLowerCase: string -> string,
    /** String.toUpperCase(Locale.ROOT) */
    toUpperCaseRoot: string -> string
  )

  /** The per-character test of String.equalsIgnoreCase: equal, or equal
      after upper-casing, or equal after upper- then lower-casing. */
  predicate CharsEqualIgnoreCase(u: UnicodeData, a: char, b: char) {
    || a == b
    || u.toUpperChar(a) == u.toUpperChar(b)
    || u.toLowerChar(u.toUpperChar(a)) == u.toLowerChar(u.toUpperChar(b))
  }

  /** String.equalsIgnoreCase on a non-null argument. */
  predicate EqualsIgnoreCase(u: UnicodeData, s: string, t: string) {
    |s| == |t| && forall k :: 0 <= k < |s| ==> CharsEqualIgnoreCase(u, s[k], t[k])
  }

  /** The upper-case form of an ASCII lower-case letter. */
  function UpperAscii(c: char): (r: char)
    requires 'a' <= c <= 'z'
    ensures 'A' <= r <= 'Z'
  {
    (c as int - 32) as char
  }

  /** The case tables agree with ASCII on the ASCII letters: lower-case
      letters upper-case to their capitals, capitals stay as they are. */
  predicate AsciiCaseMapping(u: UnicodeData) {
    && (forall c :: 'a' <= c <= 'z' ==> u.toUpperChar(c) == UpperAscii(c))
    && (forall c :: 'A' <= c <= 'Z' ==> u.toUpperChar(c) == c)
  }

  /** Whether `c` lies outside the Basic Multilingual Plane, where Java
      stores it as a surrogate pair. */
  predicate IsSupplementary(c: char) {
    c > '\U{FFFF}'
  }

  /** String.length(): the number of UTF-16 code units. */
  function Utf16Length(s: string): nat {
    if s == [] then 0
    else (if IsSupplementary(s[0]) then 2 else 1) + Utf16Length(s[1..])
  }

  /** A string's UTF-16 length lies between its code-point count and twice
      that, and equals the count exactly when no character needs a
      surrogate pair. */
  lemma {:induction false} Utf16LengthBounds(s: string)
    ensures |s| <= Utf16Length(s) <= 2 * |s|
    ensures Utf16Length(s) == |s| <==> forall k :: 0 <= k < |s| ==> !IsSupplementary(s[k])
  {
    if s != [] {
      Utf16LengthBounds(s[1..]);
      assert forall k :: 1 <= k < |s| ==> s[k] == s[1..][k - 1];
    }
  }
}
