/**
 * The pieces of ECMAScript string behaviour that the evaluation handler relies on:
 * the white-space class shared by the regular-expression escape `\s` and by
 * `String.prototype.trim`, prefix and suffix tests, and trimming.
 */
module JsText {

  /** The characters the regular-expression class `\s` and `String.prototype.trim` treat as
      white space (ECMAScript's WhiteSpace and LineTerminator productions): in ASCII, tab, line
      feed, vertical tab, form feed, carriage return and space; above it, no-break space, the
      Unicode space separators, line and paragraph separator, and the byte-order mark. */
  predicate IsWhitespace(c: char) {
    var n := c as int;
    if n < 0x80 then n == 0x20 || 0x09 <= n <= 0x0D else IsNonAsciiWhitespace(n)
  }

  predicate IsNonAsciiWhitespace(n: int) {
    n == 0xA0 || n == 0x1680 || 0x2000 <= n <= 0x200A || n == 0x2028 || n == 0x2029
    || n == 0x202F || n == 0x205F || n == 0x3000 || n == 0xFEFF
  }

  /** The same set written out character by character, as ECMAScript's tables list it. */
  const WhitespaceChars: set<char> := {
    '\t', '\n', '\U{0B}', '\U{0C}', '\r', ' ', '\U{A0}', '\U{1680}',
    '\U{2000}', '\U{2001}', '\U{2002}', '\U{2003}', '\U{2004}', '\U{2005}', '\U{2006}',
    '\U{2007}', '\U{2008}', '\U{2009}', '\U{200A}',
    '\U{2028}', '\U{2029}', '\U{202F}', '\U{205F}', '\U{3000}', '\U{FEFF}' }

  /** The code-point ranges of IsWhitespace are exactly the listed characters. */
  lemma WhitespaceIsListed(c: char)
    ensures IsWhitespace(c) <==> c in WhitespaceChars
  {
  }

  predicate AllWhitespace(s: string) {
    forall i :: 0 <= i < |s| ==> IsWhitespace(s[i])
  }

  predicate StartsWith(s: string, p: string) {
    |p| <= |s| && s[..|p|] == p
  }

  predicate EndsWith(s: string, p: string) {
    |p| <= |s| && s[|s| - |p|..] == p
  }

  /** No white space at either end. */
  predicate IsTrimmed(s: string) {
    |s| == 0 || (!IsWhitespace(s[0]) && !IsWhitespace(s[|s| - 1]))
  }

  /** `s` without its leading white-space run: a suffix of `s`, everything dropped is white space,
      and what is kept does not start with white space. */
  function TrimStart(s: string): (r: string)
    ensures |r| <= |s| && r == s[|s| - |r|..]
    ensures AllWhitespace(s[..|s| - |r|])
    ensures r == [] || !IsWhitespace(r[0])
  {
    if |s| > 0 && IsWhitespace(s[0]) then
      var r := TrimStart(s[1..]);
      assert s[..|s| - |r|] == [s[0]] + s[1..][..|s| - 1 - |r|];
      r
    else
      s
  }

  /** `s` without its trailing white-space run: a prefix of `s`, everything dropped is white space,
      and what is kept does not end with white space. */
  function TrimEnd(s: string): (r: string)
    ensures |r| <= |s| && r == s[..|r|]
    ensures AllWhitespace(s[|r|..])
    ensures r == [] || !IsWhitespace(r[|r| - 1])
  {
    if |s| > 0 && IsWhitespace(s[|s| - 1]) then
      var r := TrimEnd(s[..|s| - 1]);
      assert s[|r|..] == s[..|s| - 1][|r|..] + [s[|s| - 1]];
      r
    else
      s
  }

  /** `r` is the piece of `s` that starts at index `k`, with only white space before and
      after it. */
  predicate IsMiddle(s: string, k: int, r: string) {
    0 <= k && k + |r| <= |s| && r == s[k..k + |r|]
    && AllWhitespace(s[..k]) && AllWhitespace(s[k + |r|..])
  }

  /** `String.prototype.trim`: the white-space runs at both ends removed, nothing else. */
  function Trim(s: string): (r: string)
    ensures |r| <= |s|
    ensures IsTrimmed(r)
    ensures IsTrimmed(s) ==> r == s
    ensures IsMiddle(s, |s| - |TrimStart(s)|, r)
  {
    var t := TrimStart(s);
    var r := TrimEnd(t);
    TrimKeepsMiddle(s, t, r);
    TrimEndKeepsStart(t);
    TrimmedIsFixed(s);
    r
  }

  /** Removing a white-space prefix and then a white-space suffix keeps a contiguous middle
      piece, with white space on either side of it. */
  lemma TrimKeepsMiddle(s: string, t: string, r: string)
    requires |t| <= |s| && t == s[|s| - |t|..] && AllWhitespace(s[..|s| - |t|])
    requires |r| <= |t| && r == t[..|r|] && AllWhitespace(t[|r|..])
    ensures IsMiddle(s, |s| - |t|, r)
  {
    var k := |s| - |t|;
    assert s[k..k + |r|] == t[..|r|];
    assert s[k + |r|..] == t[|r|..];
  }

  /** Trimming the end of text that does not start with white space leaves trimmed text. */
  lemma TrimEndKeepsStart(t: string)
    requires t == [] || !IsWhitespace(t[0])
    ensures IsTrimmed(TrimEnd(t))
  {
    var r := TrimEnd(t);
    if r != [] {
      assert r[0] == t[0];
    }
  }

  /** Text with no white space at either end is its own trim. */
  lemma TrimmedIsFixed(s: string)
    ensures IsTrimmed(s) ==> TrimEnd(TrimStart(s)) == s
  {
    if IsTrimmed(s) {
      TrimStartSkips([], s);
      assert [] + s == s;
      TrimEndSkips(s, []);
      assert s + [] == s;
    }
  }

  /** Trimming the front of white space followed by text that does not start with white space
      yields exactly that text. */
  lemma {:induction false} TrimStartSkips(w: string, t: string)
    requires AllWhitespace(w)
    requires t == [] || !IsWhitespace(t[0])
    ensures TrimStart(w + t) == t
  {
    if w == [] {
      assert w + t == t;
    } else {
      assert (w + t)[0] == w[0];
      assert (w + t)[1..] == w[1..] + t;
      TrimStartSkips(w[1..], t);
    }
  }

  /** Trimming the end of text that does not end with white space, followed by white space,
      yields exactly that text. */
  lemma {:induction false} TrimEndSkips(t: string, w: string)
    requires AllWhitespace(w)
    requires t == [] || !IsWhitespace(t[|t| - 1])
    ensures TrimEnd(t + w) == t
  {
    if w == [] {
      assert t + w == t;
    } else {
      var w' := w[..|w| - 1];
      assert (t + w)[|t + w| - 1] == w[|w| - 1];
      assert (t + w)[..|t + w| - 1] == t + w';
      TrimEndSkips(t, w');
    }
  }
}
