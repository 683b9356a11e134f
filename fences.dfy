/**
 * Removal of the Markdown code fence a language model tends to wrap its JSON reply in
 * (api/evaluate.js:120-124): two anchored leading replaces, one anchored trailing replace,
 * then `trim`. None of the regular expressions carries the `g` or the `m` flag, so each
 * replace fires at most once, `^` is the start of the whole string and `$` its very end.
 */
module Fences {
  import opened JsText

  const Fence: string := "```"
  const JsonFence: string := "```json"

  /** The regular expression `^p\s*` matches the first `n` characters of `s`. */
  predicate LeadingMatch(s: string, p: string, n: int) {
    StartsWith(s, p) && |p| <= n <= |s| && AllWhitespace(s[|p|..n])
  }

  /** The regular expression `\s*p$` matches `s` from index `i` to its end. */
  predicate TrailingMatch(s: string, p: string, i: int) {
    EndsWith(s, p) && 0 <= i <= |s| - |p| && AllWhitespace(s[i..|s| - |p|])
  }

  /** `s.replace(`^p\s*`, '')`: without a match `s` is unchanged; with one, the match removed is
      the longest one, as the greedy `\s*` makes it. */
  function ReplaceLeading(s: string, p: string): (r: string)
    ensures |r| <= |s| && r == s[|s| - |r|..]
    ensures !StartsWith(s, p) ==> r == s
    ensures StartsWith(s, p) ==> LeadingMatch(s, p, |s| - |r|)
    ensures StartsWith(s, p) ==> forall n :: |s| - |r| < n <= |s| ==> !LeadingMatch(s, p, n)
  {
    if StartsWith(s, p) then
      var t := s[|p|..];
      var r := TrimStart(t);
      var m := |s| - |r|;
      assert s[|p|..m] == t[..|t| - |r|];
      assert forall n :: m < n <= |s| ==> !LeadingMatch(s, p, n) by {
        forall n | m < n <= |s|
          ensures !LeadingMatch(s, p, n)
        {
          assert s[|p|..n][m - |p|] == s[m] == r[0];
        }
      }
      r
    else
      s
  }

  /** `s.replace(`\s*p$`, '')`: without a match `s` is unchanged; with one, the match removed is
      the leftmost one, as a regular-expression search finds it. */
  function ReplaceTrailing(s: string, p: string): (r: string)
    ensures |r| <= |s| && r == s[..|r|]
    ensures !EndsWith(s, p) ==> r == s
    ensures EndsWith(s, p) ==> TrailingMatch(s, p, |r|)
    ensures EndsWith(s, p) ==> forall i :: 0 <= i < |r| ==> !TrailingMatch(s, p, i)
  {
    if EndsWith(s, p) then
      var t := s[..|s| - |p|];
      var r := TrimEnd(t);
      assert s[|r|..|s| - |p|] == t[|r|..];
      assert forall i :: 0 <= i < |r| ==> !TrailingMatch(s, p, i) by {
        forall i | 0 <= i < |r|
          ensures !TrailingMatch(s, p, i)
        {
          assert s[i..|s| - |p|][|r| - 1 - i] == s[|r| - 1] == r[|r| - 1];
        }
      }
      r
    else
      s
  }

  /** The text handed to `JSON.parse`: the reply with its code fence removed and trimmed. */
  function StripFences(text: string): (r: string)
    ensures |r| <= |text|
    ensures IsTrimmed(r)
  {
    var a := ReplaceLeading(text, JsonFence);
    var b := ReplaceLeading(a, Fence);
    var c := ReplaceTrailing(b, Fence);
    Trim(c)
  }

  /** StripFences as the composition of its four steps, one intermediate result at a time. */
  lemma StripFencesSteps(text: string, a: string, b: string, c: string)
    requires ReplaceLeading(text, JsonFence) == a
    requires ReplaceLeading(a, Fence) == b
    requires ReplaceTrailing(b, Fence) == c
    ensures StripFences(text) == Trim(c)
  {
  }

  /** Text that is already trimmed and neither starts nor ends with a fence passes unchanged. */
  lemma StripFencesKeepsCleanText(text: string)
    requires IsTrimmed(text)
    requires !StartsWith(text, Fence) && !EndsWith(text, Fence)
    ensures StripFences(text) == text
  {
    NoFenceNoJsonFence(text);
  }

  /** A reply wrapped as "```json", white space, the content, white space and "```" yields the
      content, when the content is non-empty, trimmed and does not open with a backtick (JSON
      text opens with a brace, a bracket, a quote, a digit, a minus or a letter). */
  lemma StripFencesUnwrapsJsonFence(content: string, w1: string, w2: string)
    requires IsTrimmed(content) && content != [] && content[0] != '`'
    requires AllWhitespace(w1) && AllWhitespace(w2)
    ensures StripFences(JsonFence + w1 + (content + w2 + Fence)) == content
  {
    var a := content + w2 + Fence;
    assert a[0] == content[0];
    ReplaceLeadingSkips(JsonFence, w1, a);
    NoBacktickNoFence(a);
    ReplaceTrailingSkips(content, w2, Fence);
    StripFencesSteps(JsonFence + w1 + a, a, a, content);
  }

  /** The same for a bare "```" fence, followed by white space or, when the content does not
      open with the word "json", directly by the content. */
  lemma StripFencesUnwrapsBareFence(content: string, w1: string, w2: string)
    requires IsTrimmed(content) && content != [] && content[0] != '`'
    requires AllWhitespace(w1) && AllWhitespace(w2)
    requires w1 != [] || !StartsWith(content, "json")
    ensures StripFences(Fence + w1 + (content + w2 + Fence)) == content
  {
    var a := content + w2 + Fence;
    var text := Fence + w1 + a;
    if w1 != [] {
      NoJsonFenceAfterBareFence(w1, a);
    } else {
      assert text == Fence + a;
      NoJsonTagBeforeContent(content, w2);
    }
    assert a[0] == content[0];
    ReplaceLeadingSkips(Fence, w1, a);
    ReplaceTrailingSkips(content, w2, Fence);
    StripFencesSteps(text, text, a, content);
  }

  /** A bare fence directly followed by content that does not open with "json", then white
      space and a fence, is not the tagged fence: after "```" comes either a character of the
      content that differs from "json", or white space or a backtick, which no letter is. */
  lemma NoJsonTagBeforeContent(content: string, w: string)
    requires !StartsWith(content, "json") && AllWhitespace(w)
    ensures !StartsWith(Fence + (content + w + Fence), JsonFence)
  {
    var a := content + w + Fence;
    var s := Fence + a;
    if |s| >= |JsonFence| {
      var j: int;
      if |content| < 4 {
        j := |content|;
        assert a[j] == (w + Fence)[0];
      } else {
        assert content[..4] != "json";
        j :| 0 <= j < 4 && content[..4][j] != "json"[j];
        assert a[j] == content[j];
      }
      assert s[|Fence| + j] == a[j];
      assert s[..|JsonFence|][|Fence| + j] != JsonFence[|Fence| + j];
    }
  }

  /** `$` matches only at the very end: a closing fence followed by white space (a final
      newline, say) is not removed; only the white space is trimmed, and the fence reaches
      `JSON.parse`. */
  lemma StripFencesKeepsFenceBeforeTrailingWhitespace(content: string, w1: string, w2: string)
    requires IsTrimmed(content) && content != [] && content[0] != '`'
    requires AllWhitespace(w1) && AllWhitespace(w2) && w2 != []
    ensures StripFences(JsonFence + w1 + (content + Fence + w2)) == content + Fence
  {
    var a := content + Fence + w2;
    TrimKeepsClosingFence(content, w2);
    ReplaceLeadingSkips(JsonFence, w1, a);
    NoBacktickNoFence(a);
    StripFencesSteps(JsonFence + w1 + a, a, a, a);
  }

  /** Content, a closing fence and white space: the first character is the content's, the last
      is white space, and trimming keeps the fence. */
  lemma TrimKeepsClosingFence(content: string, w: string)
    requires IsTrimmed(content) && content != []
    requires AllWhitespace(w) && w != []
    ensures var a := content + Fence + w;
      a[0] == content[0] && IsWhitespace(a[|a| - 1]) && Trim(a) == content + Fence
  {
    var kept := content + Fence;
    var a := kept + w;
    assert a[0] == content[0] && a[|a| - 1] == w[|w| - 1];
    assert kept[0] == content[0] && kept[|kept| - 1] == '`';
    TrimDropsTrailingWhitespace(kept, w);
  }

  /** Each replace fires once: of two leading bare fences only the first is removed. */
  lemma StripFencesRemovesOneLeadingFence(w: string, content: string)
    requires AllWhitespace(w) && w != []
    requires IsTrimmed(content) && content != [] && content[|content| - 1] != '`'
    ensures StripFences(Fence + w + (Fence + content)) == Fence + content
  {
    var kept := Fence + content;
    var text := Fence + w + kept;
    assert kept[0] == '`' && kept[|kept| - 1] == content[|content| - 1];
    NoJsonFenceAfterBareFence(w, kept);
    ReplaceLeadingSkips(Fence, w, kept);
    NoBacktickNoFence(kept);
    StripFencesSteps(text, text, kept, kept);
  }

  /** "```json" opens with "```", so text without a leading fence has no leading tagged fence. */
  lemma NoFenceNoJsonFence(s: string)
    requires !StartsWith(s, Fence)
    ensures !StartsWith(s, JsonFence)
  {
    if |s| >= |JsonFence| {
      assert s[..|Fence|] == s[..|JsonFence|][..|Fence|];
      assert JsonFence[..|Fence|] == Fence;
    }
  }

  /** A bare fence followed by white space is not the tagged fence. */
  lemma NoJsonFenceAfterBareFence(w: string, t: string)
    requires AllWhitespace(w) && w != []
    ensures !StartsWith(Fence + w + t, JsonFence)
  {
    var s := Fence + w + t;
    assert s[|Fence|] == w[0];
    if |s| >= |JsonFence| {
      assert s[..|JsonFence|][|Fence|] == w[0];
    }
  }

  /** A fence is made of backticks: text whose first (last) character is another one does not
      start (end) with a fence. */
  lemma NoBacktickNoFence(s: string)
    requires s != []
    ensures s[0] != '`' ==> !StartsWith(s, Fence)
    ensures s[|s| - 1] != '`' ==> !EndsWith(s, Fence)
  {
    if |s| >= |Fence| {
      assert s[..|Fence|][0] == s[0];
      assert s[|s| - |Fence|..][|Fence| - 1] == s[|s| - 1];
    }
  }

  /** Removing a leading match of `^p\s*` from the pattern, white space and text that does not
      start with white space leaves exactly that text. */
  lemma ReplaceLeadingSkips(p: string, w: string, t: string)
    requires AllWhitespace(w)
    requires t == [] || !IsWhitespace(t[0])
    ensures ReplaceLeading(p + w + t, p) == t
  {
    var s := p + w + t;
    assert s[..|p|] == p;
    assert s[|p|..] == w + t;
    TrimStartSkips(w, t);
  }

  /** Removing a trailing match of `\s*p$` from text that does not end with white space,
      white space and the pattern leaves exactly that text. */
  lemma ReplaceTrailingSkips(t: string, w: string, p: string)
    requires AllWhitespace(w)
    requires t == [] || !IsWhitespace(t[|t| - 1])
    ensures ReplaceTrailing(t + w + p, p) == t
  {
    var s := t + w + p;
    assert s[|s| - |p|..] == p;
    assert s[..|s| - |p|] == t + w;
    TrimEndSkips(t, w);
  }

  /** Trimming trimmed text followed by white space leaves exactly that text. */
  lemma TrimDropsTrailingWhitespace(t: string, w: string)
    requires IsTrimmed(t) && AllWhitespace(w)
    ensures Trim(t + w) == t
  {
    if t == [] {
      assert t + w == w;
    } else {
      TrimStartSkips([], t + w);
      assert [] + (t + w) == t + w;
      TrimEndSkips(t, w);
    }
  }
}
