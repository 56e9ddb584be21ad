/** `strip_markdown_to_json`: pulls JSON text out of a Markdown code fence. */
module Utils {
  import opened Strings

  /** The opening fence that is removed; a bare "```" opening is not. */
  const JsonFence: string := "```json"

  /** The closing fence. */
  const Fence: string := "```"

  /**
   * Strips `text`, then removes one leading "```json" if present, then one
   * trailing "```" if present, then strips again.
   */
  function StripMarkdownToJson(text: string): (r: string)
    ensures Stripped(r)
    ensures |r| <= |text|
  {
    var t := Strip(text);
    var t1 := if StartsWith(t, JsonFence) then t[7..] else t;
    var t2 := if EndsWith(t1, Fence) then t1[..|t1| - 3] else t1;
    StripStripped(t2);
    Strip(t2)
  }

  /** Text with no fence at either end comes back just stripped. */
  lemma StripMarkdownPlain(text: string)
    requires !StartsWith(Strip(text), JsonFence) && !EndsWith(Strip(text), Fence)
    ensures StripMarkdownToJson(text) == Strip(text)
  {
    StripIdempotent(text);
  }

  /**
   * A fenced JSON block, with any whitespace around the fences, comes back as
   * its stripped body: fencing and then stripping is a round trip.
   */
  lemma StripMarkdownFenced(w1: string, body: string, w2: string)
    requires AllSpace(w1) && AllSpace(w2)
    ensures StripMarkdownToJson(w1 + JsonFence + body + Fence + w2) == Strip(body)
  {
    var fenced := JsonFence + body + Fence;
    assert w1 + JsonFence + body + Fence + w2 == w1 + fenced + w2;
    StripPadded(w1, fenced, w2);
    assert StartsWith(fenced, JsonFence);
    var t1 := fenced[7..];
    assert t1 == body + Fence;
    assert EndsWith(t1, Fence);
    assert t1[..|t1| - 3] == body;
  }

  /**
   * A text that starts with "```json" and ends in backquotes holds them after
   * the opening fence: the fence ends in 'n', so the two cannot overlap.
   */
  lemma FencesApart(s: string, p: string)
    requires StartsWith(s, JsonFence) && EndsWith(s, p)
    requires forall j | 0 <= j < |p| :: p[j] == '`'
    ensures |s| >= 7 + |p|
  {
    assert s[6] == 'n';
    forall j | |s| - |p| <= j < |s|
      ensures s[j] == '`'
    {
      assert s[j] == s[|s| - |p|..][j - (|s| - |p|)];
    }
  }

  /** A text ending in two fences ends in one, and still does with the last one cut off. */
  lemma DoubleFence(s: string)
    requires EndsWith(s, Fence + Fence)
    ensures EndsWith(s, Fence) && EndsWith(s[..|s| - 3], Fence)
  {
    var n := |s|;
    assert s[n - 3..] == s[n - 6..][3..];
    assert s[..n - 3][n - 6..] == s[n - 6..][..3];
  }

  /**
   * Only one "```json" is removed: a second one right behind it stays, whether
   * or not the text also ends in a fence.
   */
  lemma StripMarkdownOpeningOnce(text: string)
    requires StartsWith(Strip(text), JsonFence + JsonFence)
    ensures StartsWith(StripMarkdownToJson(text), JsonFence)
  {
    var t := Strip(text);
    assert t[..7] == JsonFence;
    var t1 := t[7..];
    assert t1[..7] == (JsonFence + JsonFence)[7..];
    if EndsWith(t1, Fence) {
      FencesApart(t1, Fence);
    }
    var t2 := if EndsWith(t1, Fence) then t1[..|t1| - 3] else t1;
    assert t2[..7] == t1[..7];
    StripKeepsPrefix(t2, JsonFence);
  }

  /**
   * Only one closing "```" is removed: one right before it stays, whether or
   * not the text also starts with "```json".
   */
  lemma StripMarkdownClosingOnce(text: string)
    requires EndsWith(Strip(text), Fence + Fence)
    ensures EndsWith(StripMarkdownToJson(text), Fence)
  {
    var t := Strip(text);
    if StartsWith(t, JsonFence) {
      FencesApart(t, Fence + Fence);
      assert t[7..][|t| - 13..] == t[|t| - 6..];
    }
    var t1 := if StartsWith(t, JsonFence) then t[7..] else t;
    DoubleFence(t1);
    StripKeepsFence(t1[..|t1| - 3]);
  }

  /** Stripping keeps a closing fence. */
  lemma StripKeepsFence(s: string)
    requires EndsWith(s, Fence)
    ensures EndsWith(Strip(s), Fence)
  {
    StripKeepsSuffix(s, Fence);
  }

  /**
   * A bare opening "```" (not "```json") is kept at the front, unless the
   * closing-fence removal eats into it.
   */
  lemma StripMarkdownKeepsBareFence(text: string)
    requires StartsWith(Strip(text), Fence) && !StartsWith(Strip(text), JsonFence)
    requires !EndsWith(Strip(text), Fence) || |Strip(text)| >= 6
    ensures StartsWith(StripMarkdownToJson(text), Fence)
  {
    var t := Strip(text);
    var t2 := if EndsWith(t, Fence) then t[..|t| - 3] else t;
    assert t2[..3] == Fence;
    assert TrimLeft(t2) == t2;
    TrimRightKeeps(t2, 2);
    TrimRightShape(t2);
    assert TrimRight(t2)[..3] == t2[..3];
  }
}
