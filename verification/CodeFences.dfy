/** Stripping markdown fences from a model's answer (internal/extraction/cleanup.go). */
module CodeFences {
  import opened Common
  import opened Text

  const FENCE := "```"

  predicate FenceAt(s: string, i: int) {
    0 <= i <= |s| - 3 && s[i] == '`' && s[i + 1] == '`' && s[i + 2] == '`'
  }

  ghost predicate NoFence(s: string) {
    forall i :: !FenceAt(s, i)
  }

  /** strings.Index of the fence, -1 when there is none. */
  function FirstFence(s: string): (i: int)
    ensures -1 <= i < |s|
    ensures i >= 0 ==> FenceAt(s, i)
    ensures forall j :: (i == -1 || j < i) ==> !FenceAt(s, j)
  {
    if |s| < 3 then -1
    else if FenceAt(s, 0) then 0
    else
      var i := FirstFence(s[1..]);
      assert forall j :: j > 0 ==> FenceAt(s, j) == FenceAt(s[1..], j - 1);
      if i == -1 then -1 else i + 1
  }

  lemma NoFenceInPart(s: string, a: int, b: int)
    requires 0 <= a <= b <= |s|
    requires forall j :: j <= b - 3 ==> !FenceAt(s, j)
    ensures NoFence(s[a..b])
  {
    forall i
      ensures !FenceAt(s[a..b], i)
    {
      assert !FenceAt(s, a + i) || a + i > b - 3;
    }
  }

  lemma NoFenceTrimmed(s: string)
    requires NoFence(s)
    ensures NoFence(TrimSpace(s))
  {
    var i, j := TrimSpacePart(s);
    NoFenceInPart(s, i, j);
  }

  function CutAtFence(s: string): string {
    var end := FirstFence(s);
    if end >= 0 then s[..end] else s
  }

  lemma CutHasNoFence(s: string)
    ensures NoFence(CutAtFence(s))
  {
    var end := FirstFence(s);
    if end >= 0 {
      NoFenceInPart(s, 0, end);
      assert s[0..end] == s[..end];
    }
  }

  /** Skip the rest of the line that holds the opening fence: the language tag. */
  function AfterTag(rest: string): string {
    var nl := IndexOf(rest, '\n');
    if nl < |rest| then rest[nl + 1..] else rest
  }

  function AfterOpening(s: string): string
    requires FirstFence(s) >= 0
  {
    AfterTag(s[FirstFence(s) + 3..])
  }

  predicate LooksLikeJson(s: string) {
    s != "" && (s[0] == '{' || s[0] == '[')
  }

  /** What is done to the trimmed answer. */
  function StripTrimmed(s: string): string {
    if s == "" || FirstFence(s) < 0 then s
    else if LooksLikeJson(s) then TrimSpace(CutAtFence(s))
    else TrimSpace(CutAtFence(AfterOpening(s)))
  }

  function StripCodeFences(input: string): string {
    StripTrimmed(TrimSpace(input))
  }

  /** Whatever goes in, the result is trimmed and contains no fence. */
  lemma StrippedIsClean(input: string)
    ensures Trimmed(StripCodeFences(input)) && NoFence(StripCodeFences(input))
  {
    var s := TrimSpace(input);
    if s == "" || FirstFence(s) < 0 {
      assert NoFence(s);
    } else {
      var kept := if LooksLikeJson(s) then s else AfterOpening(s);
      CutHasNoFence(kept);
      NoFenceTrimmed(CutAtFence(kept));
    }
  }

  lemma StrippedIsFixed(s: string)
    requires Trimmed(s) && NoFence(s)
    ensures StripCodeFences(s) == s
  {
    TrimTrimmed(s);
  }

  lemma StripIdempotent(input: string)
    ensures StripCodeFences(StripCodeFences(input)) == StripCodeFences(input)
  {
    StrippedIsClean(input);
    StrippedIsFixed(StripCodeFences(input));
  }

  // ---------- Recovering what was fenced ----------

  /** Text before the fence that does not itself look like JSON or run into the fence. */
  ghost predicate Preamble(pre: string) {
    pre == "" || (!IsSpace(pre[0]) && pre[0] != '{' && pre[0] != '[' && NoFence(pre) && Last(pre) != '`')
  }

  lemma FirstFenceAfter(pre: string, rest: string)
    requires NoFence(pre) && (pre == "" || Last(pre) != '`')
    ensures FirstFence(pre + FENCE + rest) == |pre|
  {
    var s := pre + FENCE + rest;
    assert FenceAt(s, |pre|);
    forall j | 0 <= j < |pre|
      ensures !FenceAt(s, j)
    {
      if j + 3 <= |pre| {
        assert FenceAt(s, j) == FenceAt(pre, j);
      } else {
        assert s[|pre| - 1] == Last(pre);
      }
    }
  }

  lemma TrimNewline(text: string)
    requires Trimmed(text)
    ensures TrimSpace(text + "\n") == text
  {
    var s := text + "\n";
    var i, n := SkipSpace(s, 0), |text|;
    assert s[n] == '\n' && s[..n] == text;
    if text == "" {
      assert i == 1;
    } else {
      assert !IsSpace(s[0]) && i == 0;
      assert !IsSpace(s[n - 1]) && DropSpace(s, 0, |s|) == n;
    }
  }

  lemma AfterTagLine(tag: string, tail: string)
    requires '\n' !in tag
    ensures AfterTag(tag + "\n" + tail) == tail
  {
    var rest := tag + "\n" + tail;
    assert rest[..|tag|] == tag && rest[|tag| + 1..] == tail;
    IndexOfUnique(rest, '\n', |tag|);
  }

  lemma NewlineAddsNoFence(text: string)
    requires NoFence(text)
    ensures NoFence(text + "\n")
  {
    forall j
      ensures !FenceAt(text + "\n", j)
    {
      assert FenceAt(text + "\n", j) ==> FenceAt(text, j);
    }
  }

  /** What is stripped from a text that starts with neither bracket and has a fence. */
  lemma StripFrom(s: string, tail: string)
    requires Trimmed(s) && s != "" && !LooksLikeJson(s)
    requires FirstFence(s) >= 0 && AfterOpening(s) == tail
    ensures StripCodeFences(s) == TrimSpace(CutAtFence(tail))
  {
    TrimTrimmed(s);
  }

  lemma LastOfConcat(a: string, b: string)
    requires b != ""
    ensures Last(a + b) == Last(b)
  {
  }

  lemma FencedTextTrimmed(pre: string, rest: string)
    requires Preamble(pre) && rest != "" && !IsSpace(Last(rest))
    ensures var s := pre + FENCE + rest; Trimmed(s) && s != "" && !LooksLikeJson(s)
  {
    var s := pre + FENCE + rest;
    assert s[0] == if pre == "" then '`' else pre[0];
    LastOfConcat(pre + FENCE, rest);
  }

  /** The text on its own lines, the closing fence, and whatever follows. */
  function Closing(text: string, post: string): string {
    (text + "\n") + FENCE + post
  }

  lemma ClosingStripped(text: string, post: string)
    requires Trimmed(text) && NoFence(text)
    requires post == "" || !IsSpace(Last(post))
    ensures var tail := Closing(text, post);
            && tail != "" && !IsSpace(Last(tail))
            && TrimSpace(CutAtFence(tail)) == text
  {
    var line := text + "\n";
    var tail := line + FENCE + post;
    if post == "" {
      assert tail == line + FENCE;
      LastOfConcat(line, FENCE);
    } else {
      LastOfConcat(line + FENCE, post);
    }
    NewlineAddsNoFence(text);
    FirstFenceAfter(line, post);
    assert tail[..|line|] == line;
    TrimNewline(text);
  }

  /**
   Any trimmed fence-free text comes back from its fenced form, whatever the language tag, with
   any such preamble before and any text after the closing fence.
   */
  lemma FencedTextRecovered(pre: string, tag: string, text: string, post: string)
    requires Preamble(pre) && '\n' !in tag
    requires Trimmed(text) && NoFence(text)
    requires post == "" || !IsSpace(Last(post))
    ensures StripCodeFences(pre + FENCE + (tag + "\n" + Closing(text, post))) == text
  {
    var tail := Closing(text, post);
    var rest := tag + "\n" + tail;
    ClosingStripped(text, post);
    LastOfConcat(tag + "\n", tail);
    FencedTextTrimmed(pre, rest);
    FirstFenceAfter(pre, rest);
    assert (pre + FENCE + rest)[|pre| + 3..] == rest;
    AfterTagLine(tag, tail);
    StripFrom(pre + FENCE + rest, tail);
  }

  lemma StripJson(s: string)
    requires Trimmed(s) && LooksLikeJson(s)
    ensures StripCodeFences(s) == TrimSpace(CutAtFence(s))
  {
    TrimTrimmed(s);
    if FirstFence(s) < 0 {
      assert CutAtFence(s) == s;
    }
  }

  lemma ClosingStart(text: string, post: string)
    requires text != ""
    ensures Closing(text, post) != "" && Closing(text, post)[0] == text[0]
  {
  }

  /** Text that starts like JSON is kept up to the first fence after it. */
  lemma LeadingJsonKept(text: string, post: string)
    requires Trimmed(text) && NoFence(text) && text != "" && (text[0] == '{' || text[0] == '[')
    requires post == "" || !IsSpace(Last(post))
    ensures StripCodeFences(Closing(text, post)) == text
  {
    ClosingStripped(text, post);
    ClosingStart(text, post);
    StripJson(Closing(text, post));
  }

  // ---------- White space around, no fence, and a fence that is not closed ----------

  /** White space around the answer does not matter. */
  lemma StripIgnoresSpace(input: string)
    ensures StripCodeFences(input) == StripCodeFences(TrimSpace(input))
  {
    TrimTrimmed(TrimSpace(input));
  }

  /** Without a fence the answer is only trimmed. */
  lemma UnfencedKept(input: string)
    requires NoFence(TrimSpace(input))
    ensures StripCodeFences(input) == TrimSpace(input)
  {
    StripIgnoresSpace(input);
    StrippedIsFixed(TrimSpace(input));
  }

  /** A fence that is never closed: everything after its line. */
  lemma UnclosedFenceRecovered(pre: string, tag: string, text: string)
    requires Preamble(pre) && '\n' !in tag
    requires Trimmed(text) && text != "" && NoFence(text)
    ensures StripCodeFences(pre + FENCE + (tag + "\n" + text)) == text
  {
    var rest := tag + "\n" + text;
    LastOfConcat(tag + "\n", text);
    FencedTextTrimmed(pre, rest);
    FirstFenceAfter(pre, rest);
    assert (pre + FENCE + rest)[|pre| + 3..] == rest;
    AfterTagLine(tag, text);
    StripFrom(pre + FENCE + rest, text);
    assert CutAtFence(text) == text;
    TrimTrimmed(text);
  }

  lemma FencedEnd(text: string, post: string)
    requires post == "" || !IsSpace(Last(post))
    ensures var rest := text + FENCE + post; rest != "" && !IsSpace(Last(rest))
  {
    if post == "" {
      assert text + FENCE + post == text + FENCE;
      LastOfConcat(text, FENCE);
    } else {
      LastOfConcat(text + FENCE, post);
    }
  }

  lemma OneLineRest(text: string, post: string)
    requires '\n' !in text && '\n' !in post
    ensures var rest := text + FENCE + post; AfterTag(rest) == rest
  {
    var rest := text + FENCE + post;
    assert '\n' !in rest && rest[..|rest|] == rest;
    IndexOfUnique(rest, '\n', |rest|);
  }

  lemma CutText(text: string, post: string)
    requires NoFence(text) && (text == "" || Last(text) != '`')
    ensures CutAtFence(text + FENCE + post) == text
  {
    FirstFenceAfter(text, post);
    assert (text + FENCE + post)[..|text|] == text;
  }

  /** Everything on one line: the text between the fences, tag included. */
  lemma InlineFence(pre: string, text: string, post: string)
    requires Preamble(pre) && '\n' !in text && NoFence(text) && (text == "" || Last(text) != '`')
    requires '\n' !in post && (post == "" || !IsSpace(Last(post)))
    ensures StripCodeFences(pre + FENCE + (text + FENCE + post)) == TrimSpace(text)
  {
    var rest := text + FENCE + post;
    FencedEnd(text, post);
    FencedTextTrimmed(pre, rest);
    FirstFenceAfter(pre, rest);
    assert (pre + FENCE + rest)[|pre| + 3..] == rest;
    OneLineRest(text, post);
    StripFrom(pre + FENCE + rest, rest);
    CutText(text, post);
  }
}
