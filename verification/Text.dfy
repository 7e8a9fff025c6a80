/** The functions of package strings that the text code relies on. */
module Text {
  import opened Common

  /** unicode.IsSpace. */
  predicate IsSpace(c: char) {
    || c == ' ' || '\t' <= c <= '\r' || c == '\U{85}' || c == '\U{A0}' || c == '\U{1680}'
    || '\U{2000}' <= c <= '\U{200A}' || c == '\U{2028}' || c == '\U{2029}' || c == '\U{202F}'
    || c == '\U{205F}' || c == '\U{3000}'
  }

  /** White space in ASCII: blank, tab, line feed, vertical tab, form feed and carriage return. */
  lemma AsciiSpace(c: char)
    requires c < '\U{80}'
    ensures IsSpace(c) <==> c in [' ', '\t', '\n', '\U{0B}', '\U{0C}', '\r']
  {
  }

  predicate Trimmed(s: string) {
    s == "" || (!IsSpace(s[0]) && !IsSpace(Last(s)))
  }

  /** The first position from i on that is not white space, or the end. */
  function SkipSpace(s: string, i: nat): (k: nat)
    requires i <= |s|
    ensures i <= k <= |s| && (forall n :: i <= n < k ==> IsSpace(s[n])) && (k < |s| ==> !IsSpace(s[k]))
    decreases |s| - i
  {
    if i < |s| && IsSpace(s[i]) then SkipSpace(s, i + 1) else i
  }

  /** The end of s[i..j] without the white space at its end. */
  function DropSpace(s: string, i: nat, j: nat): (k: nat)
    requires i <= j <= |s|
    ensures i <= k <= j && (forall n :: k <= n < j ==> IsSpace(s[n])) && (k > i ==> !IsSpace(s[k - 1]))
  {
    if i < j && IsSpace(s[j - 1]) then DropSpace(s, i, j - 1) else j
  }

  /** strings.TrimSpace. */
  function TrimSpace(s: string): (r: string)
    ensures Trimmed(r)
  {
    var i := SkipSpace(s, 0);
    s[i..DropSpace(s, i, |s|)]
  }

  /** Trimming cuts a contiguous part out of the text. */
  lemma TrimSpacePart(s: string) returns (i: nat, j: nat)
    ensures i <= j <= |s| && TrimSpace(s) == s[i..j]
  {
    i := SkipSpace(s, 0);
    j := DropSpace(s, i, |s|);
  }

  lemma TrimTrimmed(s: string)
    requires Trimmed(s)
    ensures TrimSpace(s) == s
  {
  }

  function IndexOf(s: string, c: char): (i: nat)
    ensures i <= |s|
    ensures c !in s[..i]
    ensures i < |s| ==> s[i] == c
  {
    if s == "" || s[0] == c then 0
    else
      var i := 1 + IndexOf(s[1..], c);
      assert s[..i] == [s[0]] + s[1..][..i - 1];
      i
  }

  lemma IndexOfUnique(s: string, c: char, i: nat)
    requires i <= |s| && c !in s[..i] && (i < |s| ==> s[i] == c)
    ensures IndexOf(s, c) == i
  {
    var j := IndexOf(s, c);
    assert forall k :: 0 <= k < i ==> s[k] == s[..i][k];
    assert forall k :: 0 <= k < j ==> s[k] == s[..j][k];
  }

  /** strings.Split on one character. */
  function Split(s: string, c: char): (parts: seq<string>)
    ensures parts != []
    decreases |s|
  {
    var i := IndexOf(s, c);
    if i == |s| then [s] else [s[..i]] + Split(s[i + 1..], c)
  }

  function Join(parts: seq<string>, c: char): string
    requires parts != []
  {
    if |parts| == 1 then parts[0] else parts[0] + [c] + Join(parts[1..], c)
  }

  lemma {:induction false} SplitJoin(parts: seq<string>, c: char)
    requires parts != [] && forall i :: 0 <= i < |parts| ==> c !in parts[i]
    ensures Split(Join(parts, c), c) == parts
  {
    var p := parts[0];
    if |parts| == 1 {
      assert p[..|p|] == p;
      IndexOfUnique(p, c, |p|);
    } else {
      var rest := Join(parts[1..], c);
      var s := p + [c] + rest;
      assert s[..|p|] == p && s[|p| + 1..] == rest;
      IndexOfUnique(s, c, |p|);
      SplitJoin(parts[1..], c);
    }
  }

  /** What trimming leaves: a part of the text that is trimmed, with nothing but white space around it. */
  ghost predicate IsTrimOf(r: string, s: string, i: int, j: int) {
    && 0 <= i <= j <= |s| && r == s[i..j] && Trimmed(r)
    && (forall k :: 0 <= k < i || j <= k < |s| ==> IsSpace(s[k]))
  }

  lemma TrimSpaceIsTrim(s: string) returns (i: nat, j: nat)
    ensures IsTrimOf(TrimSpace(s), s, i, j)
  {
    i := SkipSpace(s, 0);
    j := DropSpace(s, i, |s|);
  }

  /** The pieces between the separators, in order. */
  ghost predicate IsSplit(parts: seq<string>, s: string, c: char) {
    parts != [] && Join(parts, c) == s && forall i :: 0 <= i < |parts| ==> c !in parts[i]
  }

  lemma {:induction false} SplitIsSplit(s: string, c: char)
    ensures IsSplit(Split(s, c), s, c)
    decreases |s|
  {
    var i := IndexOf(s, c);
    if i < |s| {
      var rest := Split(s[i + 1..], c);
      SplitIsSplit(s[i + 1..], c);
      assert ([s[..i]] + rest)[1..] == rest;
      assert s == s[..i] + [c] + s[i + 1..];
    }
  }

  /** There is only one way to split. */
  lemma SplitUnique(parts: seq<string>, s: string, c: char)
    requires IsSplit(parts, s, c)
    ensures parts == Split(s, c)
  {
    SplitJoin(parts, c);
  }
}
