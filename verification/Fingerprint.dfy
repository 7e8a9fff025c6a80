/**
 The layout signature of a page (cpp/src/fingerprinter.cpp): normalise the text blocks, sort them
 top to bottom and left to right, and print class and position of each.
 */
module Fingerprint {
  import opened Common
  import opened Decimal
  import opened Text

  datatype Block = Block(text: string, x: real, y: real, w: real)

  /** Coordinates relative to the page, in hundredths. */
  datatype Norm = Norm(text: string, x: int, y: int, w: int)

  datatype Class = Header | Footer | Label | Value

  // ---------- Classification ----------

  predicate IsLower(c: char) {
    'a' <= c <= 'z'
  }

  predicate NoLower(text: string) {
    forall i :: 0 <= i < |text| ==> !IsLower(text[i])
  }

  function Classify(text: string, y: int): Class {
    if y < 15 then Header
    else if y > 90 then Footer
    else if text != "" && Last(text) == ':' then Label
    else if NoLower(text) && 1 < |text| < 30 then Label
    else Value
  }

  predicate IsAlpha(c: char) {
    'a' <= c <= 'z' || 'A' <= c <= 'Z'
  }

  predicate IsUpper(c: char) {
    'A' <= c <= 'Z'
  }

  method ClassifyBlock(text: string, y: int) returns (c: Class)
    ensures c == Classify(text, y)
    ensures c == Header <==> y < 15
    ensures c == Footer <==> y > 90
    ensures c == Label <==>
              && 15 <= y <= 90
              && ((text != "" && text[|text| - 1] == ':')
                  || (2 <= |text| <= 29 && forall i :: 0 <= i < |text| ==> !('a' <= text[i] <= 'z')))
  {
    if y < 15 {
      return Header;
    }
    if y > 90 {
      return Footer;
    }
    if text != "" && Last(text) == ':' {
      return Label;
    }
    var allUpper := true;
    for i := 0 to |text|
      invariant allUpper <==> NoLower(text[..i])
    {
      if IsAlpha(text[i]) && !IsUpper(text[i]) {
        allUpper := false;
        assert !NoLower(text[..i + 1]) by {
          assert IsLower(text[..i + 1][i]);
        }
        assert !NoLower(text) by {
          assert IsLower(text[i]);
        }
        break;
      }
    }
    assert text[..|text|] == text;
    if allUpper && |text| < 30 && |text| > 1 {
      return Label;
    }
    c := Value;
  }

  // ---------- Normalising and printing ----------

  /** std::round: halves away from zero. */
  function Round(v: real): (r: int)
    ensures v >= 0.0 ==> r as real - 0.5 <= v < r as real + 0.5
    ensures v < 0.0 ==> r as real - 0.5 < v <= r as real + 0.5
  {
    if v >= 0.0 then (v + 0.5).Floor else -((-v + 0.5).Floor)
  }

  function Normalise(b: Block, pageWidth: real, pageHeight: real): Norm
    requires pageWidth > 0.0 && pageHeight > 0.0
  {
    Norm(b.text, Round(b.x / pageWidth * 100.0), Round(b.y / pageHeight * 100.0), Round(b.w / pageWidth * 100.0))
  }

  function ClassName(c: Class): string {
    match c
    case Header => "header"
    case Footer => "footer"
    case Label => "label"
    case Value => "value"
  }

  /** Fixed notation with two decimals. */
  function Fixed(h: int): string {
    var n := if h < 0 then -h else h;
    (if h < 0 then "-" else "") + FormatNat(n / 100) + "." + FormatNat(n / 10 % 10) + FormatNat(n % 10)
  }

  function Segment(n: Norm): string {
    ClassName(Classify(n.text, n.y)) + ":" + Fixed(n.x) + ":" + Fixed(n.y) + ":" + Fixed(n.w)
  }

  function Segments(ns: seq<Norm>): seq<string> {
    seq(|ns|, i requires 0 <= i < |ns| => Segment(ns[i]))
  }

  function Signature(ns: seq<Norm>): string
    requires ns != []
  {
    Join(Segments(ns), '|')
  }

  // ---------- Sorting ----------

  /** The sort key (y, x). */
  predicate KeyLess(a: Norm, b: Norm) {
    a.y < b.y || (a.y == b.y && a.x < b.x)
  }

  predicate SameKey(a: Norm, b: Norm) {
    a.x == b.x && a.y == b.y
  }

  ghost predicate Ordered(ns: seq<Norm>) {
    forall i, j :: 0 <= i < j < |ns| ==> !KeyLess(ns[j], ns[i])
  }

  /** std::sort may return any ordered permutation: it is not stable. */
  ghost predicate IsArrangement(sorted: seq<Norm>, ns: seq<Norm>) {
    multiset(sorted) == multiset(ns) && Ordered(sorted)
  }

  function Insert(s: seq<Norm>, x: Norm): seq<Norm> {
    if s == [] || !KeyLess(x, Last(s)) then s + [x] else Insert(Front(s), x) + [Last(s)]
  }

  /** One of the arrangements. */
  function Sort(ns: seq<Norm>): seq<Norm> {
    if ns == [] then [] else Insert(Sort(Front(ns)), Last(ns))
  }

  lemma {:induction false} InsertKeepsMembers(s: seq<Norm>, x: Norm)
    ensures multiset(Insert(s, x)) == multiset(s) + multiset{x}
  {
    if s != [] && KeyLess(x, Last(s)) {
      assert s == Front(s) + [Last(s)];
      InsertKeepsMembers(Front(s), x);
    }
  }

  lemma {:induction false} InsertedFrom(s: seq<Norm>, x: Norm, i: nat)
    requires i < |Insert(s, x)|
    ensures Insert(s, x)[i] == x || Insert(s, x)[i] in s
  {
    if s != [] && KeyLess(x, Last(s)) && i < |Insert(Front(s), x)| {
      InsertedFrom(Front(s), x, i);
    }
  }

  lemma OrderedSnoc(s: seq<Norm>, x: Norm)
    requires Ordered(s) && forall i :: 0 <= i < |s| ==> !KeyLess(x, s[i])
    ensures Ordered(s + [x])
  {
  }

  lemma OrderedLast(s: seq<Norm>, y: Norm)
    requires s != [] && Ordered(s) && y in Front(s)
    ensures !KeyLess(Last(s), y)
  {
    var i :| 0 <= i < |Front(s)| && Front(s)[i] == y;
    assert s[i] == y;
  }

  lemma {:induction false} InsertKeepsOrder(s: seq<Norm>, x: Norm)
    requires Ordered(s)
    ensures Ordered(Insert(s, x))
  {
    if s == [] {
    } else if !KeyLess(x, Last(s)) {
      forall i | 0 <= i < |s|
        ensures !KeyLess(x, s[i])
      {
        assert i < |s| - 1 ==> !KeyLess(s[|s| - 1], s[i]);
      }
      OrderedSnoc(s, x);
    } else {
      var u := Insert(Front(s), x);
      InsertKeepsOrder(Front(s), x);
      forall i | 0 <= i < |u|
        ensures !KeyLess(Last(s), u[i])
      {
        InsertedFrom(Front(s), x, i);
        if u[i] != x {
          OrderedLast(s, u[i]);
        }
      }
      OrderedSnoc(u, Last(s));
    }
  }

  lemma {:induction false} SortArranges(ns: seq<Norm>)
    ensures IsArrangement(Sort(ns), ns)
  {
    if ns != [] {
      assert ns == Front(ns) + [Last(ns)];
      SortArranges(Front(ns));
      InsertKeepsOrder(Sort(Front(ns)), Last(ns));
      InsertKeepsMembers(Sort(Front(ns)), Last(ns));
    }
  }

  function NormaliseAll(blocks: seq<Block>, pageWidth: real, pageHeight: real): seq<Norm>
    requires pageWidth > 0.0 && pageHeight > 0.0
  {
    seq(|blocks|, i requires 0 <= i < |blocks| => Normalise(blocks[i], pageWidth, pageHeight))
  }

  method NormaliseBlocks(blocks: seq<Block>, pageWidth: real, pageHeight: real) returns (ns: seq<Norm>)
    requires pageWidth > 0.0 && pageHeight > 0.0
    ensures ns == NormaliseAll(blocks, pageWidth, pageHeight)
  {
    ns := [];
    for i := 0 to |blocks|
      invariant ns == NormaliseAll(blocks, pageWidth, pageHeight)[..i]
    {
      ns := ns + [Normalise(blocks[i], pageWidth, pageHeight)];
    }
  }

  /**
   The fingerprint hashes the signature of some arrangement of the normalised blocks; hash is
   SHA-256 in hexadecimal. Which arrangement std::sort picks among ties is not known.
   */
  method ComputeFingerprint(blocks: seq<Block>, pageWidth: real, pageHeight: real, hash: string -> string)
    returns (r: string, ghost sorted: seq<Norm>)
    ensures blocks == [] || pageWidth <= 0.0 || pageHeight <= 0.0 ==> r == ""
    ensures blocks != [] && pageWidth > 0.0 && pageHeight > 0.0 ==>
              && IsArrangement(sorted, NormaliseAll(blocks, pageWidth, pageHeight))
              && sorted != [] && r == hash(Signature(sorted))
    ensures forall i, j :: 0 <= i < j < |sorted| ==>
              sorted[i].y < sorted[j].y || (sorted[i].y == sorted[j].y && sorted[i].x <= sorted[j].x)
  {
    sorted := [];
    if blocks == [] || pageWidth <= 0.0 || pageHeight <= 0.0 {
      return "", [];
    }
    var normBlocks := NormaliseBlocks(blocks, pageWidth, pageHeight);
    SortArranges(normBlocks);
    assert |multiset(Sort(normBlocks))| == |multiset(normBlocks)|;
    normBlocks := Sort(normBlocks);
    sorted := normBlocks;
    var sig := PrintSignature(normBlocks);
    r := hash(sig);
  }

  method PrintSegment(n: Norm) returns (s: string)
    ensures s == Segment(n)
  {
    var c := ClassifyBlock(n.text, n.y);
    s := ClassName(c) + ":" + Fixed(n.x) + ":" + Fixed(n.y) + ":" + Fixed(n.w);
  }

  method PrintSignature(sorted: seq<Norm>) returns (sig: string)
    requires sorted != []
    ensures sig == Signature(sorted)
  {
    sig := "";
    for i := 0 to |sorted|
      invariant i > 0 ==> sig == Join(Segments(sorted[..i]), '|')
      invariant i == 0 ==> sig == ""
    {
      var segment := PrintSegment(sorted[i]);
      SegmentsSnoc(sorted, i);
      if i > 0 {
        JoinSnoc(Segments(sorted[..i]), segment, '|');
        sig := sig + "|";
      }
      sig := sig + segment;
    }
    assert sorted[..|sorted|] == sorted;
  }

  lemma SegmentsSnoc(ns: seq<Norm>, i: nat)
    requires i < |ns|
    ensures Segments(ns[..i + 1]) == Segments(ns[..i]) + [Segment(ns[i])]
    ensures i == 0 ==> Segments(ns[..i + 1]) == [Segment(ns[i])]
  {
  }

  lemma {:induction false} JoinSnoc(parts: seq<string>, p: string, c: char)
    requires parts != []
    ensures Join(parts + [p], c) == Join(parts, c) + [c] + p
  {
    if |parts| > 1 {
      assert (parts + [p])[1..] == parts[1..] + [p];
      JoinSnoc(parts[1..], p, c);
    } else {
      assert (parts + [p])[1..] == [p];
    }
  }

  // ---------- Independence of the input order ----------

  /** Blocks that share their rounded position print the same segment. */
  ghost predicate TiesAgree(ns: seq<Norm>) {
    forall i, j :: 0 <= i < |ns| && 0 <= j < |ns| && SameKey(ns[i], ns[j]) ==> Segment(ns[i]) == Segment(ns[j])
  }

  ghost predicate OrderIrrelevant(ns: seq<Norm>)
    requires ns != []
  {
    forall a, b :: IsArrangement(a, ns) && IsArrangement(b, ns) && a != [] && b != [] ==> Signature(a) == Signature(b)
  }

  /** How many elements come strictly before the key of k. */
  function Below(ns: seq<Norm>, k: Norm): nat {
    if ns == [] then 0 else Below(Front(ns), k) + if KeyLess(Last(ns), k) then 1 else 0
  }

  lemma {:induction false} BelowAppend(a: seq<Norm>, b: seq<Norm>, k: Norm)
    ensures Below(a + b, k) == Below(a, k) + Below(b, k)
    decreases |b|
  {
    if b == [] {
      assert a + b == a;
    } else {
      assert Front(a + b) == a + Front(b);
      BelowAppend(a, Front(b), k);
    }
  }

  lemma WithoutOne(b: seq<Norm>, j: nat, k: Norm)
    requires j < |b|
    ensures multiset(b) == multiset(b[..j] + b[j + 1..]) + multiset{b[j]}
    ensures Below(b, k) == Below(b[..j] + b[j + 1..], k) + if KeyLess(b[j], k) then 1 else 0
  {
    var before, after := b[..j], b[j + 1..];
    assert b == (before + [b[j]]) + after;
    assert Front(before + [b[j]]) == before;
    BelowAppend(before + [b[j]], after, k);
    BelowAppend(before, after, k);
  }

  /** The count depends only on which elements there are. */
  lemma {:induction false} BelowPermuted(a: seq<Norm>, b: seq<Norm>, k: Norm)
    requires multiset(a) == multiset(b)
    ensures Below(a, k) == Below(b, k)
    decreases |a|
  {
    if a == [] {
      assert |multiset(b)| == 0;
    } else {
      assert a == Front(a) + [Last(a)];
      assert Last(a) in multiset(b);
      var j :| 0 <= j < |b| && b[j] == Last(a);
      WithoutOne(b, j, k);
      assert multiset(Front(a)) == multiset(a) - multiset{Last(a)};
      BelowPermuted(Front(a), b[..j] + b[j + 1..], k);
    }
  }

  lemma {:induction false} BelowAll(ns: seq<Norm>, k: Norm)
    requires forall i :: 0 <= i < |ns| ==> KeyLess(ns[i], k)
    ensures Below(ns, k) == |ns|
  {
    if ns != [] {
      BelowAll(Front(ns), k);
    }
  }

  lemma {:induction false} BelowNone(ns: seq<Norm>, k: Norm)
    requires forall i :: 0 <= i < |ns| ==> !KeyLess(ns[i], k)
    ensures Below(ns, k) == 0
  {
    if ns != [] {
      BelowNone(Front(ns), k);
    }
  }

  /** With a smaller key at position i, the first i + 1 elements are below k. */
  lemma BelowFromHere(a: seq<Norm>, i: nat, k: Norm)
    requires Ordered(a) && i < |a| && KeyLess(a[i], k)
    ensures Below(a, k) > i
  {
    var low, high := a[..i + 1], a[i + 1..];
    assert a == low + high;
    BelowAppend(low, high, k);
    forall j | 0 <= j < |low|
      ensures KeyLess(low[j], k)
    {
      assert j < i ==> !KeyLess(a[i], a[j]);
    }
    BelowAll(low, k);
  }

  /** Only the first i elements can be below the key at position i. */
  lemma BelowUpToHere(b: seq<Norm>, i: nat)
    requires Ordered(b) && i < |b|
    ensures Below(b, b[i]) <= i
  {
    var low, high := b[..i], b[i..];
    assert b == low + high;
    BelowAppend(low, high, b[i]);
    forall j | 0 <= j < |high|
      ensures !KeyLess(high[j], b[i])
    {
      assert j > 0 ==> !KeyLess(b[i + j], b[i]);
    }
    BelowNone(high, b[i]);
    BelowAtMost(low, b[i]);
  }

  /** If equally many elements lie below each key, no position holds a strictly smaller key. */
  lemma NotBelow(a: seq<Norm>, b: seq<Norm>, i: nat)
    requires Ordered(a) && Ordered(b) && i < |a| == |b|
    requires Below(a, b[i]) == Below(b, b[i])
    ensures !KeyLess(a[i], b[i])
  {
    BelowUpToHere(b, i);
    if KeyLess(a[i], b[i]) {
      BelowFromHere(a, i, b[i]);
    }
  }

  lemma {:induction false} BelowAtMost(ns: seq<Norm>, k: Norm)
    ensures Below(ns, k) <= |ns|
  {
    if ns != [] {
      BelowAtMost(Front(ns), k);
    }
  }

  lemma ArrangementMember(a: seq<Norm>, ns: seq<Norm>, i: nat) returns (j: nat)
    requires multiset(a) == multiset(ns) && i < |a|
    ensures j < |ns| && ns[j] == a[i]
  {
    assert a[i] in multiset(ns);
    j :| 0 <= j < |ns| && ns[j] == a[i];
  }

  /** The blocks agree, one by one, in their position and in what is printed of them. */
  ghost predicate PrintAlike(ns: seq<Norm>, ms: seq<Norm>) {
    |ns| == |ms| && forall i :: 0 <= i < |ns| ==> SameKey(ns[i], ms[i]) && Segment(ns[i]) == Segment(ms[i])
  }

  lemma {:induction false} BelowAlike(ns: seq<Norm>, ms: seq<Norm>, k: Norm)
    requires PrintAlike(ns, ms)
    ensures Below(ns, k) == Below(ms, k)
    decreases |ns|
  {
    if ns != [] {
      assert PrintAlike(Front(ns), Front(ms));
      BelowAlike(Front(ns), Front(ms), k);
    }
  }

  /** Whatever the sort does with the text, position i gets the same key. */
  lemma ArrangedKeys(ns: seq<Norm>, ms: seq<Norm>, a: seq<Norm>, b: seq<Norm>, i: nat)
    requires PrintAlike(ns, ms) && IsArrangement(a, ns) && IsArrangement(b, ms) && i < |a| == |b|
    ensures SameKey(a[i], b[i])
  {
    BelowPermuted(a, ns, b[i]);
    BelowPermuted(a, ns, a[i]);
    BelowPermuted(b, ms, b[i]);
    BelowPermuted(b, ms, a[i]);
    BelowAlike(ns, ms, b[i]);
    BelowAlike(ns, ms, a[i]);
    NotBelow(a, b, i);
    NotBelow(b, a, i);
  }

  lemma ArrangedSegment(ns: seq<Norm>, ms: seq<Norm>, a: seq<Norm>, b: seq<Norm>, i: nat)
    requires PrintAlike(ns, ms) && TiesAgree(ns) && IsArrangement(a, ns) && IsArrangement(b, ms) && i < |a| == |b|
    ensures Segment(a[i]) == Segment(b[i])
  {
    ArrangedKeys(ns, ms, a, b, i);
    var j := ArrangementMember(a, ns, i);
    var k := ArrangementMember(b, ms, i);
    assert SameKey(ns[k], ms[k]) && SameKey(ns[j], ns[k]);
  }

  lemma ArrangementLength(a: seq<Norm>, ns: seq<Norm>)
    requires IsArrangement(a, ns)
    ensures |a| == |ns|
  {
    assert |multiset(a)| == |a| && |multiset(ns)| == |ns|;
  }

  /** Lists that print alike, sorted separately, have the same segments when ties agree. */
  lemma AlikeSameSegments(ns: seq<Norm>, ms: seq<Norm>, a: seq<Norm>, b: seq<Norm>)
    requires PrintAlike(ns, ms) && TiesAgree(ns) && IsArrangement(a, ns) && IsArrangement(b, ms)
    ensures |a| == |b| == |ns| && Segments(a) == Segments(b)
  {
    ArrangementLength(a, ns);
    ArrangementLength(b, ms);
    forall i | 0 <= i < |a|
      ensures Segment(a[i]) == Segment(b[i])
    {
      ArrangedSegment(ns, ms, a, b, i);
    }
  }

  /** Two lists of blocks with the same members have the same signature when ties agree. */
  lemma SignatureIgnoresBlockOrder(ns: seq<Norm>, ms: seq<Norm>, a: seq<Norm>, b: seq<Norm>)
    requires ns != [] && multiset(ns) == multiset(ms) && TiesAgree(ns)
    requires IsArrangement(a, ns) && IsArrangement(b, ms)
    ensures a != [] && b != [] && Signature(a) == Signature(b)
  {
    AlikeSameSegments(ns, ns, a, b);
  }

  lemma NormaliseWithoutOne(bs: seq<Block>, j: nat, rest: seq<Block>, pageWidth: real, pageHeight: real)
    requires pageWidth > 0.0 && pageHeight > 0.0 && j < |bs| && rest == bs[..j] + bs[j + 1..]
    ensures multiset(bs) == multiset(rest) + multiset{bs[j]}
    ensures multiset(NormaliseAll(bs, pageWidth, pageHeight)) ==
            multiset(NormaliseAll(rest, pageWidth, pageHeight)) + multiset{Normalise(bs[j], pageWidth, pageHeight)}
  {
    var before, after := bs[..j], bs[j + 1..];
    assert bs == (before + [bs[j]]) + after;
    NormaliseAppend(before, after, pageWidth, pageHeight);
    NormaliseAppend(before, [bs[j]], pageWidth, pageHeight);
    NormaliseAppend(before + [bs[j]], after, pageWidth, pageHeight);
    assert NormaliseAll([bs[j]], pageWidth, pageHeight) == [Normalise(bs[j], pageWidth, pageHeight)];
  }

  lemma {:induction false} NormalisePermuted(bs: seq<Block>, cs: seq<Block>, pageWidth: real, pageHeight: real)
    requires pageWidth > 0.0 && pageHeight > 0.0 && multiset(bs) == multiset(cs)
    ensures multiset(NormaliseAll(bs, pageWidth, pageHeight)) == multiset(NormaliseAll(cs, pageWidth, pageHeight))
    decreases |bs|
  {
    if bs == [] {
      assert |multiset(cs)| == 0;
    } else {
      var n := |bs| - 1;
      assert Front(bs) == bs[..n] + bs[n + 1..];
      NormaliseWithoutOne(bs, n, Front(bs), pageWidth, pageHeight);
      assert bs[n] in multiset(cs);
      var j :| 0 <= j < |cs| && cs[j] == bs[n];
      var rest := cs[..j] + cs[j + 1..];
      NormaliseWithoutOne(cs, j, rest, pageWidth, pageHeight);
      assert multiset(Front(bs)) == multiset(bs) - multiset{bs[n]} == multiset(rest);
      NormalisePermuted(Front(bs), rest, pageWidth, pageHeight);
    }
  }

  lemma NormaliseAppend(bs: seq<Block>, cs: seq<Block>, pageWidth: real, pageHeight: real)
    requires pageWidth > 0.0 && pageHeight > 0.0
    ensures NormaliseAll(bs + cs, pageWidth, pageHeight) ==
            NormaliseAll(bs, pageWidth, pageHeight) + NormaliseAll(cs, pageWidth, pageHeight)
  {
  }

  /** No two blocks share their rounded position. */
  ghost predicate DistinctPositions(ns: seq<Norm>) {
    forall i, j :: 0 <= i < j < |ns| ==> !SameKey(ns[i], ns[j])
  }

  lemma DistinctTiesAgree(ns: seq<Norm>)
    requires DistinctPositions(ns)
    ensures TiesAgree(ns)
  {
    assert forall i, j :: 0 <= i < |ns| && 0 <= j < |ns| && SameKey(ns[i], ns[j]) ==> SameKey(ns[j], ns[i]);
  }

  /** Reordering the blocks of a page leaves its signature alone when no two rounded positions coincide. */
  lemma PageOrderIrrelevant(bs: seq<Block>, cs: seq<Block>, pageWidth: real, pageHeight: real,
                            a: seq<Norm>, b: seq<Norm>)
    requires bs != [] && pageWidth > 0.0 && pageHeight > 0.0 && multiset(bs) == multiset(cs)
    requires DistinctPositions(NormaliseAll(bs, pageWidth, pageHeight))
    requires IsArrangement(a, NormaliseAll(bs, pageWidth, pageHeight))
    requires IsArrangement(b, NormaliseAll(cs, pageWidth, pageHeight))
    ensures a != [] && b != [] && Signature(a) == Signature(b)
  {
    var ns, ms := NormaliseAll(bs, pageWidth, pageHeight), NormaliseAll(cs, pageWidth, pageHeight);
    NormalisePermuted(bs, cs, pageWidth, pageHeight);
    DistinctTiesAgree(ns);
    SignatureIgnoresBlockOrder(ns, ms, a, b);
  }

  // ---------- Ties that print differently do matter ----------

  lemma FixedPlain(h: int)
    ensures '|' !in Fixed(h)
  {
    var n := if h < 0 then -h else h;
    assert AllDigits(FormatNat(n / 100)) && AllDigits(FormatNat(n / 10 % 10)) && AllDigits(FormatNat(n % 10));
  }

  lemma SegmentPlain(n: Norm)
    ensures '|' !in Segment(n)
  {
    FixedPlain(n.x);
    FixedPlain(n.y);
    FixedPlain(n.w);
    assert '|' !in ClassName(Classify(n.text, n.y));
  }

  lemma SignatureDeterminesSegments(a: seq<Norm>, b: seq<Norm>)
    requires a != [] && b != []
    ensures Signature(a) == Signature(b) ==> Segments(a) == Segments(b)
  {
    forall n: Norm
      ensures '|' !in Segment(n)
    {
      SegmentPlain(n);
    }
    SplitJoin(Segments(a), '|');
    SplitJoin(Segments(b), '|');
  }

  /** Between two tied positions with different labels, two adjacent tied ones differ already. */
  lemma {:induction false} AdjacentTie(s: seq<Norm>, labels: seq<string>, i: nat, j: nat) returns (p: nat)
    requires Ordered(s) && |labels| == |s| && i < j < |s| && SameKey(s[i], s[j]) && labels[i] != labels[j]
    ensures p + 1 < |s| && SameKey(s[p], s[p + 1]) && labels[p] != labels[p + 1]
    decreases j - i
  {
    assert !KeyLess(s[i + 1], s[i]) && (i + 1 < j ==> !KeyLess(s[j], s[i + 1]));
    if labels[i] != labels[i + 1] {
      p := i;
    } else {
      p := AdjacentTie(s, labels, i + 1, j);
    }
  }

  ghost function Swapped(s: seq<Norm>, p: nat): seq<Norm>
    requires p + 1 < |s|
  {
    s[..p] + [s[p + 1], s[p]] + s[p + 2..]
  }

  lemma SwapKeepsMembers(s: seq<Norm>, p: nat)
    requires p + 1 < |s|
    ensures multiset(Swapped(s, p)) == multiset(s)
  {
    assert s == s[..p] + [s[p], s[p + 1]] + s[p + 2..];
  }

  lemma SameKeysOrdered(s: seq<Norm>, t: seq<Norm>)
    requires Ordered(s) && |t| == |s| && forall q :: 0 <= q < |s| ==> SameKey(t[q], s[q])
    ensures Ordered(t)
  {
  }

  lemma SwapTie(s: seq<Norm>, ns: seq<Norm>, p: nat)
    requires IsArrangement(s, ns) && p + 1 < |s| && SameKey(s[p], s[p + 1])
    ensures IsArrangement(Swapped(s, p), ns)
  {
    SwapKeepsMembers(s, p);
    SameKeysOrdered(s, Swapped(s, p));
  }

  lemma SwapMovesSegment(s: seq<Norm>, p: nat)
    requires p + 1 < |s|
    ensures Segments(Swapped(s, p))[p] == Segments(s)[p + 1]
  {
    assert Swapped(s, p)[p] == s[p + 1];
  }

  lemma EqualBlocksEqualSegments(a: seq<Norm>, ns: seq<Norm>)
    ensures forall q, r :: 0 <= q < |a| && 0 <= r < |ns| && a[q] == ns[r] ==> Segments(a)[q] == Segments(ns)[r]
  {
  }

  /** A tie with different labels among the blocks shows up side by side in an arrangement of them. */
  lemma TiesInArrangement(ns: seq<Norm>, a: seq<Norm>, labels: seq<string>, labels': seq<string>, i: nat, j: nat)
    returns (p: nat)
    requires |labels| == |ns| && |labels'| == |a|
    requires forall q, r :: 0 <= q < |a| && 0 <= r < |ns| && a[q] == ns[r] ==> labels'[q] == labels[r]
    requires i < |ns| && j < |ns| && SameKey(ns[i], ns[j]) && labels[i] != labels[j]
    requires IsArrangement(a, ns)
    ensures p + 1 < |a| && SameKey(a[p], a[p + 1]) && labels'[p] != labels'[p + 1]
  {
    var i' := ArrangementMember(ns, a, i);
    var j' := ArrangementMember(ns, a, j);
    if i' < j' {
      p := AdjacentTie(a, labels', i', j');
    } else {
      p := AdjacentTie(a, labels', j', i');
    }
  }

  /** Different printed ties: some two arrangements of the same blocks have different signatures. */
  lemma DisagreeingTies(ns: seq<Norm>, i: nat, j: nat) returns (a: seq<Norm>, b: seq<Norm>)
    requires i < |ns| && j < |ns| && SameKey(ns[i], ns[j]) && Segments(ns)[i] != Segments(ns)[j]
    ensures IsArrangement(a, ns) && IsArrangement(b, ns) && a != [] && b != [] && Signature(a) != Signature(b)
  {
    a := Sort(ns);
    SortArranges(ns);
    assert a != [] by {
      var _ := ArrangementMember(ns, a, i);
    }
    EqualBlocksEqualSegments(a, ns);
    var p := TiesInArrangement(ns, a, Segments(ns), Segments(a), i, j);
    SwapTie(a, ns, p);
    SwapMovesSegment(a, p);
    b := Swapped(a, p);
    if Signature(a) == Signature(b) {
      SignatureDeterminesSegments(a, b);
    }
  }

  /** The signature is a function of the set of blocks exactly when ties print alike. */
  lemma OrderIrrelevantIff(ns: seq<Norm>)
    requires ns != []
    ensures OrderIrrelevant(ns) <==> TiesAgree(ns)
  {
    if TiesAgree(ns) {
      forall a, b | IsArrangement(a, ns) && IsArrangement(b, ns) && a != [] && b != []
        ensures Signature(a) == Signature(b)
      {
        AlikeSameSegments(ns, ns, a, b);
      }
    }
    if OrderIrrelevant(ns) {
      forall i, j | 0 <= i < |ns| && 0 <= j < |ns| && SameKey(ns[i], ns[j])
        ensures Segment(ns[i]) == Segment(ns[j])
      {
        if Segments(ns)[i] != Segments(ns)[j] {
          var a, b := DisagreeingTies(ns, i, j);
        }
      }
    }
  }

  /** The blocks have, one by one, the same place and width, and texts of the same class. */
  ghost predicate SameUpToText(ns: seq<Norm>, ms: seq<Norm>) {
    |ns| == |ms| && forall i :: 0 <= i < |ns| ==>
      && SameKey(ns[i], ms[i]) && ns[i].w == ms[i].w
      && Classify(ns[i].text, ns[i].y) == Classify(ms[i].text, ms[i].y)
  }

  /** Text matters only through its class: sort included, the signature is the same. */
  lemma TextOnlyThroughClass(ns: seq<Norm>, ms: seq<Norm>, a: seq<Norm>, b: seq<Norm>)
    requires ns != [] && SameUpToText(ns, ms) && TiesAgree(ns)
    requires IsArrangement(a, ns) && IsArrangement(b, ms)
    ensures a != [] && b != [] && Signature(a) == Signature(b)
  {
    assert PrintAlike(ns, ms);
    AlikeSameSegments(ns, ms, a, b);
  }

  lemma NormaliseText(b: Block, c: Block, pageWidth: real, pageHeight: real)
    requires pageWidth > 0.0 && pageHeight > 0.0 && b.(text := "") == c.(text := "")
    ensures var n, m := Normalise(b, pageWidth, pageHeight), Normalise(c, pageWidth, pageHeight);
            && n.text == b.text && m.text == c.text && n.y == Round(b.y / pageHeight * 100.0)
            && n.(text := "") == m.(text := "")
  {
    assert b.x == b.(text := "").x == c.x;
    assert b.y == b.(text := "").y == c.y;
    assert b.w == b.(text := "").w == c.w;
  }

  lemma SameExceptText(ns: seq<Norm>, ms: seq<Norm>)
    requires |ns| == |ms|
    requires forall i :: 0 <= i < |ns| ==>
               && ns[i].(text := "") == ms[i].(text := "")
               && Classify(ns[i].text, ns[i].y) == Classify(ms[i].text, ms[i].y)
    ensures SameUpToText(ns, ms)
  {
    forall i | 0 <= i < |ns|
      ensures SameKey(ns[i], ms[i]) && ns[i].w == ms[i].w
    {
      var n, m := ns[i].(text := ""), ms[i].(text := "");
      assert n == m && n.x == ns[i].x && n.y == ns[i].y && n.w == ns[i].w;
    }
  }

  /** On pages: exchanging texts for others of the same class leaves the signature alone. */
  lemma PageTextOnlyThroughClass(bs: seq<Block>, cs: seq<Block>, pageWidth: real, pageHeight: real,
                                 a: seq<Norm>, b: seq<Norm>)
    requires bs != [] && |bs| == |cs| && pageWidth > 0.0 && pageHeight > 0.0
    requires forall i :: 0 <= i < |bs| ==>
               && bs[i].(text := "") == cs[i].(text := "")
               && Classify(bs[i].text, Round(bs[i].y / pageHeight * 100.0)) ==
                  Classify(cs[i].text, Round(cs[i].y / pageHeight * 100.0))
    requires TiesAgree(NormaliseAll(bs, pageWidth, pageHeight))
    requires IsArrangement(a, NormaliseAll(bs, pageWidth, pageHeight))
    requires IsArrangement(b, NormaliseAll(cs, pageWidth, pageHeight))
    ensures a != [] && b != [] && Signature(a) == Signature(b)
  {
    var ns, ms := NormaliseAll(bs, pageWidth, pageHeight), NormaliseAll(cs, pageWidth, pageHeight);
    forall i | 0 <= i < |bs|
      ensures ns[i].(text := "") == ms[i].(text := "")
      ensures Classify(ns[i].text, ns[i].y) == Classify(ms[i].text, ms[i].y)
    {
      NormaliseText(bs[i], cs[i], pageWidth, pageHeight);
    }
    SameExceptText(ns, ms);
    TextOnlyThroughClass(ns, ms, a, b);
  }

  // ---------- What the signature tells ----------

  function Cents(n: nat): string {
    FormatNat(n / 10 % 10) + FormatNat(n % 10)
  }

  lemma OneDigit(d: nat)
    requires d < 10
    ensures FormatNat(d) == ['0' + d as char]
  {
  }

  lemma TwoDigits(s: string)
    requires |s| == 2 && AllDigits(s)
    ensures PlaceValue(s) == 10 * (s[0] - '0') as nat + (s[1] - '0') as nat
  {
    var last := s[1..];
    assert last == [s[1]] && last[1..] == "" && PlaceValue("") == 0;
    assert Power(0) == 1 && Power(1) == 10;
    assert PlaceValue(last) == (s[1] - '0') as nat;
  }

  lemma CentsShape(n: nat)
    ensures |Cents(n)| == 2 && AllDigits(Cents(n)) && PlaceValue(Cents(n)) == n % 100
  {
    var tens, ones := n / 10 % 10, n % 10;
    OneDigit(tens);
    OneDigit(ones);
    TwoChars(tens, ones);
    Hundredths(n);
  }

  lemma TwoChars(tens: nat, ones: nat)
    requires tens < 10 && ones < 10
    ensures var s := ['0' + tens as char] + ['0' + ones as char]; AllDigits(s) && PlaceValue(s) == 10 * tens + ones
  {
    TwoDigits(['0' + tens as char] + ['0' + ones as char]);
  }

  lemma Hundredths(n: nat)
    ensures 10 * (n / 10 % 10) + n % 10 == n % 100
  {
    var q := n / 10;
    assert n == 10 * q + n % 10 && q == 10 * (q / 10) + q % 10;
    assert n == 100 * (q / 10) + (10 * (q % 10) + n % 10);
  }

  lemma FixedParts(h: int)
    ensures var n: nat := if h < 0 then -h else h;
            Fixed(h) == (if h < 0 then "-" else "") + (FormatNat(n / 100) + "." + Cents(n))
  {
    var n: nat := if h < 0 then -h else h;
    var sign, whole := if h < 0 then "-" else "", FormatNat(n / 100);
    var tens, ones := FormatNat(n / 10 % 10), FormatNat(n % 10);
    assert sign + whole + "." + tens + ones == sign + (whole + "." + (tens + ones));
  }

  /** Hundredths as a decimal numeral with two places. */
  lemma FixedShape(h: int) returns (sign: string, whole: string, cents: string)
    ensures Fixed(h) == sign + (whole + "." + cents) && sign == if h < 0 then "-" else ""
    ensures whole != "" && AllDigits(whole) && |cents| == 2 && AllDigits(cents)
    ensures 100 * PlaceValue(whole) + PlaceValue(cents) == if h < 0 then -h else h
  {
    var n: nat := if h < 0 then -h else h;
    sign, whole, cents := if h < 0 then "-" else "", FormatNat(n / 100), Cents(n);
    FixedParts(h);
    CentsShape(n);
    DigitsValueFormatNat(n / 100);
    DigitsValueByPlace(whole);
  }

  lemma FixedInjective(h: int, g: int)
    ensures Fixed(h) == Fixed(g) ==> h == g
  {
    if Fixed(h) == Fixed(g) {
      var sign, whole, cents := FixedShape(h);
      var sign', whole', cents' := FixedShape(g);
      assert IsDigit(whole[0]) && IsDigit(whole'[0]);
      assert Fixed(h)[0] == '-' <==> sign == "-";
      assert Fixed(g)[0] == '-' <==> sign' == "-";
      var s := whole + "." + cents;
      assert s == Fixed(h)[|sign|..] == Fixed(g)[|sign'|..] == whole' + "." + cents';
      DotAt(whole, cents);
      DotAt(whole', cents');
    }
  }

  lemma DotAt(whole: string, cents: string)
    requires AllDigits(whole)
    ensures var s := whole + "." + cents;
            IndexOf(s, '.') == |whole| && s[..|whole|] == whole && s[|whole| + 1..] == cents
  {
    var s := whole + "." + cents;
    assert s[..|whole|] == whole && s[|whole| + 1..] == cents;
    IndexOfUnique(s, '.', |whole|);
  }

  function Pieces(n: Norm): seq<string> {
    [ClassName(Classify(n.text, n.y)), Fixed(n.x), Fixed(n.y), Fixed(n.w)]
  }

  lemma FixedHasNoColon(h: int)
    ensures ':' !in Fixed(h)
  {
    var sign, whole, cents := FixedShape(h);
  }

  lemma SegmentPieces(n: Norm)
    ensures IsSplit(Pieces(n), Segment(n), ':')
  {
    var ps := Pieces(n);
    FixedHasNoColon(n.x);
    FixedHasNoColon(n.y);
    FixedHasNoColon(n.w);
    assert ps[1..] == [ps[1], ps[2], ps[3]] && ps[1..][1..] == [ps[2], ps[3]] && ps[1..][1..][1..] == [ps[3]];
    assert Join([ps[2], ps[3]], ':') == ps[2] + ":" + ps[3];
    JoinFour(ps);
  }

  lemma JoinFour(ps: seq<string>)
    requires |ps| == 4
    ensures Join(ps, ':') == ps[0] + ":" + ps[1] + ":" + ps[2] + ":" + ps[3]
  {
    var a, b, c := ps[1..], ps[1..][1..], ps[1..][1..][1..];
    assert a[0] == ps[1] && b[0] == ps[2] && c == [ps[3]];
    assert Join(c, ':') == ps[3];
    assert Join(b, ':') == ps[2] + [':'] + ps[3];
    assert Join(a, ':') == ps[1] + [':'] + (ps[2] + [':'] + ps[3]);
    var tail := ps[1] + [':'] + (ps[2] + [':'] + ps[3]);
    assert ps[0] + [':'] + tail == ps[0] + ":" + ps[1] + ":" + ps[2] + ":" + ps[3];
  }

  lemma SegmentInjective(n: Norm, m: Norm)
    ensures Segment(n) == Segment(m) ==>
              Classify(n.text, n.y) == Classify(m.text, m.y) && n.x == m.x && n.y == m.y && n.w == m.w
  {
    if Segment(n) == Segment(m) {
      SegmentPieces(n);
      SegmentPieces(m);
      SplitUnique(Pieces(n), Segment(n), ':');
      SplitUnique(Pieces(m), Segment(n), ':');
      assert Pieces(n)[0] == Pieces(m)[0] && Pieces(n)[1] == Pieces(m)[1];
      assert Pieces(n)[2] == Pieces(m)[2] && Pieces(n)[3] == Pieces(m)[3];
      FixedInjective(n.x, m.x);
      FixedInjective(n.y, m.y);
      FixedInjective(n.w, m.w);
    }
  }

  /** Two sorted lists have the same signature if and only if they agree in class, place and width throughout. */
  lemma SignatureTells(a: seq<Norm>, b: seq<Norm>)
    requires a != [] && b != []
    ensures Signature(a) == Signature(b) <==> SameUpToText(a, b)
  {
    if Signature(a) == Signature(b) {
      SignatureDeterminesSegments(a, b);
      assert |Segments(a)| == |a| && |Segments(b)| == |b|;
      forall i | 0 <= i < |a|
        ensures SameKey(a[i], b[i]) && a[i].w == b[i].w
        ensures Classify(a[i].text, a[i].y) == Classify(b[i].text, b[i].y)
      {
        assert Segments(a)[i] == Segments(b)[i];
        SegmentInjective(a[i], b[i]);
      }
    }
    if SameUpToText(a, b) {
      assert Segments(a) == Segments(b);
    }
  }

  lemma FixedExamples()
    ensures Fixed(5) == "0.05" && Fixed(120) == "1.20" && Fixed(-7) == "-0.07"
  {
    OneDigit(0);
    OneDigit(1);
    OneDigit(2);
    OneDigit(5);
    OneDigit(7);
  }

  /** How one block is printed: class, x, y and width. */
  lemma SegmentExample()
    ensures Segment(Norm("Invoice", 120, 5, 5)) == "header:1.20:0.05:0.05"
  {
    FixedExamples();
  }

  lemma ClassNames()
    ensures ClassName(Header) == "header" && ClassName(Footer) == "footer"
    ensures ClassName(Label) == "label" && ClassName(Value) == "value"
  {
  }

  lemma TwoSegments(n: Norm, m: Norm)
    ensures Segments([n, m]) == [Segment(n), Segment(m)]
  {
  }

  lemma JoinTwo(a: string, b: string, c: char)
    ensures Join([a, b], c) == a + [c] + b
  {
    assert [a, b][1..] == [b];
  }

  lemma SignatureExample(n: Norm, m: Norm)
    ensures Signature([n, m]) == Segment(n) + "|" + Segment(m)
  {
    TwoSegments(n, m);
    JoinTwo(Segment(n), Segment(m), '|');
  }

  /** Horizontal measures are relative to the page's width, vertical ones to its height, in hundredths. */
  lemma NormalisedAt(blocks: seq<Block>, pageWidth: real, pageHeight: real, i: nat)
    requires pageWidth > 0.0 && pageHeight > 0.0 && i < |blocks|
    ensures var b, n := blocks[i], NormaliseAll(blocks, pageWidth, pageHeight)[i];
            && n.text == b.text && n.x == Round(b.x / pageWidth * 100.0)
            && n.y == Round(b.y / pageHeight * 100.0) && n.w == Round(b.w / pageWidth * 100.0)
  {
  }
}
