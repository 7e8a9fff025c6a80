/**
 Which writes a flattening performs, and when the result depends on Go's map iteration order.
 */
module FlattenOrder {
  import opened Common
  import opened Decimal
  import opened JsonValues
  import opened Flatten

  // ---------- The writes of a walk are exactly the emitted entries ----------

  /** Entry (q, v) below the value x; an array element is not entered by a further index. */
  ghost predicate EmitsBelow(x: Json, q: Path, item: bool, v: Json) {
    && NoAdjacentIndices(q)
    && (q != [] && q[0].Index? ==> !item)
    && At(x, q) == Some(v)
    && !v.Obj?
  }

  ghost predicate WellWalked(w: Walk, item: bool) {
    if item then WalksItem(w) else WalksField(w)
  }

  ghost predicate WellVisited(vs: Visits, arr: bool) {
    if arr then WalksItems(vs) else WalksFields(vs)
  }

  ghost function Container(vs: Visits, arr: bool): Json {
    if arr then Arr(ItemsOf(vs)) else Obj(FieldsOf(vs))
  }

  lemma VisitedContainer(before: Visits, step: Step, child: Walk, arr: bool)
    requires WellVisited(Visit(before, step, child), arr)
    ensures forall q: Path :: q != [] && q[0] == step ==>
              At(Container(Visit(before, step, child), arr), q) == At(ValueOf(child), q[1..])
    ensures forall q: Path :: q != [] && q[0] != step ==>
              At(Container(Visit(before, step, child), arr), q) == At(Container(before, arr), q)
  {
  }

  /** An entry below the earlier children stays one when the newest is added. */
  lemma OlderEmits(before: Visits, step: Step, child: Walk, arr: bool, q: Path, v: Json)
    requires WellVisited(Visit(before, step, child), arr)
    requires q != [] && EmitsBelow(Container(before, arr), q, false, v)
    ensures EmitsBelow(Container(Visit(before, step, child), arr), q, false, v)
  {
    VisitedContainer(before, step, child, arr);
    assert q[0] != step;
  }

  /** An entry of the newest child is one of the container, one step further down. */
  lemma NewestEmits(before: Visits, step: Step, child: Walk, arr: bool, tail: Path, v: Json)
    requires WellVisited(Visit(before, step, child), arr)
    requires EmitsBelow(ValueOf(child), tail, arr, v)
    ensures EmitsBelow(Container(Visit(before, step, child), arr), [step] + tail, false, v)
  {
    var q := [step] + tail;
    VisitedContainer(before, step, child, arr);
    assert q[0] == step && q[1..] == tail;
    assert forall j :: 1 <= j < |q| ==> q[j] == tail[j - 1];
  }

  /** How a path is printed. */
  lemma PrintExample()
    ensures Print([Key("a"), Key("b"), Index(0), Key("c")]) == "a.b[0].c"
  {
    var p := [Key("a"), Key("b"), Index(0)];
    assert Front([Key("a")]) == [] && Front([Key("a"), Key("b")]) == [Key("a")];
    assert Print([Key("a")]) == "a" && Print([Key("a"), Key("b")]) == "a.b";
    assert FormatNat(0) == "0" && Front(p) == [Key("a"), Key("b")];
    assert Print(p) == "a.b[0]";
    assert Front([Key("a"), Key("b"), Index(0), Key("c")]) == p;
  }

  lemma PathAssociates(p: Path, step: Step, q: Path)
    ensures (p + [step]) + q == p + ([step] + q)
  {
  }

  lemma {:induction false} ValueWriteSound(p: Path, w: Walk, item: bool, i: nat) returns (q: Path)
    requires WellWalked(w, item)
    requires i < |ValueWrites(p, w)|
    ensures ValueWrites(p, w)[i].0 == p + q
    ensures EmitsBelow(ValueOf(w), q, item, ValueWrites(p, w)[i].1)
    decreases w
  {
    q := [];
    match w {
      case Atom(v) =>
      case ArrWalk(items) =>
        if i > 0 {
          q := VisitWriteSound(p, items, true, i - 1);
        }
      case ObjWalk(fields) =>
        q := VisitWriteSound(p, fields, false, i);
    }
  }

  lemma {:induction false} VisitWriteSound(p: Path, vs: Visits, arr: bool, i: nat) returns (q: Path)
    requires WellVisited(vs, arr)
    requires i < |VisitWrites(p, vs)|
    ensures q != []
    ensures VisitWrites(p, vs)[i].0 == p + q
    ensures EmitsBelow(Container(vs, arr), q, false, VisitWrites(p, vs)[i].1)
    decreases vs
  {
    var Visit(before, step, child) := vs;
    var n := |VisitWrites(p, before)|;
    if i < n {
      q := VisitWriteSound(p, before, arr, i);
      OlderEmits(before, step, child, arr, q, VisitWrites(p, vs)[i].1);
    } else {
      var tail := ValueWriteSound(p + [step], child, arr, i - n);
      q := [step] + tail;
      NewestEmits(before, step, child, arr, tail, VisitWrites(p, vs)[i].1);
      PathAssociates(p, step, tail);
    }
  }

  lemma {:induction false} ValueWriteComplete(p: Path, w: Walk, item: bool, q: Path, v: Json)
    requires WellWalked(w, item)
    requires EmitsBelow(ValueOf(w), q, item, v)
    ensures (p + q, v) in ValueWrites(p, w)
    decreases w
  {
    match w {
      case Atom(_) =>
        assert q == [];
        assert p + q == p;
      case ArrWalk(items) =>
        if q == [] {
          assert p + q == p;
          assert ValueWrites(p, w)[0] == (p, v);
        } else {
          VisitWriteComplete(p, items, true, q, v);
        }
      case ObjWalk(fields) =>
        VisitWriteComplete(p, fields, false, q, v);
    }
  }

  lemma {:induction false} VisitWriteComplete(p: Path, vs: Visits, arr: bool, q: Path, v: Json)
    requires WellVisited(vs, arr)
    requires q != [] && EmitsBelow(Container(vs, arr), q, false, v)
    ensures (p + q, v) in VisitWrites(p, vs)
    decreases vs
  {
    var Visit(before, step, child) := vs;
    VisitedContainer(before, step, child, arr);
    if q[0] == step {
      ValueWriteComplete(p + [step], child, arr, q[1..], v);
      PathSplit(p, q);
    } else {
      VisitWriteComplete(p, before, arr, q, v);
    }
  }

  lemma WritesAreEmissions(data: FlatMap, vs: Visits, p: Path, v: Json)
    requires Walks(data, vs)
    ensures (p, v) in VisitWrites([], vs) <==> Emits(data, p, v)
  {
    var ws := VisitWrites([], vs);
    assert [] + p == p;
    if Emits(data, p, v) {
      VisitWriteComplete([], vs, false, p, v);
    }
    if (p, v) in ws {
      var i :| 0 <= i < |ws| && ws[i] == (p, v);
      var q := VisitWriteSound([], vs, false, i);
      assert [] + q == q;
    }
  }

  // ---------- The last write to a key decides its value ----------

  lemma {:induction false} LastWriter(m: FlatMap, ws: seq<Write>, k: string) returns (i: int)
    ensures -1 <= i < |ws|
    ensures forall j :: i < j < |ws| ==> Print(ws[j].0) != k
    ensures i == -1 ==> (k in Apply(m, ws) <==> k in m) && (k in m ==> Apply(m, ws)[k] == m[k])
    ensures i >= 0 ==> Print(ws[i].0) == k && k in Apply(m, ws) && Apply(m, ws)[k] == ws[i].1
  {
    if ws == [] {
      i := -1;
    } else if Print(Last(ws).0) == k {
      i := |ws| - 1;
    } else {
      i := LastWriter(m, Front(ws), k);
    }
  }

  /** Whatever the iteration order: the keys are the printed emitted paths, the values are theirs. */
  lemma FlattenedEntries(data: FlatMap, r: FlatMap, k: string)
    requires IsFlattening(data, r)
    ensures k in r <==> exists p, v :: Emits(data, p, v) && Print(p) == k
    ensures k in r ==> exists p :: Emits(data, p, r[k]) && Print(p) == k
  {
    var vs :| Walks(data, vs) && r == Outcome(vs);
    var ws := VisitWrites([], vs);
    var i := LastWriter(map[], ws, k);
    if k in r {
      WritesAreEmissions(data, vs, ws[i].0, ws[i].1);
      assert ws[i] in ws;
    }
    if p, v :| Emits(data, p, v) && Print(p) == k {
      WritesAreEmissions(data, vs, p, v);
      var j :| 0 <= j < |ws| && ws[j] == (p, v);
    }
  }

  /** The key set never depends on the iteration order, even for ambiguous payloads. */
  lemma FlattenedKeysAgree(data: FlatMap, r: FlatMap, r': FlatMap)
    requires IsFlattening(data, r) && IsFlattening(data, r')
    ensures r.Keys == r'.Keys
  {
    forall k
      ensures k in r <==> k in r'
    {
      FlattenedEntries(data, r, k);
      FlattenedEntries(data, r', k);
    }
  }

  // ---------- Exactly when the result is independent of the order ----------

  /** No two entries print alike and hold different values. */
  ghost predicate NoClash(data: FlatMap) {
    forall p, v, q, u ::
      Emits(data, p, v) && Emits(data, q, u) && Print(p) == Print(q) ==> v == u
  }

  ghost predicate OrderIndependent(data: FlatMap) {
    forall r, r' :: IsFlattening(data, r) && IsFlattening(data, r') ==> r == r'
  }

  lemma NoClashAgree(data: FlatMap, r: FlatMap, r': FlatMap)
    requires NoClash(data)
    requires IsFlattening(data, r) && IsFlattening(data, r')
    ensures r == r'
  {
    FlattenedKeysAgree(data, r, r');
    forall k | k in r
      ensures r[k] == r'[k]
    {
      FlattenedEntries(data, r, k);
      FlattenedEntries(data, r', k);
    }
  }

  // The rest shows that any emitted entry can be made the last writer of its printed key.

  function Render(step: Step): string {
    match step
    case Key(k) => "." + k
    case Index(i) => "[" + FormatNat(i) + "]"
  }

  /** What the steps of q add to an already printed, non-empty prefix. */
  function Suffix(q: Path): string {
    if q == [] then "" else Render(q[0]) + Suffix(q[1..])
  }

  lemma ExtendIsRender(prefix: string, step: Step)
    requires prefix != "" || step.Index?
    ensures Extend(prefix, step) == prefix + Render(step)
    ensures Extend(prefix, step) != ""
  {
  }

  lemma ConcatAssociates(a: string, b: string, c: string)
    ensures (a + b) + c == a + (b + c)
  {
  }

  lemma PrintRendered(p: Path, step: Step)
    requires Print(p) != "" || step.Index?
    ensures Print(p + [step]) == Print(p) + Render(step)
    ensures Print(p + [step]) != ""
  {
    PrintSnoc(p, step);
    ExtendIsRender(Print(p), step);
  }

  lemma PathSplit(p: Path, q: Path)
    requires q != []
    ensures (p + [q[0]]) + q[1..] == p + q
  {
  }

  lemma {:induction false} PrintSuffix(p: Path, q: Path)
    requires Print(p) != "" || (q != [] ==> q[0].Index?)
    ensures Print(p + q) == Print(p) + Suffix(q)
    decreases |q|
  {
    if q == [] {
      assert p + q == p;
    } else {
      PathSplit(p, q);
      PrintRendered(p, q[0]);
      PrintSuffix(p + [q[0]], q[1..]);
      ConcatAssociates(Print(p), Render(q[0]), Suffix(q[1..]));
    }
  }

  /** Numerals followed by a bracket are prefix-free. */
  lemma NumeralsPrefixFree(i: nat, j: nat, s: string, t: string)
    requires FormatNat(i) + "]" + s == FormatNat(j) + "]" + t
    ensures i == j
  {
    var a, b := FormatNat(i), FormatNat(j);
    var x, y := a + "]" + s, b + "]" + t;
    assert x[|a|] == ']' && y[|b|] == ']';
    assert (forall n :: 0 <= n < |a| ==> x[n] == a[n]) && (forall n :: 0 <= n < |b| ==> y[n] == b[n]);
    assert |a| == |b|;
    assert x[..|a|] == a && y[..|b|] == b;
    DigitsValueFormatNat(i);
    DigitsValueFormatNat(j);
  }

  lemma BracketAssociates(d: string, s: string)
    ensures ("[" + d + "]") + s == "[" + (d + "]" + s)
  {
  }

  lemma PrintElement(p: Path, i: nat, q: Path)
    ensures Print(p + [Index(i)] + q) == Print(p) + ("[" + (FormatNat(i) + "]" + Suffix(q)))
  {
    var step := Index(i);
    var r := [step] + q;
    PathAssociates(p, step, q);
    assert r[0] == step && r[1..] == q;
    PrintSuffix(p, r);
    assert Suffix(r) == Render(step) + Suffix(q);
    BracketAssociates(FormatNat(i), Suffix(q));
  }

  lemma SameTail(a: string, s: string, t: string)
    requires a + ("[" + s) == a + ("[" + t)
    ensures s == t
  {
    assert s == (a + ("[" + s))[|a| + 1..];
    assert t == (a + ("[" + t))[|a| + 1..];
  }

  lemma ElementsPrintApart(p: Path, i: nat, j: nat, q: Path, r: Path)
    requires i != j
    ensures Print(p + [Index(i)] + q) != Print(p + [Index(j)] + r)
    ensures Print(p + [Index(i)] + q) != Print(p)
  {
    PrintElement(p, i, q);
    PrintElement(p, j, r);
    var a, s, t := Print(p), FormatNat(i) + "]" + Suffix(q), FormatNat(j) + "]" + Suffix(r);
    if a + ("[" + s) == a + ("[" + t) {
      SameTail(a, s, t);
      NumeralsPrefixFree(i, j, Suffix(q), Suffix(r));
    }
  }

  lemma {:induction false} SomeWalk(x: Json, item: bool) returns (w: Walk)
    ensures WellWalked(w, item) && ValueOf(w) == x
    decreases x, 1
  {
    match x {
      case Obj(f) =>
        var vs := SomeVisits(f);
        w := ObjWalk(vs);
      case Arr(items) =>
        if item {
          w := Atom(x);
        } else {
          var vs := SomeItemVisits(x, |items|);
          assert items[..|items|] == items;
          w := ArrWalk(vs);
        }
      case _ =>
        w := Atom(x);
    }
  }

  lemma {:induction false} SomeVisits(f: FlatMap) returns (vs: Visits)
    ensures Walks(f, vs)
    decreases Obj(f), 0
  {
    vs := SomeVisitsOf(f, f.Keys);
    assert (map k | k in f && k in f.Keys :: f[k]) == f;
  }

  lemma {:induction false} SomeVisitsOf(f: FlatMap, ks: set<string>) returns (vs: Visits)
    requires ks <= f.Keys
    ensures Walks(map k | k in f && k in ks :: f[k], vs)
    decreases Obj(f), 0, ks
  {
    if ks == {} {
      vs := Start;
    } else {
      var k :| k in ks;
      var before := SomeVisitsOf(f, ks - {k});
      var w := SomeWalk(f[k], false);
      vs := Visit(before, Key(k), w);
    }
  }

  lemma {:induction false} SomeItemVisits(x: Json, n: nat) returns (vs: Visits)
    requires x.Arr? && n <= |x.items|
    ensures WalksItems(vs) && ItemsOf(vs) == x.items[..n]
    decreases x, 0, n
  {
    if n == 0 {
      vs := Start;
    } else {
      var before := SomeItemVisits(x, n - 1);
      var w := SomeWalk(x.items[n - 1], true);
      vs := Visit(before, Index(n - 1), w);
    }
  }

  /** Write i of ws goes to path p with value v, and no later one prints like p. */
  ghost predicate FinalWrite(ws: seq<Write>, i: nat, p: Path, v: Json) {
    && i < |ws| && ws[i] == (p, v)
    && forall j :: i < j < |ws| ==> Print(ws[j].0) != Print(p)
  }

  lemma {:induction false} WalkEndingAt(p: Path, x: Json, item: bool, q: Path, v: Json)
    returns (w: Walk, i: nat)
    requires EmitsBelow(x, q, item, v)
    ensures WellWalked(w, item) && ValueOf(w) == x
    ensures FinalWrite(ValueWrites(p, w), i, p + q, v)
    decreases x, 1
  {
    match x {
      case Obj(f) =>
        var vs;
        vs, i := VisitsEndingAt(p, f, q, v);
        w := ObjWalk(vs);
      case Arr(items) =>
        if item {
          w, i := Atom(x), 0;
          assert p + q == p;
        } else {
          var vs, k := ItemVisitsEndingAt(p, x, |items|, q, v);
          assert items[..|items|] == items;
          w := ArrWalk(vs);
          if q == [] {
            i := 0;
            assert p + q == p;
            var ws := VisitWrites(p, vs);
            forall j | 0 <= j < |ws|
              ensures Print(ws[j].0) != Print(p)
            {
              var tail := VisitWriteSound(p, vs, true, j);
              assert tail[0].Index?;
              ElementsPrintApart(p, tail[0].i, tail[0].i + 1, tail[1..], []);
              assert p + tail == p + [Index(tail[0].i)] + tail[1..];
            }
          } else {
            i := k + 1;
          }
        }
      case _ =>
        w, i := Atom(x), 0;
        assert p + q == p;
    }
  }

  lemma {:induction false} VisitsEndingAt(p: Path, f: FlatMap, q: Path, v: Json)
    returns (vs: Visits, i: nat)
    requires EmitsBelow(Obj(f), q, false, v)
    ensures Walks(f, vs)
    ensures FinalWrite(VisitWrites(p, vs), i, p + q, v)
    decreases Obj(f), 0
  {
    var k := q[0].k;
    var before := SomeVisitsOf(f, f.Keys - {k});
    var w, n := WalkEndingAt(p + [Key(k)], f[k], false, q[1..], v);
    vs := Visit(before, Key(k), w);
    i := |VisitWrites(p, before)| + n;
    assert (p + [Key(k)]) + q[1..] == p + q;
    assert FieldsOf(vs) == f;
  }

  /** The writes of one array element never print like a path through another. */
  lemma ElementWritesApart(p: Path, n: nat, w: Walk, q: Path)
    requires WalksItem(w)
    requires q != [] && q[0].Index? && q[0].i != n
    ensures forall j :: 0 <= j < |ValueWrites(p + [Index(n)], w)| ==>
              Print(ValueWrites(p + [Index(n)], w)[j].0) != Print(p + q)
  {
    var late := ValueWrites(p + [Index(n)], w);
    forall j | 0 <= j < |late|
      ensures Print(late[j].0) != Print(p + q)
    {
      var tail := ValueWriteSound(p + [Index(n)], w, true, j);
      ElementsPrintApart(p, n, q[0].i, tail, q[1..]);
      assert p + q == p + [Index(q[0].i)] + q[1..];
    }
  }

  /** With q non-empty, the first n elements of the array, the one on q's way included. */
  lemma {:induction false} ItemVisitsEndingAt(p: Path, x: Json, n: nat, q: Path, v: Json)
    returns (vs: Visits, i: nat)
    requires x.Arr? && n <= |x.items|
    requires EmitsBelow(x, q, false, v)
    ensures WalksItems(vs) && ItemsOf(vs) == x.items[..n]
    ensures q != [] && q[0].i < n ==> FinalWrite(VisitWrites(p, vs), i, p + q, v)
    decreases x, 0, n
  {
    i := 0;
    if n == 0 {
      vs := Start;
    } else if q != [] && q[0].i == n - 1 {
      var before := SomeItemVisits(x, n - 1);
      var w, m := WalkEndingAt(p + [Index(n - 1)], x.items[n - 1], true, q[1..], v);
      vs := Visit(before, Index(n - 1), w);
      i := |VisitWrites(p, before)| + m;
      assert (p + [Index(n - 1)]) + q[1..] == p + q;
    } else {
      var before;
      before, i := ItemVisitsEndingAt(p, x, n - 1, q, v);
      var w := SomeWalk(x.items[n - 1], true);
      vs := Visit(before, Index(n - 1), w);
      if q != [] && q[0].i < n {
        ElementWritesApart(p, n - 1, w, q);
      }
    }
  }

  /** Some iteration order makes the entry at p decide the value of its printed key. */
  lemma EntryCanWin(data: FlatMap, p: Path, v: Json) returns (r: FlatMap)
    requires Emits(data, p, v)
    ensures IsFlattening(data, r)
    ensures Print(p) in r && r[Print(p)] == v
  {
    var vs, i := VisitsEndingAt([], data, p, v);
    assert [] + p == p;
    var ws := VisitWrites([], vs);
    r := Outcome(vs);
    assert Walks(data, vs) && r == Outcome(vs);
    var j := LastWriter(map[], ws, Print(p));
    assert j == i;
  }

  /** Flattening is a function of the payload exactly when no two entries clash. */
  lemma OrderIndependentIffNoClash(data: FlatMap)
    ensures OrderIndependent(data) <==> NoClash(data)
  {
    if NoClash(data) {
      forall r, r' | IsFlattening(data, r) && IsFlattening(data, r')
        ensures r == r'
      {
        NoClashAgree(data, r, r');
      }
    }
    if OrderIndependent(data) {
      forall p, v, q, u | Emits(data, p, v) && Emits(data, q, u) && Print(p) == Print(q)
        ensures v == u
      {
        var r := EntryCanWin(data, p, v);
        var r' := EntryCanWin(data, q, u);
      }
    }
  }
}
