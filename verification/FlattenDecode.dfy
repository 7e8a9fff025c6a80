/**
 Payloads whose keys are unambiguous: flattened keys decode to paths, flattening is a function,
 and two payloads flatten alike exactly when they agree after pruning empty objects.
 */
module FlattenDecode {
  import opened Common
  import opened Decimal
  import opened JsonValues
  import opened Flatten
  import opened FlattenOrder

  predicate CleanKey(k: string) {
    k != "" && '.' !in k && '[' !in k
  }

  /** Every object key anywhere in the value is non-empty and free of '.' and '['. */
  predicate CleanKeys(x: Json) {
    match x
    case Obj(f) => forall k | k in f :: CleanKey(k) && CleanKeys(f[k])
    case Arr(items) => forall i | 0 <= i < |items| :: CleanKeys(items[i])
    case _ => true
  }

  ghost predicate CleanPath(p: Path) {
    forall j :: 0 <= j < |p| && p[j].Key? ==> CleanKey(p[j].k)
  }

  lemma {:induction false} CleanLookup(x: Json, p: Path)
    requires CleanKeys(x) && At(x, p).Some?
    ensures CleanPath(p)
    decreases |p|
  {
    if p != [] {
      match (x, p[0]) {
        case (Obj(f), Key(k)) => CleanLookup(f[k], p[1..]);
        case (Arr(items), Index(i)) => CleanLookup(items[i], p[1..]);
      }
      assert forall j :: 1 <= j < |p| ==> p[j] == p[1..][j - 1];
    }
  }

  // ---------- Decoding a flattened key ----------

  function KeyLength(s: string): (n: nat)
    ensures n <= |s|
  {
    if s == "" || s[0] == '.' || s[0] == '[' then 0 else 1 + KeyLength(s[1..])
  }

  function NumeralLength(s: string): (n: nat)
    ensures n <= |s| && AllDigits(s[..n])
  {
    if s == "" || !IsDigit(s[0]) then 0
    else
      var n := 1 + NumeralLength(s[1..]);
      assert s[..n] == [s[0]] + s[1..][..n - 1];
      n
  }

  function Decode(s: string): Path
    decreases |s|, 1
  {
    var n := KeyLength(s);
    [Key(s[..n])] + DecodeRest(s[n..])
  }

  function DecodeRest(s: string): Path
    decreases |s|, 0
  {
    if s == "" then []
    else if s[0] == '.' then Decode(s[1..])
    else
      var n := NumeralLength(s[1..]);
      [Index(DigitsValue(s[1..][..n]))] + (if n + 2 <= |s| then DecodeRest(s[n + 2..]) else [])
  }

  ghost predicate StartsStep(t: string) {
    t == "" || t[0] == '.' || t[0] == '['
  }

  lemma SuffixStartsStep(q: Path)
    ensures StartsStep(Suffix(q))
  {
    if q != [] && q[0].Index? {
      assert Render(q[0])[0] == '[';
    }
  }

  lemma {:induction false} KeyLengthOf(k: string, t: string)
    requires '.' !in k && '[' !in k && StartsStep(t)
    ensures KeyLength(k + t) == |k|
  {
    if k == "" {
      assert k + t == t;
    } else {
      assert (k + t)[1..] == k[1..] + t;
      assert k[0] in k;
      KeyLengthOf(k[1..], t);
    }
  }

  lemma {:induction false} NumeralLengthOf(d: string, t: string)
    requires AllDigits(d) && t != "" && !IsDigit(t[0])
    ensures NumeralLength(d + t) == |d|
  {
    if d == "" {
      assert d + t == t;
    } else {
      assert (d + t)[1..] == d[1..] + t;
      NumeralLengthOf(d[1..], t);
    }
  }

  lemma DecodeKeyThen(k: string, t: string)
    requires CleanKey(k) && StartsStep(t)
    ensures Decode(k + t) == [Key(k)] + DecodeRest(t)
  {
    KeyLengthOf(k, t);
    assert (k + t)[..|k|] == k && (k + t)[|k|..] == t;
  }

  lemma DecodeIndexThen(i: nat, t: string)
    ensures DecodeRest(Render(Index(i)) + t) == [Index(i)] + DecodeRest(t)
  {
    var d := FormatNat(i);
    var s := Render(Index(i)) + t;
    assert s[0] == '[' && s[1..] == d + ("]" + t);
    NumeralLengthOf(d, "]" + t);
    DigitsValueFormatNat(i);
    assert s[1..][..|d|] == d && s[|d| + 2..] == t;
  }

  lemma DecodeStepThen(step: Step, t: string)
    requires step.Key? ==> CleanKey(step.k)
    requires StartsStep(t)
    ensures DecodeRest(Render(step) + t) == [step] + DecodeRest(t)
  {
    match step {
      case Key(k) =>
        var s := Render(step) + t;
        assert s[0] == '.' && s[1..] == k + t;
        DecodeKeyThen(k, t);
      case Index(i) =>
        DecodeIndexThen(i, t);
    }
  }

  lemma {:induction false} DecodeSuffix(q: Path)
    requires CleanPath(q)
    ensures DecodeRest(Suffix(q)) == q
  {
    if q != [] {
      var step, rest := q[0], q[1..];
      assert q == [step] + rest;
      DecodeSuffix(rest);
      SuffixStartsStep(rest);
      DecodeStepThen(step, Suffix(rest));
    }
  }

  /** The path printer can be undone on clean paths. */
  lemma DecodePrint(p: Path)
    requires p != [] && p[0].Key? && CleanPath(p)
    ensures Decode(Print(p)) == p
  {
    var k, q := p[0].k, p[1..];
    assert p == [Key(k)] + q;
    PrintSnoc([], Key(k));
    assert [] + [Key(k)] == [Key(k)];
    PrintSuffix([Key(k)], q);
    SuffixStartsStep(q);
    DecodeKeyThen(k, Suffix(q));
    DecodeSuffix(q);
  }

  lemma CleanEmission(data: FlatMap, p: Path, v: Json)
    requires CleanKeys(Obj(data)) && Emits(data, p, v)
    ensures Decode(Print(p)) == p
  {
    CleanLookup(Obj(data), p);
    DecodePrint(p);
  }

  lemma CleanNoClash(data: FlatMap)
    requires CleanKeys(Obj(data))
    ensures NoClash(data)
  {
    forall p, v, q, u | Emits(data, p, v) && Emits(data, q, u) && Print(p) == Print(q)
      ensures v == u
    {
      CleanEmission(data, p, v);
      CleanEmission(data, q, u);
    }
  }

  /** A flattened key names one path, and the stored value is what that path leads to. */
  lemma DecodedEntry(data: FlatMap, r: FlatMap, k: string)
    requires CleanKeys(Obj(data)) && IsFlattening(data, r)
    ensures k in r ==> Print(Decode(k)) == k && Emits(data, Decode(k), r[k])
    ensures forall p, v :: Emits(data, p, v) && Print(p) == k ==> k in r && p == Decode(k) && v == r[k]
  {
    FlattenedEntries(data, r, k);
    if k in r {
      var p :| Emits(data, p, r[k]) && Print(p) == k;
      CleanEmission(data, p, r[k]);
    }
    forall p, v | Emits(data, p, v) && Print(p) == k
      ensures k in r && p == Decode(k) && v == r[k]
    {
      CleanEmission(data, p, v);
    }
  }

  // ---------- What flattening forgets ----------

  /** Remove, bottom up, the empty objects that are reached through objects alone. */
  function Prune(x: Json): Json {
    match x
    case Obj(f) => Obj(PruneFields(f))
    case _ => x
  }

  function PruneFields(f: FlatMap): FlatMap
    decreases Obj(f), 0
  {
    map k | k in f && Prune(f[k]) != Obj(map[]) :: Prune(f[k])
  }

  /** Objects reached through objects alone are non-empty, the root excepted. */
  predicate Dense(f: FlatMap)
    decreases Obj(f)
  {
    forall k | k in f && f[k].Obj? :: f[k].fields != map[] && Dense(f[k].fields)
  }

  lemma {:induction false} PruneIsDense(f: FlatMap)
    ensures Dense(PruneFields(f))
    decreases Obj(f)
  {
    forall k | k in f && f[k].Obj?
      ensures Dense(PruneFields(f[k].fields))
    {
      PruneIsDense(f[k].fields);
    }
  }

  lemma {:induction false} DensePrune(f: FlatMap)
    requires Dense(f)
    ensures PruneFields(f) == f
    decreases Obj(f)
  {
    forall k | k in f
      ensures Prune(f[k]) == f[k] && Prune(f[k]) != Obj(map[])
    {
      if f[k].Obj? {
        DensePrune(f[k].fields);
      }
    }
  }

  lemma {:induction false} PruneKeepsLookup(f: FlatMap, p: Path, v: Json)
    requires !v.Obj?
    ensures At(Obj(f), p) == Some(v) <==> At(Obj(PruneFields(f)), p) == Some(v)
    decreases |p|
  {
    if p != [] && p[0].Key? && p[0].k in f && f[p[0].k].Obj? {
      var g := f[p[0].k].fields;
      PruneKeepsLookup(g, p[1..], v);
      if PruneFields(g) == map[] {
        assert At(Obj(map[]), p[1..]) != Some(v);
      }
    }
  }

  /** A non-empty dense object has an entry. */
  lemma {:induction false} DenseEmits(f: FlatMap) returns (p: Path, v: Json)
    requires Dense(f) && f != map[]
    ensures Emits(f, p, v)
    decreases Obj(f)
  {
    var k :| k in f;
    if f[k].Obj? {
      var q;
      q, v := DenseEmits(f[k].fields);
      p := [Key(k)] + q;
      assert p[1..] == q;
    } else {
      p, v := [Key(k)], f[k];
      assert p[1..] == [];
    }
  }

  ghost predicate SameEmissions(f: FlatMap, g: FlatMap) {
    forall p, v :: Emits(f, p, v) <==> Emits(g, p, v)
  }

  /** Emissions below the field k. */
  lemma EmitsUnder(f: FlatMap, k: string, q: Path, v: Json)
    requires k in f && f[k].Obj?
    ensures Emits(f[k].fields, q, v) <==> q != [] && Emits(f, [Key(k)] + q, v) && q[0].Key?
  {
    var p := [Key(k)] + q;
    assert p[1..] == q;
    if Emits(f, p, v) {
      assert forall j :: 0 <= j < |q| ==> q[j] == p[j + 1];
    }
  }

  lemma EmissionField(g: FlatMap, k: string, q: Path, v: Json)
    requires Emits(g, [Key(k)] + q, v)
    ensures k in g && At(g[k], q) == Some(v)
  {
    assert ([Key(k)] + q)[1..] == q;
  }

  lemma {:induction false} DenseFieldMatches(f: FlatMap, g: FlatMap, k: string)
    requires Dense(f) && Dense(g) && SameEmissions(f, g) && k in f
    ensures k in g && f[k] == g[k]
    decreases Obj(f), 0
  {
    if f[k].Obj? {
      var q, v := DenseEmits(f[k].fields);
      EmitsUnder(f, k, q, v);
      EmissionField(g, k, q, v);
      forall q, v
        ensures Emits(f[k].fields, q, v) <==> Emits(g[k].fields, q, v)
      {
        EmitsUnder(f, k, q, v);
        EmitsUnder(g, k, q, v);
      }
      DenseEmissionsDetermine(f[k].fields, g[k].fields);
    } else {
      assert [Key(k)] + [] == [Key(k)] && [Key(k)][1..] == [];
      assert Emits(f, [Key(k)], f[k]);
      EmissionField(g, k, [], f[k]);
    }
  }

  lemma {:induction false} DenseEmissionsDetermine(f: FlatMap, g: FlatMap)
    requires Dense(f) && Dense(g) && SameEmissions(f, g)
    ensures f == g
    decreases Obj(f), 1
  {
    forall k | k in f
      ensures k in g && f[k] == g[k]
    {
      DenseFieldMatches(f, g, k);
    }
    forall k | k in g
      ensures k in f
    {
      if g[k].Obj? {
        var q, v := DenseEmits(g[k].fields);
        EmitsUnder(g, k, q, v);
        EmissionField(f, k, q, v);
      } else {
        assert [Key(k)] + [] == [Key(k)] && [Key(k)][1..] == [];
        assert Emits(g, [Key(k)], g[k]);
        EmissionField(f, k, [], g[k]);
      }
    }
  }

  lemma EqualMapsSameEmissions(f: FlatMap, g: FlatMap, r: FlatMap)
    requires CleanKeys(Obj(f)) && CleanKeys(Obj(g))
    requires IsFlattening(f, r) && IsFlattening(g, r)
    ensures SameEmissions(f, g)
  {
    forall p, v
      ensures Emits(f, p, v) <==> Emits(g, p, v)
    {
      DecodedEntry(f, r, Print(p));
      DecodedEntry(g, r, Print(p));
    }
  }

  /** Two unambiguous payloads flatten alike exactly when they agree up to pruning. */
  lemma FlattenKernel(f: FlatMap, g: FlatMap, r: FlatMap, s: FlatMap)
    requires CleanKeys(Obj(f)) && CleanKeys(Obj(g))
    requires IsFlattening(f, r) && IsFlattening(g, s)
    ensures r == s <==> PruneFields(f) == PruneFields(g)
  {
    forall p: Path, v: Json | !v.Obj?
      ensures At(Obj(f), p) == Some(v) <==> At(Obj(PruneFields(f)), p) == Some(v)
      ensures At(Obj(g), p) == Some(v) <==> At(Obj(PruneFields(g)), p) == Some(v)
    {
      PruneKeepsLookup(f, p, v);
      PruneKeepsLookup(g, p, v);
    }
    assert SameEmissions(f, PruneFields(f)) && SameEmissions(g, PruneFields(g));
    if r == s {
      EqualMapsSameEmissions(f, g, r);
      PruneIsDense(f);
      PruneIsDense(g);
      DenseEmissionsDetermine(PruneFields(f), PruneFields(g));
    }
    if PruneFields(f) == PruneFields(g) {
      assert SameEmissions(f, g);
      forall k
        ensures k in r <==> k in s
        ensures k in r ==> r[k] == s[k]
      {
        DecodedEntry(f, r, k);
        DecodedEntry(g, s, k);
      }
    }
  }

  /** So flattening is injective on unambiguous dense payloads. */
  lemma FlattenInjective(f: FlatMap, g: FlatMap, r: FlatMap)
    requires CleanKeys(Obj(f)) && CleanKeys(Obj(g)) && Dense(f) && Dense(g)
    requires IsFlattening(f, r) && IsFlattening(g, r)
    ensures f == g
  {
    FlattenKernel(f, g, r, r);
    DensePrune(f);
    DensePrune(g);
  }

  /** A dotted key next to a nested object: the result does depend on the iteration order. */
  lemma AmbiguousPayload() returns (data: FlatMap, r: FlatMap, r': FlatMap)
    ensures IsFlattening(data, r) && IsFlattening(data, r') && r != r'
    ensures "a.b" in r && "a.b" in r' && r["a.b"] == Bool(true) && r'["a.b"] == Str("x")
  {
    data := map["a.b" := Bool(true), "a" := Obj(map["b" := Str("x")])];
    var p, q := [Key("a.b")], [Key("a"), Key("b")];
    assert Front(p) == [] && Front(q) == [Key("a")] && Front([Key("a")]) == [];
    assert Print([Key("a")]) == "a";
    assert Print(p) == "a.b" && Print(q) == "a.b";
    assert p[1..] == [] && q[1..] == [Key("b")] && q[1..][1..] == [];
    assert At(Obj(data), p) == Some(Bool(true));
    assert At(data["a"], q[1..]) == Some(Str("x"));
    r := EntryCanWin(data, p, Bool(true));
    r' := EntryCanWin(data, q, Str("x"));
  }
}
