/**
 Flattening of a JSON object into dot-and-bracket keys (internal/schema/flatten.go).

 Go visits the keys of a map in an arbitrary order, separately at every object. A `Walk` is one
 such choice of orders; `IsFlattening` relates a payload to every map some walk can produce.
 */
module Flatten {
  import opened Common
  import opened Decimal
  import opened JsonValues

  type FlatMap = map<string, Json>

  // ---------- Paths and their printed form ----------

  datatype Step = Key(k: string) | Index(i: nat)
  type Path = seq<Step>

  function Extend(prefix: string, step: Step): string {
    match step
    case Key(k) => if prefix != "" then prefix + "." + k else k
    case Index(i) => prefix + "[" + FormatNat(i) + "]"
  }

  function Print(p: Path): string {
    if p == [] then "" else Extend(Print(Front(p)), Last(p))
  }

  /** Plain navigation into a JSON value. */
  function At(x: Json, p: Path): Option<Json> {
    if p == [] then
      Some(x)
    else match (x, p[0])
      case (Obj(f), Key(k)) => if k in f then At(f[k], p[1..]) else None
      case (Arr(items), Index(i)) => if i < |items| then At(items[i], p[1..]) else None
      case _ => None
  }

  /** An array directly inside an array is stored whole, so no two index steps are adjacent. */
  ghost predicate NoAdjacentIndices(p: Path) {
    forall j :: 0 <= j < |p| - 1 ==> !(p[j].Index? && p[j + 1].Index?)
  }

  /** The payload has a flattened entry at path p, holding v. */
  ghost predicate Emits(data: FlatMap, p: Path, v: Json) {
    && p != [] && p[0].Key?
    && NoAdjacentIndices(p)
    && At(Obj(data), p) == Some(v)
    && !v.Obj?
  }

  // ---------- One choice of iteration orders ----------

  datatype Walk = Atom(v: Json) | ArrWalk(items: Visits) | ObjWalk(fields: Visits)

  /** The children of one object or array, latest visited outermost. */
  datatype Visits = Start | Visit(before: Visits, step: Step, child: Walk)

  ghost function ValueOf(w: Walk): Json {
    match w
    case Atom(v) => v
    case ArrWalk(items) => Arr(ItemsOf(items))
    case ObjWalk(fields) => Obj(FieldsOf(fields))
  }

  ghost function FieldsOf(vs: Visits): FlatMap {
    match vs
    case Start => map[]
    case Visit(before, Key(k), child) => FieldsOf(before)[k := ValueOf(child)]
    case Visit(before, Index(_), _) => FieldsOf(before)
  }

  ghost function ItemsOf(vs: Visits): seq<Json> {
    match vs
    case Start => []
    case Visit(before, _, child) => ItemsOf(before) + [ValueOf(child)]
  }

  /** The walk of a field's value: only arrays and objects have children. */
  ghost predicate WalksField(w: Walk) {
    match w
    case Atom(v) => !v.Obj? && !v.Arr?
    case ArrWalk(items) => WalksItems(items)
    case ObjWalk(fields) => WalksFields(fields)
  }

  /** The walk of an array element: an array here is stored whole. */
  ghost predicate WalksItem(w: Walk) {
    match w
    case Atom(v) => !v.Obj?
    case ArrWalk(_) => false
    case ObjWalk(fields) => WalksFields(fields)
  }

  /** Each key of the object is visited once. */
  ghost predicate WalksFields(vs: Visits) {
    match vs
    case Start => true
    case Visit(before, step, child) =>
      WalksFields(before) && step.Key? && step.k !in FieldsOf(before) && WalksField(child)
  }

  /** The elements of the array are visited in order. */
  ghost predicate WalksItems(vs: Visits) {
    match vs
    case Start => true
    case Visit(before, step, child) =>
      WalksItems(before) && step == Index(|ItemsOf(before)|) && WalksItem(child)
  }

  /** The assignments to the result map, in program order. */
  type Write = (Path, Json)

  ghost function ValueWrites(p: Path, w: Walk): seq<Write>
    decreases w
  {
    match w
    case Atom(v) => [(p, v)]
    case ArrWalk(items) => [(p, ValueOf(w))] + VisitWrites(p, items)
    case ObjWalk(fields) => VisitWrites(p, fields)
  }

  ghost function VisitWrites(p: Path, vs: Visits): seq<Write>
    decreases vs
  {
    match vs
    case Start => []
    case Visit(before, step, child) => VisitWrites(p, before) + ValueWrites(p + [step], child)
  }

  ghost function Apply(m: FlatMap, ws: seq<Write>): FlatMap {
    if ws == [] then m else Apply(m, Front(ws))[Print(Last(ws).0) := Last(ws).1]
  }

  ghost predicate Walks(data: FlatMap, vs: Visits) {
    WalksFields(vs) && FieldsOf(vs) == data
  }

  ghost function Outcome(vs: Visits): FlatMap {
    Apply(map[], VisitWrites([], vs))
  }

  /** r is what FlattenJSON may return for data under some iteration order. */
  ghost predicate IsFlattening(data: FlatMap, r: FlatMap) {
    exists vs :: Walks(data, vs) && r == Outcome(vs)
  }

  // ---------- The code ----------

  /** The map shared by all levels of the recursion. */
  class Result {
    var entries: FlatMap

    constructor ()
      ensures entries == map[]
    {
      entries := map[];
    }
  }

  lemma {:induction false} ApplyAppend(m: FlatMap, xs: seq<Write>, ys: seq<Write>)
    ensures Apply(m, xs + ys) == Apply(Apply(m, xs), ys)
    decreases |ys|
  {
    if ys == [] {
      assert xs + ys == xs;
    } else {
      assert Front(xs + ys) == xs + Front(ys);
      ApplyAppend(m, xs, Front(ys));
    }
  }

  lemma PrintSnoc(p: Path, s: Step)
    ensures Print(p + [s]) == Extend(Print(p), s)
  {
    assert Front(p + [s]) == p;
  }

  /** The fields of data that have been visited. */
  function Visited(data: FlatMap, remaining: set<string>): FlatMap {
    map k | k in data && k !in remaining :: data[k]
  }

  lemma VisitField(data: FlatMap, remaining: set<string>, vs: Visits, key: string, w: Walk)
    requires key in data && key in remaining
    requires WalksFields(vs) && FieldsOf(vs) == Visited(data, remaining)
    requires WalksField(w) && ValueOf(w) == data[key]
    ensures WalksFields(Visit(vs, Key(key), w))
    ensures FieldsOf(Visit(vs, Key(key), w)) == Visited(data, remaining - {key})
  {
  }

  lemma VisitWritesSnoc(m: FlatMap, p: Path, vs: Visits, step: Step, w: Walk)
    ensures Apply(m, VisitWrites(p, Visit(vs, step, w)))
         == Apply(Apply(m, VisitWrites(p, vs)), ValueWrites(p + [step], w))
  {
    ApplyAppend(m, VisitWrites(p, vs), ValueWrites(p + [step], w));
  }

  method FlattenRecursive(prefix: string, data: FlatMap, result: Result, ghost p: Path)
    returns (ghost vs: Visits)
    requires prefix == Print(p)
    modifies result
    ensures Walks(data, vs)
    ensures result.entries == Apply(old(result.entries), VisitWrites(p, vs))
    decreases Obj(data), 0
  {
    vs := Start;
    var remaining := data.Keys;
    while remaining != {}
      invariant remaining <= data.Keys
      invariant WalksFields(vs) && FieldsOf(vs) == Visited(data, remaining)
      invariant result.entries == Apply(old(result.entries), VisitWrites(p, vs))
      decreases remaining
    {
      var key :| key in remaining;
      var fullKey := key;
      if prefix != "" {
        fullKey := prefix + "." + key;
      }
      PrintSnoc(p, Key(key));
      ghost var w := FlattenValue(fullKey, data[key], result, p + [Key(key)]);
      VisitWritesSnoc(old(result.entries), p, vs, Key(key), w);
      VisitField(data, remaining, vs, key, w);
      vs := Visit(vs, Key(key), w);
      remaining := remaining - {key};
    }
  }

  /** The switch on the kind of one field's value. */
  method FlattenValue(fullKey: string, value: Json, result: Result, ghost q: Path)
    returns (ghost w: Walk)
    requires fullKey == Print(q)
    modifies result
    ensures WalksField(w) && ValueOf(w) == value
    ensures result.entries == Apply(old(result.entries), ValueWrites(q, w))
    decreases value, 1
  {
    match value {
      case Obj(fields) =>
        ghost var vs := FlattenRecursive(fullKey, fields, result, q);
        w := ObjWalk(vs);
      case Arr(items) =>
        result.entries := result.entries[fullKey := value];
        ghost var vs := FlattenItems(fullKey, items, result, q);
        w := ArrWalk(vs);
        assert Front([(q, value)]) == [];
        ApplyAppend(old(result.entries), [(q, value)], VisitWrites(q, vs));
      case _ =>
        result.entries := result.entries[fullKey := value];
        w := Atom(value);
        assert Front([(q, value)]) == [];
    }
  }

  /** The loop over the elements of one array. */
  method FlattenItems(fullKey: string, items: seq<Json>, result: Result, ghost q: Path)
    returns (ghost vs: Visits)
    requires fullKey == Print(q)
    modifies result
    ensures WalksItems(vs) && ItemsOf(vs) == items
    ensures result.entries == Apply(old(result.entries), VisitWrites(q, vs))
    decreases Arr(items), 0
  {
    vs := Start;
    for i := 0 to |items|
      invariant WalksItems(vs) && ItemsOf(vs) == items[..i]
      invariant result.entries == Apply(old(result.entries), VisitWrites(q, vs))
    {
      var itemKey := fullKey + "[" + FormatNat(i) + "]";
      PrintSnoc(q, Index(i));
      ghost var qi := q + [Index(i)];
      ghost var w;
      if items[i].Obj? {
        ghost var sub := FlattenRecursive(itemKey, items[i].fields, result, qi);
        w := ObjWalk(sub);
      } else {
        result.entries := result.entries[itemKey := items[i]];
        w := Atom(items[i]);
        assert Front([(qi, items[i])]) == [];
      }
      VisitWritesSnoc(old(result.entries), q, vs, Index(i), w);
      vs := Visit(vs, Index(i), w);
    }
  }

  method FlattenJSON(data: FlatMap) returns (r: FlatMap)
    ensures IsFlattening(data, r)
  {
    var result := new Result();
    ghost var vs := FlattenRecursive("", data, result, []);
    r := result.entries;
    assert Walks(data, vs) && r == Outcome(vs);
  }
}
