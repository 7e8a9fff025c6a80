/** Parsed JSON values, as the Go decoder hands them to the pipeline. */
module JsonValues {

  datatype Json =
    | Null
    | Bool(b: bool)
    | Num(n: real)
    | Str(s: string)
    | Arr(items: seq<Json>)
    | Obj(fields: map<string, Json>)

  /** The six type names the schema engine stores. */
  datatype JsonType = NullType | StringType | NumberType | BooleanType | ObjectType | ArrayType

  function DetectType(v: Json): (r: JsonType)
    ensures r == NullType <==> v == Null
    ensures r == StringType <==> v.Str?
    ensures r == NumberType <==> v.Num?
    ensures r == BooleanType <==> v.Bool?
    ensures r == ObjectType <==> v.Obj?
    ensures r == ArrayType <==> v.Arr?
  {
    match v
    case Null => NullType
    case Str(_) => StringType
    case Num(_) => NumberType
    case Bool(_) => BooleanType
    case Obj(_) => ObjectType
    case Arr(_) => ArrayType
  }

  /** Both are null, or both booleans, and so on. */
  predicate SameKind(v: Json, u: Json) {
    || (v.Null? && u.Null?) || (v.Bool? && u.Bool?) || (v.Num? && u.Num?)
    || (v.Str? && u.Str?) || (v.Arr? && u.Arr?) || (v.Obj? && u.Obj?)
  }

  lemma SameTypeIff(v: Json, u: Json)
    ensures DetectType(v) == DetectType(u) <==> SameKind(v, u)
  {
  }
}
