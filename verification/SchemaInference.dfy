/**
 Learning a payload schema sample by sample (internal/schema/inference.go), and the closed form
 of what has been learned.
 */
module SchemaInference {
  import opened Common
  import opened JsonValues
  import opened Flatten

  datatype Field = Field(name: string, typ: JsonType, nullable: bool, examples: seq<Json>)

  datatype Schema = Schema(sourceId: string, fields: map<string, Field>, sampleCount: nat, version: int, locked: bool)

  const MAX_EXAMPLES := 3
  const MAX_EXAMPLE_LENGTH := 100

  function Fresh(sourceId: string): Schema {
    Schema(sourceId, map[], 0, 1, false)
  }

  /** Examples are scalars of bounded length; short scalars are kept, long strings keep their beginning. */
  function TruncateExample(v: Json): (r: Json)
    ensures !r.Arr? && !r.Obj?
    ensures r.Str? ==> |r.s| <= MAX_EXAMPLE_LENGTH + 3
    ensures !v.Arr? && !v.Obj? && (v.Str? ==> |v.s| <= MAX_EXAMPLE_LENGTH) ==> r == v
    ensures v.Str? && |v.s| > 100 ==> r == Str(v.s[..100] + "...")
    ensures (v.Arr? ==> r == Str("[array]")) && (v.Obj? ==> r == Str("[object]"))
  {
    match v
    case Str(s) => if |s| > MAX_EXAMPLE_LENGTH then Str(s[..MAX_EXAMPLE_LENGTH] + "...") else v
    case Arr(_) => Str("[array]")
    case Obj(_) => Str("[object]")
    case _ => v
  }

  // ---------- One sample ----------

  function MarkAbsent(field: Field): Field {
    field.(nullable := true)
  }

  function SeeAgain(field: Field, value: Json): Field {
    var t := DetectType(value);
    Field(field.name,
          if field.typ != t && t != NullType then t else field.typ,
          field.nullable,
          if |field.examples| < MAX_EXAMPLES then field.examples + [TruncateExample(value)] else field.examples)
  }

  function SeeFirst(name: string, value: Json, sampleCount: nat): Field {
    Field(name, DetectType(value), sampleCount > 1, [TruncateExample(value)])
  }

  function ObservedField(fields: map<string, Field>, flat: FlatMap, sampleCount: nat, k: string): Field
    requires k in fields || k in flat
  {
    if k in fields then
      if k in flat then SeeAgain(fields[k], flat[k]) else MarkAbsent(fields[k])
    else
      SeeFirst(k, flat[k], sampleCount)
  }

  function ObservedFields(fields: map<string, Field>, flat: FlatMap, sampleCount: nat): map<string, Field> {
    map k | k in fields.Keys + flat.Keys :: ObservedField(fields, flat, sampleCount, k)
  }

  /** The effect of one sample on an unlocked schema. */
  function Observe(s: Schema, flat: FlatMap, minSamples: int): Schema {
    var n := s.sampleCount + 1;
    Schema(s.sourceId, ObservedFields(s.fields, flat, n), n, s.version, s.locked || n >= minSamples)
  }

  // ---------- The code ----------

  /** The payload_schemas table; a read or a write may fail. */
  class SchemaTable {
    var rows: map<string, Schema>

    constructor ()
      ensures rows == map[]
    {
      rows := map[];
    }

    method GetPayloadSchema(sourceId: string, fails: bool) returns (r: Option<Schema>)
      ensures r == if fails || sourceId !in rows then None else Some(rows[sourceId])
    {
      r := if fails || sourceId !in rows then None else Some(rows[sourceId]);
    }

    method UpsertPayloadSchema(schema: Schema, fails: bool)
      modifies this
      ensures rows == if fails then old(rows) else old(rows)[schema.sourceId := schema]
    {
      if !fails {
        rows := rows[schema.sourceId := schema];
      }
    }
  }

  /** What a worker that wants to update the schema starts from. */
  function Loaded(rows: map<string, Schema>, sourceId: string, fails: bool): Schema {
    if fails || sourceId !in rows then Fresh(sourceId) else rows[sourceId]
  }

  function Updated(rows: map<string, Schema>, sourceId: string, flat: FlatMap, minSamples: int,
                   loadFails: bool, saveFails: bool): map<string, Schema>
  {
    var existing := Loaded(rows, sourceId, loadFails);
    if existing.locked || saveFails then rows else rows[existing.sourceId := Observe(existing, flat, minSamples)]
  }

  method UpdateSchema(store: SchemaTable, sourceId: string, payload: FlatMap, minSamples: int,
                      loadFails: bool, saveFails: bool) returns (ghost flat: FlatMap)
    modifies store
    ensures IsFlattening(payload, flat)
    ensures store.rows == Updated(old(store.rows), sourceId, flat, minSamples, loadFails, saveFails)
  {
    var flatMap := FlattenJSON(payload);
    flat := flatMap;
    var loaded := store.GetPayloadSchema(sourceId, loadFails);
    var existing := if loaded.Some? then loaded.value else Fresh(sourceId);
    if existing.locked {
      return;
    }
    ghost var start := existing;
    var sampleCount := existing.sampleCount + 1;
    var fields := MarkAbsentFields(existing.fields, flatMap);
    fields := ProcessPresentFields(start.fields, fields, flatMap, sampleCount);
    existing := Schema(existing.sourceId, fields, sampleCount, existing.version, existing.locked);
    if existing.sampleCount >= minSamples && !existing.locked {
      existing := existing.(locked := true);
    }
    assert existing == Observe(start, flat, minSamples);
    store.UpsertPayloadSchema(existing, saveFails);
  }

  /** First loop: fields absent from this payload become nullable. */
  method MarkAbsentFields(before: map<string, Field>, flat: FlatMap) returns (fields: map<string, Field>)
    ensures fields.Keys == before.Keys
    ensures forall k :: k in before ==> fields[k] == if k in flat then before[k] else MarkAbsent(before[k])
  {
    fields := before;
    var remaining := before.Keys;
    while remaining != {}
      invariant remaining <= before.Keys && fields.Keys == before.Keys
      invariant forall k :: k in before ==>
                  fields[k] == if k in flat || k in remaining then before[k] else MarkAbsent(before[k])
      decreases remaining
    {
      var name :| name in remaining;
      if name !in flat {
        fields := fields[name := fields[name].(nullable := true)];
      }
      remaining := remaining - {name};
    }
  }

  /** The fields in done are as observed, the others of start are still as the first loop left them. */
  ghost predicate Processed(start: map<string, Field>, flat: FlatMap, sampleCount: nat, fields: map<string, Field>,
                            remaining: set<string>)
  {
    && fields.Keys == start.Keys + (flat.Keys - remaining)
    && (forall k :: k in start && k in remaining ==> fields[k] == start[k])
    && (forall k :: k in fields && k !in remaining ==> fields[k] == ObservedField(start, flat, sampleCount, k))
  }

  lemma ProcessOne(start: map<string, Field>, flat: FlatMap, sampleCount: nat, fields: map<string, Field>,
                   remaining: set<string>, name: string)
    requires Processed(start, flat, sampleCount, fields, remaining)
    requires name in remaining && remaining <= flat.Keys
    ensures name in fields <==> name in start
    ensures name in fields ==> fields[name] == start[name]
    ensures Processed(start, flat, sampleCount, fields[name := ObservedField(start, flat, sampleCount, name)],
                      remaining - {name})
  {
  }

  lemma ProcessedAll(start: map<string, Field>, flat: FlatMap, sampleCount: nat, fields: map<string, Field>)
    requires Processed(start, flat, sampleCount, fields, {})
    ensures fields == ObservedFields(start, flat, sampleCount)
  {
  }

  /** Second loop: fields present in this payload are created or refreshed. */
  method ProcessPresentFields(ghost start: map<string, Field>, before: map<string, Field>, flat: FlatMap,
                              sampleCount: nat) returns (fields: map<string, Field>)
    requires before.Keys == start.Keys
    requires forall k :: k in start ==> before[k] == if k in flat then start[k] else MarkAbsent(start[k])
    ensures fields == ObservedFields(start, flat, sampleCount)
  {
    fields := before;
    var remaining := flat.Keys;
    while remaining != {}
      invariant remaining <= flat.Keys && Processed(start, flat, sampleCount, fields, remaining)
      decreases remaining
    {
      var name :| name in remaining;
      var value := flat[name];
      ProcessOne(start, flat, sampleCount, fields, remaining, name);
      var field := SeeFirst(name, value, sampleCount);
      if name in fields {
        field := RefreshField(fields[name], value);
      }
      fields := fields[name := field];
      remaining := remaining - {name};
    }
    ProcessedAll(start, flat, sampleCount, fields);
  }

  method RefreshField(known: Field, value: Json) returns (field: Field)
    ensures field == SeeAgain(known, value)
  {
    field := known;
    var fieldType := DetectType(value);
    if field.typ != fieldType && fieldType != NullType {
      field := field.(typ := fieldType);
    }
    if |field.examples| < MAX_EXAMPLES {
      field := field.(examples := field.examples + [TruncateExample(value)]);
    }
  }

  // ---------- Closed form of what has been learned ----------

  ghost function AllKeys(samples: seq<FlatMap>): set<string> {
    if samples == [] then {} else AllKeys(Front(samples)) + Last(samples).Keys
  }

  ghost predicate MissedBySome(samples: seq<FlatMap>, k: string) {
    exists i :: 0 <= i < |samples| && k !in samples[i]
  }

  /** The latest type other than null, or null when there is none. */
  ghost function LatestType(samples: seq<FlatMap>, k: string): JsonType {
    if samples == [] then NullType
    else if k in Last(samples) && DetectType(Last(samples)[k]) != NullType then DetectType(Last(samples)[k])
    else LatestType(Front(samples), k)
  }

  ghost function Occurrences(samples: seq<FlatMap>, k: string): seq<Json> {
    if samples == [] then []
    else Occurrences(Front(samples), k) + if k in Last(samples) then [TruncateExample(Last(samples)[k])] else []
  }

  function FirstThree<T>(s: seq<T>): seq<T> {
    if |s| <= MAX_EXAMPLES then s else s[..MAX_EXAMPLES]
  }

  ghost function SummaryField(samples: seq<FlatMap>, k: string): Field {
    Field(k, LatestType(samples, k), MissedBySome(samples, k), FirstThree(Occurrences(samples, k)))
  }

  ghost function SummaryFields(samples: seq<FlatMap>): map<string, Field> {
    map k | k in AllKeys(samples) :: SummaryField(samples, k)
  }

  ghost function Summary(sourceId: string, samples: seq<FlatMap>, minSamples: int): Schema {
    Schema(sourceId, SummaryFields(samples), |samples|, 1, |samples| > 0 && |samples| >= minSamples)
  }

  lemma {:induction false} AllKeysMember(samples: seq<FlatMap>, k: string)
    ensures k in AllKeys(samples) <==> exists i :: 0 <= i < |samples| && k in samples[i]
  {
    if samples != [] {
      AllKeysMember(Front(samples), k);
      if k in Last(samples) {
        assert k in samples[|samples| - 1];
      }
    }
  }

  lemma {:induction false} UnseenKey(samples: seq<FlatMap>, k: string)
    requires k !in AllKeys(samples)
    ensures LatestType(samples, k) == NullType && Occurrences(samples, k) == []
    ensures forall i :: 0 <= i < |samples| ==> k !in samples[i]
  {
    if samples != [] {
      UnseenKey(Front(samples), k);
    }
  }

  lemma AllKeysSnoc(samples: seq<FlatMap>, x: FlatMap)
    ensures AllKeys(samples + [x]) == AllKeys(samples) + x.Keys
  {
    assert Front(samples + [x]) == samples;
  }

  lemma MissedSnoc(samples: seq<FlatMap>, x: FlatMap, k: string)
    ensures MissedBySome(samples + [x], k) <==> MissedBySome(samples, k) || k !in x
  {
    var all := samples + [x];
    if k !in x {
      assert k !in all[|samples|];
    }
    if MissedBySome(samples, k) {
      var i :| 0 <= i < |samples| && k !in samples[i];
      assert k !in all[i];
    }
  }

  lemma HistorySnoc(samples: seq<FlatMap>, x: FlatMap, k: string)
    ensures LatestType(samples + [x], k) ==
            if k in x && DetectType(x[k]) != NullType then DetectType(x[k]) else LatestType(samples, k)
    ensures Occurrences(samples + [x], k) ==
            if k in x then Occurrences(samples, k) + [TruncateExample(x[k])] else Occurrences(samples, k)
  {
    assert Front(samples + [x]) == samples;
  }

  lemma FirstThreeSnoc<T>(s: seq<T>, e: T)
    ensures FirstThree(s + [e]) == if |FirstThree(s)| < MAX_EXAMPLES then FirstThree(s) + [e] else FirstThree(s)
  {
  }

  lemma SummaryFieldFirst(samples: seq<FlatMap>, x: FlatMap, k: string)
    requires k !in AllKeys(samples) && k in x
    ensures SummaryField(samples + [x], k) == SeeFirst(k, x[k], |samples| + 1)
  {
    HistorySnoc(samples, x, k);
    MissedSnoc(samples, x, k);
    UnseenKey(samples, k);
    assert |samples| > 0 ==> k !in samples[0];
    assert [] + [TruncateExample(x[k])] == [TruncateExample(x[k])];
  }

  lemma SummaryFieldAgain(samples: seq<FlatMap>, x: FlatMap, k: string)
    requires k in x
    ensures SummaryField(samples + [x], k) == SeeAgain(SummaryField(samples, k), x[k])
  {
    HistorySnoc(samples, x, k);
    MissedSnoc(samples, x, k);
    FirstThreeSnoc(Occurrences(samples, k), TruncateExample(x[k]));
  }

  lemma SummaryFieldAbsent(samples: seq<FlatMap>, x: FlatMap, k: string)
    requires k !in x
    ensures SummaryField(samples + [x], k) == MarkAbsent(SummaryField(samples, k))
  {
    HistorySnoc(samples, x, k);
    MissedSnoc(samples, x, k);
  }

  /** Sample i holds the last value of k other than null; -1 when there is none. */
  ghost predicate IsLatest(samples: seq<FlatMap>, k: string, i: int) {
    && -1 <= i < |samples|
    && (i >= 0 ==> k in samples[i] && samples[i][k] != Null)
    && (forall j :: i < j < |samples| && k in samples[j] ==> samples[j][k] == Null)
  }

  /** The learned type is that of the last value other than null. */
  lemma {:induction false} LatestTypeOfValue(samples: seq<FlatMap>, k: string, i: int)
    requires IsLatest(samples, k, i)
    ensures LatestType(samples, k) == if i == -1 then NullType else DetectType(samples[i][k])
  {
    if samples != [] && i < |samples| - 1 {
      assert IsLatest(Front(samples), k, i);
      LatestTypeOfValue(Front(samples), k, i);
    }
  }

  /** The positions at are those of the samples that have k, in order. */
  ghost predicate AreOccurrences(samples: seq<FlatMap>, k: string, at: seq<int>) {
    && (forall i :: 0 <= i < |at| ==> 0 <= at[i] < |samples| && k in samples[at[i]])
    && (forall i, j :: 0 <= i < j < |at| ==> at[i] < at[j])
    && (forall n :: 0 <= n < |samples| && k in samples[n] ==> n in at)
  }

  lemma AreOccurrencesSnoc(samples: seq<FlatMap>, k: string, before: seq<int>)
    requires samples != [] && AreOccurrences(Front(samples), k, before)
    ensures AreOccurrences(samples, k, before + if k in Last(samples) then [|samples| - 1] else [])
  {
    var n := |samples| - 1;
    var at := before + if k in Last(samples) then [n] else [];
    assert forall i :: 0 <= i < n ==> Front(samples)[i] == samples[i];
    forall m | 0 <= m < |samples| && k in samples[m]
      ensures m in at
    {
      assert m < n ==> k in Front(samples)[m] && m in before;
      assert m == n ==> at[|before|] == n;
    }
  }

  lemma {:induction false} OccurrencesAt(samples: seq<FlatMap>, k: string) returns (at: seq<int>)
    ensures AreOccurrences(samples, k, at)
    ensures |Occurrences(samples, k)| == |at|
    ensures forall i :: 0 <= i < |at| ==> Occurrences(samples, k)[i] == TruncateExample(samples[at[i]][k])
  {
    at := [];
    if samples != [] {
      var before := OccurrencesAt(Front(samples), k);
      AreOccurrencesSnoc(samples, k, before);
      at := before + if k in Last(samples) then [|samples| - 1] else [];
    }
  }

  /** The examples are the truncated first values of k, at most three of them, in order. */
  lemma ExamplesAreFirst(samples: seq<FlatMap>, k: string) returns (at: seq<int>)
    ensures AreOccurrences(samples, k, at)
    ensures var examples := SummaryField(samples, k).examples;
            && |examples| == (if |at| < 3 then |at| else 3)
            && forall i :: 0 <= i < |examples| ==> examples[i] == TruncateExample(samples[at[i]][k])
  {
    at := OccurrencesAt(samples, k);
  }

  lemma ObserveSummaryFields(samples: seq<FlatMap>, x: FlatMap)
    ensures ObservedFields(SummaryFields(samples), x, |samples| + 1) == SummaryFields(samples + [x])
  {
    AllKeysSnoc(samples, x);
    var known, n := SummaryFields(samples), |samples| + 1;
    forall k | k in AllKeys(samples) + x.Keys
      ensures ObservedField(known, x, n, k) == SummaryField(samples + [x], k)
    {
      if k !in AllKeys(samples) {
        SummaryFieldFirst(samples, x, k);
      } else if k in x {
        SummaryFieldAgain(samples, x, k);
      } else {
        SummaryFieldAbsent(samples, x, k);
      }
    }
    assert known.Keys == AllKeys(samples);
  }

  /** One more sample moves the closed form exactly as the code moves the schema. */
  lemma ObserveSummary(sourceId: string, samples: seq<FlatMap>, x: FlatMap, minSamples: int)
    requires !Summary(sourceId, samples, minSamples).locked
    ensures Observe(Summary(sourceId, samples, minSamples), x, minSamples) ==
            Summary(sourceId, samples + [x], minSamples)
  {
    ObserveSummaryFields(samples, x);
  }

  /** The greater of one and minSamples. */
  function LockPoint(minSamples: int): (n: nat)
    ensures n >= 1 && n >= minSamples && (n == 1 || n == minSamples)
  {
    if minSamples <= 1 then 1 else minSamples
  }

  /** The table after processing the samples one after the other, nothing failing. */
  ghost function Learned(sourceId: string, samples: seq<FlatMap>, minSamples: int): map<string, Schema> {
    if samples == [] then map[]
    else Updated(Learned(sourceId, Front(samples), minSamples), sourceId, Last(samples), minSamples, false, false)
  }

  /** The samples that count: those up to and including the one that locks. */
  function UpToLock(samples: seq<FlatMap>, minSamples: int): seq<FlatMap> {
    if |samples| <= LockPoint(minSamples) then samples else samples[..LockPoint(minSamples)]
  }

  lemma SummaryOfNone(sourceId: string, minSamples: int)
    ensures Summary(sourceId, [], minSamples) == Fresh(sourceId)
  {
    assert SummaryFields([]) == map[];
  }

  lemma LearnOneMore(sourceId: string, samples: seq<FlatMap>, x: FlatMap, minSamples: int)
    ensures UpToLock(samples + [x], minSamples) ==
            if |samples| < LockPoint(minSamples) then samples + [x] else UpToLock(samples, minSamples)
    ensures var row := Summary(sourceId, UpToLock(samples, minSamples), minSamples);
            Summary(sourceId, UpToLock(samples + [x], minSamples), minSamples) ==
            if row.locked then row else Observe(row, x, minSamples)
  {
    var used := UpToLock(samples, minSamples);
    if |samples| < LockPoint(minSamples) {
      assert !Summary(sourceId, used, minSamples).locked;
      ObserveSummary(sourceId, samples, x, minSamples);
    } else {
      assert (samples + [x])[..LockPoint(minSamples)] == samples[..LockPoint(minSamples)];
      assert samples[..|samples|] == samples;
    }
  }

  lemma UpdatedRow(sourceId: string, row: Schema, flat: FlatMap, minSamples: int)
    requires row.sourceId == sourceId
    ensures Updated(map[sourceId := row], sourceId, flat, minSamples, false, false) ==
            map[sourceId := if row.locked then row else Observe(row, flat, minSamples)]
    ensures Updated(map[], sourceId, flat, minSamples, false, false) ==
            map[sourceId := Observe(Fresh(sourceId), flat, minSamples)]
  {
  }

  lemma LockedAtLockPoint(sourceId: string, samples: seq<FlatMap>, minSamples: int)
    ensures var row := Summary(sourceId, UpToLock(samples, minSamples), minSamples);
            && (row.locked <==> |samples| >= 1 && |samples| >= minSamples)
            && (!row.locked ==> row.sampleCount == |samples|)
            && (row.locked ==> row.sampleCount == if minSamples <= 1 then 1 else minSamples)
  {
  }

  /** The row is the closed form of the samples up to the lock, and never changes afterwards. */
  lemma {:induction false} SequentialLearning(sourceId: string, samples: seq<FlatMap>, minSamples: int)
    requires samples != []
    ensures Learned(sourceId, samples, minSamples) ==
            map[sourceId := Summary(sourceId, UpToLock(samples, minSamples), minSamples)]
  {
    var before := Front(samples);
    assert samples == before + [Last(samples)];
    var row := Summary(sourceId, UpToLock(before, minSamples), minSamples);
    LearnOneMore(sourceId, before, Last(samples), minSamples);
    UpdatedRow(sourceId, row, Last(samples), minSamples);
    if before == [] {
      SummaryOfNone(sourceId, minSamples);
    } else {
      SequentialLearning(sourceId, before, minSamples);
    }
  }
}
