/** Comparing a payload with a locked schema (internal/schema/drift.go). */
module Drift {
  import opened Common
  import opened JsonValues
  import opened Flatten
  import opened FlattenOrder
  import opened SchemaInference

  datatype Kind =
    | FieldMissing(expected: JsonType)
    | TypeChanged(expected: JsonType, actual: JsonType)
    | NewField(actual: JsonType)

  datatype DriftEvent = DriftEvent(eventId: string, sourceId: string, fieldName: string, kind: Kind)

  // ---------- What conforming means, and the drift of one field ----------

  /** Required fields are present, present fields are known, and non-null values keep their type. */
  ghost predicate Conforms(fields: map<string, Field>, flat: FlatMap) {
    && (forall k :: k in fields && !fields[k].nullable ==> k in flat)
    && flat.Keys <= fields.Keys
    && (forall k :: k in flat && k in fields && flat[k] != Null ==> fields[k].typ == DetectType(flat[k]))
  }

  function DriftOf(fields: map<string, Field>, flat: FlatMap, k: string): Option<Kind> {
    if k !in flat then
      if k in fields && !fields[k].nullable then Some(FieldMissing(fields[k].typ)) else None
    else
      var t := DetectType(flat[k]);
      if k !in fields then Some(NewField(t))
      else if fields[k].typ != t && t != NullType then Some(TypeChanged(fields[k].typ, t))
      else None
  }

  /** The drifts of the fields in domain, each reported exactly once, in any order. */
  ghost predicate Reports(fields: map<string, Field>, flat: FlatMap, drifts: seq<DriftEvent>, domain: set<string>) {
    && (forall i :: 0 <= i < |drifts| ==>
          drifts[i].fieldName in domain && DriftOf(fields, flat, drifts[i].fieldName) == Some(drifts[i].kind))
    && (forall k :: k in domain && DriftOf(fields, flat, k).Some? ==> Reported(drifts, k))
    && (forall i, j :: 0 <= i < j < |drifts| ==> drifts[i].fieldName != drifts[j].fieldName)
  }

  ghost predicate Reported(drifts: seq<DriftEvent>, k: string) {
    exists i :: 0 <= i < |drifts| && drifts[i].fieldName == k
  }

  lemma ReportsMore(fields: map<string, Field>, flat: FlatMap, drifts: seq<DriftEvent>, domain: set<string>,
                    k: string, d: DriftEvent)
    requires Reports(fields, flat, drifts, domain) && k !in domain && d.fieldName == k
    ensures DriftOf(fields, flat, k) == Some(d.kind) ==> Reports(fields, flat, drifts + [d], domain + {k})
    ensures DriftOf(fields, flat, k) == None ==> Reports(fields, flat, drifts, domain + {k})
  {
    var more := drifts + [d];
    assert forall n :: Reported(drifts, n) ==> Reported(more, n) by {
      forall n | Reported(drifts, n)
        ensures Reported(more, n)
      {
        var i :| 0 <= i < |drifts| && drifts[i].fieldName == n;
        assert more[i].fieldName == n;
      }
    }
    assert more[|drifts|].fieldName == k;
  }

  // ---------- The code ----------

  /** The drift_events table. */
  class DriftTable {
    var rows: seq<DriftEvent>

    constructor ()
      ensures rows == []
    {
      rows := [];
    }
  }

  /** The events whose insertion does not fail, in order. */
  function Stored(drifts: seq<DriftEvent>, insertFails: set<nat>): seq<DriftEvent> {
    if drifts == [] then []
    else Stored(Front(drifts), insertFails) + if |drifts| - 1 in insertFails then [] else [Last(drifts)]
  }

  method MissingFields(fields: map<string, Field>, flat: FlatMap, eventId: string, sourceId: string)
    returns (drifts: seq<DriftEvent>)
    ensures Reports(fields, flat, drifts, fields.Keys - flat.Keys)
    ensures forall i :: 0 <= i < |drifts| ==> drifts[i].eventId == eventId && drifts[i].sourceId == sourceId
  {
    drifts := [];
    var remaining := fields.Keys;
    while remaining != {}
      invariant remaining <= fields.Keys
      invariant Reports(fields, flat, drifts, (fields.Keys - remaining) - flat.Keys)
      invariant forall i :: 0 <= i < |drifts| ==> drifts[i].eventId == eventId && drifts[i].sourceId == sourceId
      decreases remaining
    {
      var name :| name in remaining;
      ghost var domain := (fields.Keys - remaining) - flat.Keys;
      var field := fields[name];
      var drift := DriftEvent(eventId, sourceId, name, FieldMissing(field.typ));
      if name !in flat {
        ReportsMore(fields, flat, drifts, domain, name, drift);
      }
      if !field.nullable && name !in flat {
        drifts := drifts + [drift];
      }
      remaining := remaining - {name};
      assert (fields.Keys - remaining) - flat.Keys == if name in flat then domain else domain + {name};
    }
    assert (fields.Keys - remaining) - flat.Keys == fields.Keys - flat.Keys;
  }

  method PresentFields(fields: map<string, Field>, flat: FlatMap, eventId: string, sourceId: string,
                       missing: seq<DriftEvent>)
    returns (drifts: seq<DriftEvent>)
    requires Reports(fields, flat, missing, fields.Keys - flat.Keys)
    requires forall i :: 0 <= i < |missing| ==> missing[i].eventId == eventId && missing[i].sourceId == sourceId
    ensures Reports(fields, flat, drifts, fields.Keys + flat.Keys)
    ensures forall i :: 0 <= i < |drifts| ==> drifts[i].eventId == eventId && drifts[i].sourceId == sourceId
  {
    drifts := missing;
    var remaining := flat.Keys;
    assert (fields.Keys - flat.Keys) + (flat.Keys - remaining) == fields.Keys - flat.Keys;
    while remaining != {}
      invariant remaining <= flat.Keys
      invariant Reports(fields, flat, drifts, (fields.Keys - flat.Keys) + (flat.Keys - remaining))
      invariant forall i :: 0 <= i < |drifts| ==> drifts[i].eventId == eventId && drifts[i].sourceId == sourceId
      decreases remaining
    {
      var name :| name in remaining;
      ghost var domain := (fields.Keys - flat.Keys) + (flat.Keys - remaining);
      var actualType := DetectType(flat[name]);
      var drift := DriftEvent(eventId, sourceId, name, NewField(actualType));
      if name in fields {
        drift := DriftEvent(eventId, sourceId, name, TypeChanged(fields[name].typ, actualType));
      }
      ReportsMore(fields, flat, drifts, domain, name, drift);
      if name !in fields || (fields[name].typ != actualType && actualType != NullType) {
        drifts := drifts + [drift];
      }
      remaining := remaining - {name};
      assert (fields.Keys - flat.Keys) + (flat.Keys - remaining) == domain + {name};
    }
    assert (fields.Keys - flat.Keys) + (flat.Keys - remaining) == fields.Keys + flat.Keys;
  }

  method CheckDrift(store: SchemaTable, table: DriftTable, sourceId: string, eventId: string, payload: FlatMap,
                    loadFails: bool, insertFails: set<nat>)
    returns (drifts: seq<DriftEvent>, ghost flat: FlatMap)
    modifies table
    ensures IsFlattening(payload, flat)
    ensures loadFails || sourceId !in store.rows || !store.rows[sourceId].locked ==> drifts == []
    ensures !loadFails && sourceId in store.rows && store.rows[sourceId].locked ==>
              var fields := store.rows[sourceId].fields;
              && Reports(fields, flat, drifts, fields.Keys + flat.Keys)
              && (drifts == [] <==> Conforms(fields, flat))
    ensures forall i :: 0 <= i < |drifts| ==> drifts[i].eventId == eventId && drifts[i].sourceId == sourceId
    ensures table.rows == old(table.rows) + Stored(drifts, insertFails)
    ensures insertFails == {} ==> table.rows == old(table.rows) + drifts
  {
    var flatMap := FlattenJSON(payload);
    flat := flatMap;
    drifts := [];
    var schema := store.GetPayloadSchema(sourceId, loadFails);
    if schema.None? || !schema.value.locked {
      return;
    }
    drifts := MissingFields(schema.value.fields, flatMap, eventId, sourceId);
    drifts := PresentFields(schema.value.fields, flatMap, eventId, sourceId, drifts);
    NoDriftIffConforms(schema.value.fields, flat, drifts);
    for i := 0 to |drifts|
      invariant table.rows == old(table.rows) + Stored(drifts[..i], insertFails)
    {
      assert Front(drifts[..i + 1]) == drifts[..i];
      if i !in insertFails {
        table.rows := table.rows + [drifts[i]];
      }
    }
    assert drifts[..|drifts|] == drifts;
    if insertFails == {} {
      AllStored(drifts);
    }
  }

  lemma {:induction false} AllStored(drifts: seq<DriftEvent>)
    ensures Stored(drifts, {}) == drifts
  {
    if drifts != [] {
      var n: nat := |drifts| - 1;
      AllStored(Front(drifts));
      assert n !in {};
      assert Stored(drifts, {}) == Front(drifts) + [Last(drifts)];
      assert drifts == Front(drifts) + [Last(drifts)];
    }
  }

  // ---------- What the report means ----------

  lemma NoDriftIffConforms(fields: map<string, Field>, flat: FlatMap, drifts: seq<DriftEvent>)
    requires Reports(fields, flat, drifts, fields.Keys + flat.Keys)
    ensures drifts == [] <==> Conforms(fields, flat)
  {
    if drifts == [] {
      forall k | k in fields.Keys + flat.Keys
        ensures DriftOf(fields, flat, k) == None
      {
        assert !Reported(drifts, k);
      }
      forall k | k in fields && !fields[k].nullable
        ensures k in flat
      {
        assert DriftOf(fields, flat, k) == None;
      }
      forall k | k in flat
        ensures k in fields && (flat[k] != Null ==> fields[k].typ == DetectType(flat[k]))
      {
        assert DriftOf(fields, flat, k) == None;
      }
    } else {
      var k := drifts[0].fieldName;
      assert k in fields.Keys + flat.Keys && DriftOf(fields, flat, k).Some?;
    }
  }

  /**
   A payload whose flattening was one of the samples of the schema never misses a field and never
   has a new one, however its second flattening is ordered.
   */
  lemma TrainingSampleKeys(sourceId: string, samples: seq<FlatMap>, minSamples: int, i: nat,
                           payload: FlatMap, again: FlatMap, k: string)
    requires i < |samples| && IsFlattening(payload, samples[i]) && IsFlattening(payload, again)
    ensures var drift := DriftOf(Summary(sourceId, samples, minSamples).fields, again, k);
            drift.Some? ==> drift.value.TypeChanged?
  {
    FlattenedKeysAgree(payload, samples[i], again);
    AllKeysMember(samples, k);
    if k in AllKeys(samples) && !SummaryField(samples, k).nullable {
      assert k in samples[i];
    }
    if k in again {
      assert k in samples[i];
    }
  }

  /** Right after a sample was folded in, the same flattening conforms. */
  lemma ObservedConforms(s: Schema, flat: FlatMap, minSamples: int)
    ensures Conforms(Observe(s, flat, minSamples).fields, flat)
  {
  }

  /** Entries that print alike have the same type. */
  ghost predicate TypesAgree(data: FlatMap) {
    forall p, v, q, u ::
      Emits(data, p, v) && Emits(data, q, u) && Print(p) == Print(q) ==> DetectType(v) == DetectType(u)
  }

  /**
   The payload that has just been folded in, flattened a second time for the check, conforms to
   whatever schema was learned so far, provided the schema is now locked: otherwise nothing is checked.
   */
  ghost predicate NeverDriftsAtOnce(data: FlatMap, minSamples: int) {
    forall source: string, xs: seq<FlatMap>, r, r' | IsFlattening(data, r) && IsFlattening(data, r') ::
      Learns(source, xs, r, minSamples) ==>
        Conforms(Observe(Summary(source, xs, minSamples), r, minSamples).fields, r')
  }

  /** The sample r is still learned after xs, and locks the schema. */
  ghost predicate Learns(source: string, xs: seq<FlatMap>, r: FlatMap, minSamples: int) {
    && !Summary(source, xs, minSamples).locked
    && Observe(Summary(source, xs, minSamples), r, minSamples).locked
  }

  lemma ConformsByTypes(fields: map<string, Field>, r: FlatMap, r': FlatMap)
    requires Conforms(fields, r) && r.Keys == r'.Keys
    requires forall k :: k in r ==> DetectType(r[k]) == DetectType(r'[k])
    ensures Conforms(fields, r')
  {
  }

  /** As many samples of nothing as are needed before the last one. */
  function EmptySamples(minSamples: int): seq<FlatMap> {
    seq(LockPoint(minSamples) - 1, i => map[])
  }

  lemma LastSampleLearns(source: string, r: FlatMap, minSamples: int)
    ensures Learns(source, EmptySamples(minSamples), r, minSamples)
  {
    ObserveSummary(source, EmptySamples(minSamples), r, minSamples);
  }

  lemma {:induction false} NothingSeen(xs: seq<FlatMap>, k: string)
    requires forall i :: 0 <= i < |xs| ==> xs[i] == map[]
    ensures k !in AllKeys(xs)
  {
    AllKeysMember(xs, k);
  }

  lemma LastSampleTypes(source: string, r: FlatMap, k: string, minSamples: int)
    requires k in r
    ensures var fields := Observe(Summary(source, EmptySamples(minSamples), minSamples), r, minSamples).fields;
            k in fields && fields[k].typ == DetectType(r[k])
  {
    NothingSeen(EmptySamples(minSamples), k);
  }

  lemma AgreeingTypesConform(data: FlatMap, minSamples: int, s: Schema, r: FlatMap, r': FlatMap)
    requires TypesAgree(data) && IsFlattening(data, r) && IsFlattening(data, r')
    ensures Conforms(Observe(s, r, minSamples).fields, r')
  {
    FlattenedKeysAgree(data, r, r');
    forall k | k in r
      ensures DetectType(r[k]) == DetectType(r'[k])
    {
      FlattenedEntries(data, r, k);
      FlattenedEntries(data, r', k);
    }
    ObservedConforms(s, r, minSamples);
    ConformsByTypes(Observe(s, r, minSamples).fields, r, r');
  }

  lemma ConformingTypesAgree(data: FlatMap, minSamples: int, p: Path, v: Json, q: Path, u: Json)
    requires NeverDriftsAtOnce(data, minSamples)
    requires Emits(data, p, v) && Emits(data, q, u) && Print(p) == Print(q)
    ensures DetectType(v) == DetectType(u)
  {
    var r := EntryCanWin(data, p, v);
    var r' := EntryCanWin(data, q, u);
    var xs := EmptySamples(minSamples);
    LastSampleLearns("", r, minSamples);
    LastSampleLearns("", r', minSamples);
    LastSampleTypes("", r, Print(p), minSamples);
    LastSampleTypes("", r', Print(p), minSamples);
    assert Conforms(Observe(Summary("", xs, minSamples), r, minSamples).fields, r');
    assert Conforms(Observe(Summary("", xs, minSamples), r', minSamples).fields, r);
  }

  /** Exactly when a freshly learned payload can never be reported as drifting. */
  lemma NoImmediateDriftIff(data: FlatMap, minSamples: int)
    ensures NeverDriftsAtOnce(data, minSamples) <==> TypesAgree(data)
  {
    if TypesAgree(data) {
      forall source: string, xs: seq<FlatMap>, r, r' | IsFlattening(data, r) && IsFlattening(data, r')
        ensures Conforms(Observe(Summary(source, xs, minSamples), r, minSamples).fields, r')
      {
        AgreeingTypesConform(data, minSamples, Summary(source, xs, minSamples), r, r');
      }
    }
    if NeverDriftsAtOnce(data, minSamples) {
      forall p, v, q, u | Emits(data, p, v) && Emits(data, q, u) && Print(p) == Print(q)
        ensures DetectType(v) == DetectType(u)
      {
        ConformingTypesAgree(data, minSamples, p, v, q, u);
      }
    }
  }

  /** In particular unambiguous payloads never drift right after being learned. */
  lemma UnambiguousNeverDriftsAtOnce(data: FlatMap, minSamples: int)
    requires NoClash(data)
    ensures NeverDriftsAtOnce(data, minSamples)
  {
    assert TypesAgree(data);
    NoImmediateDriftIff(data, minSamples);
  }

  // ---------- What is reported, said on the values ----------

  /** Each field is reported, with which kind, exactly as the fields and the payload tell. */
  lemma ReportedIff(fields: map<string, Field>, flat: FlatMap, drifts: seq<DriftEvent>, k: string)
    requires Reports(fields, flat, drifts, fields.Keys + flat.Keys)
    ensures Reported(drifts, k) <==>
              || (k in fields && !fields[k].nullable && k !in flat)
              || (k in flat && k !in fields)
              || (k in flat && k in fields && flat[k] != Null && fields[k].typ != DetectType(flat[k]))
    ensures forall i :: 0 <= i < |drifts| && drifts[i].fieldName == k ==>
              && (k !in flat ==> k in fields && drifts[i].kind == FieldMissing(fields[k].typ))
              && (k in flat && k !in fields ==> drifts[i].kind == NewField(DetectType(flat[k])))
              && (k in flat && k in fields ==> drifts[i].kind == TypeChanged(fields[k].typ, DetectType(flat[k])))
  {
    if Reported(drifts, k) {
      var i :| 0 <= i < |drifts| && drifts[i].fieldName == k;
      assert DriftOf(fields, flat, k) == Some(drifts[i].kind);
    }
    assert DriftOf(fields, flat, k).Some? ==> k in fields.Keys + flat.Keys;
  }

  /**
   Against a learned schema: a value of a field that was last learned from the value u is reported if
   and only if it is not null and of another kind than u, with both types; and a field only ever
   learned as null is reported for every other value.
   */
  lemma TypeChangedIff(sourceId: string, samples: seq<FlatMap>, minSamples: int, flat: FlatMap,
                       drifts: seq<DriftEvent>, k: string, i: int)
    requires var fields := Summary(sourceId, samples, minSamples).fields;
             Reports(fields, flat, drifts, fields.Keys + flat.Keys)
    requires k in flat && (exists j :: 0 <= j < |samples| && k in samples[j]) && IsLatest(samples, k, i)
    ensures Reported(drifts, k) <==> flat[k] != Null && (i == -1 || !SameKind(flat[k], samples[i][k]))
    ensures forall j :: 0 <= j < |drifts| && drifts[j].fieldName == k ==>
              drifts[j].kind ==
              TypeChanged(if i == -1 then NullType else DetectType(samples[i][k]), DetectType(flat[k]))
  {
    var fields := Summary(sourceId, samples, minSamples).fields;
    ReportedIff(fields, flat, drifts, k);
    AllKeysMember(samples, k);
    LatestTypeOfValue(samples, k, i);
    if i >= 0 {
      SameTypeIff(flat[k], samples[i][k]);
    }
  }

  /** A missing field is reported if and only if every sample had it; a new one if and only if none had. */
  lemma MissingOrNewIff(sourceId: string, samples: seq<FlatMap>, minSamples: int, flat: FlatMap,
                        drifts: seq<DriftEvent>, k: string)
    requires var fields := Summary(sourceId, samples, minSamples).fields;
             Reports(fields, flat, drifts, fields.Keys + flat.Keys)
    requires samples != []
    ensures k !in flat ==> (Reported(drifts, k) <==> forall j :: 0 <= j < |samples| ==> k in samples[j])
    ensures k in flat && (forall j :: 0 <= j < |samples| ==> k !in samples[j]) ==> Reported(drifts, k)
  {
    ReportedIff(Summary(sourceId, samples, minSamples).fields, flat, drifts, k);
    AllKeysMember(samples, k);
    if forall j :: 0 <= j < |samples| ==> k in samples[j] {
      assert k in samples[0];
    }
  }
}
