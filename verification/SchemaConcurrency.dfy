/**
 Many delivery workers run UpdateSchema with no lock around its load and its save
 (internal/delivery/engine.go and internal/schema/inference.go). Every interleaving, with any
 loads or saves failing and any worker dying between the two, is a sequence of actions here.
 */
module SchemaConcurrency {
  import opened Common
  import opened JsonValues
  import opened Flatten
  import opened SchemaInference

  /** A worker between its load and its save. */
  datatype Pending = Pending(source: string, flat: FlatMap, snapshot: Schema)

  datatype State = State(
    rows: map<string, Schema>,
    workers: map<nat, Pending>,
    saved: map<string, seq<FlatMap>>)  // history: flattened payloads successfully saved, per source

  datatype Action =
    | Load(worker: nat, source: string, flat: FlatMap, fails: bool)
    | Save(worker: nat, fails: bool)
    | Die(worker: nat)

  function Init(): State {
    State(map[], map[], map[])
  }

  function SavedOf(s: State, source: string): seq<FlatMap> {
    if source in s.saved then s.saved[source] else []
  }

  /** A worker that loads a locked schema returns at once; actions of absent workers do nothing. */
  function Next(s: State, a: Action, minSamples: int): State {
    match a
    case Load(w, source, flat, fails) =>
      var existing := Loaded(s.rows, source, fails);
      if w in s.workers || existing.locked then s
      else s.(workers := s.workers[w := Pending(source, flat, existing)])
    case Save(w, fails) =>
      if w !in s.workers then s
      else
        var p := s.workers[w];
        var done := s.(workers := s.workers - {w});
        if fails then done
        else done.(rows := s.rows[p.source := Observe(p.snapshot, p.flat, minSamples)],
                   saved := s.saved[p.source := SavedOf(s, p.source) + [p.flat]])
    case Die(w) => s.(workers := s.workers - {w})
  }

  function Run(s: State, actions: seq<Action>, minSamples: int): State
    decreases |actions|
  {
    if actions == [] then s else Next(Run(s, Front(actions), minSamples), Last(actions), minSamples)
  }

  /** A load and a save with nothing in between are one call of UpdateSchema. */
  lemma AloneIsUpdateSchema(s: State, w: nat, source: string, flat: FlatMap, minSamples: int,
                            loadFails: bool, saveFails: bool)
    requires w !in s.workers
    requires source in s.rows ==> s.rows[source].sourceId == source
    ensures Next(Next(s, Load(w, source, flat, loadFails), minSamples), Save(w, saveFails), minSamples).rows ==
            Updated(s.rows, source, flat, minSamples, loadFails, saveFails)
  {
  }

  // ---------- Every stored schema is a summary of saved payloads ----------

  /** The samples xs explain schema: it is their summary, and they were saved, in this order. */
  ghost predicate Explains(s: State, source: string, schema: Schema, xs: seq<FlatMap>, minSamples: int) {
    && Subsequence(xs, SavedOf(s, source))
    && schema == Summary(source, xs, minSamples)
    && |xs| <= LockPoint(minSamples)
  }

  ghost predicate Explained(s: State, source: string, schema: Schema, minSamples: int) {
    exists xs :: Explains(s, source, schema, xs, minSamples)
  }

  ghost predicate Inv(s: State, minSamples: int) {
    && (forall source :: source in s.rows ==>
          Explained(s, source, s.rows[source], minSamples) && s.rows[source].sampleCount >= 1)
    && (forall w :: w in s.workers ==>
          Explained(s, s.workers[w].source, s.workers[w].snapshot, minSamples) && !s.workers[w].snapshot.locked)
  }

  lemma FreshExplained(s: State, source: string, minSamples: int)
    ensures Explained(s, source, Fresh(source), minSamples)
  {
    SummaryOfNone(source, minSamples);
    SubsequenceOfAny(SavedOf(s, source));
    assert Explains(s, source, Fresh(source), [], minSamples);
  }

  /** Appending to the save log keeps explanations. */
  lemma ExplainedLater(s: State, t: State, source: string, schema: Schema, flat: FlatMap, minSamples: int)
    requires Explained(s, source, schema, minSamples)
    requires SavedOf(t, source) == SavedOf(s, source) || SavedOf(t, source) == SavedOf(s, source) + [flat]
    ensures Explained(t, source, schema, minSamples)
  {
    var xs :| Explains(s, source, schema, xs, minSamples);
    SubsequenceSkip(xs, SavedOf(s, source), flat);
    assert Explains(t, source, schema, xs, minSamples);
  }

  lemma SaveExplained(s: State, t: State, p: Pending, minSamples: int)
    requires Explained(s, p.source, p.snapshot, minSamples) && !p.snapshot.locked
    requires SavedOf(t, p.source) == SavedOf(s, p.source) + [p.flat]
    ensures Explained(t, p.source, Observe(p.snapshot, p.flat, minSamples), minSamples)
  {
    var xs :| Explains(s, p.source, p.snapshot, xs, minSamples);
    ObserveSummary(p.source, xs, p.flat, minSamples);
    SubsequenceTake(xs, SavedOf(s, p.source), p.flat);
    assert Explains(t, p.source, Observe(p.snapshot, p.flat, minSamples), xs + [p.flat], minSamples);
  }

  lemma LoadKeepsInv(s: State, a: Action, minSamples: int)
    requires Inv(s, minSamples) && a.Load?
    ensures Inv(Next(s, a, minSamples), minSamples)
  {
    var t := Next(s, a, minSamples);
    FreshExplained(s, a.source, minSamples);
    forall w | w in t.workers
      ensures Explained(t, t.workers[w].source, t.workers[w].snapshot, minSamples)
    {
      ExplainedLater(s, t, t.workers[w].source, t.workers[w].snapshot, map[], minSamples);
    }
    forall source | source in t.rows
      ensures Explained(t, source, t.rows[source], minSamples)
    {
      ExplainedLater(s, t, source, t.rows[source], map[], minSamples);
    }
  }

  /** What a save that goes through does to the log. */
  lemma SaveLogs(s: State, w: nat, minSamples: int, source: string)
    requires w in s.workers
    ensures var t, p := Next(s, Save(w, false), minSamples), s.workers[w];
            SavedOf(t, source) == if source == p.source then SavedOf(s, source) + [p.flat] else SavedOf(s, source)
  {
  }

  lemma SaveKeepsInv(s: State, w: nat, minSamples: int)
    requires Inv(s, minSamples) && w in s.workers
    ensures Inv(Next(s, Save(w, false), minSamples), minSamples)
  {
    var t, p := Next(s, Save(w, false), minSamples), s.workers[w];
    forall v | v in t.workers
      ensures Explained(t, t.workers[v].source, t.workers[v].snapshot, minSamples)
    {
      SaveLogs(s, w, minSamples, t.workers[v].source);
      ExplainedLater(s, t, t.workers[v].source, t.workers[v].snapshot, p.flat, minSamples);
    }
    forall source | source in t.rows
      ensures Explained(t, source, t.rows[source], minSamples)
    {
      SaveLogs(s, w, minSamples, source);
      if source == p.source {
        SaveExplained(s, t, p, minSamples);
      } else {
        ExplainedLater(s, t, source, t.rows[source], p.flat, minSamples);
      }
    }
  }

  /** A worker that dies or whose save fails leaves rows and log as they are. */
  lemma DropKeepsInv(s: State, t: State, w: nat, minSamples: int)
    requires Inv(s, minSamples) && t == s.(workers := s.workers - {w})
    ensures Inv(t, minSamples)
  {
    forall source, schema | Explained(s, source, schema, minSamples)
      ensures Explained(t, source, schema, minSamples)
    {
      ExplainedLater(s, t, source, schema, map[], minSamples);
    }
  }

  lemma StepKeepsInv(s: State, a: Action, minSamples: int)
    requires Inv(s, minSamples)
    ensures Inv(Next(s, a, minSamples), minSamples)
  {
    match a {
      case Load(_, _, _, _) => LoadKeepsInv(s, a, minSamples);
      case Save(w, fails) =>
        if w in s.workers {
          if fails {
            DropKeepsInv(s, Next(s, a, minSamples), w, minSamples);
          } else {
            SaveKeepsInv(s, w, minSamples);
          }
        }
      case Die(w) => DropKeepsInv(s, Next(s, a, minSamples), w, minSamples);
    }
  }

  lemma {:induction false} RunKeepsInv(actions: seq<Action>, minSamples: int)
    ensures Inv(Run(Init(), actions, minSamples), minSamples)
  {
    if actions != [] {
      RunKeepsInv(Front(actions), minSamples);
      StepKeepsInv(Run(Init(), Front(actions), minSamples), Last(actions), minSamples);
    }
  }

  /**
   Under every interleaving, each stored schema is the closed-form summary of a non-empty
   subsequence, in save order, of the payloads saved for its source, no longer than the lock point.
   */
  lemma InterleavedLearning(actions: seq<Action>, minSamples: int, source: string) returns (xs: seq<FlatMap>)
    requires source in Run(Init(), actions, minSamples).rows
    ensures var s := Run(Init(), actions, minSamples);
            && Subsequence(xs, SavedOf(s, source))
            && s.rows[source] == Summary(source, xs, minSamples)
            && 1 <= |xs| <= LockPoint(minSamples)
            && s.rows[source].sampleCount == |xs|
            && (s.rows[source].locked <==> |xs| == LockPoint(minSamples))
            && |xs| <= (if minSamples <= 1 then 1 else minSamples)
            && (s.rows[source].locked <==> |xs| >= minSamples)
  {
    RunKeepsInv(actions, minSamples);
    var s := Run(Init(), actions, minSamples);
    xs :| Explains(s, source, s.rows[source], xs, minSamples);
  }

  // ---------- When a lock is final ----------

  ghost predicate NoFailedLoads(actions: seq<Action>, source: string) {
    forall i :: 0 <= i < |actions| ==> !(actions[i].Load? && actions[i].source == source && actions[i].fails)
  }

  /** Whatever happens next without a failed load, the source's row keeps its value. */
  ghost predicate LockIsFinal(s: State, source: string, minSamples: int)
    requires source in s.rows
  {
    forall actions :: NoFailedLoads(actions, source) ==>
      source in Run(s, actions, minSamples).rows && Run(s, actions, minSamples).rows[source] == s.rows[source]
  }

  /** Every worker in flight for the source would write what is already there. */
  ghost predicate NoStaleWriter(s: State, source: string, minSamples: int)
    requires source in s.rows
  {
    forall w :: w in s.workers && s.workers[w].source == source ==>
      Observe(s.workers[w].snapshot, s.workers[w].flat, minSamples) == s.rows[source]
  }

  lemma {:induction false} NoStaleWriterStays(s: State, source: string, actions: seq<Action>, minSamples: int)
    requires source in s.rows && s.rows[source].locked
    requires NoStaleWriter(s, source, minSamples) && NoFailedLoads(actions, source)
    ensures var t := Run(s, actions, minSamples);
            source in t.rows && t.rows[source] == s.rows[source] && NoStaleWriter(t, source, minSamples)
    decreases |actions|
  {
    if actions != [] {
      assert forall i :: 0 <= i < |Front(actions)| ==> Front(actions)[i] == actions[i];
      NoStaleWriterStays(s, source, Front(actions), minSamples);
    }
  }

  lemma LockFinalIff(s: State, source: string, minSamples: int)
    requires source in s.rows && s.rows[source].locked
    ensures LockIsFinal(s, source, minSamples) <==> NoStaleWriter(s, source, minSamples)
  {
    if NoStaleWriter(s, source, minSamples) {
      forall actions | NoFailedLoads(actions, source)
        ensures source in Run(s, actions, minSamples).rows
        ensures Run(s, actions, minSamples).rows[source] == s.rows[source]
      {
        NoStaleWriterStays(s, source, actions, minSamples);
      }
    }
    if LockIsFinal(s, source, minSamples) {
      forall w | w in s.workers && s.workers[w].source == source
        ensures Observe(s.workers[w].snapshot, s.workers[w].flat, minSamples) == s.rows[source]
      {
        var actions := [Save(w, false)];
        assert NoFailedLoads(actions, source);
        assert Front(actions) == [] && Run(s, [], minSamples) == s;
        assert Run(s, actions, minSamples) == Next(s, Save(w, false), minSamples);
      }
    }
  }

  /** Two workers load before either saves, and one of them saves. */
  ghost function TwoLoadsOneSave(source: string, flat: FlatMap): seq<Action> {
    [] + [Load(0, source, flat, false)] + [Load(1, source, flat, false)] + [Save(1, false)]
  }

  lemma AfterTwoLoads(source: string, flat: FlatMap)
    ensures var s := Run(Init(), TwoLoadsOneSave(source, flat), 2);
            && s.rows == map[source := Observe(Fresh(source), flat, 2)]
            && s.workers == map[0 := Pending(source, flat, Fresh(source))]
  {
    var a0, a1, a2 := Load(0, source, flat, false), Load(1, source, flat, false), Save(1, false);
    RunStep(Init(), [], a0, 2);
    RunStep(Init(), [] + [a0], a1, 2);
    RunStep(Init(), [] + [a0] + [a1], a2, 2);
    var p := Pending(source, flat, Fresh(source));
    assert Next(Next(Init(), a0, 2), a1, 2).workers == map[0 := p, 1 := p];
  }

  /** A worker that loaded before the lock can replace a locked schema by an unlocked one. */
  lemma LockCanBeLost(source: string, flat: FlatMap) returns (actions: seq<Action>, last: Action)
    ensures NoFailedLoads(actions + [last], source)
    ensures var s := Run(Init(), actions, 2);
            && source in s.rows && s.rows[source].locked
            && source in Next(s, last, 2).rows && !Next(s, last, 2).rows[source].locked
  {
    var start, a3, a4 := TwoLoadsOneSave(source, flat), Load(2, source, flat, false), Save(2, false);
    actions, last := start + [a3] + [a4], Save(0, false);
    AfterTwoLoads(source, flat);
    RunStep(Init(), start, a3, 2);
    RunStep(Init(), start + [a3], a4, 2);
  }

  // ---------- A failed load counts as no schema ----------

  lemma FreeWorker(workers: map<nat, Pending>) returns (w: nat)
    ensures w !in workers
  {
    w := Above(workers.Keys);
  }

  lemma {:induction false} Above(ws: set<nat>) returns (bound: nat)
    ensures forall w :: w in ws ==> w < bound
    decreases |ws|
  {
    if ws == {} {
      bound := 0;
    } else {
      var w :| w in ws;
      bound := Above(ws - {w});
      assert forall v :: v in ws ==> v == w || v in ws - {w};
      bound := if w < bound then bound else w + 1;
    }
  }

  /** A load that fails, and the save that follows. */
  function Restart(w: nat, source: string, flat: FlatMap): seq<Action> {
    [Load(w, source, flat, true), Save(w, false)]
  }

  /** They put a schema of one sample in place of any row. */
  lemma FailedLoadStartsOver(s: State, before: seq<Action>, w: nat, source: string, flat: FlatMap, minSamples: int)
    requires w !in Run(s, before, minSamples).workers
    ensures var t := Run(s, before + Restart(w, source, flat), minSamples);
            source in t.rows && t.rows[source] == Observe(Fresh(source), flat, minSamples)
  {
    var load, save := Load(w, source, flat, true), Save(w, false);
    RunStep(s, before, load, minSamples);
    RunStep(s, before + [load], save, minSamples);
    assert (before + [load]) + [save] == before + Restart(w, source, flat);
    RestartedRow(Run(s, before, minSamples), w, source, flat, minSamples);
  }

  lemma RestartedRow(s: State, w: nat, source: string, flat: FlatMap, minSamples: int)
    requires w !in s.workers
    ensures Next(Next(s, Load(w, source, flat, true), minSamples), Save(w, false), minSamples).rows ==
            s.rows[source := Observe(Fresh(source), flat, minSamples)]
  {
  }

  /** So with one failed load no row is final, locked or not, in any state. */
  lemma NoLockSurvivesFailedLoad(s: State, source: string, minSamples: int) returns (w: nat, flat: FlatMap)
    requires source in s.rows
    ensures var t := Run(s, Restart(w, source, flat), minSamples);
            source in t.rows && t.rows[source] != s.rows[source]
  {
    w := FreeWorker(s.workers);
    flat := if s.rows[source].fields == map[] then map["id" := Null] else map[];
    assert Run(s, [], minSamples) == s;
    FailedLoadStartsOver(s, [], w, source, flat, minSamples);
    assert [] + Restart(w, source, flat) == Restart(w, source, flat);
    var learned := Observe(Fresh(source), flat, minSamples).fields;
    if s.rows[source].fields == map[] {
      assert "id" in flat && "id" in learned;
    } else {
      assert learned == map[];
    }
  }

  /** A run in which a failed load unlocks a locked schema. */
  lemma FailedLoadUnlocks(source: string, flat: FlatMap) returns (actions: seq<Action>, w: nat)
    ensures var s, t := Run(Init(), actions, 2), Run(Init(), actions + Restart(w, source, flat), 2);
            && NoFailedLoads(actions, source)
            && source in s.rows && s.rows[source].locked
            && source in t.rows && !t.rows[source].locked && t.rows[source].sampleCount == 1
  {
    var last;
    actions, last := LockCanBeLost(source, flat);
    assert forall i :: 0 <= i < |actions| ==> actions[i] == (actions + [last])[i];
    w := FreeWorker(Run(Init(), actions, 2).workers);
    FailedLoadStartsOver(Init(), actions, w, source, flat, 2);
  }

  lemma RunStep(s: State, actions: seq<Action>, a: Action, minSamples: int)
    ensures Run(s, actions + [a], minSamples) == Next(Run(s, actions, minSamples), a, minSamples)
  {
    assert Front(actions + [a]) == actions;
  }
}
