/** The difference between two flattened payloads (computeDiffAsync in internal/delivery/engine.go). */
module PayloadDiff {
  import opened Common
  import opened JsonValues
  import opened Flatten

  datatype Change = Change(field: string, oldValue: Json, newValue: Json)

  datatype Diff = Diff(added: FlatMap, removed: FlatMap, changed: seq<Change>)

  /** fmt.Sprintf("%v"). */
  type Renderer = Json -> string

  /** Fields present on both sides whose renderings differ, each once. */
  ghost predicate Changes(render: Renderer, current: FlatMap, previous: FlatMap, changed: seq<Change>,
                          domain: set<string>)
  {
    && (forall i :: 0 <= i < |changed| ==>
          var k := changed[i].field;
          && k in domain && k in current && k in previous
          && changed[i] == Change(k, previous[k], current[k])
          && render(previous[k]) != render(current[k]))
    && (forall i, j :: 0 <= i < j < |changed| ==> changed[i].field != changed[j].field)
    && (forall k :: k in domain && k in current && k in previous && render(previous[k]) != render(current[k]) ==>
          Mentions(changed, k))
  }

  ghost predicate Mentions(changed: seq<Change>, k: string) {
    exists i :: 0 <= i < |changed| && changed[i].field == k
  }

  ghost predicate IsDiff(render: Renderer, current: FlatMap, previous: FlatMap, d: Diff) {
    && d.added == (map k | k in current && k !in previous :: current[k])
    && d.removed == (map k | k in previous && k !in current :: previous[k])
    && Changes(render, current, previous, d.changed, current.Keys)
  }

  lemma ChangesMore(render: Renderer, current: FlatMap, previous: FlatMap, changed: seq<Change>,
                    domain: set<string>, k: string)
    requires Changes(render, current, previous, changed, domain) && k in current && k !in domain
    ensures var more := k in previous && render(previous[k]) != render(current[k]);
            Changes(render, current, previous,
                    if more then changed + [Change(k, previous[k], current[k])] else changed, domain + {k})
  {
    if k in previous && render(previous[k]) != render(current[k]) {
      var more := changed + [Change(k, previous[k], current[k])];
      assert more[|changed|].field == k;
      forall n | Mentions(changed, n)
        ensures Mentions(more, n)
      {
        var i :| 0 <= i < |changed| && changed[i].field == n;
        assert more[i].field == n;
      }
    }
  }

  /** First loop: over the current payload. */
  method AddedAndChanged(render: Renderer, current: FlatMap, previous: FlatMap)
    returns (added: FlatMap, changed: seq<Change>)
    ensures added == map k | k in current && k !in previous :: current[k]
    ensures Changes(render, current, previous, changed, current.Keys)
  {
    added, changed := map[], [];
    var remaining := current.Keys;
    while remaining != {}
      invariant remaining <= current.Keys
      invariant added == map k | k in current && k !in previous && k !in remaining :: current[k]
      invariant Changes(render, current, previous, changed, current.Keys - remaining)
      decreases remaining
    {
      var k :| k in remaining;
      ChangesMore(render, current, previous, changed, current.Keys - remaining, k);
      if k !in previous {
        added := added[k := current[k]];
      } else if render(current[k]) != render(previous[k]) {
        changed := changed + [Change(k, previous[k], current[k])];
      }
      assert (current.Keys - remaining) + {k} == current.Keys - (remaining - {k});
      remaining := remaining - {k};
    }
    assert current.Keys - remaining == current.Keys;
  }

  /** Second loop: over the previous payload. */
  method RemovedFields(current: FlatMap, previous: FlatMap) returns (removed: FlatMap)
    ensures removed == map k | k in previous && k !in current :: previous[k]
  {
    removed := map[];
    var remaining := previous.Keys;
    while remaining != {}
      invariant remaining <= previous.Keys
      invariant removed == map k | k in previous && k !in current && k !in remaining :: previous[k]
      decreases remaining
    {
      var k :| k in remaining;
      if k !in current {
        removed := removed[k := previous[k]];
      }
      remaining := remaining - {k};
    }
  }

  method ComputeDiff(render: Renderer, current: FlatMap, previous: FlatMap) returns (d: Diff)
    ensures IsDiff(render, current, previous, d)
  {
    var added, changed := AddedAndChanged(render, current, previous);
    var removed := RemovedFields(current, previous);
    d := Diff(added, removed, changed);
  }

  // ---------- Applying a diff ----------

  function ApplyChanges(m: FlatMap, changed: seq<Change>): FlatMap {
    if changed == [] then m else ApplyChanges(m, Front(changed))[Last(changed).field := Last(changed).newValue]
  }

  function ApplyDiff(m: FlatMap, d: Diff): FlatMap {
    ApplyChanges((m - d.removed.Keys) + d.added, d.changed)
  }

  lemma {:induction false} ChangesApplied(m: FlatMap, changed: seq<Change>, k: string)
    requires forall i, j :: 0 <= i < j < |changed| ==> changed[i].field != changed[j].field
    ensures !Mentions(changed, k) ==> (k in ApplyChanges(m, changed) <==> k in m)
    ensures !Mentions(changed, k) && k in m ==> ApplyChanges(m, changed)[k] == m[k]
    ensures forall i :: 0 <= i < |changed| && changed[i].field == k ==>
              k in ApplyChanges(m, changed) && ApplyChanges(m, changed)[k] == changed[i].newValue
  {
    if changed != [] {
      ChangesApplied(m, Front(changed), k);
      if Mentions(Front(changed), k) {
        var i :| 0 <= i < |Front(changed)| && Front(changed)[i].field == k;
        assert changed[i].field == k;
      }
      if Last(changed).field == k {
        assert changed[|changed| - 1].field == k;
      }
    }
  }

  /** The previous payload with the diff applied has the current keys and renders like the current one. */
  lemma DiffTakesPreviousToCurrent(render: Renderer, current: FlatMap, previous: FlatMap, d: Diff)
    requires IsDiff(render, current, previous, d)
    ensures ApplyDiff(previous, d).Keys == current.Keys
    ensures forall k :: k in current ==> render(ApplyDiff(previous, d)[k]) == render(current[k])
  {
    var m := (previous - d.removed.Keys) + d.added;
    forall k
      ensures k in ApplyDiff(previous, d) <==> k in current
      ensures k in current ==> render(ApplyDiff(previous, d)[k]) == render(current[k])
    {
      ChangesApplied(m, d.changed, k);
    }
  }

  lemma DiffPartsDisjoint(render: Renderer, current: FlatMap, previous: FlatMap, d: Diff)
    requires IsDiff(render, current, previous, d)
    ensures d.added.Keys !! d.removed.Keys
    ensures forall i :: 0 <= i < |d.changed| ==> d.changed[i].field !in d.added && d.changed[i].field !in d.removed
  {
  }

  /** Nothing is reported exactly when the two payloads agree up to rendering. */
  lemma EmptyDiffIff(render: Renderer, current: FlatMap, previous: FlatMap, d: Diff)
    requires IsDiff(render, current, previous, d)
    ensures d == Diff(map[], map[], []) <==>
            current.Keys == previous.Keys && forall k :: k in current ==> render(current[k]) == render(previous[k])
  {
    if d == Diff(map[], map[], []) {
      forall k
        ensures k in current <==> k in previous
        ensures k in current ==> render(current[k]) == render(previous[k])
      {
        assert k !in d.added && k !in d.removed && !Mentions(d.changed, k);
      }
    } else if d.added != map[] {
      var k :| k in d.added;
      assert k in current && k !in previous;
    } else if d.removed != map[] {
      var k :| k in d.removed;
      assert k in previous && k !in current;
    } else {
      var k := d.changed[0].field;
      assert k in current && render(previous[k]) != render(current[k]);
    }
  }
}
