/**
 The dead-letter table and list, and the retry and discard handlers
 (internal/api/handlers_dashboard.go, moveToDLQ in internal/delivery/engine.go).
 */
module DeadLetters {
  import opened Common
  import opened Queues
  import opened DeadRows

  function ResolveAll(rows: seq<DeadRow>, id: EventId): (r: seq<DeadRow>)
    ensures |r| == |rows| && forall i :: 0 <= i < |rows| ==> r[i] == Resolve(rows[i], id)
  {
    seq(|rows|, i requires 0 <= i < |rows| => Resolve(rows[i], id))
  }

  class DeadLetterTable {
    var rows: seq<DeadRow>

    constructor ()
      ensures rows == []
    {
      rows := [];
    }

    method InsertDeadLetterEntry(id: EventId, dest: DestId, fails: bool)
      modifies this
      ensures rows == if fails then old(rows) else old(rows) + [DeadRow(id, dest, false)]
    {
      if !fails {
        rows := rows + [DeadRow(id, dest, false)];
      }
    }

    method ResolveDLQEntry(id: string, fails: bool) returns (ok: bool)
      modifies this
      ensures ok == !fails
      ensures rows == if fails then old(rows) else ResolveAll(old(rows), id)
    {
      ok := !fails;
      if !fails {
        rows := ResolveAll(rows, id);
      }
    }
  }

  method MoveToDLQ(queue: RedisQueue, table: DeadLetterTable, event: Event, dest: DestId,
                   pushFails: bool, insertFails: bool)
    requires queue.Valid()
    modifies queue, table
    ensures queue.Valid()
    ensures queue.lists == if pushFails then old(queue.lists)
                           else old(queue.lists)[DeadLetter := old(queue.lists[DeadLetter]) + [queue.encode(event)]]
    ensures table.rows == if insertFails then old(table.rows) else old(table.rows) + [DeadRow(event.id, dest, false)]
  {
    var _ := queue.Enqueue(DeadLetter, event, pushFails);
    table.InsertDeadLetterEntry(event.id, dest, insertFails);
  }

  datatype Reply = Retrying | NotFound | ServerError | Discarded

  /**
   Retry moves exactly the first matching entry to the delivery list and keeps all others in order.
   */
  method HandleRetryDLQ(queue: RedisQueue, table: DeadLetterTable, id: string, findFails: bool,
                        enqueueFails: bool, removeFails: bool, resolveFails: bool) returns (reply: Reply)
    requires queue.Valid()
    modifies queue, table
    ensures queue.Valid()
    ensures var l := old(queue.lists[DeadLetter]);
            var i := FirstMatch(queue.decode, l, id);
            && reply == (if findFails then ServerError else if i == |l| then NotFound
                         else if enqueueFails then ServerError else Retrying)
            && (reply != Retrying ==> queue.lists == old(queue.lists) && table.rows == old(table.rows))
            && (reply == Retrying ==>
                  && queue.lists[DeadLetter] == (if removeFails then l else RemoveAt(l, i))
                  && queue.lists[Delivery] == old(queue.lists[Delivery]) + [queue.encode(queue.decode(l[i]).value)]
                  && queue.lists - {DeadLetter, Delivery} == old(queue.lists) - {DeadLetter, Delivery}
                  && table.rows == (if resolveFails then old(table.rows) else ResolveAll(old(table.rows), id)))
  {
    if findFails {
      return ServerError;
    }
    var raw, event := queue.FindDLQEntry(id);
    if event.None? {
      return NotFound;
    }
    RemovalHitsTheMatch(queue.decode, queue.lists[DeadLetter], id);
    var ok := queue.Enqueue(Delivery, event.value, enqueueFails);
    if !ok {
      return ServerError;
    }
    queue.RemoveDLQEntry(raw, removeFails);
    var _ := table.ResolveDLQEntry(id, resolveFails);
    reply := Retrying;
  }

  method HandleDiscardDLQ(queue: RedisQueue, table: DeadLetterTable, id: string,
                          findFails: bool, removeFails: bool, resolveFails: bool) returns (reply: Reply)
    requires queue.Valid()
    modifies queue, table
    ensures queue.Valid()
    ensures reply == if resolveFails then ServerError else Discarded
    ensures var l := old(queue.lists[DeadLetter]);
            var i := FirstMatch(queue.decode, l, id);
            queue.lists == if findFails || removeFails || i == |l| || l[i] == "" then old(queue.lists)
                           else old(queue.lists)[DeadLetter := RemoveAt(l, i)]
    ensures table.rows == if resolveFails then old(table.rows) else ResolveAll(old(table.rows), id)
  {
    if !findFails {
      var raw, _ := queue.FindDLQEntry(id);
      if raw != "" {
        RemovalHitsTheMatch(queue.decode, queue.lists[DeadLetter], id);
        queue.RemoveDLQEntry(raw, removeFails);
      }
    }
    var ok := table.ResolveDLQEntry(id, resolveFails);
    reply := if ok then Discarded else ServerError;
  }

  // ---------- Counting ----------

  function Copies(decode: Decoder, l: seq<string>, id: string): nat {
    if l == [] then 0 else Copies(decode, Front(l), id) + if Matches(decode, Last(l), id) then 1 else 0
  }

  predicate IsOpen(row: DeadRow, id: EventId) {
    row.event == id && !row.resolved
  }

  function Unresolved(rows: seq<DeadRow>, id: EventId): nat {
    if rows == [] then 0 else Unresolved(Front(rows), id) + if IsOpen(Last(rows), id) then 1 else 0
  }

  /** The dashboard lists the event. */
  ghost predicate Listed(rows: seq<DeadRow>, id: EventId) {
    exists i :: 0 <= i < |rows| && IsOpen(rows[i], id)
  }

  lemma {:induction false} ListedCounted(rows: seq<DeadRow>, id: EventId)
    ensures Listed(rows, id) <==> Unresolved(rows, id) > 0
  {
    if rows != [] {
      ListedCounted(Front(rows), id);
      ListedSnoc(Front(rows), Last(rows), id);
      assert Front(rows) + [Last(rows)] == rows;
    }
  }

  lemma ListedSnoc(rows: seq<DeadRow>, row: DeadRow, id: EventId)
    ensures Listed(rows + [row], id) <==> Listed(rows, id) || IsOpen(row, id)
  {
    var more := rows + [row];
    assert more[|rows|] == row;
    if Listed(rows, id) {
      var i :| 0 <= i < |rows| && IsOpen(rows[i], id);
      assert IsOpen(more[i], id);
    }
  }

  lemma {:induction false} CopiesAppend(decode: Decoder, l: seq<string>, m: seq<string>, id: string)
    ensures Copies(decode, l + m, id) == Copies(decode, l, id) + Copies(decode, m, id)
    decreases |m|
  {
    if m == [] {
      assert l + m == l;
    } else {
      assert Front(l + m) == l + Front(m);
      CopiesAppend(decode, l, Front(m), id);
    }
  }

  lemma CopiesOne(decode: Decoder, raw: string, id: string)
    ensures Copies(decode, [raw], id) == if Matches(decode, raw, id) then 1 else 0
  {
    assert Front([raw]) == [];
  }

  lemma CopiesRemoved(decode: Decoder, l: seq<string>, i: nat, id: string)
    requires i < |l|
    ensures Copies(decode, l, id) == Copies(decode, RemoveAt(l, i), id) + if Matches(decode, l[i], id) then 1 else 0
  {
    assert l == l[..i] + ([l[i]] + l[i + 1..]);
    CopiesAppend(decode, l[..i], [l[i]] + l[i + 1..], id);
    CopiesAppend(decode, [l[i]], l[i + 1..], id);
    CopiesAppend(decode, l[..i], l[i + 1..], id);
    CopiesOne(decode, l[i], id);
  }

  lemma {:induction false} CopiesFound(decode: Decoder, l: seq<string>, id: string)
    ensures Copies(decode, l, id) > 0 <==> FirstMatch(decode, l, id) < |l|
  {
    var i := FirstMatch(decode, l, id);
    if i < |l| {
      CopiesRemoved(decode, l, i, id);
    } else {
      NoCopies(decode, l, id);
    }
  }

  lemma {:induction false} NoCopies(decode: Decoder, l: seq<string>, id: string)
    requires forall j :: 0 <= j < |l| ==> !Matches(decode, l[j], id)
    ensures Copies(decode, l, id) == 0
  {
    if l != [] {
      NoCopies(decode, Front(l), id);
    }
  }

  lemma {:induction false} UnresolvedAfterResolve(rows: seq<DeadRow>, id: string, other: string)
    ensures Unresolved(ResolveAll(rows, id), other) == if other == id then 0 else Unresolved(rows, other)
  {
    if rows != [] {
      assert Front(ResolveAll(rows, id)) == ResolveAll(Front(rows), id);
      UnresolvedAfterResolve(Front(rows), id, other);
    }
  }

  // ---------- Every interleaving of workers and handlers ----------

  /** A retry or discard request that has found its entry, and for a retry may have re-enqueued it. */
  datatype Handler = Found(id: string, raw: string) | Requeued(id: string, raw: string)

  datatype State = State(
    dlq: seq<string>,
    delivery: seq<Event>,
    rows: seq<DeadRow>,
    pushed: multiset<string>,     // past the push, whether it succeeded or not; row not yet inserted
    handlers: map<nat, Handler>,
    resolving: multiset<string>,  // entry removed (or none found), rows not yet resolved
    skipped: multiset<string>,    // history: requests that failed to resolve their rows
    overtaken: multiset<string>,  // history: rows still to be inserted when a request resolved that event
    unpushed: multiset<string>)   // history: pushes to the list that failed

  datatype Action =
    | PushEntry(raw: string)
    | FailPush(id: string)
    | InsertRow(id: string, dest: DestId)
    | LoseRow(id: string)
    | FindForRetry(handler: nat, id: string)
    | Requeue(handler: nat, fails: bool)
    | FindForDiscard(handler: nat, id: string, fails: bool)
    | RemoveEntry(handler: nat, fails: bool)
    | ResolveRows(id: string, fails: bool)
    | StopHandler(handler: nat)

  function Init(): State {
    State([], [], [], multiset{}, map[], multiset{}, multiset{}, multiset{}, multiset{})
  }

  function Decoded(decode: Decoder, raw: string): seq<Event> {
    match decode(raw)
    case Some(e) => [e]
    case None => []
  }

  function Next(decode: Decoder, s: State, a: Action): State {
    match a
    case PushEntry(raw) =>
      if decode(raw).None? then s
      else s.(dlq := s.dlq + [raw], pushed := s.pushed + multiset{decode(raw).value.id})
    case FailPush(id) => s.(pushed := s.pushed + multiset{id}, unpushed := s.unpushed + multiset{id})
    case InsertRow(id, dest) =>
      if id !in s.pushed then s
      else s.(rows := s.rows + [DeadRow(id, dest, false)], pushed := s.pushed - multiset{id})
    case LoseRow(id) => s.(pushed := s.pushed - multiset{id})
    case FindForRetry(h, id) =>
      var i := FirstMatch(decode, s.dlq, id);
      if h in s.handlers || i == |s.dlq| then s else s.(handlers := s.handlers[h := Found(id, s.dlq[i])])
    case Requeue(h, fails) =>
      if h !in s.handlers || !s.handlers[h].Found? then s
      else if fails then s.(handlers := s.handlers - {h})
      else s.(delivery := s.delivery + Decoded(decode, s.handlers[h].raw),
              handlers := s.handlers[h := Requeued(s.handlers[h].id, s.handlers[h].raw)])
    case FindForDiscard(h, id, fails) =>
      var i := FirstMatch(decode, s.dlq, id);
      if h in s.handlers then s
      else if fails || i == |s.dlq| then s.(resolving := s.resolving + multiset{id})
      else s.(handlers := s.handlers[h := Requeued(id, s.dlq[i])])
    case RemoveEntry(h, fails) =>
      if h !in s.handlers || !s.handlers[h].Requeued? then s
      else s.(dlq := if fails then s.dlq else RemoveValue(s.dlq, s.handlers[h].raw),
              handlers := s.handlers - {h},
              resolving := s.resolving + multiset{s.handlers[h].id})
    case ResolveRows(id, fails) =>
      if id !in s.resolving then s
      else if fails then s.(resolving := s.resolving - multiset{id}, skipped := s.skipped + multiset{id})
      else s.(resolving := s.resolving - multiset{id}, rows := ResolveAll(s.rows, id),
              overtaken := s.overtaken[id := s.overtaken[id] + s.pushed[id]])
    case StopHandler(h) => s.(handlers := s.handlers - {h})
  }

  function Run(decode: Decoder, actions: seq<Action>): State {
    if actions == [] then Init() else Next(decode, Run(decode, Front(actions)), Last(actions))
  }

  ghost predicate Balanced(decode: Decoder, s: State, id: string) {
    Unresolved(s.rows, id) + s.pushed[id] <=
    Copies(decode, s.dlq, id) + s.resolving[id] + s.skipped[id] + s.overtaken[id] + s.unpushed[id]
  }

  ghost predicate Inv(decode: Decoder, s: State) {
    && (forall h :: h in s.handlers ==> Matches(decode, s.handlers[h].raw, s.handlers[h].id))
    && (forall id :: Balanced(decode, s, id))
  }

  lemma ListMoveBalanced(decode: Decoder, s: State, a: Action, id: string)
    requires Inv(decode, s) && (a.PushEntry? || a.RemoveEntry?)
    ensures Balanced(decode, Next(decode, s, a), id)
  {
    assert Balanced(decode, s, id);
    if a.PushEntry? {
      CopiesAppend(decode, s.dlq, [a.raw], id);
      CopiesOne(decode, a.raw, id);
    } else if a.handler in s.handlers {
      var i := FirstIndex(s.dlq, s.handlers[a.handler].raw);
      if i < |s.dlq| {
        CopiesRemoved(decode, s.dlq, i, id);
      }
    }
  }

  lemma UnresolvedSnoc(rows: seq<DeadRow>, row: DeadRow, id: EventId)
    ensures Unresolved(rows + [row], id) == Unresolved(rows, id) + if IsOpen(row, id) then 1 else 0
  {
    assert Front(rows + [row]) == rows;
  }

  lemma RowMoveBalanced(decode: Decoder, s: State, a: Action, id: string)
    requires Balanced(decode, s, id) && (a.FailPush? || a.InsertRow? || a.LoseRow?)
    ensures Balanced(decode, Next(decode, s, a), id)
  {
    if a.InsertRow? {
      UnresolvedSnoc(s.rows, DeadRow(a.id, a.dest, false), id);
    }
  }

  lemma ResolveBalanced(decode: Decoder, s: State, a: Action, id: string)
    requires Balanced(decode, s, id) && a.ResolveRows?
    ensures Balanced(decode, Next(decode, s, a), id)
  {
    UnresolvedAfterResolve(s.rows, a.id, id);
    if a.id in s.resolving && !a.fails {
      var t := Next(decode, s, a);
      assert t.resolving[id] == s.resolving[id] - if a.id == id then 1 else 0;
      assert t.overtaken[id] == s.overtaken[id] + if a.id == id then s.pushed[id] else 0;
    }
  }

  lemma HandlerMoveBalanced(decode: Decoder, s: State, a: Action, id: string)
    requires Inv(decode, s) && (a.FindForRetry? || a.Requeue? || a.FindForDiscard? || a.StopHandler?)
    ensures Balanced(decode, Next(decode, s, a), id)
  {
    assert Balanced(decode, s, id);
  }

  lemma StepKeepsInv(decode: Decoder, s: State, a: Action)
    requires Inv(decode, s)
    ensures Inv(decode, Next(decode, s, a))
  {
    forall id
      ensures Balanced(decode, Next(decode, s, a), id)
    {
      assert Balanced(decode, s, id);
      if a.PushEntry? || a.RemoveEntry? {
        ListMoveBalanced(decode, s, a, id);
      } else if a.FailPush? || a.InsertRow? || a.LoseRow? {
        RowMoveBalanced(decode, s, a, id);
      } else if a.ResolveRows? {
        ResolveBalanced(decode, s, a, id);
      } else {
        HandlerMoveBalanced(decode, s, a, id);
      }
    }
  }

  lemma {:induction false} RunKeepsInv(decode: Decoder, actions: seq<Action>)
    ensures Inv(decode, Run(decode, actions))
  {
    if actions != [] {
      RunKeepsInv(decode, Front(actions));
      StepKeepsInv(decode, Run(decode, Front(actions)), Last(actions));
    } else {
      forall id
        ensures Balanced(decode, Init(), id)
      {
        assert Unresolved([], id) == 0;
      }
    }
  }

  /**
   Every push of the event succeeded, no request for it is half done or left rows unresolved, and none
   overtook a row insertion.
   */
  ghost predicate Settled(s: State, id: string) {
    s.unpushed[id] == 0 && s.resolving[id] == 0 && s.skipped[id] == 0 && s.overtaken[id] == 0
  }

  lemma SettledFound(decode: Decoder, s: State, id: string)
    requires Inv(decode, s) && Settled(s, id)
    ensures Unresolved(s.rows, id) <= Copies(decode, s.dlq, id)
    ensures Listed(s.rows, id) ==> FirstMatch(decode, s.dlq, id) < |s.dlq|
  {
    assert Balanced(decode, s, id);
    CopiesFound(decode, s.dlq, id);
    ListedCounted(s.rows, id);
  }

  /**
   Under every interleaving: for a settled event the unresolved rows never outnumber the list
   entries, so whatever the dashboard lists can be found for retry.
   */
  lemma ListedCanBeRetried(decode: Decoder, actions: seq<Action>, id: string)
    requires Settled(Run(decode, actions), id)
    ensures var s := Run(decode, actions);
            && Unresolved(s.rows, id) <= Copies(decode, s.dlq, id)
            && (Listed(s.rows, id) ==> FirstMatch(decode, s.dlq, id) < |s.dlq|)
  {
    RunKeepsInv(decode, actions);
    SettledFound(decode, Run(decode, actions), id);
  }

  // ---------- Whole operations, one at a time ----------

  datatype Operation = MoveDead(raw: string, dest: DestId) | Retry(id: string) | Discard(id: string)

  function Perform(decode: Decoder, s: State, op: Operation): State {
    match op
    case MoveDead(raw, dest) =>
      if decode(raw).None? then s
      else Next(decode, Next(decode, s, PushEntry(raw)), InsertRow(decode(raw).value.id, dest))
    case Retry(id) =>
      var requeued := Next(decode, Next(decode, s, FindForRetry(0, id)), Requeue(0, false));
      Next(decode, Next(decode, requeued, RemoveEntry(0, false)), ResolveRows(id, false))
    case Discard(id) =>
      var found := Next(decode, s, FindForDiscard(0, id, false));
      Next(decode, Next(decode, found, RemoveEntry(0, false)), ResolveRows(id, false))
  }

  function PerformAll(decode: Decoder, ops: seq<Operation>): State {
    if ops == [] then Init() else Perform(decode, PerformAll(decode, Front(ops)), Last(ops))
  }

  ghost predicate Quiet(s: State) {
    s.handlers == map[] && s.pushed == s.resolving == s.skipped == s.overtaken == s.unpushed == multiset{}
  }

  /** No request is under way; rows may still wait to be inserted, whether their push succeeded or not. */
  predicate Idle(s: State) {
    s.handlers == map[] && s.resolving == multiset{}
  }

  lemma FinishResolves(decode: Decoder, s: State, id: string, raw: string)
    requires s.resolving == multiset{} && s.handlers == map[0 := Requeued(id, raw)]
    ensures var t := Next(decode, Next(decode, s, RemoveEntry(0, false)), ResolveRows(id, false));
            t == s.(dlq := RemoveValue(s.dlq, raw), handlers := map[], rows := ResolveAll(s.rows, id),
                    overtaken := t.overtaken)
  {
    var s1 := Next(decode, s, RemoveEntry(0, false));
    assert s1.handlers == map[] && s1.resolving == multiset{id};
    var t := Next(decode, s1, ResolveRows(id, false));
    assert t.resolving == multiset{};
  }

  /** On its own a retry does what the handler does: the first match moves to delivery, all else stays. */
  lemma RetryMovesFirstMatch(decode: Decoder, s: State, id: string)
    requires Idle(s)
    ensures var i, t := FirstMatch(decode, s.dlq, id), Perform(decode, s, Retry(id));
            if i == |s.dlq| then t == s
            else t == s.(dlq := RemoveAt(s.dlq, i), delivery := s.delivery + [decode(s.dlq[i]).value],
                         rows := ResolveAll(s.rows, id), overtaken := t.overtaken)
  {
    var i := FirstMatch(decode, s.dlq, id);
    var s1 := Next(decode, s, FindForRetry(0, id));
    if i < |s.dlq| {
      RemovalHitsTheMatch(decode, s.dlq, id);
      var s2 := Next(decode, s1, Requeue(0, false));
      assert s2.handlers == map[0 := Requeued(id, s.dlq[i])];
      FinishResolves(decode, s2, id, s.dlq[i]);
    }
  }

  lemma NothingToRemove(decode: Decoder, s: State, id: string)
    requires s.handlers == map[] && s.resolving == multiset{id}
    ensures var t := Next(decode, Next(decode, s, RemoveEntry(0, false)), ResolveRows(id, false));
            t == s.(resolving := multiset{}, rows := ResolveAll(s.rows, id), overtaken := t.overtaken)
  {
    assert Next(decode, s, RemoveEntry(0, false)) == s;
    assert multiset{id} - multiset{id} == multiset{};
  }

  /** On its own a discard removes the first match, if any, and resolves the rows. */
  lemma DiscardRemovesFirstMatch(decode: Decoder, s: State, id: string)
    requires Idle(s)
    ensures var t := Perform(decode, s, Discard(id));
            t == s.(dlq := RemoveAt(s.dlq, FirstMatch(decode, s.dlq, id)), rows := ResolveAll(s.rows, id),
                    overtaken := t.overtaken)
  {
    var i := FirstMatch(decode, s.dlq, id);
    var s1 := Next(decode, s, FindForDiscard(0, id, false));
    DiscardBegun(decode, s, id, false);
    if i < |s.dlq| {
      RemovalHitsTheMatch(decode, s.dlq, id);
      FinishResolves(decode, s1, id, s.dlq[i]);
    } else {
      NothingToRemove(decode, s1, id);
    }
  }

  lemma MoveDeadQuiet(decode: Decoder, s: State, raw: string, dest: DestId)
    requires Inv(decode, s) && Quiet(s)
    ensures Inv(decode, Perform(decode, s, MoveDead(raw, dest))) && Quiet(Perform(decode, s, MoveDead(raw, dest)))
  {
    if decode(raw).Some? {
      var s1 := Next(decode, s, PushEntry(raw));
      StepKeepsInv(decode, s, PushEntry(raw));
      StepKeepsInv(decode, s1, InsertRow(decode(raw).value.id, dest));
    }
  }

  /** From the entry being chosen to the rows being resolved, as one operation. */
  lemma FinishQuiet(decode: Decoder, s: State, id: string)
    requires Inv(decode, s)
    requires s.pushed == s.skipped == s.overtaken == s.unpushed == multiset{}
    requires || Quiet(s)
             || (s.handlers == map[] && s.resolving == multiset{id})
             || (s.resolving == multiset{} && exists raw :: s.handlers == map[0 := Requeued(id, raw)])
    ensures var t := Next(decode, Next(decode, s, RemoveEntry(0, false)), ResolveRows(id, false));
            Inv(decode, t) && Quiet(t)
  {
    var s1 := Next(decode, s, RemoveEntry(0, false));
    StepKeepsInv(decode, s, RemoveEntry(0, false));
    StepKeepsInv(decode, s1, ResolveRows(id, false));
    assert s1.handlers == map[];
    assert s1.resolving == multiset{id} || s1.resolving == multiset{};
  }

  lemma RetryQuiet(decode: Decoder, s: State, id: string)
    requires Inv(decode, s) && Quiet(s)
    ensures Inv(decode, Perform(decode, s, Retry(id))) && Quiet(Perform(decode, s, Retry(id)))
  {
    var s1 := Next(decode, s, FindForRetry(0, id));
    var s2 := Next(decode, s1, Requeue(0, false));
    StepKeepsInv(decode, s, FindForRetry(0, id));
    StepKeepsInv(decode, s1, Requeue(0, false));
    var i := FirstMatch(decode, s.dlq, id);
    assert i < |s.dlq| ==> s2.handlers == map[0 := Requeued(id, s.dlq[i])];
    FinishQuiet(decode, s2, id);
  }

  lemma DiscardQuiet(decode: Decoder, s: State, id: string)
    requires Inv(decode, s) && Quiet(s)
    ensures Inv(decode, Perform(decode, s, Discard(id))) && Quiet(Perform(decode, s, Discard(id)))
  {
    var s1 := Next(decode, s, FindForDiscard(0, id, false));
    StepKeepsInv(decode, s, FindForDiscard(0, id, false));
    var i := FirstMatch(decode, s.dlq, id);
    assert i < |s.dlq| ==> s1.handlers == map[0 := Requeued(id, s.dlq[i])];
    FinishQuiet(decode, s1, id);
  }

  lemma {:induction false} PerformAllQuiet(decode: Decoder, ops: seq<Operation>)
    ensures Inv(decode, PerformAll(decode, ops)) && Quiet(PerformAll(decode, ops))
  {
    if ops == [] {
      RunKeepsInv(decode, []);
    } else {
      PerformAllQuiet(decode, Front(ops));
      var s := PerformAll(decode, Front(ops));
      match Last(ops) {
        case MoveDead(raw, dest) => MoveDeadQuiet(decode, s, raw, dest);
        case Retry(id) => RetryQuiet(decode, s, id);
        case Discard(id) => DiscardQuiet(decode, s, id);
      }
    }
  }

  /** When operations do not overlap, every listed entry can be found, with no further condition. */
  lemma AtomicListedCanBeRetried(decode: Decoder, ops: seq<Operation>, id: string)
    ensures var s := PerformAll(decode, ops);
            && Unresolved(s.rows, id) <= Copies(decode, s.dlq, id)
            && (Listed(s.rows, id) ==> FirstMatch(decode, s.dlq, id) < |s.dlq|)
  {
    PerformAllQuiet(decode, ops);
    SettledFound(decode, PerformAll(decode, ops), id);
  }

  lemma RunStep(decode: Decoder, actions: seq<Action>, a: Action)
    ensures Run(decode, actions + [a]) == Next(decode, Run(decode, actions), a)
  {
    assert Front(actions + [a]) == actions;
  }

  // ---------- When a push fails, or a request overtakes an insertion ----------

  /** Rows of the event that were waiting to be inserted are inserted, one per destination. */
  function InsertRows(decode: Decoder, s: State, id: string, dests: seq<DestId>): State {
    if dests == [] then s else Next(decode, InsertRows(decode, s, id, Front(dests)), InsertRow(id, Last(dests)))
  }

  lemma {:induction false} InsertedRows(decode: Decoder, s: State, id: string, dests: seq<DestId>)
    requires |dests| <= s.pushed[id]
    ensures var t := InsertRows(decode, s, id, dests);
            && t.dlq == s.dlq && t.pushed[id] == s.pushed[id] - |dests|
            && (Listed(t.rows, id) <==> Listed(s.rows, id) || dests != [])
  {
    if dests != [] {
      var before := InsertRows(decode, s, id, Front(dests));
      InsertedRows(decode, s, id, Front(dests));
      ListedSnoc(before.rows, DeadRow(id, Last(dests), false), id);
    }
  }

  /** However many of the waiting rows get inserted, a listed event can be found for retry. */
  ghost predicate StaysFindable(decode: Decoder, s: State, id: string) {
    forall dests: seq<DestId> | |dests| <= s.pushed[id] ::
      var t := InsertRows(decode, s, id, dests);
      Listed(t.rows, id) ==> FirstMatch(decode, t.dlq, id) < |t.dlq|
  }

  lemma FindableIff(decode: Decoder, s: State, id: string)
    ensures StaysFindable(decode, s, id) <==>
            (Listed(s.rows, id) || s.pushed[id] > 0 ==> Copies(decode, s.dlq, id) > 0)
  {
    CopiesFound(decode, s.dlq, id);
    forall dests: seq<DestId> | |dests| <= s.pushed[id]
      ensures var t := InsertRows(decode, s, id, dests);
              t.dlq == s.dlq && (Listed(t.rows, id) <==> Listed(s.rows, id) || dests != [])
    {
      InsertedRows(decode, s, id, dests);
    }
    if StaysFindable(decode, s, id) {
      var none: seq<DestId>, one: seq<DestId> := [], [""];
      assert Listed(InsertRows(decode, s, id, none).rows, id) ==> Copies(decode, s.dlq, id) > 0;
      if s.pushed[id] > 0 {
        assert Listed(InsertRows(decode, s, id, one).rows, id);
      }
    }
  }

  /** The two writes of dead-lettering the event of raw, each of which may fail. */
  function DeadLettered(decode: Decoder, s: State, raw: string, dest: DestId,
                        pushFails: bool, insertFails: bool): State
    requires decode(raw).Some?
  {
    var id := decode(raw).value.id;
    var past := Next(decode, s, if pushFails then FailPush(id) else PushEntry(raw));
    Next(decode, past, if insertFails then LoseRow(id) else InsertRow(id, dest))
  }

  /**
   Dead-lettering a findable event leaves it findable exactly if the push succeeded, the insertion
   failed, or an entry of the event is already on the list.
   */
  lemma DeadLetteringSafeIff(decode: Decoder, s: State, raw: string, dest: DestId, pushFails: bool, insertFails: bool)
    requires decode(raw).Some? && StaysFindable(decode, s, decode(raw).value.id)
    ensures var id := decode(raw).value.id;
            StaysFindable(decode, DeadLettered(decode, s, raw, dest, pushFails, insertFails), id) <==>
            !pushFails || insertFails || Copies(decode, s.dlq, id) > 0
  {
    var id, t := decode(raw).value.id, DeadLettered(decode, s, raw, dest, pushFails, insertFails);
    FindableIff(decode, s, id);
    FindableIff(decode, t, id);
    CopiesAppend(decode, s.dlq, [raw], id);
    CopiesOne(decode, raw, id);
    ListedSnoc(s.rows, DeadRow(id, dest, false), id);
    assert t.pushed[id] == s.pushed[id];
  }

  /** A failed push and an insertion, and nothing else, leave a listed row nobody can retry. */
  lemma UnpushedRowIsStuck(decode: Decoder, id: string, dest: DestId)
    ensures var s := Run(decode, [FailPush(id), InsertRow(id, dest)]);
            Idle(s) && s.pushed == multiset{} && Listed(s.rows, id) && FirstMatch(decode, s.dlq, id) == |s.dlq|
  {
    RunStep(decode, [], FailPush(id));
    RunStep(decode, [] + [FailPush(id)], InsertRow(id, dest));
    assert ([] + [FailPush(id)]) + [InsertRow(id, dest)] == [FailPush(id), InsertRow(id, dest)];
    ListedSnoc([], DeadRow(id, dest, false), id);
  }

  lemma NotListedAfterResolve(rows: seq<DeadRow>, id: EventId)
    ensures !Listed(ResolveAll(rows, id), id)
  {
  }

  /**
   A retry that finds its entry leaves the event findable exactly if no row of the event still waits
   to be inserted, or another entry of it is on the list.
   */
  lemma RetrySafeIff(decode: Decoder, s: State, id: string)
    requires Idle(s) && FirstMatch(decode, s.dlq, id) < |s.dlq|
    ensures StaysFindable(decode, Perform(decode, s, Retry(id)), id) <==>
            s.pushed[id] == 0 || Copies(decode, s.dlq, id) >= 2
  {
    RetryMovesFirstMatch(decode, s, id);
    CopiesRemoved(decode, s.dlq, FirstMatch(decode, s.dlq, id), id);
    NotListedAfterResolve(s.rows, id);
    FindableIff(decode, Perform(decode, s, Retry(id)), id);
  }

  /** The same for a discard, which resolves the rows even when it finds no entry. */
  lemma DiscardSafeIff(decode: Decoder, s: State, id: string)
    requires Idle(s)
    ensures StaysFindable(decode, Perform(decode, s, Discard(id)), id) <==>
            s.pushed[id] == 0 || Copies(decode, s.dlq, id) >= 2
  {
    var i := FirstMatch(decode, s.dlq, id);
    DiscardRemovesFirstMatch(decode, s, id);
    CopiesFound(decode, s.dlq, id);
    if i < |s.dlq| {
      CopiesRemoved(decode, s.dlq, i, id);
    }
    NotListedAfterResolve(s.rows, id);
    FindableIff(decode, Perform(decode, s, Discard(id)), id);
  }

  // ---------- When removing or resolving fails ----------

  /** A retry that found its entry, with these outcomes of removing the entry and resolving the rows. */
  function AfterRetry(decode: Decoder, s: State, id: string, removeFails: bool, resolveFails: bool): State {
    var requeued := Next(decode, Next(decode, s, FindForRetry(0, id)), Requeue(0, false));
    Next(decode, Next(decode, requeued, RemoveEntry(0, removeFails)), ResolveRows(id, resolveFails))
  }

  lemma RetriedState(decode: Decoder, s: State, id: string, removeFails: bool, resolveFails: bool)
    requires Idle(s) && FirstMatch(decode, s.dlq, id) < |s.dlq|
    ensures var t := AfterRetry(decode, s, id, removeFails, resolveFails);
            && t.dlq == (if removeFails then s.dlq else RemoveAt(s.dlq, FirstMatch(decode, s.dlq, id)))
            && t.rows == (if resolveFails then s.rows else ResolveAll(s.rows, id))
            && t.pushed == s.pushed && Idle(t)
  {
    var raw := s.dlq[FirstMatch(decode, s.dlq, id)];
    RemovalHitsTheMatch(decode, s.dlq, id);
    var s1 := Next(decode, Next(decode, s, FindForRetry(0, id)), Requeue(0, false));
    assert s1.handlers == map[0 := Requeued(id, raw)];
    EntryHandled(decode, s1, id, raw, removeFails);
    RowsHandled(decode, Next(decode, s1, RemoveEntry(0, removeFails)), id, resolveFails);
  }

  /**
   Whatever fails on the way, a retry that found its entry leaves the event findable exactly if nothing
   remains to be listed, neither a row whose resolving failed nor one that waits, or more entries of it
   were on the list than the retry removed.
   */
  lemma RetryFailingSafeIff(decode: Decoder, s: State, id: string, removeFails: bool, resolveFails: bool)
    requires Idle(s) && FirstMatch(decode, s.dlq, id) < |s.dlq|
    ensures StaysFindable(decode, AfterRetry(decode, s, id, removeFails, resolveFails), id) <==>
            || (s.pushed[id] == 0 && !(resolveFails && Listed(s.rows, id)))
            || Copies(decode, s.dlq, id) > (if removeFails then 0 else 1)
  {
    RetriedState(decode, s, id, removeFails, resolveFails);
    CopiesRemoved(decode, s.dlq, FirstMatch(decode, s.dlq, id), id);
    NotListedAfterResolve(s.rows, id);
    FindableIff(decode, AfterRetry(decode, s, id, removeFails, resolveFails), id);
  }

  /** A discard, with these outcomes of reading the list, removing the entry and resolving the rows. */
  function AfterDiscard(decode: Decoder, s: State, id: string, findFails: bool, removeFails: bool,
                        resolveFails: bool): State
  {
    var found := Next(decode, s, FindForDiscard(0, id, findFails));
    Next(decode, Next(decode, found, RemoveEntry(0, removeFails)), ResolveRows(id, resolveFails))
  }

  predicate DiscardRemoves(decode: Decoder, s: State, id: string, findFails: bool, removeFails: bool) {
    !findFails && !removeFails && FirstMatch(decode, s.dlq, id) < |s.dlq|
  }

  lemma DiscardBegun(decode: Decoder, s: State, id: string, findFails: bool)
    requires Idle(s)
    ensures var i, t := FirstMatch(decode, s.dlq, id), Next(decode, s, FindForDiscard(0, id, findFails));
            t == if !findFails && i < |s.dlq| then s.(handlers := map[0 := Requeued(id, s.dlq[i])])
                 else s.(resolving := multiset{id})
  {
  }

  lemma EntryHandled(decode: Decoder, s: State, id: string, raw: string, removeFails: bool)
    requires s.handlers == map[0 := Requeued(id, raw)] && s.resolving == multiset{}
    ensures Next(decode, s, RemoveEntry(0, removeFails)) ==
            s.(dlq := if removeFails then s.dlq else RemoveValue(s.dlq, raw), handlers := map[],
               resolving := multiset{id})
  {
    assert s.handlers - {0} == map[];
  }

  lemma RowsHandled(decode: Decoder, s: State, id: string, resolveFails: bool)
    requires s.handlers == map[] && s.resolving == multiset{id}
    ensures var t := Next(decode, s, ResolveRows(id, resolveFails));
            && t.dlq == s.dlq && t.pushed == s.pushed && Idle(t)
            && t.rows == (if resolveFails then s.rows else ResolveAll(s.rows, id))
  {
    assert multiset{id} - multiset{id} == multiset{};
  }

  lemma DiscardedState(decode: Decoder, s: State, id: string, findFails: bool, removeFails: bool,
                       resolveFails: bool)
    requires Idle(s)
    ensures var i := FirstMatch(decode, s.dlq, id);
            var t := AfterDiscard(decode, s, id, findFails, removeFails, resolveFails);
            && t.dlq == (if DiscardRemoves(decode, s, id, findFails, removeFails) then RemoveAt(s.dlq, i) else s.dlq)
            && t.rows == (if resolveFails then s.rows else ResolveAll(s.rows, id))
            && t.pushed == s.pushed && Idle(t)
  {
    var i := FirstMatch(decode, s.dlq, id);
    var s1 := Next(decode, s, FindForDiscard(0, id, findFails));
    DiscardBegun(decode, s, id, findFails);
    if !findFails && i < |s.dlq| {
      RemovalHitsTheMatch(decode, s.dlq, id);
      EntryHandled(decode, s1, id, s.dlq[i], removeFails);
    } else {
      assert Next(decode, s1, RemoveEntry(0, removeFails)) == s1;
    }
    RowsHandled(decode, Next(decode, s1, RemoveEntry(0, removeFails)), id, resolveFails);
  }

  /** The same for a discard. */
  lemma DiscardFailingSafeIff(decode: Decoder, s: State, id: string, findFails: bool, removeFails: bool,
                              resolveFails: bool)
    requires Idle(s)
    ensures StaysFindable(decode, AfterDiscard(decode, s, id, findFails, removeFails, resolveFails), id) <==>
            || (s.pushed[id] == 0 && !(resolveFails && Listed(s.rows, id)))
            || Copies(decode, s.dlq, id) > (if DiscardRemoves(decode, s, id, findFails, removeFails) then 1 else 0)
  {
    var i := FirstMatch(decode, s.dlq, id);
    DiscardedState(decode, s, id, findFails, removeFails, resolveFails);
    if i < |s.dlq| {
      CopiesRemoved(decode, s.dlq, i, id);
    }
    NotListedAfterResolve(s.rows, id);
    FindableIff(decode, AfterDiscard(decode, s, id, findFails, removeFails, resolveFails), id);
  }

  /** A dead-lettered event whose retry cannot resolve the row stays listed, with no entry left. */
  lemma UnresolvedRowIsStuck(decode: Decoder, raw: string, dest: DestId) returns (actions: seq<Action>)
    requires decode(raw).Some?
    ensures var s, id := Run(decode, actions), decode(raw).value.id;
            Idle(s) && s.pushed == multiset{} && Listed(s.rows, id) && FirstMatch(decode, s.dlq, id) == |s.dlq|
  {
    var id := decode(raw).value.id;
    var dead := [PushEntry(raw)] + [InsertRow(id, dest)];
    AfterFirstPush(decode, raw);
    RunStep(decode, [PushEntry(raw)], InsertRow(id, dest));
    var s := Run(decode, dead);
    assert s.dlq == [raw] && s.rows == [] + [DeadRow(id, dest, false)];
    assert s.pushed == multiset{};
    ListedSnoc([], DeadRow(id, dest, false), id);
    RetriedState(decode, s, id, false, true);
    var b1 := dead + [FindForRetry(0, id)];
    var b2 := b1 + [Requeue(0, false)];
    var b3 := b2 + [RemoveEntry(0, false)];
    actions := b3 + [ResolveRows(id, true)];
    RunStep(decode, dead, FindForRetry(0, id));
    RunStep(decode, b1, Requeue(0, false));
    RunStep(decode, b2, RemoveEntry(0, false));
    RunStep(decode, b3, ResolveRows(id, true));
  }

  function ThenRetry(actions: seq<Action>, id: string): seq<Action> {
    actions + [FindForRetry(0, id)] + [Requeue(0, false)] + [RemoveEntry(0, false)] + [ResolveRows(id, false)]
  }

  lemma RetryIsRun(decode: Decoder, actions: seq<Action>, id: string)
    ensures Run(decode, ThenRetry(actions, id)) == Perform(decode, Run(decode, actions), Retry(id))
  {
    var b1 := actions + [FindForRetry(0, id)];
    var b2 := b1 + [Requeue(0, false)];
    var b3 := b2 + [RemoveEntry(0, false)];
    RunStep(decode, actions, FindForRetry(0, id));
    RunStep(decode, b1, Requeue(0, false));
    RunStep(decode, b2, RemoveEntry(0, false));
    RunStep(decode, b3, ResolveRows(id, false));
  }

  lemma AfterFirstPush(decode: Decoder, raw: string)
    requires decode(raw).Some?
    ensures Run(decode, [PushEntry(raw)]) == Init().(dlq := [raw], pushed := multiset{decode(raw).value.id})
  {
    assert Front([PushEntry(raw)]) == [];
  }

  /** A retry that slips between the push and the row insertion leaves a listed row nobody can retry. */
  lemma OvertakenRowIsStuck(decode: Decoder, raw: string, dest: DestId) returns (actions: seq<Action>)
    requires decode(raw).Some?
    ensures var s, id := Run(decode, actions), decode(raw).value.id;
            Idle(s) && s.pushed == multiset{} && Listed(s.rows, id) && FirstMatch(decode, s.dlq, id) == |s.dlq|
  {
    var id := decode(raw).value.id;
    var pushed := [PushEntry(raw)];
    AfterFirstPush(decode, raw);
    var s := Run(decode, pushed);
    RetryMovesFirstMatch(decode, s, id);
    RetryIsRun(decode, pushed, id);
    var t := Perform(decode, s, Retry(id));
    assert t.dlq == [] && t.pushed == multiset{id};
    var retried := ThenRetry(pushed, id);
    RunStep(decode, retried, InsertRow(id, dest));
    actions := retried + [InsertRow(id, dest)];
    ListedSnoc(t.rows, DeadRow(id, dest, false), id);
  }
}
