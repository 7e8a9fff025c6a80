/**
 Retry and discard requests that overlap each other and dead-lettering in any way: exactly when the
 event can still be found once everything under way has finished.
 */
module DeadLetterOverlaps {
  import opened Common
  import opened Queues
  import opened DeadRows
  import opened DeadLetters

  /** The requests under way that are going to remove this entry. */
  function Removers(handlers: map<nat, Handler>, raw: string): set<nat> {
    set h | h in handlers && handlers[h].raw == raw
  }

  function Wanted(s: State, raw: string): nat {
    |Removers(s.handlers, raw)|
  }

  /** An entry is on the list more often than requests under way are going to remove it. */
  predicate IsSpare(s: State, raw: string) {
    multiset(s.dlq)[raw] > Wanted(s, raw)
  }

  ghost predicate HasSpare(decode: Decoder, s: State, id: string) {
    exists raw :: Matches(decode, raw, id) && IsSpare(s, raw)
  }

  ghost predicate Handled(handlers: map<nat, Handler>, id: string) {
    exists h :: h in handlers && handlers[h].id == id
  }

  /** A request under way is going to resolve the event's rows. */
  ghost predicate Pending(s: State, id: string) {
    s.resolving[id] > 0 || Handled(s.handlers, id)
  }

  /** The event may be listed in the end: a row waits, or a row is there and no request under way resolves it. */
  ghost predicate MayEndListed(s: State, id: string) {
    s.pushed[id] > 0 || (Listed(s.rows, id) && !Pending(s, id))
  }

  /** Steps that finish what is under way: requests without failure, insertions with or without. */
  predicate Finishes(a: Action) {
    match a
    case InsertRow(_, _) => true
    case LoseRow(_) => true
    case Requeue(_, fails) => !fails
    case RemoveEntry(_, fails) => !fails
    case ResolveRows(_, fails) => !fails
    case _ => false
  }

  function Resume(decode: Decoder, s: State, actions: seq<Action>): State
    decreases |actions|
  {
    if actions == [] then s else Resume(decode, Next(decode, s, actions[0]), actions[1..])
  }

  lemma RemovedOnce(l: seq<string>, raw: string, other: string)
    ensures multiset(RemoveValue(l, raw))[other] ==
            multiset(l)[other] - if other == raw && raw in l then 1 else 0
  {
    var i := FirstIndex(l, raw);
    if i < |l| {
      assert l == l[..i] + [l[i]] + l[i + 1..];
    } else {
      assert l[..i] == l;
    }
  }

  lemma WantedWithout(s: State, h: nat, raw: string)
    requires h in s.handlers
    ensures |Removers(s.handlers - {h}, raw)| == Wanted(s, raw) - if s.handlers[h].raw == raw then 1 else 0
  {
    assert Removers(s.handlers - {h}, raw) == Removers(s.handlers, raw) - {h};
  }

  lemma RemovalKeepsSpare(decode: Decoder, s: State, h: nat, raw: string)
    ensures IsSpare(Next(decode, s, RemoveEntry(h, false)), raw) <==> IsSpare(s, raw)
  {
    if h in s.handlers && s.handlers[h].Requeued? {
      WantedWithout(s, h, raw);
      RemovedOnce(s.dlq, s.handlers[h].raw, raw);
    }
  }

  lemma RequeueKeepsRemovers(decode: Decoder, s: State, h: nat, raw: string)
    ensures var t := Next(decode, s, Requeue(h, false));
            t.dlq == s.dlq && Removers(t.handlers, raw) == Removers(s.handlers, raw)
  {
  }

  /** Steps on rows leave the list and the handlers alone, and all but the last the resolving requests. */
  lemma RowStep(decode: Decoder, s: State, a: Action)
    requires a.InsertRow? || a.LoseRow? || a.ResolveRows?
    ensures Next(decode, s, a).handlers == s.handlers && Next(decode, s, a).dlq == s.dlq
    ensures !a.ResolveRows? ==> Next(decode, s, a).resolving == s.resolving
  {
  }

  lemma StepKeepsSpare(decode: Decoder, s: State, a: Action, raw: string)
    requires Finishes(a)
    ensures IsSpare(Next(decode, s, a), raw) <==> IsSpare(s, raw)
  {
    if a.RemoveEntry? {
      RemovalKeepsSpare(decode, s, a.handler, raw);
    } else if a.Requeue? {
      RequeueKeepsRemovers(decode, s, a.handler, raw);
    } else {
      RowStep(decode, s, a);
    }
  }

  lemma ResolveOthers(rows: seq<DeadRow>, other: EventId, id: EventId)
    requires other != id
    ensures Listed(ResolveAll(rows, other), id) <==> Listed(rows, id)
  {
    forall i | 0 <= i < |rows|
      ensures IsOpen(ResolveAll(rows, other)[i], id) <==> IsOpen(rows[i], id)
    {
    }
  }

  lemma RequeueKeepsHandled(decode: Decoder, s: State, h: nat, id: string)
    ensures Handled(Next(decode, s, Requeue(h, false)).handlers, id) <==> Handled(s.handlers, id)
  {
    var t := Next(decode, s, Requeue(h, false));
    assert forall k :: k in s.handlers ==> k in t.handlers && t.handlers[k].id == s.handlers[k].id;
  }

  lemma RemovalKeepsPending(decode: Decoder, s: State, h: nat, id: string)
    ensures Pending(Next(decode, s, RemoveEntry(h, false)), id) <==> Pending(s, id)
  {
    var t := Next(decode, s, RemoveEntry(h, false));
    if k :| k in s.handlers && s.handlers[k].id == id && k != h {
      assert k in t.handlers && t.handlers[k].id == id;
    }
  }

  lemma ResolveStep(decode: Decoder, s: State, resolved: string, id: string)
    ensures var t := Next(decode, s, ResolveRows(resolved, false));
            t.resolving[id] == s.resolving[id] - if resolved == id && id in s.resolving then 1 else 0
  {
  }

  lemma StepKeepsPending(decode: Decoder, s: State, a: Action, id: string)
    requires Finishes(a)
    ensures var t := Next(decode, s, a);
            && (Pending(t, id) ==> Pending(s, id))
            && (Pending(s, id) ==> Pending(t, id) || a == ResolveRows(id, false))
  {
    if a.Requeue? {
      RequeueKeepsHandled(decode, s, a.handler, id);
    } else if a.RemoveEntry? {
      RemovalKeepsPending(decode, s, a.handler, id);
    } else {
      RowStep(decode, s, a);
      if a.ResolveRows? {
        ResolveStep(decode, s, a.id, id);
      }
    }
  }

  lemma StepKeepsListed(decode: Decoder, s: State, a: Action, id: string)
    requires Finishes(a)
    ensures var t := Next(decode, s, a);
            && (a == ResolveRows(id, false) && id in s.resolving ==> !Listed(t.rows, id))
            && (a != ResolveRows(id, false) && (a.InsertRow? ==> a.id != id || s.pushed[id] == 0) ==>
                  (Listed(t.rows, id) <==> Listed(s.rows, id)))
  {
    if a.ResolveRows? {
      NotListedAfterResolve(s.rows, id);
      if a.id != id {
        ResolveOthers(s.rows, a.id, id);
      }
    } else if a.InsertRow? {
      ListedSnoc(s.rows, DeadRow(a.id, a.dest, false), id);
    }
  }

  /** What cannot end up listed stays so. */
  lemma StepStaysUnlisted(decode: Decoder, s: State, a: Action, id: string)
    requires Finishes(a) && !MayEndListed(s, id)
    ensures !MayEndListed(Next(decode, s, a), id)
  {
    StepKeepsListed(decode, s, a, id);
    StepKeepsPending(decode, s, a, id);
  }

  ghost predicate Findable(decode: Decoder, s: State, id: string) {
    Listed(s.rows, id) ==> FirstMatch(decode, s.dlq, id) < |s.dlq|
  }

  /** However what is under way finishes, the event can be found in the end if it is listed. */
  ghost predicate EndsFindable(decode: Decoder, s: State, id: string) {
    forall actions: seq<Action> | (forall i :: 0 <= i < |actions| ==> Finishes(actions[i])) ::
      Idle(Resume(decode, s, actions)) ==> Findable(decode, Resume(decode, s, actions), id)
  }

  lemma {:induction false} ResumeKeeps(decode: Decoder, s: State, actions: seq<Action>, id: string, raw: string)
    requires forall i :: 0 <= i < |actions| ==> Finishes(actions[i])
    ensures IsSpare(s, raw) ==> IsSpare(Resume(decode, s, actions), raw)
    ensures !MayEndListed(s, id) ==> !MayEndListed(Resume(decode, s, actions), id)
    decreases |actions|
  {
    if actions != [] {
      var a, rest := actions[0], actions[1..];
      assert forall i :: 0 <= i < |rest| ==> rest[i] == actions[i + 1];
      StepKeepsSpare(decode, s, a, raw);
      if !MayEndListed(s, id) {
        StepStaysUnlisted(decode, s, a, id);
      }
      ResumeKeeps(decode, Next(decode, s, a), rest, id, raw);
    }
  }

  lemma SpareFound(decode: Decoder, s: State, id: string)
    requires Idle(s)
    ensures HasSpare(decode, s, id) <==> FirstMatch(decode, s.dlq, id) < |s.dlq|
  {
    var i := FirstMatch(decode, s.dlq, id);
    if i < |s.dlq| {
      assert s.dlq[i] in multiset(s.dlq);
      assert IsSpare(s, s.dlq[i]);
    }
    if raw :| Matches(decode, raw, id) && IsSpare(s, raw) {
      assert raw in s.dlq;
    }
  }

  lemma StepSpare(decode: Decoder, s: State, a: Action, id: string)
    requires Finishes(a)
    ensures HasSpare(decode, Next(decode, s, a), id) <==> HasSpare(decode, s, id)
  {
    forall raw
      ensures IsSpare(Next(decode, s, a), raw) <==> IsSpare(s, raw)
    {
      StepKeepsSpare(decode, s, a, raw);
    }
  }

  lemma ResumeCons(decode: Decoder, s: State, a: Action, rest: seq<Action>)
    ensures Resume(decode, s, [a] + rest) == Resume(decode, Next(decode, s, a), rest)
    ensures Finishes(a) && (forall i :: 0 <= i < |rest| ==> Finishes(rest[i])) ==>
              forall i :: 0 <= i < |[a] + rest| ==> Finishes(([a] + rest)[i])
  {
    assert ([a] + rest)[1..] == rest;
  }

  /** Steps of requests leave an event that may end listed so. */
  lemma RequestStepStaysListed(decode: Decoder, s: State, a: Action, id: string)
    requires Finishes(a) && (a.Requeue? || a.RemoveEntry? || (a.ResolveRows? && a.id in s.resolving))
    requires MayEndListed(s, id)
    ensures MayEndListed(Next(decode, s, a), id)
  {
    StepKeepsListed(decode, s, a, id);
    StepKeepsPending(decode, s, a, id);
  }

  /** A step of a request under way, on the way to none. */
  lemma NextRequestStep(decode: Decoder, s: State) returns (a: Action)
    requires !Idle(s)
    ensures Finishes(a) && (a.Requeue? || a.RemoveEntry? || (a.ResolveRows? && a.id in s.resolving))
    ensures Work(Next(decode, s, a)) < Work(s)
  {
    if s.handlers != map[] {
      var h :| h in s.handlers;
      if s.handlers[h].Found? {
        a := Requeue(h, false);
        RequeueWork(decode, s, h);
      } else {
        a := RemoveEntry(h, false);
        RemoveWork(decode, s, h);
      }
    } else {
      var id :| id in s.resolving;
      a := ResolveRows(id, false);
    }
  }

  function Founds(s: State): set<nat> {
    set h | h in s.handlers && s.handlers[h].Found?
  }

  /** The steps that requests under way have still to do. */
  function Work(s: State): nat {
    |Founds(s)| + 2 * |s.handlers| + |s.resolving|
  }

  lemma RequeueWork(decode: Decoder, s: State, h: nat)
    requires h in s.handlers && s.handlers[h].Found?
    ensures Work(Next(decode, s, Requeue(h, false))) < Work(s)
  {
    var t := Next(decode, s, Requeue(h, false));
    assert Founds(t) == Founds(s) - {h};
    assert t.handlers.Keys == s.handlers.Keys;
    assert |t.handlers| == |t.handlers.Keys| == |s.handlers|;
  }

  lemma RemoveWork(decode: Decoder, s: State, h: nat)
    requires h in s.handlers && s.handlers[h].Requeued?
    ensures Work(Next(decode, s, RemoveEntry(h, false))) < Work(s)
  {
    var t := Next(decode, s, RemoveEntry(h, false));
    assert Founds(t) == Founds(s);
    assert t.handlers.Keys == s.handlers.Keys - {h};
    assert |t.handlers| == |t.handlers.Keys| == |s.handlers| - 1;
  }

  /** Without a spare entry, an event that may end listed is stranded: requests finish first, a row comes last. */
  lemma {:induction false} Strands(decode: Decoder, s: State, id: string) returns (actions: seq<Action>)
    requires MayEndListed(s, id) && !HasSpare(decode, s, id)
    ensures forall i :: 0 <= i < |actions| ==> Finishes(actions[i])
    ensures Idle(Resume(decode, s, actions)) && !Findable(decode, Resume(decode, s, actions), id)
    decreases Work(s)
  {
    if !Idle(s) {
      var a := NextRequestStep(decode, s);
      RequestStepStaysListed(decode, s, a, id);
      StepSpare(decode, s, a, id);
      var rest := Strands(decode, Next(decode, s, a), id);
      ResumeCons(decode, s, a, rest);
      actions := [a] + rest;
    } else if Listed(s.rows, id) {
      actions := [];
      SpareFound(decode, s, id);
    } else {
      var a := InsertRow(id, "");
      ResumeCons(decode, s, a, []);
      StepSpare(decode, s, a, id);
      SpareFound(decode, Next(decode, s, a), id);
      ListedSnoc(s.rows, DeadRow(id, "", false), id);
      actions := [a] + [];
    }
  }

  /**
   In any state, with any requests overlapping: however what is under way finishes, the event can be
   found in the end, exactly if it cannot end up listed or some entry of it is on the list more often
   than requests under way are going to remove it.
   */
  lemma EndsFindableIff(decode: Decoder, s: State, id: string)
    ensures EndsFindable(decode, s, id) <==> !MayEndListed(s, id) || HasSpare(decode, s, id)
  {
    if !MayEndListed(s, id) || HasSpare(decode, s, id) {
      forall actions: seq<Action> | (forall i :: 0 <= i < |actions| ==> Finishes(actions[i]))
                                    && Idle(Resume(decode, s, actions))
        ensures Findable(decode, Resume(decode, s, actions), id)
      {
        FinishedFindable(decode, s, actions, id);
      }
    } else {
      var actions := Strands(decode, s, id);
    }
  }

  lemma FinishedFindable(decode: Decoder, s: State, actions: seq<Action>, id: string)
    requires !MayEndListed(s, id) || HasSpare(decode, s, id)
    requires (forall i :: 0 <= i < |actions| ==> Finishes(actions[i])) && Idle(Resume(decode, s, actions))
    ensures Findable(decode, Resume(decode, s, actions), id)
  {
    var t := Resume(decode, s, actions);
    if HasSpare(decode, s, id) {
      var raw :| Matches(decode, raw, id) && IsSpare(s, raw);
      ResumeKeeps(decode, s, actions, id, raw);
      SpareFound(decode, t, id);
    } else {
      ResumeKeeps(decode, s, actions, id, "");
    }
  }
}
