/**
 Does recovery respect the backoff? It puts back whole events, and the query shows it, for each
 destination, only the highest attempt number. So it does exactly if those attempts are the ones
 whose delay ends last among all attempts of the event. That is so while an event with a single
 destination is on its first way through, and may fail with a second destination or a second way.
 */
module RecoveryBackoff {
  import opened Common
  import opened Retry
  import opened DeadRows
  import opened Recovery
  import opened RecoveryProofs

  // ---------- Exactly when the backoff is respected ----------

  /** At time t every attempt of e below the limit, on any destination, has waited out its delay. */
  ghost predicate BackoffOver(attempts: set<Attempt>, e: EventId, t: nat) {
    forall a :: a in attempts && a.event == e && a.number < QUERY_LIMIT ==> Due(a, t)
  }

  /** Whenever recovery may put e back, the backoff of all its attempts is over. */
  ghost predicate RespectsBackoff(attempts: set<Attempt>, dead: set<DeadRow>, e: EventId) {
    forall r: Attempt, t: nat | Selected(attempts, dead, r) && r.event == e && Due(r, t) :: BackoffOver(attempts, e, t)
  }

  /** No attempt's delay ends after that of a row the query selects. */
  ghost predicate SelectedWaitLongest(attempts: set<Attempt>, dead: set<DeadRow>, e: EventId) {
    forall r, a | Selected(attempts, dead, r) && r.event == e
                    && a in attempts && a.event == e && a.number < QUERY_LIMIT ::
      a.at + NextDelay(a.number) <= r.at + NextDelay(r.number)
  }

  lemma RespectsBackoffIff(attempts: set<Attempt>, dead: set<DeadRow>, e: EventId)
    ensures RespectsBackoff(attempts, dead, e) <==> SelectedWaitLongest(attempts, dead, e)
  {
    if RespectsBackoff(attempts, dead, e) {
      forall r, a | Selected(attempts, dead, r) && r.event == e
                    && a in attempts && a.event == e && a.number < QUERY_LIMIT
        ensures a.at + NextDelay(a.number) <= r.at + NextDelay(r.number)
      {
        var t := r.at + NextDelay(r.number);
        assert Due(r, t) && BackoffOver(attempts, e, t);
      }
    }
    if SelectedWaitLongest(attempts, dead, e) {
      forall r: Attempt, t: nat | Selected(attempts, dead, r) && r.event == e && Due(r, t)
        ensures BackoffOver(attempts, e, t)
      {
        forall a | a in attempts && a.event == e && a.number < QUERY_LIMIT
          ensures Due(a, t)
        {
          assert a.at + NextDelay(a.number) <= r.at + NextDelay(r.number);
        }
      }
    }
  }

  /** Within the pair, later attempts have higher numbers. */
  ghost predicate OneRun(attempts: set<Attempt>, e: EventId, d: DestId) {
    forall a, b :: a in attempts && b in attempts && a.event == b.event == e && a.dest == b.dest == d && a.at < b.at ==>
      a.number < b.number
  }

  lemma DelaysGrow(m: nat, n: nat)
    requires 1 <= m <= n < QUERY_LIMIT
    ensures NextDelay(m) <= NextDelay(n)
  {
  }

  lemma OneRunWaitsLongest(s: State, r: Attempt, a: Attempt)
    requires RowsInv(s) && Selected(s.attempts, s.dead, r) && OneRun(s.attempts, r.event, r.dest)
    requires a in s.attempts && a.event == r.event && a.dest == r.dest && a.number < QUERY_LIMIT
    ensures a.at + NextDelay(a.number) <= r.at + NextDelay(r.number)
  {
    assert Candidate(s.attempts, s.dead, a);
    DelaysGrow(a.number, r.number);
    assert a.at <= r.at;
  }

  // ---------- Events that were put on the queue once ----------

  predicate Enters(a: Action, e: EventId) {
    a == Arrive(e) || a == RetryDead(e) || (a.Recover? && a.row.event == e)
  }

  /** How often the event was put on the delivery queue, or a try was made to. */
  function Entries(actions: seq<Action>, e: EventId): nat {
    if actions == [] then 0 else Entries(Front(actions), e) + if Enters(Last(actions), e) then 1 else 0
  }

  ghost predicate Untried(s: State, e: EventId) {
    forall a :: a in s.attempts ==> a.event != e
  }

  ghost predicate Unheld(s: State, e: EventId) {
    forall w :: w in s.workers ==> s.workers[w].event != e
  }

  ghost predicate Absent(s: State, e: EventId) {
    e !in s.queue && Unheld(s, e) && Untried(s, e)
  }

  /** Attempts already recorded have lower numbers than the one a goroutine is at. */
  ghost predicate Behind(attempts: set<Attempt>, w: Worker) {
    match w
    case Fetched(e) => forall a :: a in attempts ==> a.event != e
    case Delivering(e, progress) =>
      forall a :: a in attempts && a.event == e && a.dest in progress ==>
        && (progress[a.dest].Waiting? ==> a.number < progress[a.dest].next)
        && (progress[a.dest].Answered? ==> a.number < progress[a.dest].number)
  }

  ghost predicate AtMostOnce(queue: seq<EventId>, e: EventId) {
    forall i, j :: 0 <= i < j < |queue| ==> queue[i] != e || queue[j] != e
  }

  /** The event is in one place at a time, and its attempts are in order. */
  ghost predicate Solo(s: State, e: EventId) {
    && AtMostOnce(s.queue, e)
    && (e in s.queue ==> Untried(s, e) && Unheld(s, e))
    && (forall v, w :: v in s.workers && w in s.workers ==>
          s.workers[v].event == e && s.workers[w].event == e ==> v == w)
    && (forall w :: w in s.workers && s.workers[w].event == e ==> Behind(s.attempts, s.workers[w]))
    && (forall a :: a in s.attempts && a.event == e ==> a.at <= s.now)
    && (forall d :: OneRun(s.attempts, e, d))
  }

  lemma AbsentStays(cfg: Config, s: State, a: Action, e: EventId)
    requires Absent(s, e) && !Enters(a, e)
    ensures Absent(Next(cfg, s, a), e)
  {
  }

  lemma EnterOnce(cfg: Config, s: State, a: Action, e: EventId)
    requires Absent(s, e)
    ensures Solo(Next(cfg, s, a), e)
  {
    if !Enters(a, e) {
      AbsentStays(cfg, s, a, e);
    }
  }

  lemma FetchStaysSolo(cfg: Config, s: State, w: nat, e: EventId)
    requires Solo(s, e)
    ensures Solo(Next(cfg, s, Fetch(w)), e)
  {
    if w !in s.workers && s.queue != [] {
      var rest := s.queue[1..];
      assert forall i :: 0 <= i < |rest| ==> rest[i] == s.queue[i + 1];
      if s.queue[0] == e {
        assert e !in rest;
      }
    }
  }

  lemma MoreOneRun(s: State, row: Attempt, e: EventId, d: DestId)
    requires OneRun(s.attempts, e, d) && row.at == s.now
    requires forall a :: a in s.attempts && a.event == e ==> a.at <= s.now
    requires row.event == e ==>
               forall a :: a in s.attempts && a.event == e && a.dest == row.dest ==> a.number < row.number
    ensures OneRun(s.attempts + {row}, e, d)
  {
  }

  lemma RecordedBehind(cfg: Config, s: State, w: nat, d: DestId, p: Progress)
    requires ProgressOf(s, w, d) == Some(p) && p.Answered? && Behind(s.attempts, s.workers[w])
    ensures Behind(Next(cfg, s, Record(w, d)).attempts, Next(cfg, s, Record(w, d)).workers[w])
  {
  }

  lemma RecordStaysSolo(cfg: Config, s: State, w: nat, d: DestId, e: EventId)
    requires Solo(s, e)
    ensures Solo(Next(cfg, s, Record(w, d)), e)
  {
    var p := ProgressOf(s, w, d);
    if p.Some? && p.value.Answered? {
      var row := Attempt(s.workers[w].event, d, p.value.number, s.now, Succeeded(p.value.response));
      forall d'
        ensures OneRun(s.attempts + {row}, e, d')
      {
        assert OneRun(s.attempts, e, d');
        assert row.event == e ==> Behind(s.attempts, s.workers[w]);
        MoreOneRun(s, row, e, d');
      }
      if s.workers[w].event == e {
        RecordedBehind(cfg, s, w, d, p.value);
      }
    }
  }

  /** Steps that write no attempt, put no second copy on the queue and start no worker. */
  lemma MovedStaysSolo(s: State, t: State, e: EventId)
    requires Solo(s, e)
    requires t.attempts == s.attempts && t.now >= s.now
    requires || t.queue == s.queue
             || (|t.queue| == |s.queue| + 1 && t.queue[..|s.queue|] == s.queue && t.queue[|s.queue|] != e)
    requires forall w :: w in t.workers ==>
               && w in s.workers && t.workers[w].event == s.workers[w].event
               && (Behind(s.attempts, s.workers[w]) ==> Behind(s.attempts, t.workers[w]))
    ensures Solo(t, e)
  {
    assert forall i :: 0 <= i < |s.queue| ==> t.queue[i] == s.queue[i];
    forall d
      ensures OneRun(t.attempts, e, d)
    {
      assert OneRun(s.attempts, e, d);
    }
  }

  lemma ProgressStaysBehind(cfg: Config, s: State, a: Action)
    requires a.Store? || a.Answer? || a.Push? || a.Insert? || a.Abandon?
    ensures var t := Next(cfg, s, a);
            forall w :: w in t.workers ==>
              && w in s.workers && t.workers[w].event == s.workers[w].event
              && (Behind(s.attempts, s.workers[w]) ==> Behind(s.attempts, t.workers[w]))
  {
  }

  lemma ProgressStaysSolo(cfg: Config, s: State, a: Action, e: EventId)
    requires Solo(s, e) && (a.Store? || a.Answer? || a.Push? || a.Insert? || a.Abandon?)
    ensures Solo(Next(cfg, s, a), e)
  {
    ProgressStaysBehind(cfg, s, a);
    MovedStaysSolo(s, Next(cfg, s, a), e);
  }

  lemma StaysSolo(cfg: Config, s: State, a: Action, e: EventId)
    requires Solo(s, e) && !Enters(a, e)
    ensures Solo(Next(cfg, s, a), e)
  {
    if a.Fetch? {
      FetchStaysSolo(cfg, s, a.worker, e);
    } else if a.Record? {
      RecordStaysSolo(cfg, s, a.worker, a.dest, e);
    } else if a.Store? || a.Answer? || a.Push? || a.Insert? || a.Abandon? {
      ProgressStaysSolo(cfg, s, a, e);
    } else {
      MovedStaysSolo(s, Next(cfg, s, a), e);
    }
  }

  lemma {:induction false} EnteredOnceSolo(cfg: Config, actions: seq<Action>, e: EventId)
    requires Entries(actions, e) <= 1
    ensures Solo(Run(cfg, Init(), actions), e)
    ensures Entries(actions, e) == 0 ==> Absent(Run(cfg, Init(), actions), e)
  {
    if actions != [] {
      var s, a := Run(cfg, Init(), Front(actions)), Last(actions);
      EnteredOnceSolo(cfg, Front(actions), e);
      if Entries(Front(actions), e) == 0 {
        EnterOnce(cfg, s, a, e);
        if !Enters(a, e) {
          AbsentStays(cfg, s, a, e);
        }
      } else {
        StaysSolo(cfg, s, a, e);
      }
    }
  }

  // ---------- Attempts go to destinations of the event ----------

  ghost predicate InDestinations(cfg: Config, s: State) {
    && (forall a :: a in s.attempts ==> a.dest in cfg.dests(a.event))
    && (forall w :: w in s.workers && s.workers[w].Delivering? ==>
          s.workers[w].progress.Keys <= cfg.dests(s.workers[w].event))
  }

  lemma StepStaysInDestinations(cfg: Config, s: State, a: Action)
    requires InDestinations(cfg, s)
    ensures InDestinations(cfg, Next(cfg, s, a))
  {
  }

  lemma {:induction false} RunStaysInDestinations(cfg: Config, actions: seq<Action>)
    ensures InDestinations(cfg, Run(cfg, Init(), actions))
  {
    if actions != [] {
      RunStaysInDestinations(cfg, Front(actions));
      StepStaysInDestinations(cfg, Run(cfg, Init(), Front(actions)), Last(actions));
    }
  }

  lemma OnlyOne<T>(s: set<T>, x: T, y: T)
    requires |s| <= 1 && x in s && y in s
    ensures x == y
  {
    assert |s - {x}| == |s| - 1;
    assert s - {x} == {};
  }

  /** In every run, for an event with one destination put on the queue at most once, the condition holds. */
  lemma FirstWayWaitsLongest(cfg: Config, actions: seq<Action>, e: EventId)
    requires Entries(actions, e) <= 1 && |cfg.dests(e)| <= 1
    ensures var s := Run(cfg, Init(), actions); SelectedWaitLongest(s.attempts, s.dead, e)
  {
    var s := Run(cfg, Init(), actions);
    RunKeepsInv(cfg, actions);
    EnteredOnceSolo(cfg, actions, e);
    RunStaysInDestinations(cfg, actions);
    forall r, a | Selected(s.attempts, s.dead, r) && r.event == e
                  && a in s.attempts && a.event == e && a.number < QUERY_LIMIT
      ensures a.at + NextDelay(a.number) <= r.at + NextDelay(r.number)
    {
      OnlyOne(cfg.dests(e), a.dest, r.dest);
      OneRunWaitsLongest(s, r, a);
    }
  }

  /**
   The recovery pass over every run with crashes: what it puts back has waited out the delay of a
   selected attempt; if selected attempts wait longest, and so on the first way of an event with one
   destination, it has waited out the delay of every attempt of the event.
   */
  lemma RecoveredAfterBackoff(cfg: Config, actions: seq<Action>, rows: seq<Attempt>, failed: set<nat>, e: EventId)
    returns (r: Attempt)
    requires IsQueryResult(Run(cfg, Init(), actions).attempts, Run(cfg, Init(), actions).dead, rows)
    requires e in DueEvents(rows, Run(cfg, Init(), actions).now, Run(cfg, Init(), actions).stored, failed)
    ensures var s := Run(cfg, Init(), actions);
            && r in rows && r.event == e && Selected(s.attempts, s.dead, r) && Due(r, s.now)
            && (SelectedWaitLongest(s.attempts, s.dead, e) ==> BackoffOver(s.attempts, e, s.now))
            && (Entries(actions, e) <= 1 && |cfg.dests(e)| <= 1 ==> BackoffOver(s.attempts, e, s.now))
  {
    var s := Run(cfg, Init(), actions);
    DueEventsMember(rows, s.now, s.stored, failed, e);
    var i :| 0 <= i < |rows| && rows[i].event == e && PutBack(rows, s.now, s.stored, failed, i);
    r := rows[i];
    RespectsBackoffIff(s.attempts, s.dead, e);
    if Entries(actions, e) <= 1 && |cfg.dests(e)| <= 1 {
      FirstWayWaitsLongest(cfg, actions, e);
    }
  }

  // ---------- A second destination ----------

  /**
   One way through, two destinations: the first fails at time 0, the second at time 5. After a
   crash the row of the first is due, and the event goes back at once, to both.
   */
  lemma OtherDestinationInsideDelay(cfg: Config, e: EventId, d1: DestId, d2: DestId) returns (actions: seq<Action>)
    requires cfg.maxRetries >= 2 && cfg.dests(e) == {d1, d2} && d1 != d2
    ensures Entries(actions, e) == 1
    ensures var s := Run(cfg, Init(), actions);
            var early, late := Attempt(e, d1, 1, 0, false), Attempt(e, d2, 1, 5, false);
            && s.attempts == {early, late} && Selected(s.attempts, s.dead, early) && Due(early, s.now)
            && Next(cfg, s, Recover(early)).queue == [e]
            && !Due(late, s.now) && !BackoffOver(s.attempts, e, s.now)
  {
    var r := Status(500);
    actions := TwoAnswers(e, d1, r, 5, d2, r);
    AfterTwoAnswers(cfg, e, d1, r, 5, d2, r);
    OneArrival(e, d1, r, 5, d2, r);
    var s := Run(cfg, Init(), actions);
    assert Candidate(s.attempts, s.dead, Attempt(e, d1, 1, 0, false));
    assert Attempt(e, d2, 1, 5, false) in s.attempts;
    assert s.queue + [e] == [e];
  }

  lemma OneArrival(e: EventId, d1: DestId, r1: Response, gap: nat, d2: DestId, r2: Response)
    ensures Entries(TwoAnswers(e, d1, r1, gap, d2, r2), e) == 1
  {
    var rest := FirstAnswer(d1, r1) + [Tick(gap)] + FirstAnswer(d2, r2) + [Crash];
    EntriesFanned(e);
    EntriesConcat(Fanned(e) + FirstAnswer(d1, r1) + [Tick(gap)] + FirstAnswer(d2, r2), [Crash], e);
    EntriesConcat(Fanned(e) + FirstAnswer(d1, r1) + [Tick(gap)], FirstAnswer(d2, r2), e);
    EntriesConcat(Fanned(e) + FirstAnswer(d1, r1), [Tick(gap)], e);
    EntriesConcat(Fanned(e), FirstAnswer(d1, r1), e);
    EntriesTwo(Answer(0, d1, r1), Record(0, d1), e);
    EntriesTwo(Answer(0, d2, r2), Record(0, d2), e);
    EntriesOne(Tick(gap), e);
    EntriesOne(Crash, e);
  }

  lemma EntriesOne(a: Action, e: EventId)
    ensures Entries([a], e) == if Enters(a, e) then 1 else 0
  {
    assert Front([a]) == [] && Entries([], e) == 0;
  }

  lemma EntriesFanned(e: EventId)
    ensures Entries(Fanned(e), e) == 1
  {
    EntriesConcat([] + [Arrive(e)] + [Fetch(0)], [Store(0)], e);
    EntriesConcat([] + [Arrive(e)], [Fetch(0)], e);
    EntriesConcat([], [Arrive(e)], e);
    EntriesOne(Arrive(e), e);
    EntriesOne(Fetch(0), e);
    EntriesOne(Store(0), e);
  }

  // ---------- A second time through ----------

  lemma {:induction false} EntriesConcat(xs: seq<Action>, ys: seq<Action>, e: EventId)
    ensures Entries(xs + ys, e) == Entries(xs, e) + Entries(ys, e)
    decreases |ys|
  {
    if ys == [] {
      assert xs + ys == xs;
    } else {
      assert Front(xs + ys) == xs + Front(ys);
      EntriesConcat(xs, Front(ys), e);
    }
  }

  lemma EntriesTwo(a: Action, b: Action, e: EventId)
    requires !Enters(a, e) && !Enters(b, e)
    ensures Entries([a, b], e) == 0
  {
    assert Front([a]) == [] && Entries([], e) == 0;
    assert Front([a, b]) == [a] && Entries([a], e) == 0;
  }

  /** A worker takes the only queued event, and stores it. */
  lemma TakeUp(cfg: Config, s: State, e: EventId, d: DestId)
    requires s.workers == map[] && s.queue == [e] && cfg.dests(e) == {d} && cfg.maxRetries >= 1
    ensures Run(cfg, s, [Fetch(0), Store(0)]) ==
            s.(queue := [], stored := s.stored + {e}, workers := map[0 := Delivering(e, map[d := Waiting(1)])])
  {
    RunTwo(cfg, s, Fetch(0), Store(0));
    var mid := Next(cfg, s, Fetch(0));
    assert mid == s.(queue := [], workers := map[0 := Fetched(e)]);
    var t := Next(cfg, mid, Store(0));
    assert t.workers[0].progress == map[d := Waiting(1)];
    assert t.workers == map[0 := Delivering(e, map[d := Waiting(1)])];
  }

  lemma Fails(cfg: Config, s: State, e: EventId, d: DestId, n: nat)
    requires s.workers == map[0 := Delivering(e, map[d := Waiting(n)])] && n <= |RETRY_DELAYS|
    ensures Run(cfg, s, [Answer(0, d, Status(500)), Record(0, d)]) ==
            s.(workers := map[0 := Delivering(e, map[d := AfterRecord(cfg, n, Status(500))])],
               attempts := s.attempts + {Attempt(e, d, n, s.now, false)})
  {
    var q := AfterRecord(cfg, n, Status(500));
    OneAttempt(cfg, s, 0, d, n, Status(500));
    assert map[d := Waiting(n)][d := q] == map[d := q];
    assert s.workers[0 := Delivering(e, map[d := q])] == map[0 := Delivering(e, map[d := q])];
  }

  /** The event is taken up, an attempt fails and is recorded. */
  function FailOnce(d: DestId): seq<Action> {
    [Fetch(0), Store(0)] + [Answer(0, d, Status(500)), Record(0, d)]
  }

  lemma AfterFailOnce(cfg: Config, s: State, e: EventId, d: DestId)
    requires s.workers == map[] && s.queue == [e] && cfg.dests(e) == {d} && cfg.maxRetries >= 2
    ensures Run(cfg, s, FailOnce(d)) ==
            s.(queue := [], stored := s.stored + {e}, workers := map[0 := Delivering(e, map[d := Waiting(2)])],
               attempts := s.attempts + {Attempt(e, d, 1, s.now, false)})
  {
    TakeUp(cfg, s, e, d);
    var s1 := Run(cfg, s, [Fetch(0), Store(0)]);
    Fails(cfg, s1, e, d, 1);
    RunConcat(cfg, s, [Fetch(0), Store(0)], [Answer(0, d, Status(500)), Record(0, d)]);
  }

  lemma FailOnceEnters(e: EventId, d: DestId)
    ensures Entries(FailOnce(d), e) == 0
  {
    EntriesConcat([Fetch(0), Store(0)], [Answer(0, d, Status(500)), Record(0, d)], e);
    EntriesTwo(Fetch(0), Store(0), e);
    EntriesTwo(Answer(0, d, Status(500)), Record(0, d), e);
  }

  lemma AfterStop(cfg: Config, s: State, seconds: nat)
    ensures var t := Run(cfg, s, [Crash, Tick(seconds)]);
            t == s.(workers := map[], now := s.now + seconds, stranded := t.stranded)
  {
    RunTwo(cfg, s, Crash, Tick(seconds));
  }

  /** After the wait of 5 seconds a second attempt, and then a stop. */
  function FailAndStop(d: DestId): seq<Action> {
    [Tick(5)] + ([Answer(0, d, Status(500)), Record(0, d)] + [Crash, Tick(995)])
  }

  lemma AfterSecondFailure(cfg: Config, s: State, e: EventId, d: DestId)
    requires s.workers == map[0 := Delivering(e, map[d := Waiting(2)])]
    ensures var t := Run(cfg, s, [Answer(0, d, Status(500)), Record(0, d)] + [Crash, Tick(995)]);
            t == s.(workers := map[], now := s.now + 995, stranded := t.stranded,
                    attempts := s.attempts + {Attempt(e, d, 2, s.now, false)})
  {
    var more := [Answer(0, d, Status(500)), Record(0, d)];
    RunConcat(cfg, s, more, [Crash, Tick(995)]);
    Fails(cfg, s, e, d, 2);
    AfterStop(cfg, Run(cfg, s, more), 995);
  }

  lemma WaitFirst(cfg: Config, s: State, seconds: nat, actions: seq<Action>)
    ensures Run(cfg, s, [Tick(seconds)] + actions) == Run(cfg, s.(now := s.now + seconds), actions)
  {
    RunConcat(cfg, s, [Tick(seconds)], actions);
    RunStep(cfg, s, [], Tick(seconds));
    assert [] + [Tick(seconds)] == [Tick(seconds)];
  }

  lemma AfterFailAndStop(cfg: Config, s: State, e: EventId, d: DestId)
    requires s.workers == map[0 := Delivering(e, map[d := Waiting(2)])]
    ensures var t := Run(cfg, s, FailAndStop(d));
            t == s.(workers := map[], now := s.now + 1000, stranded := t.stranded,
                    attempts := s.attempts + {Attempt(e, d, 2, s.now + 5, false)})
  {
    WaitFirst(cfg, s, 5, [Answer(0, d, Status(500)), Record(0, d)] + [Crash, Tick(995)]);
    AfterSecondFailure(cfg, s.(now := s.now + 5), e, d);
  }

  lemma FailAndStopEnters(e: EventId, d: DestId)
    ensures Entries(FailAndStop(d), e) == 0
  {
    var more, stop := [Answer(0, d, Status(500)), Record(0, d)], [Crash, Tick(995)];
    EntriesConcat([Tick(5)], more + stop, e);
    EntriesOne(Tick(5), e);
    EntriesConcat(more, stop, e);
    EntriesTwo(more[0], more[1], e);
    EntriesTwo(Crash, Tick(995), e);
  }

  /** Attempts fail at times 0 and 5, then the process stops until time 1000. */
  lemma TwoFailuresThenStop(cfg: Config, e: EventId, d: DestId) returns (actions: seq<Action>)
    requires cfg.maxRetries >= 2 && cfg.dests(e) == {d}
    ensures var s := Run(cfg, Init(), actions);
            && s.workers == map[] && s.queue == [] && s.stored == {e} && s.dead == {} && s.now == 1000
            && s.attempts == {Attempt(e, d, 1, 0, false), Attempt(e, d, 2, 5, false)}
    ensures Entries(actions, e) == 1
  {
    var first := [] + [Arrive(e)];
    assert Front(first) == [];
    RunStep(cfg, Init(), [], Arrive(e));
    var s1 := Run(cfg, Init(), first);
    assert s1 == Init().(queue := [e], entered := {e});
    AfterFailOnce(cfg, s1, e, d);
    var s2 := Run(cfg, s1, FailOnce(d));
    AfterFailAndStop(cfg, s2, e, d);
    FailOnceEnters(e, d);
    FailAndStopEnters(e, d);
    actions := (first + FailOnce(d)) + FailAndStop(d);
    RunConcat(cfg, Init(), first, FailOnce(d));
    RunConcat(cfg, Init(), first + FailOnce(d), FailAndStop(d));
    EntriesConcat(first, FailOnce(d), e);
    EntriesConcat(first + FailOnce(d), FailAndStop(d), e);
  }

  /**
   Recovery starts numbering again at 1. If the process stops once more right after that attempt,
   the next recovery sees only the old attempt 2 and re-enqueues the event without any wait.
   */
  lemma BackoffOfFreshAttemptIgnored(cfg: Config, e: EventId, d: DestId) returns (actions: seq<Action>)
    requires cfg.maxRetries >= 2 && cfg.dests(e) == {d}
    ensures Entries(actions, e) == 2
    ensures var s := Run(cfg, Init(), actions);
            var early, late := Attempt(e, d, 2, 5, false), Attempt(e, d, 1, 1000, false);
            && s.workers == map[] && late in s.attempts && !Due(late, s.now)
            && Selected(s.attempts, s.dead, early) && Due(early, s.now) && e in s.stored
            && !BackoffOver(s.attempts, e, s.now)
  {
    var early := Attempt(e, d, 2, 5, false);
    var before := TwoFailuresThenStop(cfg, e, d);
    RecoverEarly(cfg, Run(cfg, Init(), before), e, d);
    RunStep(cfg, Init(), before, Recover(early));
    var entered := before + [Recover(early)];
    assert Front(entered) == before;
    actions := (entered + FailOnce(d)) + [Crash];
    FailAndCrash(cfg, entered, e, d);
    FailAndCrashEnters(entered, e, d);
    EarlyHidesLate(Run(cfg, Init(), actions), e, d);
  }

  lemma FailAndCrash(cfg: Config, entered: seq<Action>, e: EventId, d: DestId)
    requires cfg.maxRetries >= 2 && cfg.dests(e) == {d}
    requires Run(cfg, Init(), entered).workers == map[] && Run(cfg, Init(), entered).queue == [e]
    ensures var s, t := Run(cfg, Init(), entered), Run(cfg, Init(), (entered + FailOnce(d)) + [Crash]);
            t == s.(queue := [], stored := s.stored + {e}, stranded := t.stranded,
                    attempts := s.attempts + {Attempt(e, d, 1, s.now, false)})
  {
    AfterFailOnce(cfg, Run(cfg, Init(), entered), e, d);
    RunConcat(cfg, Init(), entered, FailOnce(d));
    RunStep(cfg, Init(), entered + FailOnce(d), Crash);
  }

  lemma FailAndCrashEnters(entered: seq<Action>, e: EventId, d: DestId)
    ensures Entries((entered + FailOnce(d)) + [Crash], e) == Entries(entered, e)
  {
    EntriesConcat(entered + FailOnce(d), [Crash], e);
    EntriesOne(Crash, e);
    EntriesConcat(entered, FailOnce(d), e);
    FailOnceEnters(e, d);
  }

  lemma RecoverEarly(cfg: Config, s: State, e: EventId, d: DestId)
    requires s.workers == map[] && s.queue == [] && s.stored == {e} && s.dead == {} && s.now == 1000
    requires s.attempts == {Attempt(e, d, 1, 0, false), Attempt(e, d, 2, 5, false)}
    ensures Next(cfg, s, Recover(Attempt(e, d, 2, 5, false))) == s.(queue := [e])
  {
    var early := Attempt(e, d, 2, 5, false);
    assert Candidate(s.attempts, s.dead, early);
    assert Selected(s.attempts, s.dead, early);
    assert s.queue + [e] == [e];
  }

  lemma EarlyHidesLate(s: State, e: EventId, d: DestId)
    requires s.dead == {} && s.now == 1000
    requires s.attempts == {Attempt(e, d, 1, 0, false), Attempt(e, d, 2, 5, false), Attempt(e, d, 1, 1000, false)}
    ensures Selected(s.attempts, s.dead, Attempt(e, d, 2, 5, false)) && !BackoffOver(s.attempts, e, s.now)
  {
    assert Candidate(s.attempts, s.dead, Attempt(e, d, 2, 5, false));
    assert Attempt(e, d, 1, 1000, false) in s.attempts;
  }
}
