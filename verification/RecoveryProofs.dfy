/** What holds in every reachable state of the delivery service. */
module RecoveryProofs {
  import opened Common
  import opened Retry
  import opened DeadRows
  import opened Recovery

  /** Dead-letter rows are never taken away, though they may be resolved. */
  ghost predicate KeepsDead(s: State, t: State) {
    forall e :: DeadEvent(s.dead, e) ==> DeadEvent(t.dead, e)
  }

  lemma FirstStays(s: State, t: State, e: EventId, d: DestId)
    requires s.attempts <= t.attempts && HasFirst(s, e, d)
    ensures HasFirst(t, e, d)
  {
    var a :| a in s.attempts && a.event == e && a.dest == d && a.number == 1;
    assert a in t.attempts;
  }

  lemma WorkerInvStays(cfg: Config, s: State, t: State, w: Worker)
    requires s.attempts <= t.attempts && s.stored <= t.stored && s.stranded <= t.stranded && KeepsDead(s, t)
    requires WorkerInv(cfg, s, w)
    ensures WorkerInv(cfg, t, w)
  {
    if w.Delivering? {
      forall d | d in w.progress
        ensures ProgressInv(cfg, t, w.event, d, w.progress[d])
      {
        assert ProgressInv(cfg, s, w.event, d, w.progress[d]);
        if PastFirst(cfg, w.progress[d]) {
          FirstStays(s, t, w.event, d);
        }
      }
    }
  }

  /** Rows and stored events only grow, and with them what is known about a worker. */
  lemma MoreRows(cfg: Config, s: State, t: State)
    requires s.attempts <= t.attempts && s.stored <= t.stored && s.stranded <= t.stranded && KeepsDead(s, t)
    ensures forall e :: Attempted(s, e) ==> Attempted(t, e)
    ensures forall w :: WorkerInv(cfg, s, w) ==> WorkerInv(cfg, t, w)
  {
    forall w | WorkerInv(cfg, s, w)
      ensures WorkerInv(cfg, t, w)
    {
      WorkerInvStays(cfg, s, t, w);
    }
  }

  lemma HeldBy(s: State, w: nat)
    requires w in s.workers
    ensures s.workers[w].event in Held(s)
  {
  }

  /** Replacing one worker's record by another for the same event keeps the invariant. */
  lemma WorkerMoves(cfg: Config, s: State, t: State, w: nat)
    requires Inv(cfg, s)
    requires w in s.workers && w in t.workers
    requires t.workers == s.workers[w := t.workers[w]] && t.workers[w].event == s.workers[w].event
    requires s.attempts <= t.attempts && s.stored <= t.stored && s.stranded <= t.stranded && KeepsDead(s, t)
    requires t.queue == s.queue && t.entered == s.entered && s.stranded <= t.stranded
    requires RowsInv(t) && WorkerInv(cfg, t, t.workers[w])
    ensures Inv(cfg, t)
  {
    MoreRows(cfg, s, t);
    forall e | e in Held(s)
      ensures e in Held(t)
    {
      var v :| v in s.workers && s.workers[v].event == e;
      HeldBy(t, v);
    }
  }

  lemma SameRows(s: State, t: State)
    requires RowsInv(s) && t.attempts == s.attempts && s.stored <= t.stored
    ensures RowsInv(t)
  {
    forall a | a in t.attempts
      ensures HasFirst(t, a.event, a.dest)
    {
      var b :| b in s.attempts && b.event == a.event && b.dest == a.dest && b.number == 1;
      assert b in t.attempts;
    }
  }

  /** One goroutine moves to p, with the rows it needs; no other goroutine of the worker moves. */
  lemma AdvanceKeepsInv(cfg: Config, s: State, w: nat, d: DestId, p: Progress, t: State)
    requires Inv(cfg, s)
    requires ProgressOf(s, w, d).Some?
    requires t.workers == Advance(s, w, d, p).workers
    requires s.attempts <= t.attempts && t.stored == s.stored && KeepsDead(s, t)
    requires t.queue == s.queue && t.entered == s.entered && t.stranded == s.stranded
    requires RowsInv(t) && ProgressInv(cfg, t, s.workers[w].event, d, p)
    ensures Inv(cfg, t)
  {
    WorkerInvStays(cfg, s, t, s.workers[w]);
    assert WorkerInv(cfg, t, t.workers[w]);
    WorkerMoves(cfg, s, t, w);
  }

  lemma RowAdded(s: State, t: State, row: Attempt)
    requires RowsInv(s) && t.attempts == s.attempts + {row} && t.stored == s.stored
    requires row.event in s.stored && row.number >= 1 && HasFirst(t, row.event, row.dest)
    ensures RowsInv(t)
  {
    forall a | a in t.attempts
      ensures HasFirst(t, a.event, a.dest)
    {
      if a in s.attempts {
        FirstStays(s, t, a.event, a.dest);
      }
    }
  }

  lemma RecordKeepsInv(cfg: Config, s: State, w: nat, d: DestId)
    requires Inv(cfg, s)
    ensures Inv(cfg, Next(cfg, s, Record(w, d)))
  {
    var p := ProgressOf(s, w, d);
    if p.Some? && p.value.Answered? {
      var t := Next(cfg, s, Record(w, d));
      var e, n := s.workers[w].event, p.value.number;
      var row := Attempt(e, d, n, s.now, Succeeded(p.value.response));
      assert WorkerInv(cfg, s, s.workers[w]) && ProgressInv(cfg, s, e, d, p.value);
      assert HasFirst(t, e, d) by {
        if n == 1 {
          assert row in t.attempts;
        } else {
          FirstStays(s, t, e, d);
        }
      }
      RowAdded(s, t, row);
      AdvanceKeepsInv(cfg, s, w, d, AfterRecord(cfg, n, p.value.response), t);
    }
  }

  lemma AnswerKeepsInv(cfg: Config, s: State, w: nat, d: DestId, response: Response)
    requires Inv(cfg, s)
    ensures Inv(cfg, Next(cfg, s, Answer(w, d, response)))
  {
    var p := ProgressOf(s, w, d);
    if p.Some? && p.value.Waiting? {
      var t := Next(cfg, s, Answer(w, d, response));
      if p.value.next > |RETRY_DELAYS| {
        CrashKeepsInv(cfg, s);
      } else {
        assert WorkerInv(cfg, s, s.workers[w]) && ProgressInv(cfg, s, s.workers[w].event, d, p.value);
        SameRows(s, t);
        if p.value.next >= 2 {
          FirstStays(s, t, s.workers[w].event, d);
        }
        AdvanceKeepsInv(cfg, s, w, d, Answered(p.value.next, response), t);
      }
    }
  }

  lemma PushKeepsInv(cfg: Config, s: State, w: nat, d: DestId)
    requires Inv(cfg, s)
    ensures Inv(cfg, Next(cfg, s, Push(w, d)))
  {
    if ProgressOf(s, w, d) == Some(Pushing) {
      var t := Next(cfg, s, Push(w, d));
      assert WorkerInv(cfg, s, s.workers[w]) && ProgressInv(cfg, s, s.workers[w].event, d, Pushing);
      SameRows(s, t);
      if cfg.maxRetries >= 1 {
        FirstStays(s, t, s.workers[w].event, d);
      }
      AdvanceKeepsInv(cfg, s, w, d, Inserting, t);
    }
  }

  lemma InsertKeepsInv(cfg: Config, s: State, w: nat, d: DestId)
    requires Inv(cfg, s)
    ensures Inv(cfg, Next(cfg, s, Insert(w, d)))
  {
    if ProgressOf(s, w, d) == Some(Inserting) {
      var t := Next(cfg, s, Insert(w, d));
      var e := s.workers[w].event;
      assert WorkerInv(cfg, s, s.workers[w]) && ProgressInv(cfg, s, e, d, Inserting);
      SameRows(s, t);
      assert DeadRow(e, d, false) in t.dead;
      if cfg.maxRetries >= 1 {
        FirstStays(s, t, e, d);
      }
      AdvanceKeepsInv(cfg, s, w, d, Finished, t);
    }
  }

  lemma AbandonKeepsInv(cfg: Config, s: State, w: nat, d: DestId)
    requires Inv(cfg, s)
    ensures Inv(cfg, Next(cfg, s, Abandon(w, d)))
  {
    var t := Next(cfg, s, Abandon(w, d));
    if t.workers != s.workers {
      var before := s.workers[w];
      SameRows(s, t);
      WorkerInvStays(cfg, s, t, before);
      assert Attempted(t, before.event) || before.event in t.stranded;
      assert forall c :: c in t.workers[w].progress ==> ProgressInv(cfg, t, before.event, c, before.progress[c]);
      assert WorkerInv(cfg, t, t.workers[w]);
      WorkerMoves(cfg, s, t, w);
    } else {
      assert t == s;
    }
  }

  lemma CrashKeepsInv(cfg: Config, s: State)
    requires Inv(cfg, s)
    ensures Inv(cfg, Crashed(s))
  {
    SameRows(s, Crashed(s));
    MoreRows(cfg, s, Crashed(s));
  }

  lemma StoreKeepsInv(cfg: Config, s: State, w: nat)
    requires Inv(cfg, s)
    ensures Inv(cfg, Next(cfg, s, Store(w)))
  {
    if w in s.workers && s.workers[w].Fetched? {
      var t := Next(cfg, s, Store(w));
      var e := s.workers[w].event;
      SameRows(s, t);
      var progress := t.workers[w].progress;
      if cfg.dests(e) != {} {
        var d :| d in cfg.dests(e);
        assert d in progress;
      }
      WorkerMoves(cfg, s, t, w);
    }
  }

  lemma FetchKeepsInv(cfg: Config, s: State, w: nat)
    requires Inv(cfg, s)
    ensures Inv(cfg, Next(cfg, s, Fetch(w)))
  {
    if w !in s.workers && s.queue != [] {
      var t := Next(cfg, s, Fetch(w));
      SameRows(s, t);
      MoreRows(cfg, s, t);
      HeldBy(t, w);
      forall e | e in Held(s)
        ensures e in Held(t)
      {
        var v :| v in s.workers && s.workers[v].event == e;
        HeldBy(t, v);
      }
      forall e | e in s.queue
        ensures e in t.queue || e in Held(t)
      {
        if e != s.queue[0] {
          assert e in s.queue[1..];
        }
      }
    }
  }

  /** A worker that is done with its event goes for the next one. */
  lemma WorkerGone(cfg: Config, s: State, t: State, w: nat)
    requires Inv(cfg, s) && w in s.workers && t.workers == s.workers - {w}
    requires t.attempts == s.attempts && t.dead == s.dead && s.stored <= t.stored && s.stranded <= t.stranded
    requires t.queue == s.queue && t.entered == s.entered
    requires var e := s.workers[w].event;
             Attempted(s, e) || DeadEvent(s.dead, e) || e in t.stranded || cfg.dests(e) == {}
    ensures Inv(cfg, t)
  {
    SameRows(s, t);
    MoreRows(cfg, s, t);
    forall e | e in Held(s)
      ensures e in Held(t) || e == s.workers[w].event
    {
      var v :| v in s.workers && s.workers[v].event == e;
      if v != w {
        HeldBy(t, v);
      }
    }
  }

  lemma LeaveKeepsInv(cfg: Config, s: State, w: nat)
    requires Inv(cfg, s)
    ensures Inv(cfg, Next(cfg, s, Leave(w)))
  {
    var t := Next(cfg, s, Leave(w));
    if t.workers != s.workers {
      var gone := s.workers[w];
      assert WorkerInv(cfg, s, gone);
      if gone.progress != map[] {
        var d :| d in gone.progress;
        assert ProgressInv(cfg, s, gone.event, d, Finished);
        assert Attempted(s, gone.event) || DeadEvent(s.dead, gone.event);
      }
      WorkerGone(cfg, s, t, w);
    } else {
      assert t == s;
    }
  }

  lemma ResolveKeepsDead(s: State, t: State, e: EventId)
    requires t.dead == ResolveRows(s.dead, e)
    ensures KeepsDead(s, t)
  {
    forall x | DeadEvent(s.dead, x)
      ensures DeadEvent(t.dead, x)
    {
      var d :| d in s.dead && d.event == x;
      assert Resolve(d, e) in t.dead;
    }
  }

  /** Actions that leave workers and attempts alone and only lengthen the queue. */
  lemma OutsideKeepsInv(cfg: Config, s: State, a: Action)
    requires Inv(cfg, s)
    requires a.Arrive? || a.Tick? || a.Recover? || a.RetryDead? || a.DiscardDead?
    ensures Inv(cfg, Next(cfg, s, a))
  {
    var t := Next(cfg, s, a);
    SameRows(s, t);
    if t.dead != s.dead {
      ResolveKeepsDead(s, t, a.event);
    }
    MoreRows(cfg, s, t);
    assert Held(t) == Held(s);
    if a.Arrive? {
      assert a.event in t.queue;
    }
  }

  lemma StepKeepsInv(cfg: Config, s: State, a: Action)
    requires Inv(cfg, s)
    ensures Inv(cfg, Next(cfg, s, a))
  {
    match a {
      case Fetch(w) => FetchKeepsInv(cfg, s, w);
      case Store(w) => StoreKeepsInv(cfg, s, w);
      case Unresolved(w) =>
        if w in s.workers && s.workers[w].Fetched? {
          WorkerGone(cfg, s, Next(cfg, s, a), w);
        }
      case Record(w, d) => RecordKeepsInv(cfg, s, w, d);
      case Leave(w) => LeaveKeepsInv(cfg, s, w);
      case Crash => CrashKeepsInv(cfg, s);
      case Answer(w, d, response) => AnswerKeepsInv(cfg, s, w, d, response);
      case Push(w, d) => PushKeepsInv(cfg, s, w, d);
      case Insert(w, d) => InsertKeepsInv(cfg, s, w, d);
      case Abandon(w, d) => AbandonKeepsInv(cfg, s, w, d);
      case _ => OutsideKeepsInv(cfg, s, a);
    }
  }

  lemma {:induction false} RunKeepsInv(cfg: Config, actions: seq<Action>)
    ensures Inv(cfg, Run(cfg, Init(), actions))
  {
    if actions != [] {
      RunKeepsInv(cfg, Front(actions));
      StepKeepsInv(cfg, Run(cfg, Init(), Front(actions)), Last(actions));
    }
  }

  // ---------- The steps are those of the retry loop and of the recovery pass ----------

  /** Where a goroutine stands after n recorded attempts, answered by responses. */
  function ProgressAfter(cfg: Config, responses: nat -> Response, n: nat): Progress {
    if n == 0 then StartOf(cfg)
    else
      match ProgressAfter(cfg, responses, n - 1)
      case Waiting(k) => AfterRecord(cfg, k, responses(k))
      case p => p
  }

  lemma {:induction false} AttemptsFollowLoop(cfg: Config, responses: nat -> Response, cancelled: nat -> bool,
                                              rows: seq<AttemptRow>, ending: Ending, k: nat)
    requires IsRun(cfg.maxRetries, responses, cancelled, rows, ending) && k < |rows|
    ensures ProgressAfter(cfg, responses, k) == Waiting(k + 1)
  {
    if k > 0 {
      AttemptsFollowLoop(cfg, responses, cancelled, rows, ending, k - 1);
      assert rows[k - 1].response == responses(k) && Retryable(rows[k - 1].response);
    }
  }

  /** One attempt of the machine: the answer comes in and is recorded. */
  lemma OneAttempt(cfg: Config, s: State, w: nat, d: DestId, n: nat, response: Response)
    requires ProgressOf(s, w, d) == Some(Waiting(n)) && n <= |RETRY_DELAYS|
    ensures var row := Attempt(s.workers[w].event, d, n, s.now, Succeeded(response));
            && Run(cfg, s, [Answer(w, d, response), Record(w, d)]) ==
               Advance(s, w, d, AfterRecord(cfg, n, response)).(attempts := s.attempts + {row})
  {
    RunTwo(cfg, s, Answer(w, d, response), Record(w, d));
    AdvanceTwice(s, w, d, Answered(n, response), AfterRecord(cfg, n, response));
  }

  lemma AdvanceTwice(s: State, w: nat, d: DestId, p: Progress, q: Progress)
    requires ProgressOf(s, w, d).Some?
    ensures ProgressOf(Advance(s, w, d, p), w, d) == Some(p)
    ensures Advance(Advance(s, w, d, p), w, d, q) == Advance(s, w, d, q)
  {
    var progress := s.workers[w].progress;
    assert progress[d := p][d := q] == progress[d := q];
    var before, after := s.workers[w].(progress := progress[d := p]), s.workers[w].(progress := progress[d := q]);
    assert s.workers[w := before][w := after] == s.workers[w := after];
  }

  lemma AdvanceNowhere(s: State, w: nat, d: DestId, p: Progress)
    requires ProgressOf(s, w, d) == Some(p)
    ensures Advance(s, w, d, p) == s
  {
    assert s.workers[w].progress[d := p] == s.workers[w].progress;
    assert s.workers[w := s.workers[w]] == s.workers;
  }

  lemma RunTwo(cfg: Config, s: State, a: Action, b: Action)
    ensures Run(cfg, s, [a, b]) == Next(cfg, Next(cfg, s, a), b)
  {
    RunStep(cfg, s, [], a);
    RunStep(cfg, s, [] + [a], b);
    assert ([] + [a]) + [b] == [a, b];
  }

  lemma {:induction false} RunConcat(cfg: Config, s: State, xs: seq<Action>, ys: seq<Action>)
    ensures Run(cfg, s, xs + ys) == Run(cfg, Run(cfg, s, xs), ys)
    decreases |ys|
  {
    if ys == [] {
      assert xs + ys == xs;
    } else {
      assert Front(xs + ys) == xs + Front(ys);
      RunConcat(cfg, s, xs, Front(ys));
    }
  }

  /** The first n attempts of one goroutine, with nothing in between. */
  function Attempts(w: nat, d: DestId, responses: nat -> Response, n: nat): seq<Action> {
    if n == 0 then [] else Attempts(w, d, responses, n - 1) + [Answer(w, d, responses(n)), Record(w, d)]
  }

  /** The rows of the first n attempts. */
  function AttemptsMade(e: EventId, d: DestId, now: nat, responses: nat -> Response, n: nat): set<Attempt> {
    if n == 0 then {}
    else AttemptsMade(e, d, now, responses, n - 1) + {Attempt(e, d, n, now, Succeeded(responses(n)))}
  }

  /** They are the rows of the retry loop, as the table holds them. */
  lemma {:induction false} AttemptsMadeMember(e: EventId, d: DestId, now: nat, responses: nat -> Response,
                                              rows: seq<AttemptRow>, n: nat, a: Attempt)
    requires Records(rows, responses) && n <= |rows|
    ensures a in AttemptsMade(e, d, now, responses, n) <==>
            exists i :: 0 <= i < n && rows[i].number >= 0 && a == Attempt(e, d, rows[i].number, now, rows[i].success)
  {
    if n > 0 {
      AttemptsMadeMember(e, d, now, responses, rows, n - 1, a);
      assert rows[n - 1] == AttemptRow(n, responses(n), Succeeded(responses(n)));
    }
  }

  /** An attempt of a goroutine that has moved on from s, together with some rows. */
  lemma NextAttempt(cfg: Config, s: State, w: nat, d: DestId, n: nat, response: Response, rows: set<Attempt>)
    requires ProgressOf(s, w, d).Some? && n <= |RETRY_DELAYS|
    ensures var row := Attempt(s.workers[w].event, d, n, s.now, Succeeded(response));
            Run(cfg, Advance(s, w, d, Waiting(n)).(attempts := rows), [Answer(w, d, response), Record(w, d)]) ==
            Advance(s, w, d, AfterRecord(cfg, n, response)).(attempts := rows + {row})
  {
    var t := Advance(s, w, d, Waiting(n)).(attempts := rows);
    OneAttempt(cfg, t, w, d, n, response);
    AdvanceTwice(s, w, d, Waiting(n), AfterRecord(cfg, n, response));
    assert Advance(t, w, d, AfterRecord(cfg, n, response)) ==
           Advance(Advance(s, w, d, Waiting(n)), w, d, AfterRecord(cfg, n, response)).(attempts := rows);
  }

  lemma OneMoreAttempt(cfg: Config, s: State, w: nat, d: DestId, responses: nat -> Response, n: nat, rows: set<Attempt>)
    requires ProgressOf(s, w, d).Some? && n < |RETRY_DELAYS|
    requires Run(cfg, s, Attempts(w, d, responses, n)) == Advance(s, w, d, Waiting(n + 1)).(attempts := rows)
    ensures var m, response := n + 1, responses(n + 1);
            Run(cfg, s, Attempts(w, d, responses, m)) ==
            Advance(s, w, d, AfterRecord(cfg, m, response)).(
              attempts := rows + {Attempt(s.workers[w].event, d, m, s.now, Succeeded(response))})
  {
    var response := responses(n + 1);
    RunConcat(cfg, s, Attempts(w, d, responses, n), [Answer(w, d, response), Record(w, d)]);
    NextAttempt(cfg, s, w, d, n + 1, response, rows);
  }

  /** After each of fewer than n attempts the goroutine goes on. */
  ghost predicate GoesOn(cfg: Config, responses: nat -> Response, n: nat) {
    forall k :: 0 <= k < n ==> ProgressAfter(cfg, responses, k) == Waiting(k + 1)
  }

  /** The first n attempts from s change the goroutine's progress and add their rows, nothing else. */
  ghost predicate AttemptsOnly(cfg: Config, s: State, w: nat, d: DestId, responses: nat -> Response, n: nat)
    requires ProgressOf(s, w, d).Some?
  {
    Run(cfg, s, Attempts(w, d, responses, n)) ==
    Advance(s, w, d, ProgressAfter(cfg, responses, n)).(
      attempts := s.attempts + AttemptsMade(s.workers[w].event, d, s.now, responses, n))
  }

  lemma NoAttemptYet(cfg: Config, s: State, w: nat, d: DestId, responses: nat -> Response)
    requires ProgressOf(s, w, d) == Some(StartOf(cfg))
    ensures AttemptsOnly(cfg, s, w, d, responses, 0)
  {
    AdvanceNowhere(s, w, d, StartOf(cfg));
    assert s.attempts + {} == s.attempts;
  }

  lemma AttemptAdvances(cfg: Config, s: State, w: nat, d: DestId, responses: nat -> Response, n: nat)
    requires ProgressOf(s, w, d).Some? && n < |RETRY_DELAYS| && ProgressAfter(cfg, responses, n) == Waiting(n + 1)
    requires AttemptsOnly(cfg, s, w, d, responses, n)
    ensures AttemptsOnly(cfg, s, w, d, responses, n + 1)
  {
    var e := s.workers[w].event;
    var made := AttemptsMade(e, d, s.now, responses, n);
    OneMoreAttempt(cfg, s, w, d, responses, n, s.attempts + made);
    var row := Attempt(e, d, n + 1, s.now, Succeeded(responses(n + 1)));
    assert (s.attempts + made) + {row} == s.attempts + (made + {row});
  }

  lemma {:induction false} UpTo(p: nat -> bool, n: nat)
    requires p(0) && forall k: nat :: k < n && p(k) ==> p(k + 1)
    ensures p(n)
  {
    if n > 0 {
      UpTo(p, n - 1);
      assert p(n - 1);
    }
  }

  lemma AttemptsAdvance(cfg: Config, s: State, w: nat, d: DestId, responses: nat -> Response, n: nat)
    requires n <= |RETRY_DELAYS| && GoesOn(cfg, responses, n)
    requires ProgressOf(s, w, d) == Some(StartOf(cfg))
    ensures AttemptsOnly(cfg, s, w, d, responses, n)
  {
    NoAttemptYet(cfg, s, w, d, responses);
    forall k: nat | k < n && AttemptsOnly(cfg, s, w, d, responses, k)
      ensures AttemptsOnly(cfg, s, w, d, responses, k + 1)
    {
      AttemptAdvances(cfg, s, w, d, responses, k);
    }
    UpTo((k: nat) => AttemptsOnly(cfg, s, w, d, responses, k), n);
  }

  /** s after the goroutine recorded these rows and moved to p: nothing else is changed. */
  ghost predicate Recorded(s: State, t: State, w: nat, d: DestId, rows: seq<AttemptRow>, p: Progress)
    requires ProgressOf(s, w, d).Some?
  {
    && t == Advance(s, w, d, p).(attempts := t.attempts)
    && forall a :: a in t.attempts <==>
         || a in s.attempts
         || exists i :: && 0 <= i < |rows| && rows[i].number >= 0
                        && a == Attempt(s.workers[w].event, d, rows[i].number, s.now, rows[i].success)
  }

  /**
   The machine's goroutine, run on its own, records exactly the attempts of the retry loop, changes
   nothing else, and stands where the loop ends; the loop's panic is the machine's crash.
   */
  lemma GoroutineFollowsLoop(cfg: Config, s: State, w: nat, d: DestId, responses: nat -> Response,
                             cancelled: nat -> bool, rows: seq<AttemptRow>, ending: Ending)
    requires IsRun(cfg.maxRetries, responses, cancelled, rows, ending)
    requires ProgressOf(s, w, d) == Some(StartOf(cfg))
    ensures var t := Run(cfg, s, Attempts(w, d, responses, |rows|));
            var last := ProgressOf(t, w, d);
            && last.Some? && Recorded(s, t, w, d, rows, last.value)
            && (ending == Delivered <==> last == Some(Finished))
            && (DeadLettered(ending) <==> last == Some(Pushing))
            && (ending == CancelledInBackoff || ending == NoDelayForAttempt <==> last == Some(Waiting(|rows| + 1)))
            && (ending == NoDelayForAttempt ==> forall r :: Next(cfg, t, Answer(w, d, r)) == Crashed(t))
  {
    var n, e := |rows|, s.workers[w].event;
    forall k | 0 <= k < n
      ensures ProgressAfter(cfg, responses, k) == Waiting(k + 1)
    {
      AttemptsFollowLoop(cfg, responses, cancelled, rows, ending, k);
    }
    AttemptsAdvance(cfg, s, w, d, responses, n);
    forall a
      ensures a in AttemptsMade(e, d, s.now, responses, n) <==>
              exists i :: && 0 <= i < n && rows[i].number >= 0
                          && a == Attempt(e, d, rows[i].number, s.now, rows[i].success)
    {
      AttemptsMadeMember(e, d, s.now, responses, rows, n, a);
    }
    AdvanceTwice(s, w, d, ProgressAfter(cfg, responses, n), ProgressAfter(cfg, responses, n));
    LoopEnd(cfg, responses, cancelled, rows, ending);
  }

  lemma LoopEnd(cfg: Config, responses: nat -> Response, cancelled: nat -> bool, rows: seq<AttemptRow>, ending: Ending)
    requires IsRun(cfg.maxRetries, responses, cancelled, rows, ending)
    ensures var last := ProgressAfter(cfg, responses, |rows|);
            && (ending == Delivered <==> last == Finished)
            && (DeadLettered(ending) <==> last == Pushing)
            && (ending == CancelledInBackoff || ending == NoDelayForAttempt <==> last == Waiting(|rows| + 1))
  {
    if rows != [] {
      assert Last(rows).response == responses(|rows|);
      AttemptsFollowLoop(cfg, responses, cancelled, rows, ending, |rows| - 1);
    }
  }

  /** A goroutine that is to dead-letter its event puts it on the list and writes an unresolved row. */
  lemma DeadLetterSteps(cfg: Config, s: State, w: nat, d: DestId)
    requires ProgressOf(s, w, d) == Some(Pushing)
    ensures var e := s.workers[w].event;
            Run(cfg, s, [Push(w, d), Insert(w, d)]) ==
            Advance(s, w, d, Finished).(dlq := s.dlq + [e], dead := s.dead + {DeadRow(e, d, false)})
  {
    RunTwo(cfg, s, Push(w, d), Insert(w, d));
    AdvanceTwice(s, w, d, Inserting, Finished);
  }

  /** A free worker takes the oldest event of the queue. */
  lemma FetchTakesOldest(cfg: Config, s: State, w: nat, e: EventId, rest: seq<EventId>)
    requires s.queue == [e] + rest && w !in s.workers
    ensures Next(cfg, s, Fetch(w)) == s.(queue := rest, workers := s.workers[w := Fetched(e)])
  {
  }

  /** A crash takes what the workers had in hand, and nothing that is stored. */
  lemma CrashTakesWorkersOnly(cfg: Config, s: State)
    ensures var t := Next(cfg, s, Crash);
            && t == s.(workers := map[], stranded := t.stranded)
            && forall e :: e in t.stranded <==>
                 e in s.stranded || (!Attempted(s, e) && exists w :: w in s.workers && s.workers[w].event == e)
  {
  }

  /** A discard takes the event's first entry off the list, if there is one, and resolves its rows. */
  lemma DeadDiscarded(cfg: Config, s: State, e: EventId)
    ensures var t := Next(cfg, s, DiscardDead(e));
            && t == s.(dlq := t.dlq, dead := t.dead)
            && (e !in s.dlq ==> t.dlq == s.dlq)
            && (e in s.dlq ==> exists i :: 0 <= i < |s.dlq| && s.dlq[i] == e && t.dlq == s.dlq[..i] + s.dlq[i + 1..])
            && (forall r :: r in s.dead && r.event == e ==> r.(resolved := true) in t.dead)
            && (forall r :: r in t.dead && r.event == e ==> r.resolved)
            && (forall r: DeadRow :: r.event != e ==> (r in t.dead <==> r in s.dead))
  {
    if e in s.dlq {
      var i := RemoveFirstIs(s.dlq, e);
    } else {
      NothingToRemove(s.dlq, e);
    }
    forall r | r in s.dead
      ensures Resolve(r, e) in Next(cfg, s, DiscardDead(e)).dead
    {
    }
  }

  lemma {:induction false} NothingToRemove(l: seq<EventId>, e: EventId)
    requires e !in l
    ensures RemoveFirst(l, e) == l
  {
    if l != [] {
      NothingToRemove(l[1..], e);
    }
  }

  /** A retry from the dashboard queues the event, takes its first entry off the list and resolves its rows. */
  lemma DeadRetried(cfg: Config, s: State, e: EventId) returns (i: nat)
    requires e in s.dlq
    ensures i < |s.dlq| && s.dlq[i] == e && e !in s.dlq[..i]
    ensures var t := Next(cfg, s, RetryDead(e));
            && t == s.(queue := s.queue + [e], dlq := s.dlq[..i] + s.dlq[i + 1..], dead := t.dead)
            && (forall r :: r in s.dead ==> (if r.event == e then r.(resolved := true) else r) in t.dead)
            && forall r :: r in t.dead ==>
                 r in s.dead || (r.event == e && r.resolved && r.(resolved := false) in s.dead)
  {
    i := RemoveFirstIs(s.dlq, e);
  }

  /** One recovery step for each row whose event could be fetched and enqueued. */
  function RecoverActions(rows: seq<Attempt>, failed: set<nat>): seq<Action> {
    if rows == [] then []
    else RecoverActions(Front(rows), failed) + if |rows| - 1 in failed then [] else [Recover(Last(rows))]
  }

  lemma RunNothing(cfg: Config, s: State, xs: seq<Action>)
    ensures Run(cfg, s, xs + []) == Run(cfg, s, xs)
  {
    assert xs + [] == xs;
  }

  lemma OneRecovery(cfg: Config, s: State, queue: seq<EventId>, r: Attempt)
    requires s.workers == map[] && Selected(s.attempts, s.dead, r)
    ensures Next(cfg, s.(queue := queue), Recover(r)) ==
            s.(queue := queue + if Due(r, s.now) && r.event in s.stored then [r.event] else [])
  {
    assert queue + [] == queue;
  }

  /** The recovery pass over a query result is that many recovery steps. */
  lemma {:induction false} PassIsRecoverSteps(cfg: Config, s: State, rows: seq<Attempt>, failed: set<nat>)
    requires s.workers == map[] && forall i :: 0 <= i < |rows| ==> Selected(s.attempts, s.dead, rows[i])
    ensures Run(cfg, s, RecoverActions(rows, failed)) ==
            s.(queue := s.queue + DueEvents(rows, s.now, s.stored, failed))
  {
    if rows == [] {
      assert s.queue + [] == s.queue;
    } else {
      var before, due := RecoverActions(Front(rows), failed), DueEvents(Front(rows), s.now, s.stored, failed);
      PassIsRecoverSteps(cfg, s, Front(rows), failed);
      if |rows| - 1 in failed {
        RunNothing(cfg, s, before);
        assert due + [] == due;
      } else {
        RunStep(cfg, s, before, Recover(Last(rows)));
        OneRecovery(cfg, s, s.queue + due, Last(rows));
        var more := if Due(Last(rows), s.now) && Last(rows).event in s.stored then [Last(rows).event] else [];
        assert (s.queue + due) + more == s.queue + (due + more);
      }
    }
  }

  // ---------- The query is exact ----------

  ghost predicate AttemptedPair(s: State, e: EventId, d: DestId) {
    exists a :: a in s.attempts && a.event == e && a.dest == d
  }

  /**
   In every reachable state the query lists exactly the (event, destination) pairs with a recorded
   attempt whose event has no success row and no dead-letter row, and those events are stored.
   */
  lemma QueryExact(cfg: Config, actions: seq<Action>, rows: seq<Attempt>, e: EventId, d: DestId)
    requires IsQueryResult(Run(cfg, Init(), actions).attempts, Run(cfg, Init(), actions).dead, rows)
    ensures var s := Run(cfg, Init(), actions);
            && (Covers(rows, e, d) <==>
                AttemptedPair(s, e, d) && !SucceededEvent(s.attempts, e) && !DeadEvent(s.dead, e))
            && (Covers(rows, e, d) ==> e in s.stored)
  {
    RunKeepsInv(cfg, actions);
    var s := Run(cfg, Init(), actions);
    if Covers(rows, e, d) {
      var i :| 0 <= i < |rows| && rows[i].event == e && rows[i].dest == d;
      assert Selected(s.attempts, s.dead, rows[i]);
    }
    if AttemptedPair(s, e, d) && !SucceededEvent(s.attempts, e) && !DeadEvent(s.dead, e) {
      var a :| a in s.attempts && a.event == e && a.dest == d;
      assert HasFirst(s, e, d);
      var first :| first in s.attempts && first.event == e && first.dest == d && first.number == 1;
      assert Candidate(s.attempts, s.dead, first);
    }
  }

  /** The event is queued, in a worker's hand, delivered somewhere, dead-lettered or listed for recovery. */
  ghost predicate StillSeen(s: State, rows: seq<Attempt>, e: EventId) {
    || e in s.queue || e in Held(s)
    || SucceededEvent(s.attempts, e) || DeadEvent(s.dead, e)
    || (exists d :: Covers(rows, e, d))
  }

  /**
   Exactly the events that are no longer seen anywhere: neither queued nor held, without attempt and
   dead-letter row, and either let go of before a first attempt row or without any destination.
   */
  lemma NothingVanishes(cfg: Config, actions: seq<Action>, rows: seq<Attempt>, e: EventId)
    requires e in Run(cfg, Init(), actions).entered
    requires IsQueryResult(Run(cfg, Init(), actions).attempts, Run(cfg, Init(), actions).dead, rows)
    ensures var s := Run(cfg, Init(), actions);
            !StillSeen(s, rows, e) <==>
              && (e in s.stranded || cfg.dests(e) == {})
              && !Attempted(s, e) && !DeadEvent(s.dead, e) && e !in s.queue && e !in Held(s)
  {
    RunKeepsInv(cfg, actions);
    var s := Run(cfg, Init(), actions);
    assert Accounted(cfg, s, e);
    if Attempted(s, e) {
      var a :| a in s.attempts && a.event == e;
      assert AttemptedPair(s, e, a.dest);
      QueryExact(cfg, actions, rows, e, a.dest);
    }
    if d :| Covers(rows, e, d) {
      QueryExact(cfg, actions, rows, e, d);
    }
  }

  /** A crash between fetching an event and recording its first attempt loses the event. */
  lemma LostBeforeFirstAttempt(cfg: Config, e: EventId) returns (actions: seq<Action>)
    ensures var s := Run(cfg, Init(), actions);
            && e in s.entered && e in s.stranded
            && IsQueryResult(s.attempts, s.dead, []) && !StillSeen(s, [], e)
  {
    var b1 := [] + [Arrive(e)];
    var b2 := b1 + [Fetch(0)];
    actions := b2 + [Crash];
    RunStep(cfg, Init(), [], Arrive(e));
    RunStep(cfg, Init(), b1, Fetch(0));
    RunStep(cfg, Init(), b2, Crash);
    HeldBy(Run(cfg, Init(), b2), 0);
  }

  /** So does a shutdown during the first attempt, with no crash: the row of the attempt is not written. */
  lemma LostToShutdown(cfg: Config, e: EventId, d: DestId) returns (actions: seq<Action>)
    requires cfg.dests(e) == {d}
    ensures Crash !in actions
    ensures var s := Run(cfg, Init(), actions);
            && e in s.entered && s.workers == map[]
            && IsQueryResult(s.attempts, s.dead, []) && !StillSeen(s, [], e)
  {
    var b1 := Fanned(e);
    var b2 := b1 + [Abandon(0, d)];
    actions := b2 + [Leave(0)];
    RunStep(cfg, Init(), [], Arrive(e));
    RunStep(cfg, Init(), [] + [Arrive(e)], Fetch(0));
    RunStep(cfg, Init(), [] + [Arrive(e)] + [Fetch(0)], Store(0));
    RunStep(cfg, Init(), b1, Abandon(0, d));
    RunStep(cfg, Init(), b2, Leave(0));
    var s1 := Run(cfg, Init(), b1);
    assert s1.workers[0].progress.Keys == {d} && s1.workers.Keys == {0};
    assert Run(cfg, Init(), b2).workers[0].progress == map[];
  }

  /** And so does an event whose destinations cannot be resolved. */
  lemma LostUnresolved(cfg: Config, e: EventId) returns (actions: seq<Action>)
    ensures Crash !in actions
    ensures var s := Run(cfg, Init(), actions);
            && e in s.entered && s.workers == map[] && e in s.stored
            && IsQueryResult(s.attempts, s.dead, []) && !StillSeen(s, [], e)
  {
    var b1 := [] + [Arrive(e)];
    var b2 := b1 + [Fetch(0)];
    actions := b2 + [Unresolved(0)];
    RunStep(cfg, Init(), [], Arrive(e));
    RunStep(cfg, Init(), b1, Fetch(0));
    RunStep(cfg, Init(), b2, Unresolved(0));
    assert Run(cfg, Init(), b2).workers == map[0 := Fetched(e)];
  }

  /** Once an event has a success row or a dead-letter row, even a resolved one, no later recovery lists it. */
  lemma {:induction false} NeverRecoveredAgain(cfg: Config, s: State, actions: seq<Action>, e: EventId)
    requires SucceededEvent(s.attempts, e) || DeadEvent(s.dead, e)
    ensures var t := Run(cfg, s, actions); SucceededEvent(t.attempts, e) || DeadEvent(t.dead, e)
    ensures var t := Run(cfg, s, actions); forall r :: Candidate(t.attempts, t.dead, r) ==> r.event != e
    decreases |actions|
  {
    if actions != [] {
      NeverRecoveredAgain(cfg, s, Front(actions), e);
      FinalRowsStay(cfg, Run(cfg, s, Front(actions)), Last(actions), e);
    }
  }

  lemma FinalRowsStay(cfg: Config, s: State, a: Action, e: EventId)
    requires SucceededEvent(s.attempts, e) || DeadEvent(s.dead, e)
    ensures var t := Next(cfg, s, a); SucceededEvent(t.attempts, e) || DeadEvent(t.dead, e)
  {
    var t := Next(cfg, s, a);
    if SucceededEvent(s.attempts, e) {
      var r :| r in s.attempts && r.success && r.event == e;
      assert r in t.attempts;
    } else {
      var d :| d in s.dead && d.event == e;
      assert d in t.dead || ((a.RetryDead? || a.DiscardDead?) && Resolve(d, a.event) in t.dead);
    }
  }

  // ---------- Several destinations ----------

  lemma RunStep(cfg: Config, s: State, actions: seq<Action>, a: Action)
    ensures Run(cfg, s, actions + [a]) == Next(cfg, Run(cfg, s, actions), a)
  {
    assert Front(actions + [a]) == actions;
  }

  function Fanned(e: EventId): seq<Action> {
    [] + [Arrive(e)] + [Fetch(0)] + [Store(0)]
  }

  lemma AfterFanOut(cfg: Config, e: EventId, d1: DestId, d2: DestId)
    requires cfg.maxRetries >= 1 && cfg.dests(e) == {d1, d2}
    ensures Run(cfg, Init(), Fanned(e)) ==
            Init().(stored := {e}, entered := {e},
                    workers := map[0 := Delivering(e, map[d1 := Waiting(1), d2 := Waiting(1)])])
  {
    RunStep(cfg, Init(), [], Arrive(e));
    RunStep(cfg, Init(), [] + [Arrive(e)], Fetch(0));
    var fetched := Run(cfg, Init(), [] + [Arrive(e)] + [Fetch(0)]);
    assert fetched == Init().(entered := {e}, workers := map[0 := Fetched(e)]);
    RunStep(cfg, Init(), [] + [Arrive(e)] + [Fetch(0)], Store(0));
    var t := Next(cfg, fetched, Store(0));
    assert t.workers[0].progress == map[d1 := Waiting(1), d2 := Waiting(1)];
    assert t.workers == map[0 := Delivering(e, map[d1 := Waiting(1), d2 := Waiting(1)])];
  }

  function FirstAnswer(d: DestId, response: Response): seq<Action> {
    [Answer(0, d, response), Record(0, d)]
  }

  /** The first destination answers, time passes, the second answers, and the process stops. */
  function TwoAnswers(e: EventId, d1: DestId, r1: Response, gap: nat, d2: DestId, r2: Response): seq<Action> {
    Fanned(e) + FirstAnswer(d1, r1) + [Tick(gap)] + FirstAnswer(d2, r2) + [Crash]
  }

  lemma SecondAnswer(cfg: Config, s: State, e: EventId, d1: DestId, p: Progress, d2: DestId, r2: Response)
    requires s.workers == map[0 := Delivering(e, map[d1 := p, d2 := Waiting(1)])] && d1 != d2
    ensures var t := Run(cfg, s, FirstAnswer(d2, r2));
            t == s.(workers := t.workers, attempts := s.attempts + {Attempt(e, d2, 1, s.now, Succeeded(r2))})
  {
    OneAttempt(cfg, s, 0, d2, 1, r2);
  }

  lemma AfterOneAnswer(cfg: Config, e: EventId, d1: DestId, r1: Response, d2: DestId)
    requires cfg.maxRetries >= 1 && cfg.dests(e) == {d1, d2} && d1 != d2
    ensures Run(cfg, Init(), Fanned(e) + FirstAnswer(d1, r1)) ==
            Init().(stored := {e}, entered := {e}, attempts := {Attempt(e, d1, 1, 0, Succeeded(r1))},
                    workers := map[0 := Delivering(e, map[d1 := AfterRecord(cfg, 1, r1), d2 := Waiting(1)])])
  {
    var s, p := Run(cfg, Init(), Fanned(e)), AfterRecord(cfg, 1, r1);
    AfterFanOut(cfg, e, d1, d2);
    RunConcat(cfg, Init(), Fanned(e), FirstAnswer(d1, r1));
    OneAttempt(cfg, s, 0, d1, 1, r1);
    assert s.workers[0].progress[d1 := p] == map[d1 := p, d2 := Waiting(1)];
    assert Advance(s, 0, d1, p).workers == map[0 := Delivering(e, map[d1 := p, d2 := Waiting(1)])];
  }

  lemma SecondAnswerThenCrash(cfg: Config, b: seq<Action>, e: EventId, d1: DestId, p: Progress,
                              d2: DestId, r2: Response)
    requires Run(cfg, Init(), b).workers == map[0 := Delivering(e, map[d1 := p, d2 := Waiting(1)])] && d1 != d2
    ensures var s, t := Run(cfg, Init(), b), Run(cfg, Init(), b + FirstAnswer(d2, r2) + [Crash]);
            t == s.(workers := map[], attempts := s.attempts + {Attempt(e, d2, 1, s.now, Succeeded(r2))},
                    stranded := t.stranded)
  {
    RunConcat(cfg, Init(), b, FirstAnswer(d2, r2));
    SecondAnswer(cfg, Run(cfg, Init(), b), e, d1, p, d2, r2);
    RunStep(cfg, Init(), b + FirstAnswer(d2, r2), Crash);
  }

  lemma AfterTwoAnswers(cfg: Config, e: EventId, d1: DestId, r1: Response, gap: nat, d2: DestId, r2: Response)
    requires cfg.maxRetries >= 1 && cfg.dests(e) == {d1, d2} && d1 != d2
    ensures var s := Run(cfg, Init(), TwoAnswers(e, d1, r1, gap, d2, r2));
            && s.workers == map[] && s.queue == [] && s.stored == {e} && s.dead == {} && s.now == gap
            && s.attempts == {Attempt(e, d1, 1, 0, Succeeded(r1)), Attempt(e, d2, 1, gap, Succeeded(r2))}
  {
    var b := Fanned(e) + FirstAnswer(d1, r1);
    AfterOneAnswer(cfg, e, d1, r1, d2);
    RunStep(cfg, Init(), b, Tick(gap));
    SecondAnswerThenCrash(cfg, b + [Tick(gap)], e, d1, AfterRecord(cfg, 1, r1), d2, r2);
  }

  /** The query works per event: after one destination succeeded, a crash loses the retries of the other. */
  lemma RetriesLostForOtherDestination(cfg: Config, e: EventId, d1: DestId, d2: DestId) returns (actions: seq<Action>)
    requires cfg.maxRetries >= 2 && cfg.dests(e) == {d1, d2} && d1 != d2
    ensures var s := Run(cfg, Init(), actions);
            && s.workers == map[] && s.queue == [] && s.dead == {}
            && AttemptedPair(s, e, d2) && (forall a :: a in s.attempts && a.dest == d2 ==> !a.success)
            && (forall r :: Candidate(s.attempts, s.dead, r) ==> r.event != e)
  {
    actions := TwoAnswers(e, d1, Status(200), 0, d2, Status(500));
    AfterTwoAnswers(cfg, e, d1, Status(200), 0, d2, Status(500));
    var s := Run(cfg, Init(), actions);
    assert Attempt(e, d1, 1, 0, true) in s.attempts && Attempt(e, d2, 1, 0, false) in s.attempts;
    assert SucceededEvent(s.attempts, e);
  }
}
