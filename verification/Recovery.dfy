/**
 The delivery service with crashes: queue, workers, attempt rows, dead-letter rows, and the
 recovery pass at startup (internal/delivery/engine.go, internal/store/postgres.go).

 The process may stop between any two steps, and a shutdown may cut off a goroutine, whose remaining
 calls then fail. Apart from that, and from destinations that cannot be resolved, stores and queues
 do not fail here.
 */
module Recovery {
  import opened Common
  import opened Retry
  import opened DeadRows

  /** Rows of delivery_attempts. */
  datatype Attempt = Attempt(event: EventId, dest: DestId, number: nat, at: nat, success: bool)

  const QUERY_LIMIT: nat := 4

  // ---------- The recovery query ----------

  predicate SucceededEvent(attempts: set<Attempt>, e: EventId) {
    exists a | a in attempts :: a.success && a.event == e
  }

  predicate DeadEvent(dead: set<DeadRow>, e: EventId) {
    exists d | d in dead :: d.event == e
  }

  /** The WHERE clause. A resolved dead-letter row still excludes its event. */
  predicate Candidate(attempts: set<Attempt>, dead: set<DeadRow>, r: Attempt) {
    && r in attempts && !r.success && r.number < QUERY_LIMIT
    && !SucceededEvent(attempts, r.event)
    && !DeadEvent(dead, r.event)
  }

  /** DISTINCT ON (event, destination), highest attempt number first, ties broken arbitrarily. */
  predicate Selected(attempts: set<Attempt>, dead: set<DeadRow>, r: Attempt) {
    && Candidate(attempts, dead, r)
    && forall a | a in attempts ::
         Candidate(attempts, dead, a) && a.event == r.event && a.dest == r.dest ==> a.number <= r.number
  }

  ghost predicate IsQueryResult(attempts: set<Attempt>, dead: set<DeadRow>, rows: seq<Attempt>) {
    && (forall i :: 0 <= i < |rows| ==> Selected(attempts, dead, rows[i]))
    && (forall i, j :: 0 <= i < j < |rows| ==> rows[i].event != rows[j].event || rows[i].dest != rows[j].dest)
    && (forall a :: Candidate(attempts, dead, a) ==> Covers(rows, a.event, a.dest))
  }

  ghost predicate Covers(rows: seq<Attempt>, e: EventId, d: DestId) {
    exists i :: 0 <= i < |rows| && rows[i].event == e && rows[i].dest == d
  }

  // ---------- The recovery pass ----------

  function NextDelay(number: nat): nat {
    if number < |RETRY_DELAYS| then RETRY_DELAYS[number] else RETRY_DELAYS[0]
  }

  predicate Due(r: Attempt, now: nat) {
    r.at <= now && now - r.at >= NextDelay(r.number)
  }

  /**
   The pass puts the event of row i back on the queue; failed are the rows whose event could not be
   fetched or enqueued.
   */
  predicate PutBack(rows: seq<Attempt>, now: nat, stored: set<EventId>, failed: set<nat>, i: nat)
    requires i < |rows|
  {
    Due(rows[i], now) && rows[i].event in stored && i !in failed
  }

  function DueEvents(rows: seq<Attempt>, now: nat, stored: set<EventId>, failed: set<nat>): seq<EventId> {
    if rows == [] then []
    else
      DueEvents(Front(rows), now, stored, failed) +
      if PutBack(rows, now, stored, failed, |rows| - 1) then [Last(rows).event] else []
  }

  method RecoverIncomplete(rows: seq<Attempt>, now: nat, stored: set<EventId>, queue: seq<EventId>,
                           fetchFails: set<nat>, enqueueFails: set<nat>) returns (queue': seq<EventId>)
    ensures queue' == queue + DueEvents(rows, now, stored, fetchFails + enqueueFails)
  {
    queue' := queue;
    for i := 0 to |rows|
      invariant queue' == queue + DueEvents(rows[..i], now, stored, fetchFails + enqueueFails)
    {
      assert Front(rows[..i + 1]) == rows[..i];
      var d := rows[i];
      var nextDelay := RETRY_DELAYS[0];
      if d.number < |RETRY_DELAYS| {
        nextDelay := RETRY_DELAYS[d.number];
      }
      if d.at > now || now - d.at < nextDelay {
        continue;
      }
      if d.event !in stored || i in fetchFails {
        continue;
      }
      if i in enqueueFails {
        continue;
      }
      queue' := queue' + [d.event];
    }
    assert rows[..|rows|] == rows;
  }

  ghost predicate PutsBack(rows: seq<Attempt>, now: nat, stored: set<EventId>, failed: set<nat>, e: EventId) {
    exists i :: 0 <= i < |rows| && rows[i].event == e && PutBack(rows, now, stored, failed, i)
  }

  lemma PutsBackSnoc(rows: seq<Attempt>, now: nat, stored: set<EventId>, failed: set<nat>, e: EventId)
    requires rows != []
    ensures PutsBack(rows, now, stored, failed, e) <==>
            || PutsBack(Front(rows), now, stored, failed, e)
            || (Last(rows).event == e && PutBack(rows, now, stored, failed, |rows| - 1))
  {
    var n := |rows| - 1;
    assert forall i :: 0 <= i < n ==> Front(rows)[i] == rows[i];
    if PutsBack(Front(rows), now, stored, failed, e) {
      var i :| 0 <= i < n && Front(rows)[i].event == e && PutBack(Front(rows), now, stored, failed, i);
      assert rows[i].event == e && PutBack(rows, now, stored, failed, i);
    }
    if PutsBack(rows, now, stored, failed, e) {
      var i :| 0 <= i < |rows| && rows[i].event == e && PutBack(rows, now, stored, failed, i);
      assert i < n ==> Front(rows)[i].event == e && PutBack(Front(rows), now, stored, failed, i);
    }
  }

  lemma {:induction false} DueEventsMember(rows: seq<Attempt>, now: nat, stored: set<EventId>, failed: set<nat>,
                                           e: EventId)
    ensures e in DueEvents(rows, now, stored, failed) <==> PutsBack(rows, now, stored, failed, e)
  {
    if rows != [] {
      DueEventsMember(Front(rows), now, stored, failed, e);
      PutsBackSnoc(rows, now, stored, failed, e);
    }
  }

  // ---------- What the query and the pass look at ----------

  /** Half a minute after the second attempt, and so on. */
  lemma DueIff(r: Attempt, now: nat)
    ensures Due(r, now) <==>
            now >= r.at + (if r.number == 1 then 5 else if r.number == 2 then 30 else if r.number == 3 then 120 else 0)
  {
  }

  /** A selected row is a failure, and its number the greatest below four among the pair's failures. */
  lemma SelectedIff(attempts: set<Attempt>, dead: set<DeadRow>, r: Attempt)
    ensures Selected(attempts, dead, r) <==>
              && r in attempts && !r.success && r.number <= 3
              && (forall a :: a in attempts && a.event == r.event ==> !a.success)
              && (forall d :: d in dead ==> d.event != r.event)
              && (forall a :: a in attempts && a.event == r.event && a.dest == r.dest && a.number <= 3 ==>
                    a.number <= r.number)
  {
    if Selected(attempts, dead, r) {
      forall a | a in attempts && a.event == r.event && a.dest == r.dest && a.number <= 3
        ensures a.number <= r.number
      {
        assert Candidate(attempts, dead, a);
      }
    }
  }

  // ---------- The running service ----------

  /** Where one destination goroutine stands. */
  datatype Progress =
    | Waiting(next: nat)
    | Answered(number: nat, response: Response)
    | Pushing
    | Inserting
    | Finished

  datatype Worker = Fetched(event: EventId) | Delivering(event: EventId, progress: map<DestId, Progress>)

  datatype Config = Config(dests: EventId -> set<DestId>, maxRetries: int)

  datatype State = State(
    queue: seq<EventId>,
    stored: set<EventId>,
    attempts: set<Attempt>,
    dead: set<DeadRow>,
    dlq: seq<EventId>,
    workers: map<nat, Worker>,
    now: nat,
    entered: set<EventId>,   // history: events ever put on the queue from outside
    stranded: set<EventId>)  // history: events let go of before any attempt row

  datatype Action =
    | Arrive(event: EventId)
    | Fetch(worker: nat)
    | Store(worker: nat)
    | Unresolved(worker: nat)
    | Answer(worker: nat, dest: DestId, response: Response)
    | Record(worker: nat, dest: DestId)
    | Push(worker: nat, dest: DestId)
    | Insert(worker: nat, dest: DestId)
    | Abandon(worker: nat, dest: DestId)
    | Leave(worker: nat)
    | Tick(seconds: nat)
    | Crash
    | Recover(row: Attempt)
    | RetryDead(event: EventId)
    | DiscardDead(event: EventId)

  function Init(): State {
    State([], {}, {}, {}, [], map[], 0, {}, {})
  }

  function StartOf(cfg: Config): Progress {
    if cfg.maxRetries >= 1 then Waiting(1) else Pushing
  }

  function AfterRecord(cfg: Config, number: nat, response: Response): Progress {
    if Succeeded(response) then Finished
    else if Permanent(response) || number >= cfg.maxRetries then Pushing
    else Waiting(number + 1)
  }

  predicate Attempted(s: State, e: EventId) {
    exists a | a in s.attempts :: a.event == e
  }

  function Held(s: State): set<EventId> {
    set w | w in s.workers :: s.workers[w].event
  }

  function Crashed(s: State): State {
    s.(workers := map[], stranded := s.stranded + set e | e in Held(s) && !Attempted(s, e))
  }

  /** The event, if it is let go of without an attempt row. */
  function CutOff(s: State, e: EventId): set<EventId> {
    if Attempted(s, e) then {} else {e}
  }

  function ProgressOf(s: State, w: nat, d: DestId): Option<Progress> {
    if w in s.workers && s.workers[w].Delivering? && d in s.workers[w].progress
    then Some(s.workers[w].progress[d])
    else None
  }

  function Advance(s: State, w: nat, d: DestId, p: Progress): State
    requires ProgressOf(s, w, d).Some?
  {
    s.(workers := s.workers[w := s.workers[w].(progress := s.workers[w].progress[d := p])])
  }

  function RemoveFirst(l: seq<EventId>, e: EventId): seq<EventId> {
    if l == [] then [] else if l[0] == e then l[1..] else [l[0]] + RemoveFirst(l[1..], e)
  }

  /** The first occurrence goes, all others stay in order. */
  lemma {:induction false} RemoveFirstIs(l: seq<EventId>, e: EventId) returns (i: nat)
    requires e in l
    ensures i < |l| && l[i] == e && e !in l[..i] && RemoveFirst(l, e) == l[..i] + l[i + 1..]
  {
    if l[0] == e {
      i := 0;
    } else {
      var j := RemoveFirstIs(l[1..], e);
      i := j + 1;
      assert l[..i] == [l[0]] + l[1..][..j];
    }
  }

  function ResolveRows(dead: set<DeadRow>, e: EventId): set<DeadRow> {
    set d | d in dead :: Resolve(d, e)
  }

  /** Actions that are not possible in a state leave it unchanged. */
  function Next(cfg: Config, s: State, a: Action): State {
    match a
    case Arrive(e) => s.(queue := s.queue + [e], entered := s.entered + {e})
    case Fetch(w) =>
      if w in s.workers || s.queue == [] then s
      else s.(queue := s.queue[1..], workers := s.workers[w := Fetched(s.queue[0])])
    case Store(w) =>
      if w !in s.workers || !s.workers[w].Fetched? then s
      else
        var e := s.workers[w].event;
        s.(stored := s.stored + {e},
           workers := s.workers[w := Delivering(e, map d | d in cfg.dests(e) :: StartOf(cfg))])
    case Unresolved(w) =>
      if w !in s.workers || !s.workers[w].Fetched? then s
      else
        var e := s.workers[w].event;
        s.(stored := s.stored + {e}, workers := s.workers - {w}, stranded := s.stranded + CutOff(s, e))
    case Answer(w, d, response) =>
      var p := ProgressOf(s, w, d);
      if p.None? || !p.value.Waiting? then s
      else if p.value.next > |RETRY_DELAYS| then Crashed(s)
      else Advance(s, w, d, Answered(p.value.next, response))
    case Record(w, d) =>
      var p := ProgressOf(s, w, d);
      if p.None? || !p.value.Answered? then s
      else
        var row := Attempt(s.workers[w].event, d, p.value.number, s.now, Succeeded(p.value.response));
        Advance(s, w, d, AfterRecord(cfg, p.value.number, p.value.response)).(attempts := s.attempts + {row})
    case Push(w, d) =>
      if ProgressOf(s, w, d) != Some(Pushing) then s
      else Advance(s, w, d, Inserting).(dlq := s.dlq + [s.workers[w].event])
    case Insert(w, d) =>
      if ProgressOf(s, w, d) != Some(Inserting) then s
      else Advance(s, w, d, Finished).(dead := s.dead + {DeadRow(s.workers[w].event, d, false)})
    case Abandon(w, d) =>
      var p := ProgressOf(s, w, d);
      if p.None? || p.value == Finished then s
      else s.(workers := s.workers[w := s.workers[w].(progress := s.workers[w].progress - {d})],
              stranded := s.stranded + CutOff(s, s.workers[w].event))
    case Leave(w) =>
      if && w in s.workers && s.workers[w].Delivering?
         && (forall d | d in s.workers[w].progress :: s.workers[w].progress[d] == Finished)
      then s.(workers := s.workers - {w})
      else s
    case Tick(n) => s.(now := s.now + n)
    case Crash => Crashed(s)
    case Recover(r) =>
      if s.workers == map[] && Selected(s.attempts, s.dead, r) && Due(r, s.now) && r.event in s.stored
      then s.(queue := s.queue + [r.event])
      else s
    case RetryDead(e) =>
      if e !in s.dlq then s
      else s.(queue := s.queue + [e], dlq := RemoveFirst(s.dlq, e), dead := ResolveRows(s.dead, e))
    case DiscardDead(e) => s.(dlq := RemoveFirst(s.dlq, e), dead := ResolveRows(s.dead, e))
  }

  function Run(cfg: Config, s: State, actions: seq<Action>): State
    decreases |actions|
  {
    if actions == [] then s else Next(cfg, Run(cfg, s, Front(actions)), Last(actions))
  }

  // ---------- Invariant ----------

  ghost predicate HasFirst(s: State, e: EventId, d: DestId) {
    exists a :: a in s.attempts && a.event == e && a.dest == d && a.number == 1
  }

  /** The goroutine has certainly recorded its first attempt. */
  predicate PastFirst(cfg: Config, p: Progress) {
    match p
    case Waiting(n) => n >= 2
    case Answered(n, _) => n >= 2
    case _ => cfg.maxRetries >= 1
  }

  ghost predicate RowsInv(s: State) {
    forall a :: a in s.attempts ==> a.event in s.stored && a.number >= 1 && HasFirst(s, a.event, a.dest)
  }

  ghost predicate ProgressInv(cfg: Config, s: State, e: EventId, d: DestId, p: Progress) {
    && (p.Waiting? ==> p.next >= 1 && cfg.maxRetries >= 1)
    && (p.Answered? ==> p.number >= 1 && cfg.maxRetries >= 1)
    && (PastFirst(cfg, p) ==> HasFirst(s, e, d))
    && (p == Finished && cfg.maxRetries < 1 ==> DeadEvent(s.dead, e))
  }

  ghost predicate WorkerInv(cfg: Config, s: State, w: Worker) {
    w.Delivering? ==>
      && w.event in s.stored
      && (forall d :: d in w.progress ==> ProgressInv(cfg, s, w.event, d, w.progress[d]))
      && (cfg.dests(w.event) != {} && w.progress == map[] ==> Attempted(s, w.event) || w.event in s.stranded)
  }

  /** What can be said of an event that was ever put on the queue. */
  ghost predicate Accounted(cfg: Config, s: State, e: EventId) {
    || e in s.queue || e in Held(s)
    || Attempted(s, e) || DeadEvent(s.dead, e)
    || e in s.stranded || cfg.dests(e) == {}
  }

  ghost predicate Inv(cfg: Config, s: State) {
    && RowsInv(s)
    && (forall w :: w in s.workers ==> WorkerInv(cfg, s, s.workers[w]))
    && (forall e :: e in s.entered ==> Accounted(cfg, s, e))
  }
}
