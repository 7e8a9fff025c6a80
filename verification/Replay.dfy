/**
 A replay session (internal/replay/engine.go) running against the pause, resume and cancel handlers
 (internal/api/handlers.go): two actors on one status row, any interleaving.
 */
module Replay {
  import opened Common

  datatype Status = Running | Paused | Cancelled | Completed | Failed

  /** Where the engine stands; the index is that of the current event. */
  datatype Pc =
    | Starting
    | Fetching
    | Failing
    | Announcing
    | Checking(i: nat)
    | Polling(i: nat)
    | Sending(i: nat)
    | Reporting(i: nat)
    | Cancelling
    | Finishing
    | Done

  /** The session row, the engine, and what it has done. */
  datatype State<!E> = State(
    status: Status,
    replayed: nat,
    total: Option<nat>,
    pc: Pc,
    events: seq<E>,
    sent: seq<E>,
    checkFailed: bool,  // history: the status read before an event failed
    finished: bool)     // history: the engine has written "completed"

  /** One database call or delivery of the engine (which may fail), or one status write of the API. */
  datatype Action<!E> =
    | Engine(fails: bool, fetched: seq<E>)
    | Pause
    | Resume
    | Cancel

  function Init<E>(): State<E> {
    State(Running, 0, None, Starting, [], [], false, false)
  }

  function EngineStep<E>(s: State<E>, fails: bool, fetched: seq<E>): State<E> {
    match s.pc
    case Starting => s.(pc := if fails then Done else Fetching)
    case Fetching => if fails then s.(pc := Failing) else s.(events := fetched, pc := Announcing)
    case Failing => s.(status := if fails then s.status else Failed, pc := Done)
    case Announcing =>
      if fails then s.(pc := Checking(0)) else s.(replayed := 0, total := Some(|s.events|), pc := Checking(0))
    case Checking(i) =>
      if i >= |s.events| then s.(pc := Finishing)
      else if fails then s.(pc := Finishing, checkFailed := true)
      else if s.status == Paused then s.(pc := Polling(i))
      else if s.status == Cancelled then s.(pc := Done)
      else s.(pc := Sending(i))
    case Polling(i) =>
      if fails || s.status == Cancelled then s.(pc := Cancelling)
      else if s.status == Running then s.(pc := Sending(i))
      else s
    case Sending(i) =>
      if i < |s.events| then s.(sent := s.sent + [s.events[i]], pc := Reporting(i)) else s
    case Reporting(i) =>
      if fails then s.(pc := Checking(i + 1))
      else s.(replayed := i + 1, total := Some(|s.events|), pc := Checking(i + 1))
    case Cancelling => s.(status := if fails then s.status else Cancelled, pc := Done)
    case Finishing => if fails then s.(pc := Done) else s.(status := Completed, pc := Done, finished := true)
    case Done => s
  }

  function Next<E>(s: State<E>, a: Action<E>): State<E> {
    match a
    case Engine(fails, fetched) => EngineStep(s, fails, fetched)
    case Pause => s.(status := Paused)
    case Resume => s.(status := Running)
    case Cancel => s.(status := Cancelled)
  }

  function Run<E>(s: State<E>, actions: seq<Action<E>>): State<E>
    decreases |actions|
  {
    if actions == [] then s else Next(Run(s, Front(actions)), Last(actions))
  }

  // ---------- Invariant ----------

  /** How many events have been sent, as far as the position tells. */
  ghost predicate PositionInv<E>(s: State<E>) {
    match s.pc
    case Starting => s.sent == [] && s.replayed == 0
    case Fetching => s.sent == [] && s.replayed == 0
    case Failing => s.sent == [] && s.replayed == 0
    case Announcing => s.sent == [] && s.replayed == 0
    case Checking(i) => |s.sent| == i && !s.checkFailed
    case Polling(i) => |s.sent| == i < |s.events| && !s.checkFailed
    case Sending(i) => |s.sent| == i < |s.events| && !s.checkFailed
    case Reporting(i) => |s.sent| == i + 1 && !s.checkFailed
    case Finishing => s.checkFailed <==> |s.sent| < |s.events|
    case _ => true
  }

  ghost predicate Inv<E>(s: State<E>) {
    && s.sent <= s.events
    && s.replayed <= |s.sent|
    && (s.total.Some? ==> s.total.value == |s.events|)
    && (s.total.None? ==> s.replayed == 0)
    && (s.pc.Starting? || s.pc.Fetching? || s.pc.Failing? ==> s.total.None?)
    && (s.pc.Starting? || s.pc.Fetching? || s.pc.Failing? || s.pc.Announcing? ==> !s.checkFailed)
    && (s.finished ==> s.pc == Done && (s.checkFailed <==> |s.sent| < |s.events|))
    && PositionInv(s)
  }

  /** Up to the first status check nothing has been sent. */
  lemma OpeningKeepsInv<E>(s: State<E>, fails: bool, fetched: seq<E>)
    requires Inv(s)
    requires s.pc.Starting? || s.pc.Fetching? || s.pc.Failing? || s.pc.Announcing?
    ensures Inv(EngineStep(s, fails, fetched))
  {
  }

  lemma CheckKeepsInv<E>(s: State<E>, fails: bool, fetched: seq<E>)
    requires Inv(s)
    requires s.pc.Checking? || s.pc.Polling?
    ensures Inv(EngineStep(s, fails, fetched))
  {
  }

  lemma SendKeepsInv<E>(s: State<E>, fails: bool, fetched: seq<E>)
    requires Inv(s)
    requires s.pc.Sending? || s.pc.Reporting?
    ensures Inv(EngineStep(s, fails, fetched))
  {
  }

  lemma StepKeepsInv<E>(s: State<E>, a: Action<E>)
    requires Inv(s)
    ensures Inv(Next(s, a))
  {
    if a.Engine? {
      match s.pc
      case Starting => OpeningKeepsInv(s, a.fails, a.fetched);
      case Fetching => OpeningKeepsInv(s, a.fails, a.fetched);
      case Failing => OpeningKeepsInv(s, a.fails, a.fetched);
      case Announcing => OpeningKeepsInv(s, a.fails, a.fetched);
      case Checking(_) => CheckKeepsInv(s, a.fails, a.fetched);
      case Polling(_) => CheckKeepsInv(s, a.fails, a.fetched);
      case Sending(_) => SendKeepsInv(s, a.fails, a.fetched);
      case Reporting(_) => SendKeepsInv(s, a.fails, a.fetched);
      case _ =>
    }
  }

  lemma {:induction false} RunKeepsInv<E>(s: State<E>, actions: seq<Action<E>>)
    requires Inv(s)
    ensures Inv(Run(s, actions))
    decreases |actions|
  {
    if actions != [] {
      RunKeepsInv(s, Front(actions));
      StepKeepsInv(Run(s, Front(actions)), Last(actions));
    }
  }

  /** In every interleaving the attempted events are a prefix of the fetched list and progress never overshoots. */
  lemma AttemptsArePrefix<E>(actions: seq<Action<E>>)
    ensures var s := Run(Init<E>(), actions);
            && s.sent <= s.events
            && s.replayed <= |s.sent| <= |s.events|
            && (s.total.Some? ==> s.total == Some(|s.events|) && s.replayed <= s.total.value)
            && (s.total.None? ==> s.replayed == 0)
  {
    RunKeepsInv(Init<E>(), actions);
  }

  /** When the engine has written "completed": all events were attempted exactly if no status check failed. */
  lemma CompletedIffChecksSucceeded<E>(actions: seq<Action<E>>)
    requires Run(Init<E>(), actions).finished
    ensures var s := Run(Init<E>(), actions); s.sent == s.events <==> !s.checkFailed
  {
    RunKeepsInv(Init<E>(), actions);
  }

  // ---------- Pausing and cancelling ----------

  predicate OnHold(status: Status) {
    status == Paused || status == Cancelled
  }

  /** The status is paused or cancelled now and after every prefix of the actions. */
  ghost predicate HeldThroughout<E>(s: State<E>, actions: seq<Action<E>>) {
    forall n :: 0 <= n <= |actions| ==> OnHold(Run(s, actions[..n]).status)
  }

  /** One event may already be past its check. */
  function Committed<E>(s: State<E>): nat {
    if s.pc.Sending? then 1 else 0
  }

  /** Only a step from Sending sends. */
  lemma EngineSends<E>(s: State<E>, fails: bool, fetched: seq<E>)
    ensures |EngineStep(s, fails, fetched).sent| <= |s.sent| + Committed(s)
    ensures s.pc.Sending? ==>
              var t := EngineStep(s, fails, fetched); |t.sent| + Committed(t) <= |s.sent| + Committed(s)
  {
  }

  /** Under a hold no step from elsewhere leads to Sending. */
  lemma EngineHolds<E>(s: State<E>, fails: bool, fetched: seq<E>)
    requires OnHold(s.status) && !s.pc.Sending?
    ensures !EngineStep(s, fails, fetched).pc.Sending?
  {
  }

  lemma HoldStep<E>(s: State<E>, a: Action<E>)
    requires OnHold(s.status)
    ensures |Next(s, a).sent| + Committed(Next(s, a)) <= |s.sent| + Committed(s)
  {
    if a.Engine? {
      EngineSends(s, a.fails, a.fetched);
      if !s.pc.Sending? {
        EngineHolds(s, a.fails, a.fetched);
      }
    }
  }

  /** While the hold lasts, at most the one event that had passed its check is still sent. */
  lemma {:induction false} HoldStopsSending<E>(s: State<E>, actions: seq<Action<E>>)
    requires HeldThroughout(s, actions)
    ensures |Run(s, actions).sent| + Committed(Run(s, actions)) <= |s.sent| + Committed(s) <= |s.sent| + 1
    decreases |actions|
  {
    if actions != [] {
      var before := Front(actions);
      forall n | 0 <= n <= |before|
        ensures OnHold(Run(s, before[..n]).status)
      {
        assert before[..n] == actions[..n];
      }
      HoldStopsSending(s, before);
      assert before[..|before|] == before;
      HoldStep(Run(s, before), Last(actions));
    }
  }

  lemma RunStep<E>(s: State<E>, actions: seq<Action<E>>, a: Action<E>)
    ensures Run(s, actions + [a]) == Next(Run(s, actions), a)
  {
    assert Front(actions + [a]) == actions;
  }

  /** A failed status check ends the session as "completed" with events left out. */
  lemma CompletedTooEarly<E>(e: E) returns (actions: seq<Action<E>>)
    ensures var s := Run(Init<E>(), actions); s.status == Completed && s.events == [e] && s.sent == []
  {
    var ok, bad := Engine(false, [e]), Engine(true, []);
    var b1 := [] + [ok];
    var b2 := b1 + [ok];
    var b3 := b2 + [ok];
    var b4 := b3 + [bad];
    actions := b4 + [ok];
    RunStep(Init<E>(), [], ok);
    RunStep(Init<E>(), b1, ok);
    RunStep(Init<E>(), b2, ok);
    RunStep(Init<E>(), b3, bad);
    RunStep(Init<E>(), b4, ok);
  }

  // ---------- Whether a written pause or cancel survives ----------

  /** Steps of the engine alone; unless reads may fail, its status reads succeed. */
  ghost predicate Alone<E>(s: State<E>, actions: seq<Action<E>>, readsMayFail: bool)
    decreases |actions|
  {
    actions == [] ||
    (&& Alone(s, Front(actions), readsMayFail) && Last(actions).Engine?
     && (!readsMayFail ==> SucceedsIfRead(Run(s, Front(actions)), Last(actions))))
  }

  predicate SucceedsIfRead<E>(s: State<E>, a: Action<E>)
    requires a.Engine?
  {
    s.pc.Checking? || s.pc.Polling? ==> !a.fails
  }

  /** Whatever the engine goes on to do, the status stays what it is. */
  ghost predicate Survives<E(!new)>(s: State<E>, readsMayFail: bool) {
    forall actions: seq<Action<E>> | Alone(s, actions, readsMayFail) :: Run(s, actions).status == s.status
  }

  /** The engine reads the status once more before another event, or has stopped. */
  predicate LooksAgain<E>(s: State<E>) {
    match s.pc
    case Announcing => s.events != []
    case Checking(i) => i < |s.events|
    case Sending(i) => i + 1 < |s.events|
    case Reporting(i) => i + 1 < |s.events|
    case Polling(_) => true
    case Cancelling => s.status == Cancelled
    case Done => true
    case _ => false
  }

  /** No status read that may fail lies ahead, or its failure is taken for a cancel. */
  predicate PastReads<E>(s: State<E>) {
    s.pc.Done? || (s.status == Cancelled && (s.pc.Polling? || s.pc.Cancelling?))
  }

  predicate Secure<E>(s: State<E>, readsMayFail: bool) {
    OnHold(s.status) && if readsMayFail then PastReads(s) else LooksAgain(s)
  }

  lemma StepStaysSecure<E>(s: State<E>, a: Action<E>, readsMayFail: bool)
    requires Inv(s) && Secure(s, readsMayFail) && a.Engine?
    requires !readsMayFail ==> SucceedsIfRead(s, a)
    ensures Secure(Next(s, a), readsMayFail) && Next(s, a).status == s.status
  {
  }

  lemma {:induction false} RunStaysSecure<E>(s: State<E>, actions: seq<Action<E>>, readsMayFail: bool)
    requires Inv(s) && Secure(s, readsMayFail) && Alone(s, actions, readsMayFail)
    ensures Secure(Run(s, actions), readsMayFail) && Run(s, actions).status == s.status
    decreases |actions|
  {
    if actions != [] {
      RunStaysSecure(s, Front(actions), readsMayFail);
      RunKeepsInv(s, Front(actions));
      StepStaysSecure(Run(s, Front(actions)), Last(actions), readsMayFail);
    }
  }

  lemma {:induction false} RunCons<E>(s: State<E>, a: Action<E>, rest: seq<Action<E>>, readsMayFail: bool)
    requires a.Engine? && (!readsMayFail ==> SucceedsIfRead(s, a)) && Alone(Next(s, a), rest, readsMayFail)
    ensures Run(s, [a] + rest) == Run(Next(s, a), rest) && Alone(s, [a] + rest, readsMayFail)
    decreases |rest|
  {
    if rest == [] {
      assert [a] + rest == [a] && Front([a]) == [];
    } else {
      RunCons(s, a, Front(rest), readsMayFail);
      assert Front([a] + rest) == [a] + Front(rest) && Last([a] + rest) == Last(rest);
    }
  }

  /** How far the engine is from its last status write. */
  function Ahead<E>(s: State<E>): nat {
    match s.pc
    case Starting => 7
    case Fetching => 6
    case Announcing => 5
    case Sending(_) => 5
    case Reporting(_) => 4
    case Checking(_) => 3
    case Polling(_) => 2
    case _ => 1
  }

  /** The step that leads to overwriting: reads fail if they may, and there turns out to be nothing to replay. */
  function Rushed<E>(s: State<E>, readsMayFail: bool): Action<E> {
    Engine(readsMayFail && (s.pc.Checking? || s.pc.Polling?), [])
  }

  lemma StepStaysInsecure<E>(s: State<E>, readsMayFail: bool)
    requires Inv(s) && OnHold(s.status) && !Secure(s, readsMayFail)
    ensures var t := Next(s, Rushed(s, readsMayFail));
            t.status == s.status ==> !Secure(t, readsMayFail) && Ahead(t) < Ahead(s)
  {
  }

  lemma {:induction false} Overwrites<E>(s: State<E>, readsMayFail: bool) returns (actions: seq<Action<E>>)
    requires Inv(s) && OnHold(s.status) && !Secure(s, readsMayFail)
    ensures Alone(s, actions, readsMayFail) && Run(s, actions).status != s.status
    decreases Ahead(s)
  {
    var a := Rushed(s, readsMayFail);
    var t := Next(s, a);
    StepStaysInsecure(s, readsMayFail);
    var rest: seq<Action<E>> := [];
    if t.status == s.status {
      StepKeepsInv(s, a);
      rest := Overwrites(t, readsMayFail);
    }
    RunCons(s, a, rest, readsMayFail);
    actions := [a] + rest;
  }

  /**
   A pause or cancel that has been written survives whatever the engine does exactly if the engine still
   reads the status before another event, or has stopped, as long as its reads succeed; if they may
   fail, exactly if it has stopped, or is to stop for a cancel.
   */
  lemma HoldSurvivesIff<E(!new)>(s: State<E>, readsMayFail: bool)
    requires Inv(s) && OnHold(s.status)
    ensures Survives(s, readsMayFail) <==> Secure(s, readsMayFail)
  {
    if Secure(s, readsMayFail) {
      forall actions: seq<Action<E>> | Alone(s, actions, readsMayFail)
        ensures Run(s, actions).status == s.status
      {
        RunStaysSecure(s, actions, readsMayFail);
      }
    } else {
      var actions := Overwrites(s, readsMayFail);
    }
  }

  /** The engine up to just before the first event of a list of one. */
  lemma OneEventAnnounced<E>(e: E) returns (actions: seq<Action<E>>)
    ensures Run(Init<E>(), actions) == Init<E>().(total := Some(1), pc := Checking(0), events := [e])
    ensures forall i :: 0 <= i < |actions| ==> actions[i].Engine?
  {
    var ok := Engine(false, [e]);
    var b1 := [] + [ok];
    var b2 := b1 + [ok];
    actions := b2 + [ok];
    RunStep(Init<E>(), [], ok);
    RunStep(Init<E>(), b1, ok);
    RunStep(Init<E>(), b2, ok);
  }

  /** Past its last check the engine sends, reports, finds no further event and writes "completed". */
  lemma PastLastCheck<E>(s: State<E>) returns (after: seq<Action<E>>)
    requires s.pc == Sending(0) && |s.events| == 1
    ensures Alone(s, after, false) && Run(s, after).status == Completed
  {
    var ok := Engine(false, []);
    var a1 := [] + [ok];
    var a2 := a1 + [ok];
    var a3 := a2 + [ok];
    after := a3 + [ok];
    AloneStep(s, [], ok, false);
    AloneStep(s, a1, ok, false);
    AloneStep(s, a2, ok, false);
    AloneStep(s, a3, ok, false);
  }

  /** A cancel written after the last event's check is overwritten, with no failure anywhere. */
  lemma CancelOverwritten<E>(e: E) returns (before: seq<Action<E>>, after: seq<Action<E>>)
    ensures Alone(Run(Init<E>(), before + [Cancel]), after, false)
    ensures var s := Run(Init<E>(), before + [Cancel]); s.status == Cancelled && Run(s, after).status == Completed
  {
    var start := OneEventAnnounced(e);
    var ok := Engine(false, [e]);
    before := start + [ok];
    RunStep(Init<E>(), start, ok);
    RunStep(Init<E>(), before, Cancel);
    after := PastLastCheck(Run(Init<E>(), before + [Cancel]));
  }

  lemma AloneStep<E>(s: State<E>, actions: seq<Action<E>>, a: Action<E>, readsMayFail: bool)
    requires Alone(s, actions, readsMayFail) && a.Engine?
    requires !readsMayFail ==> SucceedsIfRead(Run(s, actions), a)
    ensures Alone(s, actions + [a], readsMayFail) && Run(s, actions + [a]) == Next(Run(s, actions), a)
  {
    RunStep(s, actions, a);
    assert Front(actions + [a]) == actions;
  }

  /** A failed read while polling turns a paused session into a cancelled one that nobody cancelled. */
  lemma PauseBecomesCancelled<E>(e: E) returns (before: seq<Action<E>>, after: seq<Action<E>>)
    ensures Cancel !in before && Alone(Run(Init<E>(), before + [Pause]), after, true)
    ensures var s := Run(Init<E>(), before + [Pause]);
            s.status == Paused && Run(s, after).status == Cancelled && Run(s, after).sent == []
  {
    before := OneEventAnnounced(e);
    var ok, bad := Engine(false, [e]), Engine(true, []);
    RunStep(Init<E>(), before, Pause);
    var s := Run(Init<E>(), before + [Pause]);
    var a1 := [] + [ok];
    var a2 := a1 + [bad];
    after := a2 + [ok];
    AloneStep(s, [], ok, true);
    AloneStep(s, a1, bad, true);
    AloneStep(s, a2, ok, true);
  }

  // ---------- Progress ----------

  /** Steps of the engine that all succeed; fetched is what the fetch gives, if there is one among them. */
  function Clean<E>(n: nat, fetched: seq<E>): seq<Action<E>> {
    if n == 0 then [] else [Engine(false, fetched)] + Clean(n - 1, fetched)
  }

  lemma {:induction false} RunAfter<E>(s: State<E>, a: Action<E>, rest: seq<Action<E>>)
    ensures Run(s, [a] + rest) == Run(Next(s, a), rest)
    decreases |rest|
  {
    if rest == [] {
      assert [a] + rest == [a] && Front([a]) == [];
    } else {
      RunAfter(s, a, Front(rest));
      assert Front([a] + rest) == [a] + Front(rest) && Last([a] + rest) == Last(rest);
    }
  }

  lemma CleanStep<E>(s: State<E>, n: nat, fetched: seq<E>)
    requires n > 0
    ensures Run(s, Clean(n, fetched)) == Run(EngineStep(s, false, fetched), Clean(n - 1, fetched))
  {
    RunAfter(s, Engine(false, fetched), Clean(n - 1, fetched));
  }

  /** In the loop over the events, before or at event i. */
  predicate InLoop<E>(s: State<E>) {
    s.pc.Checking? || s.pc.Polling? || s.pc.Sending? || s.pc.Reporting?
  }

  /** How many successful steps a running engine still needs. */
  function StepsLeft<E>(s: State<E>): nat
    requires Inv(s) && InLoop(s)
  {
    match s.pc
    case Checking(i) => 3 * (|s.events| - i) + 2
    case Polling(i) => 3 * (|s.events| - i) + 2
    case Sending(i) => 3 * (|s.events| - i) + 1
    case Reporting(i) => 3 * (|s.events| - i)
  }

  lemma RunningStep<E>(s: State<E>, fetched: seq<E>)
    requires Inv(s) && InLoop(s) && s.status == Running && s.pc != Checking(|s.events|)
    ensures var t := EngineStep(s, false, fetched);
            && Inv(t) && InLoop(t) && t.status == Running && t.events == s.events
            && StepsLeft(t) == StepsLeft(s) - 1
            && (t.pc == Checking(|t.events|) ==> t.replayed == |t.events|)
            && (s.total.Some? ==> t.total == s.total)
  {
    StepKeepsInv(s, Engine(false, fetched));
  }

  lemma LastSteps<E>(s: State<E>, fetched: seq<E>)
    requires Inv(s) && s.pc == Checking(|s.events|)
    ensures Run(s, Clean(2, fetched)) == s.(pc := Done, status := Completed, finished := true)
    ensures s.sent == s.events
  {
    CleanStep(s, 2, fetched);
    CleanStep(EngineStep(s, false, fetched), 1, fetched);
  }

  /** The session is replayed to the end, and says so. */
  ghost predicate ReplayedAll<E>(s: State<E>, t: State<E>) {
    && t.sent == s.events && t.events == s.events && t.status == Completed && t.pc == Done
    && t.replayed == (if s.pc == Checking(|s.events|) then s.replayed else |s.events|)
    && (s.total.Some? ==> t.total == s.total)
  }

  ghost predicate CompletesIn<E>(s: State<E>, n: nat, fetched: seq<E>) {
    ReplayedAll(s, Run(s, Clean(n, fetched)))
  }

  lemma CompletesBefore<E>(s: State<E>, n: nat, fetched: seq<E>)
    requires Inv(s) && InLoop(s) && s.status == Running && s.pc != Checking(|s.events|)
    requires n > 0 && CompletesIn(EngineStep(s, false, fetched), n - 1, fetched)
    ensures CompletesIn(s, n, fetched)
  {
    RunningStep(s, fetched);
    CleanStep(s, n, fetched);
  }

  lemma {:induction false} RunningCompletesIn<E>(s: State<E>, n: nat, fetched: seq<E>)
    requires Inv(s) && InLoop(s) && s.status == Running && n == StepsLeft(s)
    ensures CompletesIn(s, n, fetched)
    decreases n
  {
    if s.pc == Checking(|s.events|) {
      LastSteps(s, fetched);
    } else {
      RunningStep(s, fetched);
      RunningCompletesIn(EngineStep(s, false, fetched), n - 1, fetched);
      CompletesBefore(s, n, fetched);
    }
  }

  /** A running session, paused before or not, is replayed to the end. */
  lemma RunningCompletes<E>(s: State<E>, fetched: seq<E>)
    requires Inv(s) && InLoop(s) && s.status == Running
    ensures StepsLeft(s) <= 3 * |s.events| + 2
    ensures ReplayedAll(s, Run(s, Clean(StepsLeft(s), fetched)))
  {
    RunningCompletesIn(s, StepsLeft(s), fetched);
  }

  /** Steps of the engine that succeed, other than deliveries and progress reports, which may fail. */
  ghost predicate FailsHarmlessly<E>(s: State<E>, actions: seq<Action<E>>)
    decreases |actions|
  {
    actions == [] ||
    (&& actions[0].Engine? && (actions[0].fails ==> s.pc.Sending? || s.pc.Reporting?)
     && FailsHarmlessly(Next(s, actions[0]), actions[1..]))
  }

  lemma HarmlessStep<E>(s: State<E>, a: Action<E>)
    requires Inv(s) && InLoop(s) && s.status == Running && s.pc != Checking(|s.events|)
    requires a.Engine? && (a.fails ==> s.pc.Sending? || s.pc.Reporting?)
    ensures var t := Next(s, a);
            && Inv(t) && InLoop(t) && t.status == Running && t.events == s.events && StepsLeft(t) == StepsLeft(s) - 1
  {
    StepKeepsInv(s, a);
  }

  ghost predicate SentAll<E>(s: State<E>, actions: seq<Action<E>>) {
    var t := Run(s, actions);
    t.sent == s.events && t.status == Completed && t.pc == Done
  }

  lemma HarmlessEnd<E>(s: State<E>, actions: seq<Action<E>>)
    requires Inv(s) && s.pc == Checking(|s.events|) && |actions| == 2 && FailsHarmlessly(s, actions)
    ensures SentAll(s, actions)
  {
    var a, b := actions[0], actions[1];
    assert actions[1..][0] == b;
    RunAfter(s, a, [b]);
    assert [a] + [b] == actions;
    assert Front([b]) == [];
  }

  lemma SentAllBefore<E>(s: State<E>, actions: seq<Action<E>>)
    requires actions != [] && Next(s, actions[0]).events == s.events && SentAll(Next(s, actions[0]), actions[1..])
    ensures SentAll(s, actions)
  {
    RunAfter(s, actions[0], actions[1..]);
    assert [actions[0]] + actions[1..] == actions;
  }

  /** Failed deliveries and failed reports do not keep a running session from sending everything once. */
  lemma {:induction false} CompletesDespiteFailures<E>(s: State<E>, actions: seq<Action<E>>)
    requires Inv(s) && InLoop(s) && s.status == Running
    requires |actions| == StepsLeft(s) && FailsHarmlessly(s, actions)
    ensures SentAll(s, actions)
    decreases |actions|
  {
    if s.pc == Checking(|s.events|) {
      HarmlessEnd(s, actions);
    } else {
      HarmlessStep(s, actions[0]);
      CompletesDespiteFailures(Next(s, actions[0]), actions[1..]);
      SentAllBefore(s, actions);
    }
  }

  /** What the failures outside the loop do. */
  lemma FailuresOutside<E>(s: State<E>, fetched: seq<E>)
    ensures s.pc.Starting? ==> EngineStep(s, true, fetched) == s.(pc := Done)
    ensures s.pc.Announcing? ==> EngineStep(s, true, fetched) == s.(pc := Checking(0))
    ensures s.pc.Failing? || s.pc.Cancelling? || s.pc.Finishing? ==> EngineStep(s, true, fetched) == s.(pc := Done)
  {
  }

  /** After a resume, from any point of the loop. */
  lemma ResumeCompletes<E>(s: State<E>, fetched: seq<E>)
    requires Inv(s) && InLoop(s)
    ensures var r := Next(s, Resume);
            && Inv(r) && InLoop(r)
            && var t := Run(r, Clean(StepsLeft(r), fetched));
               t.sent == s.events && t.status == Completed
  {
    StepKeepsInv(s, Resume);
    RunningCompletes(Next(s, Resume), fetched);
  }

  /** The events are fetched and announced. */
  function Announced<E>(fetched: seq<E>): State<E> {
    State(Running, 0, Some(|fetched|), Checking(0), fetched, [], false, false)
  }

  lemma Opening<E>(n: nat, fetched: seq<E>)
    ensures Run(Init<E>(), Clean(n + 3, fetched)) == Run(Announced(fetched), Clean(n, fetched))
  {
    var s1 := EngineStep(Init<E>(), false, fetched);
    CleanStep(Init<E>(), n + 3, fetched);
    CleanStep(s1, n + 2, fetched);
    CleanStep(EngineStep(s1, false, fetched), n + 1, fetched);
  }

  lemma AnnouncedLeft<E>(fetched: seq<E>)
    ensures Inv(Announced(fetched)) && StepsLeft(Announced(fetched)) == 3 * |fetched| + 2
  {
  }

  /** A session that nobody touches, and where nothing fails, replays exactly what was fetched. */
  lemma UndisturbedReplay<E>(fetched: seq<E>)
    ensures var t := Run(Init<E>(), Clean(3 * |fetched| + 5, fetched));
            && t.sent == fetched && t.status == Completed && t.replayed == |fetched| && t.total == Some(|fetched|)
  {
    var n := 3 * |fetched| + 2;
    AnnouncedLeft(fetched);
    Opening(n, fetched);
    RunningCompletes(Announced(fetched), fetched);
    assert ReplayedAll(Announced(fetched), Run(Announced(fetched), Clean(n, fetched)));
  }

  /** A failed fetch is written down as such, and nothing is sent. */
  lemma FailedFetch<E>(fetched: seq<E>)
    ensures var t := Run(Init<E>(), [Engine(false, fetched), Engine(true, fetched), Engine(false, fetched)]);
            t.status == Failed && t.sent == [] && t.pc == Done
  {
    var ok, bad := Engine(false, fetched), Engine(true, fetched);
    RunStep(Init<E>(), [], ok);
    RunStep(Init<E>(), [] + [ok], bad);
    RunStep(Init<E>(), [] + [ok] + [bad], ok);
    assert [] + [ok] + [bad] + [ok] == [ok, bad, ok];
  }

  /** How many successful steps a written hold needs to take effect. */
  function HoldSteps<E>(s: State<E>): nat {
    if s.pc.Sending? then 3 else if s.pc.Reporting? then 2 else if s.pc.Checking? then 1
    else if s.status == Cancelled then 2 else 0
  }

  /**
   A written hold takes effect: from the loop, with the status to be read again, the engine polls after
   at most three successful steps if paused, and has stopped after at most three if cancelled, having
   sent at most one more event.
   */
  lemma {:induction false} HoldTakesEffect<E>(s: State<E>, fetched: seq<E>)
    requires Inv(s) && InLoop(s) && OnHold(s.status) && LooksAgain(s)
    ensures HoldSteps(s) <= 3
    ensures var t := Run(s, Clean(HoldSteps(s), fetched));
            && t.status == s.status && |t.sent| <= |s.sent| + Committed(s)
            && (s.status == Paused ==> t.pc.Polling?)
            && (s.status == Cancelled ==> t.pc == Done)
    decreases HoldSteps(s)
  {
    if HoldSteps(s) > 0 {
      var t := EngineStep(s, false, fetched);
      CleanStep(s, HoldSteps(s), fetched);
      StepKeepsInv(s, Engine(false, fetched));
      if s.pc.Sending? || s.pc.Reporting? {
        HoldTakesEffect(t, fetched);
      } else if s.pc.Polling? {
        CleanStep(t, 1, fetched);
      }
    }
  }
}
