/** Delivering one event to one destination (deliverToDestination in internal/delivery/engine.go). */
module Retry {
  import opened Common

  /** No response (request, connection or timeout error), or an HTTP status code. */
  datatype Response = NoResponse | Status(code: int)

  predicate Succeeded(r: Response) {
    r.Status? && 200 <= r.code < 300
  }

  predicate Permanent(r: Response) {
    r.Status? && 400 <= r.code < 500
  }

  predicate Retryable(r: Response) {
    !Succeeded(r) && !Permanent(r)
  }

  /** Seconds to wait before attempt 1, 2, 3 and 4. */
  const RETRY_DELAYS: seq<nat> := [0, 5, 30, 120]

  datatype Ending =
    | Delivered
    | PermanentFailure(code: int)
    | Exhausted(attempts: int)
    | CancelledInBackoff
    | NoDelayForAttempt  // the delay table has no entry: the process panics

  predicate DeadLettered(e: Ending) {
    e.PermanentFailure? || e.Exhausted?
  }

  function Limit(maxRetries: int): nat {
    if maxRetries < 0 then 0 else maxRetries
  }

  function Backoff(attempts: nat): nat {
    if attempts <= 1 then 0
    else Backoff(attempts - 1) + if attempts <= |RETRY_DELAYS| then RETRY_DELAYS[attempts - 1] else 0
  }

  /** A row of delivery_attempts, as far as the retry loop fills it. */
  datatype AttemptRow = AttemptRow(number: int, response: Response, success: bool)

  /** How a run that recorded these rows ends, read off from what happened. */
  ghost predicate EndsAs(maxRetries: int, rows: seq<AttemptRow>, cancelled: nat -> bool, ending: Ending) {
    var n := |rows|;
    var stuck := n == 0 || Retryable(Last(rows).response);
    && (ending == Delivered <==> n > 0 && Succeeded(Last(rows).response))
    && (ending.PermanentFailure? <==> n > 0 && Permanent(Last(rows).response))
    && (ending.PermanentFailure? ==> Last(rows).response == Status(ending.code))
    && (ending.Exhausted? <==> n == Limit(maxRetries) && stuck)
    && (ending.Exhausted? ==> ending.attempts == maxRetries)
    && (ending == CancelledInBackoff <==> 0 < n < Limit(maxRetries) && n < |RETRY_DELAYS| && stuck && cancelled(n + 1))
    && (ending == NoDelayForAttempt <==> n < Limit(maxRetries) && n == |RETRY_DELAYS| && stuck)
  }

  /** Row i records attempt i + 1 and what it got. */
  ghost predicate Records(rows: seq<AttemptRow>, responses: nat -> Response) {
    forall i :: 0 <= i < |rows| ==> rows[i] == AttemptRow(i + 1, responses(i + 1), Succeeded(responses(i + 1)))
  }

  /** Only the last attempt may be final, and no wait before an attempt was cut short. */
  ghost predicate IsRun(maxRetries: int, responses: nat -> Response, cancelled: nat -> bool,
                        rows: seq<AttemptRow>, ending: Ending)
  {
    && |rows| <= Limit(maxRetries)
    && |rows| <= |RETRY_DELAYS|
    && Records(rows, responses)
    && (forall i :: 0 <= i < |rows| - 1 ==> Retryable(rows[i].response))
    && (forall a :: 2 <= a <= |rows| ==> !cancelled(a))
    && EndsAs(maxRetries, rows, cancelled, ending)
  }

  /** responses(a) is what attempt a gets; cancelled(a) says the wait before attempt a is cut short. */
  method DeliverToDestination(maxRetries: int, responses: nat -> Response, cancelled: nat -> bool)
    returns (rows: seq<AttemptRow>, waited: nat, ending: Ending)
    ensures IsRun(maxRetries, responses, cancelled, rows, ending)
    ensures waited == Backoff(|rows|) && waited <= 155
    ensures |rows| <= 1 ==> waited == 0
    ensures |rows| == 2 ==> waited == 5
    ensures |rows| == 3 ==> waited == 35
    ensures |rows| == 4 ==> waited == 155
  {
    WaitsByAttempts();
    rows, waited := [], 0;
    var attempt := 1;
    while attempt <= maxRetries
      invariant 1 <= attempt && attempt == |rows| + 1
      invariant |rows| <= Limit(maxRetries) && |rows| <= |RETRY_DELAYS|
      invariant Records(rows, responses)
      invariant forall i :: 0 <= i < |rows| ==> Retryable(rows[i].response)
      invariant forall a :: 2 <= a <= |rows| ==> !cancelled(a)
      invariant waited == Backoff(|rows|) && waited <= 155
      decreases maxRetries - attempt
    {
      if attempt > 1 {
        if attempt - 1 >= |RETRY_DELAYS| {
          ending := NoDelayForAttempt;
          return;
        }
        var delay := RETRY_DELAYS[attempt - 1];
        if cancelled(attempt) {
          ending := CancelledInBackoff;
          return;
        }
        waited := waited + delay;
      }
      var response := responses(attempt);
      rows := rows + [AttemptRow(attempt, response, Succeeded(response))];
      BackoffBound(|rows|);
      if Succeeded(response) {
        ending := Delivered;
        return;
      }
      if Permanent(response) {
        ending := PermanentFailure(response.code);
        return;
      }
      attempt := attempt + 1;
    }
    ending := Exhausted(maxRetries);
  }

  lemma BackoffBound(n: nat)
    requires n <= |RETRY_DELAYS|
    ensures Backoff(n) <= 155
  {
    assert Backoff(1) == 0 && Backoff(2) == 5 && Backoff(3) == 35 && Backoff(4) == 155;
  }

  /** A run cannot stop where another goes on. */
  lemma RunsNoLonger(maxRetries: int, responses: nat -> Response, cancelled: nat -> bool,
                     rows: seq<AttemptRow>, ending: Ending, rows': seq<AttemptRow>, ending': Ending)
    requires IsRun(maxRetries, responses, cancelled, rows, ending)
    requires IsRun(maxRetries, responses, cancelled, rows', ending')
    ensures |rows'| <= |rows|
  {
    assert forall k :: 0 <= k < |rows| && k < |rows'| ==> rows'[k] == rows[k];
  }

  /** The description leaves no freedom: rows and ending are determined by what happened. */
  lemma RunsAgree(maxRetries: int, responses: nat -> Response, cancelled: nat -> bool,
                  rows: seq<AttemptRow>, ending: Ending, rows': seq<AttemptRow>, ending': Ending)
    requires IsRun(maxRetries, responses, cancelled, rows, ending)
    requires IsRun(maxRetries, responses, cancelled, rows', ending')
    ensures rows == rows' && ending == ending'
  {
    RunsNoLonger(maxRetries, responses, cancelled, rows, ending, rows', ending');
    RunsNoLonger(maxRetries, responses, cancelled, rows', ending', rows, ending);
  }

  /** The panic happens exactly when more than four attempts are configured and the first four fail for now. */
  lemma PanicIff(maxRetries: int, responses: nat -> Response, cancelled: nat -> bool,
                 rows: seq<AttemptRow>, ending: Ending)
    requires IsRun(maxRetries, responses, cancelled, rows, ending)
    ensures ending == NoDelayForAttempt <==>
              && maxRetries > |RETRY_DELAYS|
              && (forall a :: 1 <= a <= |RETRY_DELAYS| ==> Retryable(responses(a)))
              && (forall a :: 2 <= a <= |RETRY_DELAYS| ==> !cancelled(a))
    ensures maxRetries <= |RETRY_DELAYS| ==> ending == Delivered || DeadLettered(ending) || ending == CancelledInBackoff
  {
    var n := |rows|;
    if ending == NoDelayForAttempt {
      forall a | 1 <= a <= n
        ensures Retryable(responses(a))
      {
        assert rows[a - 1].response == responses(a);
      }
    } else if n > 0 {
      assert rows[n - 1].response == responses(n);
    }
  }

  lemma WaitsByAttempts()
    ensures Backoff(0) == Backoff(1) == 0 && Backoff(2) == 5 && Backoff(3) == 35 && Backoff(4) == 155
  {
  }

  /** The answer is an HTTP status between low and high. */
  predicate Between(r: Response, low: int, high: int) {
    r.Status? && low <= r.code <= high
  }

  /**
   What status codes do to a run: every attempt but the last got no answer or one outside 200 to 299
   and 400 to 499; the run is delivered exactly if the last got one of the former, and fails for good
   exactly if it got one of the latter; a row is a success exactly for the former.
   */
  lemma RunByCodes(maxRetries: int, responses: nat -> Response, cancelled: nat -> bool,
                   rows: seq<AttemptRow>, ending: Ending)
    requires IsRun(maxRetries, responses, cancelled, rows, ending)
    ensures |rows| <= 4
    ensures forall i :: 0 <= i < |rows| ==> (rows[i].success <==> Between(responses(i + 1), 200, 299))
    ensures forall i :: 1 <= i < |rows| ==> !Between(responses(i), 200, 299) && !Between(responses(i), 400, 499)
    ensures ending == Delivered <==> rows != [] && Between(responses(|rows|), 200, 299)
    ensures forall code :: ending == PermanentFailure(code) <==>
              rows != [] && responses(|rows|) == Status(code) && 400 <= code <= 499
    ensures ending.Exhausted? <==>
              && |rows| == (if maxRetries < 0 then 0 else maxRetries)
              && (rows == [] || (!Between(responses(|rows|), 200, 299) && !Between(responses(|rows|), 400, 499)))
  {
    assert forall i :: 0 <= i < |rows| ==> rows[i].response == responses(i + 1);
    forall i | 1 <= i < |rows|
      ensures !Between(responses(i), 200, 299) && !Between(responses(i), 400, 499)
    {
      assert Retryable(rows[i - 1].response);
    }
  }
}
