/**
 * `GetJSON`'s retry and backoff control flow. The network is a sequence of
 * per-attempt outcomes, JSON decoding is the decode result carried by a 2xx
 * response, and cancellation is one flag per backoff wait (true: the context is
 * done before the timer fires).
 */
module Clients {
  import opened Wrappers

  /** Why a fetch failed. */
  datatype FetchError =
    | TransportError(reason: string)  // the HTTP client returned an error
    | StatusError(code: int)          // a non-2xx status, surfaced as its status line
    | DecodeError(reason: string)     // the 2xx body did not decode
    | Cancelled                       // the context ended during a backoff wait

  /** What the network did on one attempt. */
  datatype Attempt<T> =
    | Transport(reason: string)
    | Response(status: int, body: Result<T, string>)

  /** One backoff wait, in milliseconds, and whether cancellation cut it short. */
  datatype Wait = Slept(millis: nat) | Interrupted(millis: nat)

  /** The fetch's outcome, how many requests it sent, and the waits between them. */
  datatype Fetch<T> = Fetch(result: Result<T, FetchError>, attempts: nat, waits: seq<Wait>)

  /** The fixed backoff schedule: 300 ms, 600 ms, 1200 ms. */
  const Backoff: seq<nat> := [300, 600, 1200]

  /** One first attempt plus one retry per backoff entry. */
  const MaxAttempts: nat := |Backoff| + 1

  predicate IsSuccess(code: int) {
    200 <= code < 300
  }

  predicate IsClientError(code: int) {
    400 <= code < 500
  }

  /** Transport errors and every status that is neither 2xx nor 4xx lead to another attempt. */
  predicate Retryable<T>(o: Attempt<T>) {
    o.Transport? || (!IsSuccess(o.status) && !IsClientError(o.status))
  }

  function AttemptError<T>(o: Attempt<T>): FetchError
    requires Retryable(o)
  {
    if o.Transport? then TransportError(o.reason) else StatusError(o.status)
  }

  /** The result of decoding a 2xx body. */
  function Decoded<T>(body: Result<T, string>): Result<T, FetchError> {
    match body
    case Ok(v) => Ok(v)
    case Err(msg) => Err(DecodeError(msg))
  }

  /** The loop from attempt number `attempt` (counted from 0) on. */
  function Loop<T>(outcomes: seq<Attempt<T>>, cancels: seq<bool>, attempt: nat): (r: Fetch<T>)
    requires attempt < MaxAttempts && |outcomes| >= MaxAttempts && |cancels| >= |Backoff|
    ensures attempt < r.attempts <= MaxAttempts
    ensures forall i :: 0 <= i < |r.waits| ==> attempt + i < |Backoff| && r.waits[i].millis == Backoff[attempt + i]
    ensures forall i :: 0 <= i < |r.waits| - 1 ==> r.waits[i].Slept?
    ensures r.result != Err(Cancelled) ==> |r.waits| == r.attempts - 1 - attempt
    ensures r.result == Err(Cancelled) ==> |r.waits| == r.attempts - attempt && r.waits[|r.waits| - 1].Interrupted?
    ensures r.result != Err(Cancelled) ==> forall i :: 0 <= i < |r.waits| ==> r.waits[i].Slept?
    decreases MaxAttempts - attempt
  {
    var o := outcomes[attempt];
    if o.Response? && IsSuccess(o.status) then
      Fetch(Decoded(o.body), attempt + 1, [])
    else if o.Response? && IsClientError(o.status) then
      Fetch(Err(StatusError(o.status)), attempt + 1, [])
    else if attempt < |Backoff| then
      if cancels[attempt] then
        Fetch(Err(Cancelled), attempt + 1, [Interrupted(Backoff[attempt])])
      else
        var rest := Loop(outcomes, cancels, attempt + 1);
        rest.(waits := [Slept(Backoff[attempt])] + rest.waits)
    else
      Fetch(Err(AttemptError(o)), attempt + 1, [])
  }

  /**
   * `GetJSON`: at most four requests; the i-th wait lasts `Backoff[i]`; there is
   * no wait after the last request, and only a cancelled fetch ends on a wait.
   */
  function GetJSON<T>(outcomes: seq<Attempt<T>>, cancels: seq<bool>): (r: Fetch<T>)
    requires |outcomes| >= MaxAttempts && |cancels| >= |Backoff|
    ensures 1 <= r.attempts <= MaxAttempts
    ensures forall i :: 0 <= i < |r.waits| ==> i < |Backoff| && r.waits[i].millis == Backoff[i]
    ensures r.result != Err(Cancelled) ==> |r.waits| == r.attempts - 1
    ensures r.result != Err(Cancelled) ==> forall i :: 0 <= i < |r.waits| ==> r.waits[i].Slept?
    ensures r.result == Err(Cancelled) ==>
              && |r.waits| == r.attempts
              && r.waits[|r.waits| - 1] == Interrupted(Backoff[r.attempts - 1])
              && forall i :: 0 <= i < |r.waits| - 1 ==> r.waits[i].Slept?
  {
    Loop(outcomes, cancels, 0)
  }

  /** No attempt before `i` ended the loop. */
  predicate RetriedUpTo<T>(outcomes: seq<Attempt<T>>, cancels: seq<bool>, i: nat)
    requires i <= |outcomes| && i <= |cancels|
  {
    forall j :: 0 <= j < i ==> Retryable(outcomes[j]) && !cancels[j]
  }

  lemma {:induction false} LoopOutcome<T>(outcomes: seq<Attempt<T>>, cancels: seq<bool>, a: nat, i: nat)
    requires |outcomes| >= MaxAttempts && |cancels| >= |Backoff|
    requires a <= i < MaxAttempts
    requires forall j :: a <= j < i ==> Retryable(outcomes[j]) && !cancels[j]
    ensures var r := Loop(outcomes, cancels, a);
      && (outcomes[i].Response? && IsSuccess(outcomes[i].status) ==>
            r.attempts == i + 1 && r.result == Decoded(outcomes[i].body))
      && (outcomes[i].Response? && IsClientError(outcomes[i].status) ==>
            r.attempts == i + 1 && r.result == Err(StatusError(outcomes[i].status)))
      && (Retryable(outcomes[i]) && i < |Backoff| && cancels[i] ==>
            r.attempts == i + 1 && r.result == Err(Cancelled))
      && (Retryable(outcomes[i]) && i == |Backoff| ==>
            r.attempts == MaxAttempts && r.result == Err(AttemptError(outcomes[i])))
    decreases i - a
  {
    if a < i {
      LoopOutcome(outcomes, cancels, a + 1, i);
    }
  }

  /**
   * Which attempt ends the fetch and how: the first 2xx returns its decode result,
   * the first 4xx returns its status, a cancelled wait returns `Cancelled`, and
   * when every attempt is retryable the fourth attempt's error is returned.
   */
  lemma GetJSONOutcome<T>(outcomes: seq<Attempt<T>>, cancels: seq<bool>, i: nat)
    requires |outcomes| >= MaxAttempts && |cancels| >= |Backoff|
    requires i < MaxAttempts && RetriedUpTo(outcomes, cancels, i)
    ensures var r := GetJSON(outcomes, cancels);
      && (outcomes[i].Response? && IsSuccess(outcomes[i].status) ==>
            r.attempts == i + 1 && r.result == Decoded(outcomes[i].body))
      && (outcomes[i].Response? && IsClientError(outcomes[i].status) ==>
            r.attempts == i + 1 && r.result == Err(StatusError(outcomes[i].status)))
      && (Retryable(outcomes[i]) && i < |Backoff| && cancels[i] ==>
            r.attempts == i + 1 && r.result == Err(Cancelled))
      && (Retryable(outcomes[i]) && i == |Backoff| ==>
            r.attempts == MaxAttempts && r.result == Err(AttemptError(outcomes[i])))
  {
    LoopOutcome(outcomes, cancels, 0, i);
  }

  /** A source that always answers 503 is asked four times, with all three waits, and its 503 is returned. */
  lemma AlwaysUnavailable<T>(outcomes: seq<Attempt<T>>, cancels: seq<bool>)
    requires |outcomes| == MaxAttempts && |cancels| == |Backoff|
    requires forall j :: 0 <= j < |outcomes| ==> outcomes[j].Response? && outcomes[j].status == 503
    requires forall j :: 0 <= j < |cancels| ==> !cancels[j]
    ensures GetJSON(outcomes, cancels) == Fetch(Err(StatusError(503)), 4, [Slept(300), Slept(600), Slept(1200)])
  {
    GetJSONOutcome(outcomes, cancels, 3);
    var r := GetJSON(outcomes, cancels);
    assert r.waits == [Slept(300), Slept(600), Slept(1200)];
  }

  /** A 404 on the first attempt ends the fetch at once: one request, no wait. */
  lemma NotFoundIsFinal<T>(outcomes: seq<Attempt<T>>, cancels: seq<bool>)
    requires |outcomes| >= MaxAttempts && |cancels| >= |Backoff|
    requires outcomes[0].Response? && outcomes[0].status == 404
    ensures GetJSON(outcomes, cancels) == Fetch(Err(StatusError(404)), 1, [])
  {
  }
}
