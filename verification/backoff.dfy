/**
 * `fetchWithExponentialBackoff`. The network is a sequence of outcomes: the
 * `i`-th element is what the `i`-th `fetch` call does. A run records the
 * attempts made, the waits requested between them (no jitter), and how the
 * wrapper finishes: returning a response, rethrowing an error, or falling off
 * the end of its loop (only when `maxRetries <= 0`), which yields `undefined`.
 */
module Backoff {
  import opened Http

  /** The defaults `handleSubmit` relies on. */
  const DefaultMaxRetries := 5
  const DefaultRetryDelay := 1000

  /** The status that asks the client to slow down. */
  const TooManyRequests := 429

  function Pow2(i: nat): (p: nat)
    ensures p >= 1
  {
    if i == 0 then 1 else 2 * Pow2(i - 1)
  }

  /** The wait after failed attempt `i`: `retryDelay * 2^i`. */
  function Backoff(retryDelay: int, i: nat): int {
    retryDelay * Pow2(i)
  }

  datatype RetryResult = Returned(response: HttpResponse) | Rethrown(error: JsError) | FellThrough

  datatype RetryRun = RetryRun(result: RetryResult, attempts: nat, delays: seq<int>)

  /** An outcome the loop retries when attempts remain: a 429 response or a thrown error. */
  predicate Retryable(o: FetchOutcome) {
    o.Throw? || o.response.status == TooManyRequests
  }

  /** How the wrapper finishes on an outcome it does not retry. */
  function Final(o: FetchOutcome): RetryResult {
    match o
    case Respond(r) => Returned(r)
    case Throw(e) => Rethrown(e)
  }

  /**
   * The loop from attempt `i` on. The run stops at the first outcome that is not
   * retryable or at the last allowed attempt, and ends with that outcome; every
   * earlier attempt was retryable and was followed by its backoff wait.
   */
  function RetryFrom(outcomes: seq<FetchOutcome>, maxRetries: int, retryDelay: int, i: nat): (run: RetryRun)
    requires i < maxRetries <= |outcomes|
    ensures i < run.attempts <= maxRetries
    ensures |run.delays| == run.attempts - 1 - i
    ensures forall j :: 0 <= j < |run.delays| ==> run.delays[j] == Backoff(retryDelay, i + j)
    ensures forall j :: i <= j < run.attempts - 1 ==> Retryable(outcomes[j])
    ensures run.attempts < maxRetries ==> !Retryable(outcomes[run.attempts - 1])
    ensures run.result == Final(outcomes[run.attempts - 1])
    decreases maxRetries - i
  {
    if Retryable(outcomes[i]) && i < maxRetries - 1 then
      var rest := RetryFrom(outcomes, maxRetries, retryDelay, i + 1);
      RetryRun(rest.result, rest.attempts, [Backoff(retryDelay, i)] + rest.delays)
    else
      RetryRun(Final(outcomes[i]), i + 1, [])
  }

  /**
   * What a run of the wrapper must look like: with `maxRetries <= 0` the loop body never
   * runs and the result is `undefined`; otherwise there are between 1 and `maxRetries`
   * attempts, the wait after failed attempt `j` is `retryDelay * 2^j`, every attempt but
   * the last was retryable, the last attempt is either not retryable or the final allowed
   * one, and its outcome is what the wrapper returns or rethrows.
   */
  ghost predicate IsRunOf(outcomes: seq<FetchOutcome>, maxRetries: int, retryDelay: int, run: RetryRun)
    requires maxRetries <= |outcomes|
  {
    if maxRetries <= 0 then run == RetryRun(FellThrough, 0, [])
    else
      && 1 <= run.attempts <= maxRetries
      && |run.delays| == run.attempts - 1
      && (forall j :: 0 <= j < |run.delays| ==> run.delays[j] == Backoff(retryDelay, j))
      && (forall j :: 0 <= j < run.attempts - 1 ==> Retryable(outcomes[j]))
      && (run.attempts < maxRetries ==> !Retryable(outcomes[run.attempts - 1]))
      && run.result == Final(outcomes[run.attempts - 1])
  }

  /** The whole wrapper: the run it performs is the one `IsRunOf` describes. */
  function Retry(outcomes: seq<FetchOutcome>, maxRetries: int, retryDelay: int): (run: RetryRun)
    requires maxRetries <= |outcomes|
    ensures IsRunOf(outcomes, maxRetries, retryDelay, run)
  {
    if maxRetries <= 0 then RetryRun(FellThrough, 0, []) else RetryFrom(outcomes, maxRetries, retryDelay, 0)
  }

  /** `IsRunOf` determines the run: the wrapper has no other possible behaviour on these outcomes. */
  lemma RunUnique(outcomes: seq<FetchOutcome>, maxRetries: int, retryDelay: int, run: RetryRun)
    requires maxRetries <= |outcomes|
    requires IsRunOf(outcomes, maxRetries, retryDelay, run)
    ensures run == Retry(outcomes, maxRetries, retryDelay)
  {
  }

  /**
   * The loop of the source, statement by statement. It performs the run `IsRunOf`
   * describes, which is therefore the run `Retry` computes.
   */
  method FetchWithBackoff(outcomes: seq<FetchOutcome>, maxRetries: int, retryDelay: int) returns (run: RetryRun)
    requires maxRetries <= |outcomes|
    ensures run == Retry(outcomes, maxRetries, retryDelay)
  {
    var delays: seq<int> := [];
    var i: nat := 0;
    while i < maxRetries
      invariant i == 0 || i < maxRetries
      invariant |delays| == i
      invariant forall j :: 0 <= j < i ==> delays[j] == Backoff(retryDelay, j)
      invariant forall j :: 0 <= j < i ==> Retryable(outcomes[j])
    {
      var outcome := outcomes[i];
      match outcome {
        case Respond(response) =>
          if response.status == TooManyRequests && i < maxRetries - 1 {
            delays := delays + [Backoff(retryDelay, i)];
            i := i + 1;
            continue;
          }
          run := RetryRun(Returned(response), i + 1, delays);
          RunUnique(outcomes, maxRetries, retryDelay, run);
          return;
        case Throw(error) =>
          if i < maxRetries - 1 {
            delays := delays + [Backoff(retryDelay, i)];
            i := i + 1;
            continue;
          }
          run := RetryRun(Rethrown(error), i + 1, delays);
          RunUnique(outcomes, maxRetries, retryDelay, run);
          return;
      }
    }
    run := RetryRun(FellThrough, 0, []);
    RunUnique(outcomes, maxRetries, retryDelay, run);
  }

  /** A response other than 429 ends the run on the attempt that produced it. */
  lemma NonRateLimitedReturnsAtOnce(outcomes: seq<FetchOutcome>, maxRetries: int, retryDelay: int, k: nat)
    requires k < maxRetries <= |outcomes|
    requires forall j :: 0 <= j < k ==> Retryable(outcomes[j])
    requires outcomes[k].Respond? && outcomes[k].response.status != TooManyRequests
    ensures Retry(outcomes, maxRetries, retryDelay).attempts == k + 1
    ensures Retry(outcomes, maxRetries, retryDelay).result == Returned(outcomes[k].response)
  {
  }

  /**
   * When every attempt is retryable, all `maxRetries` attempts are made and the last
   * outcome decides: a final 429 comes back as a response, a final error is rethrown.
   */
  lemma Exhaustion(outcomes: seq<FetchOutcome>, maxRetries: int, retryDelay: int)
    requires 0 < maxRetries <= |outcomes|
    requires forall j :: 0 <= j < maxRetries ==> Retryable(outcomes[j])
    ensures var run := Retry(outcomes, maxRetries, retryDelay);
      && run.attempts == maxRetries
      && |run.delays| == maxRetries - 1
      && (outcomes[maxRetries - 1].Respond? ==> run.result == Returned(outcomes[maxRetries - 1].response))
      && (outcomes[maxRetries - 1].Throw? ==> run.result == Rethrown(outcomes[maxRetries - 1].error))
  {
  }

  /**
   * Once the abort signal has fired, every later `fetch` throws an `AbortError`. The
   * loop treats that like any other error: it keeps waiting and retrying until its
   * attempts run out, then rethrows the `AbortError`.
   */
  lemma AbortDoesNotStopRetries(outcomes: seq<FetchOutcome>, maxRetries: int, retryDelay: int, k: nat)
    requires k < maxRetries <= |outcomes|
    requires forall j :: 0 <= j < k ==> Retryable(outcomes[j])
    requires forall j :: k <= j < maxRetries ==> outcomes[j].Throw? && IsAbort(outcomes[j].error)
    ensures var run := Retry(outcomes, maxRetries, retryDelay);
      && run.attempts == maxRetries
      && run.delays == seq(maxRetries - 1, j requires 0 <= j < maxRetries - 1 => Backoff(retryDelay, j))
      && run.result.Rethrown? && IsAbort(run.result.error)
  {
  }

  /** With the defaults, a rate limit twice and then success: two waits, 1000 ms then 2000 ms. */
  lemma TwoRateLimitsThenSuccess(limited: HttpResponse, success: HttpResponse, more: seq<FetchOutcome>)
    requires limited.status == TooManyRequests && success.status == 200 && |more| == 2
    ensures var run := Retry([Respond(limited), Respond(limited), Respond(success)] + more,
                             DefaultMaxRetries, DefaultRetryDelay);
      run == RetryRun(Returned(success), 3, [1000, 2000])
  {
  }
}
