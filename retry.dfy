/**
 * `putWithRetry` of index.js: a PUT retried with exponential backoff. The
 * remote `s3.send` is the function `send`, where `send(k)` is how the k-th
 * call (counting from 0) settles; each `setTimeout` wait is recorded as its
 * delay in milliseconds.
 */
module Retry {
  import opened Common

  /** The default of the `maxRetries` parameter. */
  const DEFAULT_MAX_RETRIES: nat := 3

  /** Milliseconds waited before the first retry. */
  const BASE_DELAY: nat := 300

  function Pow2(k: nat): nat
  {
    if k == 0 then 1 else 2 * Pow2(k - 1)
  }

  /** The wait before retry number `k` (k >= 1): 300 * 2^(k-1) milliseconds. */
  function Backoff(k: nat): nat
    requires k >= 1
  {
    BASE_DELAY * Pow2(k - 1)
  }

  /**
   * How `putWithRetry` settles once `attempt` calls have failed: the next
   * call's response if it resolves, its error if it rejects and the budget of
   * `maxRetries` retries is then spent, otherwise the same after one more failure.
   */
  function RetryFrom<T, E>(send: nat -> Attempt<T, E>, maxRetries: nat, attempt: nat): Result<T, E>
    requires attempt <= maxRetries
    decreases maxRetries - attempt
  {
    match send(attempt)
    case Sent(v) => Ok(v)
    case Threw(e) => if attempt + 1 > maxRetries then Err(e) else RetryFrom(send, maxRetries, attempt + 1)
  }

  /** How a whole `putWithRetry(params, maxRetries)` call settles. */
  function RetryResult<T, E>(send: nat -> Attempt<T, E>, maxRetries: nat): Result<T, E>
  {
    RetryFrom(send, maxRetries, 0)
  }

  /**
   * The retry loop. `calls` is how many times the remote send was invoked and
   * `delays` the waits between them, in order.
   */
  method PutWithRetry<T, E>(send: nat -> Attempt<T, E>, maxRetries: nat)
    returns (r: Result<T, E>, calls: nat, delays: seq<nat>)
    ensures 1 <= calls <= maxRetries + 1
    ensures forall j :: 0 <= j < calls - 1 ==> send(j).Threw?
    ensures r.Ok? ==> send(calls - 1) == Sent(r.value)
    ensures r.Err? ==> calls == maxRetries + 1 && send(calls - 1) == Threw(r.error)
    ensures |delays| == calls - 1
    ensures forall k :: 1 <= k <= |delays| ==> delays[k - 1] == Backoff(k)
    ensures r == RetryResult(send, maxRetries)
  {
    var attempt := 0;
    delays := [];
    while true
      invariant attempt <= maxRetries
      invariant forall j :: 0 <= j < attempt ==> send(j).Threw?
      invariant |delays| == attempt
      invariant forall k :: 1 <= k <= attempt ==> delays[k - 1] == Backoff(k)
      invariant RetryFrom(send, maxRetries, attempt) == RetryResult(send, maxRetries)
      decreases maxRetries - attempt
    {
      match send(attempt)
      case Sent(v) =>
        r, calls := Ok(v), attempt + 1;
        return;
      case Threw(e) =>
        attempt := attempt + 1;
        if attempt > maxRetries {
          r, calls := Err(e), attempt;
          return;
        }
        var delay := BASE_DELAY * Pow2(attempt - 1);
        delays := delays + [delay];
    }
  }

  /**
   * From `attempt` failures on: if the calls before `k` fail and call `k`
   * succeeds, the retry succeeds with call `k`'s response exactly when `k` is
   * within the budget, and otherwise rethrows the error of the last call made.
   */
  lemma {:induction false} RetryFromFirstSuccess<T, E>(send: nat -> Attempt<T, E>, maxRetries: nat, attempt: nat, k: nat)
    requires attempt <= maxRetries && attempt <= k
    requires forall j :: attempt <= j < k ==> send(j).Threw?
    requires send(k).Sent?
    ensures RetryFrom(send, maxRetries, attempt) ==
      if k <= maxRetries then Ok(send(k).response) else Err(send(maxRetries).error)
    decreases maxRetries - attempt
  {
    if attempt < k && attempt < maxRetries {
      RetryFromFirstSuccess(send, maxRetries, attempt + 1, k);
    }
  }

  /**
   * An operation that fails exactly `k` times and then succeeds is reported
   * as a success iff `k <= maxRetries`; on success the response is that of
   * the first successful call.
   */
  lemma RetrySucceedsIff<T, E>(send: nat -> Attempt<T, E>, maxRetries: nat, k: nat)
    requires forall j :: 0 <= j < k ==> send(j).Threw?
    requires send(k).Sent?
    ensures RetryResult(send, maxRetries).Ok? <==> k <= maxRetries
    ensures k <= maxRetries ==> RetryResult(send, maxRetries) == Ok(send(k).response)
  {
    RetryFromFirstSuccess(send, maxRetries, 0, k);
  }

  /** When every call within the budget fails, the error of the last one propagates unchanged. */
  lemma {:induction false} RetryAllFail<T, E>(send: nat -> Attempt<T, E>, maxRetries: nat, attempt: nat)
    requires attempt <= maxRetries
    requires forall j :: attempt <= j <= maxRetries ==> send(j).Threw?
    ensures RetryFrom(send, maxRetries, attempt) == Err(send(maxRetries).error)
    decreases maxRetries - attempt
  {
    if attempt < maxRetries {
      RetryAllFail(send, maxRetries, attempt + 1);
    }
  }

  /**
   * The result depends only on the first `maxRetries + 1` calls: nothing is
   * sent after a success or after the last retry.
   */
  lemma {:induction false} RetryUsesOnlyBudget<T, E>(send: nat -> Attempt<T, E>, other: nat -> Attempt<T, E>, maxRetries: nat, attempt: nat)
    requires attempt <= maxRetries
    requires forall j :: attempt <= j <= maxRetries ==> send(j) == other(j)
    ensures RetryFrom(send, maxRetries, attempt) == RetryFrom(other, maxRetries, attempt)
    decreases maxRetries - attempt
  {
    if attempt < maxRetries {
      RetryUsesOnlyBudget(send, other, maxRetries, attempt + 1);
    }
  }

  /** With the default budget the waits are 300, 600 and 1200 milliseconds. */
  lemma DefaultSchedule()
    ensures Backoff(1) == 300 && Backoff(2) == 600 && Backoff(DEFAULT_MAX_RETRIES) == 1200
  {
  }
}
