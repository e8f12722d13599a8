/** The retry policy both provider calls are decorated with:
    `@retry(wait=wait_exponential(multiplier=1, min=1, max=10), stop=stop_after_attempt(3))`.
    Every exception is retried; after the third failed attempt the decorator
    raises `RetryError` holding the last failure. The remote call is an oracle
    `attempt` from the attempt number (1, 2, 3) to its outcome; sleeping is
    modelled by recording the wait chosen before each new attempt. */
module Retry {

  import opened Host

  /** `stop_after_attempt(3)`. */
  const MaxAttempts: nat := 3
  /** `wait_exponential(multiplier=1, min=1, max=10)`. */
  const WaitMultiplier: nat := 1
  const WaitMin: nat := 1
  const WaitMax: nat := 10

  function Pow2(n: nat): (r: nat)
    ensures r >= 1
  {
    if n == 0 then 1 else 2 * Pow2(n - 1)
  }

  /** The wait after failed attempt number `n`: `2^(n-1)` times the multiplier,
      capped at the maximum and raised to the minimum. */
  function Backoff(n: nat): (w: nat)
    requires n >= 1
    ensures WaitMin <= w <= WaitMax
  {
    var exp := WaitMultiplier * Pow2(n - 1);
    var capped := if exp < WaitMax then exp else WaitMax;
    if capped < WaitMin then WaitMin else capped
  }

  lemma {:induction false} Pow2AtLeast16(n: nat)
    requires n >= 4
    ensures Pow2(n) >= 16
  {
    if n > 4 {
      Pow2AtLeast16(n - 1);
    }
  }

  /** The waits double from 1 second and stay at 10 seconds from the fifth on. */
  lemma BackoffSchedule(n: nat)
    requires n >= 1
    ensures n == 1 ==> Backoff(n) == 1
    ensures n == 2 ==> Backoff(n) == 2
    ensures n == 3 ==> Backoff(n) == 4
    ensures n == 4 ==> Backoff(n) == 8
    ensures n >= 5 ==> Backoff(n) == WaitMax
  {
    if n >= 5 {
      Pow2AtLeast16(n - 1);
    } else {
      assert Pow2(0) == 1;
      assert Pow2(3) == 8;
    }
  }

  /** The observable course of one decorated call: what it returns or raises,
      how many attempts it made, and the waits slept between them. */
  datatype RetryRun<T> = RetryRun(result: Result<T>, attempts: nat, waits: seq<nat>)

  /** The decorated call from attempt `n` on, having slept `waits` so far. */
  function RetryFrom<T>(attempt: nat -> Result<T>, n: nat, waits: seq<nat>): RetryRun<T>
    requires 1 <= n <= MaxAttempts
    decreases MaxAttempts - n
  {
    match attempt(n)
    case Ok(v) => RetryRun(Ok(v), n, waits)
    case Err(e) =>
      if n == MaxAttempts then RetryRun(Err(RetryError(e)), n, waits)
      else RetryFrom(attempt, n + 1, waits + [Backoff(n)])
  }

  /** The whole decorated call. */
  function Retried<T>(attempt: nat -> Result<T>): RetryRun<T>
  {
    RetryFrom(attempt, 1, [])
  }

  /** The decorator's loop: attempt, stop on success or on the third failure,
      otherwise sleep the backoff and try again. */
  method CallWithRetry<T>(attempt: nat -> Result<T>) returns (run: RetryRun<T>)
    ensures run == Retried(attempt)
  {
    var n := 1;
    var waits: seq<nat> := [];
    while true
      invariant 1 <= n <= MaxAttempts
      invariant RetryFrom(attempt, n, waits) == Retried(attempt)
      decreases MaxAttempts - n
    {
      var outcome := attempt(n);
      if outcome.Ok? {
        return RetryRun(outcome, n, waits);
      }
      if n >= MaxAttempts {
        return RetryRun(Err(RetryError(outcome.error)), n, waits);
      }
      waits := waits + [Backoff(n)];
      n := n + 1;
    }
  }

  // ---------------------------------------------------------------- properties of the policy

  lemma {:induction false} RetryFromShape<T>(attempt: nat -> Result<T>, n: nat, waits: seq<nat>)
    requires 1 <= n <= MaxAttempts
    requires |waits| == n - 1 && forall i :: 0 <= i < |waits| ==> waits[i] == Backoff(i + 1)
    ensures var run := RetryFrom(attempt, n, waits);
      n <= run.attempts <= MaxAttempts && |run.waits| == run.attempts - 1 &&
      waits <= run.waits &&
      (forall i :: 0 <= i < |run.waits| ==> run.waits[i] == Backoff(i + 1)) &&
      (run.result.Ok? ==> attempt(run.attempts) == run.result) &&
      (run.result.Err? ==> run.attempts == MaxAttempts && attempt(MaxAttempts).Err? &&
                           run.result.error == RetryError(attempt(MaxAttempts).error)) &&
      (forall j :: n <= j < run.attempts ==> attempt(j).Err?)
    decreases MaxAttempts - n
  {
    if attempt(n).Err? && n < MaxAttempts {
      RetryFromShape(attempt, n + 1, waits + [Backoff(n)]);
    }
  }

  /** A decorated call makes between one and three attempts, sleeps once
      between consecutive attempts, and each wait is the backoff for the
      attempt that just failed, within [1, 10] seconds. */
  lemma RetriedBounded<T>(attempt: nat -> Result<T>)
    ensures var run := Retried(attempt);
      1 <= run.attempts <= MaxAttempts && |run.waits| == run.attempts - 1 &&
      (forall i :: 0 <= i < |run.waits| ==> run.waits[i] == Backoff(i + 1)) &&
      (forall i :: 0 <= i < |run.waits| ==> WaitMin <= run.waits[i] <= WaitMax)
  {
    RetryFromShape(attempt, 1, []);
  }

  /** The call succeeds exactly when one of the three attempts succeeds, and
      then it returns the first successful attempt's result unchanged. */
  lemma RetriedFirstSuccess<T>(attempt: nat -> Result<T>)
    ensures var run := Retried(attempt);
      (run.result.Ok? <==> exists n :: 1 <= n <= MaxAttempts && attempt(n).Ok?) &&
      (run.result.Ok? ==> attempt(run.attempts) == run.result &&
                          forall j :: 1 <= j < run.attempts ==> attempt(j).Err?)
  {
    RetryFromShape(attempt, 1, []);
  }

  /** Three consecutive failures surface `RetryError` carrying the third
      failure, after waits of 1 and 2 seconds. */
  lemma RetriedExhausted<T>(attempt: nat -> Result<T>)
    requires forall n :: 1 <= n <= MaxAttempts ==> attempt(n).Err?
    ensures Retried(attempt) == RetryRun(Err(RetryError(attempt(MaxAttempts).error)), MaxAttempts, [1, 2])
  {
    RetryFromShape(attempt, 1, []);
    BackoffSchedule(1);
    BackoffSchedule(2);
  }

  /** Failing twice and then succeeding returns the third attempt's result
      without raising. */
  lemma RetriedThirdTime<T>(attempt: nat -> Result<T>)
    requires attempt(1).Err? && attempt(2).Err? && attempt(3).Ok?
    ensures Retried(attempt) == RetryRun(attempt(3), 3, [1, 2])
  {
    RetryFromShape(attempt, 1, []);
    BackoffSchedule(1);
    BackoffSchedule(2);
  }
}
