/**
 * The error taxonomy and retry constants of the image-to-text worker
 * (meme_search/image_to_text_generator/app/errors.py), together with the
 * delay-table lookup the worker performs with them.
 */
module Errors {
  import opened Wrappers

  /**
   * What an extraction can raise. `Permanent` and `Transient` are the two
   * unrelated exception classes of the taxonomy; `Other` is any other
   * exception (an OSError, a store error, ...). Distinct constructors, so a
   * handler for one kind never catches another.
   */
  datatype Raised = Permanent(message: string) | Transient(message: string) | Other(message: string)
  {
    /** Whether the worker retries after this error (TransientError and the catch-all). */
    predicate Retryable() { !Permanent? }
  }

  /** Largest accepted image file, in bytes (10 MiB). */
  const MaxImageSizeBytes: nat := 10 * 1024 * 1024

  /** A job is abandoned once its retry count reaches this value. */
  const MaxRetryAttempts: nat := 3

  /** Backoff delays in seconds, indexed by retry count minus one. */
  const RetryDelays: seq<nat> := [5, 10, 20]

  /** Python's `s[i]`: a negative index counts from the end; out of range raises. */
  function PyIndex(s: seq<nat>, i: int): Option<nat>
  {
    if 0 <= i < |s| then Some(s[i])
    else if -|s| <= i < 0 then Some(s[|s| + i])
    else None
  }

  function Min(a: int, b: int): int { if a <= b then a else b }

  /** The index `min(n - 1, len(RETRY_DELAYS) - 1)` the worker computes. */
  function DelayIndex(n: int): int { Min(n - 1, |RetryDelays| - 1) }

  /**
   * `RETRY_DELAYS[min(n - 1, len(RETRY_DELAYS) - 1)]` for a count `n` returned
   * by the store. Never raises for `n >= 0`; the n-th failure waits the n-th
   * delay, capped at the last one; the count 0 (a vanished row) resolves the
   * index -1 to the last delay.
   */
  function RetryDelay(n: nat): (d: nat)
    ensures d in RetryDelays
    ensures n >= 1 ==> d == RetryDelays[Min(n, |RetryDelays|) - 1]
    ensures n == 0 ==> d == RetryDelays[|RetryDelays| - 1]
  {
    PyIndex(RetryDelays, DelayIndex(n)).value
  }

  /** The worker's decision after a retryable failure has raised the count to `n`. */
  datatype RetryDecision = GiveUp | RetryAfter(delay: nat)

  function ClassifyRetry(n: nat): (r: RetryDecision)
    ensures r.GiveUp? <==> n >= MaxRetryAttempts
    ensures r.RetryAfter? ==> r.delay in RetryDelays && r.delay == RetryDelay(n)
  {
    if n >= MaxRetryAttempts then GiveUp else RetryAfter(RetryDelay(n))
  }

  /** The default schedule: 1 -> 5 s, 2 -> 10 s, 3 -> 20 s, beyond -> 20 s, vanished row -> 20 s. */
  lemma DefaultSchedule()
    ensures RetryDelay(1) == 5 && RetryDelay(2) == 10 && RetryDelay(3) == 20
    ensures forall n: nat :: n >= 3 ==> RetryDelay(n) == 20
    ensures RetryDelay(0) == 20
  {
  }

  /** The table is non-empty, and every delay doubles the previous one (so it is strictly increasing). */
  lemma RetryDelaysShape()
    ensures |RetryDelays| > 0
    ensures forall i :: 0 < i < |RetryDelays| ==> RetryDelays[i] == 2 * RetryDelays[i - 1]
    ensures forall i, j :: 0 <= i < j < |RetryDelays| ==> RetryDelays[i] < RetryDelays[j]
  {
  }

  /**
   * For a row that still exists, counts that are retried (1 .. MAX - 1) only
   * reach delay indices 0 and 1: the last delay is never used under the defaults.
   */
  lemma RetriedIndices(n: nat)
    requires 1 <= n < MaxRetryAttempts
    ensures 0 <= DelayIndex(n) <= 1
    ensures ClassifyRetry(n) == RetryAfter(RetryDelays[n - 1])
  {
  }

  lemma Constants()
    ensures MaxImageSizeBytes == 10485760
    ensures MaxRetryAttempts == 3
  {
  }

  /** Decimal rendering of a natural number (Python's f-string `{n}`). */
  function Decimal(n: nat): string
    decreases n
  {
    if n < 10 then [DigitChar(n)] else Decimal(n / 10) + [DigitChar(n % 10)]
  }

  function DigitChar(d: nat): char
    requires d < 10
  {
    "0123456789"[d]
  }
}
