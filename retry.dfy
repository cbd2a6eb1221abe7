/**
 * The retry policy of the service's remote mutations: a counted loop of at most
 * five attempts that stops at the first success. The outcome of each attempt
 * comes from the caller, as a sequence of flags (attempt n succeeds when flag
 * n - 1 is present and true).
 */
module Retry {
  /** `DEFAULT_MAX_ATTEMPTS`. */
  const MaxAttempts: nat := 5

  /** Whether attempt number `n` (counted from 1) succeeds. */
  predicate Attempt(outcomes: seq<bool>, n: nat)
  {
    1 <= n <= |outcomes| && outcomes[n - 1]
  }

  function AttemptsFrom(outcomes: seq<bool>, n: nat): (m: nat)
    requires 1 <= n <= MaxAttempts
    ensures n <= m <= MaxAttempts
    decreases MaxAttempts - n
  {
    if Attempt(outcomes, n) || n == MaxAttempts then n else AttemptsFrom(outcomes, n + 1)
  }

  /** How many attempts the loop makes. */
  function AttemptsMade(outcomes: seq<bool>): (m: nat)
    ensures 1 <= m <= MaxAttempts
  {
    AttemptsFrom(outcomes, 1)
  }

  /** Whether the loop ends on a successful attempt. */
  predicate Succeeds(outcomes: seq<bool>)
  {
    Attempt(outcomes, AttemptsMade(outcomes))
  }

  lemma {:induction false} AttemptsFromFirstSuccess(outcomes: seq<bool>, n: nat)
    requires 1 <= n <= MaxAttempts
    ensures forall m :: n <= m < AttemptsFrom(outcomes, n) ==> !Attempt(outcomes, m)
    ensures !Attempt(outcomes, AttemptsFrom(outcomes, n)) ==> AttemptsFrom(outcomes, n) == MaxAttempts
    decreases MaxAttempts - n
  {
    if !Attempt(outcomes, n) && n < MaxAttempts {
      AttemptsFromFirstSuccess(outcomes, n + 1);
    }
  }

  /**
   * The loop makes between one and five attempts, every attempt before the last
   * one fails, and it succeeds exactly when one of the first five attempts would.
   */
  lemma AttemptsStopAtFirstSuccess(outcomes: seq<bool>)
    ensures 1 <= AttemptsMade(outcomes) <= MaxAttempts
    ensures forall m :: 1 <= m < AttemptsMade(outcomes) ==> !Attempt(outcomes, m)
    ensures Succeeds(outcomes) <==> exists m :: 1 <= m <= MaxAttempts && Attempt(outcomes, m)
    ensures !Succeeds(outcomes) ==> AttemptsMade(outcomes) == MaxAttempts
  {
    AttemptsFromFirstSuccess(outcomes, 1);
  }

  /** The attempt count when attempt `n` is the first to succeed. */
  lemma FirstSuccessAt(outcomes: seq<bool>, n: nat)
    requires 1 <= n <= MaxAttempts && Attempt(outcomes, n)
    requires forall m :: 1 <= m < n ==> !Attempt(outcomes, m)
    ensures AttemptsMade(outcomes) == n && Succeeds(outcomes)
  {
    AttemptsStopAtFirstSuccess(outcomes);
  }

  /** Five failures: five attempts and no success. */
  lemma AllAttemptsFail(outcomes: seq<bool>)
    requires forall m :: 1 <= m <= MaxAttempts ==> !Attempt(outcomes, m)
    ensures AttemptsMade(outcomes) == MaxAttempts && !Succeeds(outcomes)
  {
    AttemptsStopAtFirstSuccess(outcomes);
  }

  /** `n` copies of `x`: the log of `n` identical attempts. */
  function Repeat<T>(x: T, n: nat): (r: seq<T>)
    ensures |r| == n && forall i :: 0 <= i < n ==> r[i] == x
  {
    if n == 0 then [] else Repeat(x, n - 1) + [x]
  }
}
