/** pkg/platform/resilience/retry.go: bounded retries with doubling delays. */
module Backoff {
  import opened Common

  const MAX_INT64 := 0x7fff_ffff_ffff_ffff

  /** A time.Duration: a signed 64-bit count of nanoseconds. */
  type Duration = d: int | -0x8000_0000_0000_0000 <= d <= MAX_INT64

  function Pow2(n: nat): (r: nat)
    ensures r >= 1
  {
    if n == 0 then 1 else 2 * Pow2(n - 1)
  }

  function NextBackoff(current: Duration, maximum: Duration): Duration {
    if current == 0 then 0
    else if maximum > 0 && current >= maximum then maximum
    else
      var next := Int64(current * 2);
      if next < current || (maximum > 0 && next > maximum) then maximum else next
  }

  /** The delay Retry waits after failure number n + 1. */
  function Delay(initial: Duration, maximum: Duration, n: nat): Duration {
    if n == 0 then initial else NextBackoff(Delay(initial, maximum, n - 1), maximum)
  }

  lemma DoublingStep(current: Duration, maximum: Duration)
    requires 0 < current && 0 <= maximum
    ensures maximum > 0 ==> NextBackoff(current, maximum) == Min(2 * current, maximum)
    ensures maximum == 0 ==> NextBackoff(current, 0) == if 2 * current <= MAX_INT64 then 2 * current else 0
  {
  }

  lemma Doubled(initial: int, n: nat)
    requires 0 < initial && 1 <= n
    ensures 0 < initial * Pow2(n - 1)
    ensures initial * Pow2(n) == 2 * (initial * Pow2(n - 1))
  {
  }

  /** With a maximum, every later delay is the exact power of two, cut off at the
      maximum, even where doubling a 64-bit duration wraps around. */
  lemma {:induction false} BoundedDelay(initial: Duration, maximum: Duration, n: nat)
    requires 0 <= initial && 0 < maximum && 1 <= n
    ensures Delay(initial, maximum, n) == Min(initial * Pow2(n), maximum)
  {
    if initial == 0 {
      ZeroDelay(maximum, n);
    } else {
      Doubled(initial, n);
      if n == 1 {
        assert Pow2(0) == 1 && Delay(initial, maximum, 0) == initial;
      } else {
        BoundedDelay(initial, maximum, n - 1);
      }
      DoublingStep(Delay(initial, maximum, n - 1), maximum);
    }
  }

  lemma {:induction false} ZeroDelay(maximum: Duration, n: nat)
    ensures Delay(0, maximum, n) == 0
  {
    if n > 0 {
      ZeroDelay(maximum, n - 1);
    }
  }

  /** Without a maximum the delays double until a 64-bit duration cannot hold the
      next one; from then on there is no delay at all. */
  lemma {:induction false} UnboundedDelay(initial: Duration, n: nat)
    requires 0 <= initial
    ensures Delay(initial, 0, n) == if initial * Pow2(n) <= MAX_INT64 then initial * Pow2(n) else 0
  {
    if initial == 0 {
      ZeroDelay(0, n);
    } else if n > 0 {
      UnboundedDelay(initial, n - 1);
      Doubled(initial, n);
      var before := Delay(initial, 0, n - 1);
      if before > 0 {
        DoublingStep(before, 0);
      }
    }
  }

  /** The timers started while failures 1 to n are waited out: no timer for a zero delay. */
  function Timers(initial: Duration, maximum: Duration, n: nat): seq<Duration> {
    if n == 0 then []
    else
      var delay := Delay(initial, maximum, n - 1);
      Timers(initial, maximum, n - 1) + if delay > 0 then [delay] else []
  }

  /** What one invocation of the operation returned. */
  datatype Reply<E> = Completed | Failed(error: E)

  datatype Policy<!E> = Policy(maxAttempts: int, initialBackoff: Duration, maxBackoff: Duration,
                               retryIf: Option<E -> bool>)

  datatype Result<E> = Nil | InvalidPolicy | ContextError | OperationError(error: E)

  predicate Valid<E>(policy: Policy<E>) {
    policy.maxAttempts > 0 && policy.initialBackoff >= 0 && policy.maxBackoff >= 0
  }

  predicate Retryable<E>(policy: Policy<E>, error: E) {
    policy.retryIf.None? || policy.retryIf.value(error)
  }

  /** Invocation k failed, may be retried, and the wait after it ran to its end. */
  predicate GoesOn<E>(policy: Policy<E>, operation: nat -> Reply<E>, doneBefore: nat -> bool, doneDuring: nat -> bool, k: nat)
    requires Valid(policy)
  {
    && !doneBefore(k)
    && operation(k).Failed?
    && Retryable(policy, operation(k).error)
    && (Delay(policy.initialBackoff, policy.maxBackoff, k) > 0 ==> !doneDuring(k))
  }

  /** Everything outside the loop is a parameter: what invocation k (from 0) returns,
      whether the context is done just before it, and whether the context is done
      during the wait that follows it. `calls` counts the invocations and `waits`
      lists the timers started. */
  method Retry<E>(policy: Policy<E>, operation: nat -> Reply<E>, doneBefore: nat -> bool, doneDuring: nat -> bool)
    returns (r: Result<E>, calls: nat, waits: seq<Duration>)
    ensures r == InvalidPolicy <==> !Valid(policy)
    ensures r == InvalidPolicy ==> calls == 0 && waits == []
    ensures Valid(policy) ==> calls <= policy.maxAttempts
    ensures r == Nil <==> exists k :: 0 <= k < calls && operation(k).Completed?
    ensures Valid(policy) ==> forall k :: 0 <= k < calls - 1 ==> GoesOn(policy, operation, doneBefore, doneDuring, k)
    ensures r.Nil? ==>
              && calls >= 1 && operation(calls - 1).Completed? && !doneBefore(calls - 1)
              && waits == Timers(policy.initialBackoff, policy.maxBackoff, calls - 1)
    ensures r.OperationError? ==>
              && calls >= 1 && operation(calls - 1) == Failed(r.error) && !doneBefore(calls - 1)
              && (calls == policy.maxAttempts || !Retryable(policy, r.error))
              && waits == Timers(policy.initialBackoff, policy.maxBackoff, calls - 1)
    ensures r.ContextError? ==>
              && calls < policy.maxAttempts
              && (doneBefore(calls) || (calls >= 1 && doneDuring(calls - 1)))
              && waits == Timers(policy.initialBackoff, policy.maxBackoff, calls)
  {
    calls, waits := 0, [];
    if policy.maxAttempts <= 0 || policy.initialBackoff < 0 || policy.maxBackoff < 0 {
      return InvalidPolicy, calls, waits;
    }
    var delay := policy.initialBackoff;
    var attempt := 1;
    while attempt <= policy.maxAttempts
      invariant 1 <= attempt == calls + 1 <= policy.maxAttempts
      invariant delay == Delay(policy.initialBackoff, policy.maxBackoff, calls)
      invariant forall k :: 0 <= k < calls ==> GoesOn(policy, operation, doneBefore, doneDuring, k)
      invariant forall k :: 0 <= k < calls ==> operation(k).Failed?
      invariant waits == Timers(policy.initialBackoff, policy.maxBackoff, calls)
    {
      if doneBefore(calls) {
        return ContextError, calls, waits;
      }
      var reply := operation(calls);
      calls := calls + 1;
      if reply.Completed? {
        return Nil, calls, waits;
      }
      if attempt == policy.maxAttempts || !Retryable(policy, reply.error) {
        return OperationError(reply.error), calls, waits;
      }
      if delay > 0 {
        waits := waits + [delay];
        if doneDuring(calls - 1) {
          return ContextError, calls, waits;
        }
      }
      delay := NextBackoff(delay, policy.maxBackoff);
      attempt := attempt + 1;
    }
    assert false;
    r := Nil;
  }
}
