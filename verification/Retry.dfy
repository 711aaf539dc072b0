/** `retry.rs`: bounded retries with equal-jitter backoff. Durations are nanoseconds. */
module Retry {
  import opened Prelude
  import opened Multiples
  import opened Bytes

  /** The longest `Duration`: `u64::MAX` seconds and 999 999 999 nanoseconds. */
  const DURATION_MAX: nat := TWO_64 * 1_000_000_000 - 1

  type Duration = d: int | 0 <= d <= DURATION_MAX

  /** What one call of the operation returns: success, or one of the port errors. */
  datatype CallResult = Success | Unavailable | NotFound | Transient | Permanent {
    predicate Retryable() {
      Unavailable? || Transient?
    }
  }

  datatype Policy = Policy(maxAttempts: nat, baseDelay: Duration, maxDelay: Duration)

  // ---- Backoff --------------------------------------------------------------------------------

  function Pow2(k: nat): (p: nat)
    ensures p >= 1
  {
    if k == 0 then 1 else 2 * Pow2(k - 1)
  }

  function SaturatingMul(d: Duration, k: nat): Duration {
    MulNonNegative(d, k);
    Min(d * k, DURATION_MAX)
  }

  /** The exponential delay, capped. */
  function Capped(policy: Policy, attempt: nat): Duration {
    Min(SaturatingMul(policy.baseDelay, Pow2(Min(attempt, 16))), policy.maxDelay)
  }

  /** `half.as_nanos() as u64 + 1` does not overflow. */
  predicate JitterFits(half: nat) {
    half % TWO_64 + 1 < TWO_64
  }

  /** `nanos` is the clock's subsecond reading, the only source of jitter. */
  function Backoff(policy: Policy, attempt: nat, nanos: nat): nat
    requires JitterFits(Capped(policy, attempt) / 2)
  {
    var half := Capped(policy, attempt) / 2;
    var jitter := if half == 0 then 0 else nanos % (half % TWO_64 + 1);
    half + jitter
  }

  /** Each backoff lies between half the capped exponential and all of it. */
  lemma BackoffBounds(policy: Policy, attempt: nat, nanos: nat)
    requires JitterFits(Capped(policy, attempt) / 2)
    ensures Capped(policy, attempt) / 2 <= Backoff(policy, attempt, nanos) <= Capped(policy, attempt) <= policy.maxDelay
  {
    var half := Capped(policy, attempt) / 2;
    assert half % TWO_64 <= half;
    if half > 0 {
      RemainderBound(nanos, half % TWO_64 + 1);
    }
  }

  lemma Wraps(x: nat, d: nat)
    requires d > 0
    ensures (x < d ==> x % d == x) && (x + d) % d == x % d
  {
    ModStep(x, d);
    if x < d {
      ModUnique(x, 0, x, d);
    }
  }

  /** Below 2^64 nanoseconds the jitter takes every value up to half the delay, and the clock's reading chooses it. */
  lemma BackoffReaches(policy: Policy, attempt: nat, nanos: nat)
    requires Capped(policy, attempt) / 2 < 0xFFFF_FFFF_FFFF_FFFF
    ensures var half := Capped(policy, attempt) / 2;
            && (nanos <= half ==> Backoff(policy, attempt, nanos) == half + nanos)
            && Backoff(policy, attempt, nanos + (half + 1)) == Backoff(policy, attempt, nanos)
  {
    hide Capped;
    var half := Capped(policy, attempt) / 2;
    assert half % TWO_64 == half;
    Wraps(nanos, half + 1);
  }

  lemma RemainderBound(x: nat, d: nat)
    requires d > 0
    ensures 0 <= x % d < d
  {
  }

  lemma TimesTwo(d: nat, p: nat)
    ensures 0 <= d * p && d * (2 * p) == 2 * (d * p)
  {
    MulNonNegative(d, p);
  }

  /**
    The capped delay starts at the base delay and doubles with every attempt until it meets the cap; from the
    seventeenth attempt on it stays.
   */
  lemma {:induction false} CappedDoubles(policy: Policy, attempt: nat)
    ensures Capped(policy, 0) == if policy.baseDelay <= policy.maxDelay then policy.baseDelay else policy.maxDelay
    ensures Capped(policy, attempt + 1) ==
              if attempt >= 16 then Capped(policy, attempt)
              else if 2 * Capped(policy, attempt) <= policy.maxDelay then 2 * Capped(policy, attempt)
              else policy.maxDelay
  {
    assert Pow2(0) == 1;
    if attempt < 16 {
      assert Pow2(attempt + 1) == 2 * Pow2(attempt);
      TimesTwo(policy.baseDelay, Pow2(attempt));
    }
  }

  /** Delays never shrink from one attempt to the next. */
  lemma CappedGrows(policy: Policy, attempt: nat)
    ensures Capped(policy, attempt) <= Capped(policy, attempt + 1) <= policy.maxDelay
  {
    CappedDoubles(policy, attempt);
  }

  // ---- The retry loop -------------------------------------------------------------------------

  /** The `k`-th call is the last one: it succeeds, cannot be retried, or uses up the attempts. */
  predicate Stops(policy: Policy, outcomes: nat -> CallResult, k: nat) {
    outcomes(k).Success? || outcomes(k).NotFound? || outcomes(k).Permanent? || k + 1 >= policy.maxAttempts
  }

  /** The index of the last call, searching from `k`. */
  function LastCall(policy: Policy, outcomes: nat -> CallResult, k: nat): (last: nat)
    ensures k <= last && Stops(policy, outcomes, last)
    ensures forall j :: k <= j < last ==> !Stops(policy, outcomes, j)
    decreases policy.maxAttempts - k
  {
    if Stops(policy, outcomes, k) then k else LastCall(policy, outcomes, k + 1)
  }

  /** What the sleeps after calls `0` up to `n` add up to. */
  function Slept(policy: Policy, clock: nat -> nat, n: nat): nat
    requires forall k :: JitterFits(Capped(policy, k) / 2)
  {
    if n == 0 then 0 else Slept(policy, clock, n - 1) + Backoff(policy, n - 1, clock(n - 1))
  }

  /** What the retries of calls `0` up to `n` may sleep in all. */
  function SleepBound(policy: Policy, n: nat): nat {
    if n == 0 then 0 else SleepBound(policy, n - 1) + Capped(policy, n - 1)
  }

  /** The operation's `k`-th call returns `outcomes(k)`; the clock reads `clock(k)` before the `k`-th sleep. */
  method RetryIf(policy: Policy, outcomes: nat -> CallResult, clock: nat -> nat)
    returns (res: CallResult, calls: nat, slept: nat)
    requires forall k :: JitterFits(Capped(policy, k) / 2)
    ensures 1 <= calls <= Max(1, policy.maxAttempts)
    ensures calls == LastCall(policy, outcomes, 0) + 1 && res == outcomes(calls - 1)
    ensures res.Success? <==>
              exists k: nat :: && k < Max(1, policy.maxAttempts) && outcomes(k).Success?
                               && forall j: nat :: j < k ==> outcomes(j).Unavailable? || outcomes(j).Transient?
    ensures outcomes(0).NotFound? || outcomes(0).Permanent? ==> calls == 1
    ensures slept == Slept(policy, clock, calls - 1)
    ensures slept <= SleepBound(policy, calls - 1) <= 2 * slept + (calls - 1)
  {
    hide Capped, Backoff, JitterFits;
    SucceedsIff(policy, outcomes);
    var attempt := 0;
    calls, slept := 0, 0;
    while true
      invariant attempt == calls && slept == Slept(policy, clock, calls)
      invariant slept <= SleepBound(policy, calls) <= 2 * slept + calls
      invariant calls < Max(1, policy.maxAttempts)
      invariant LastCall(policy, outcomes, calls) == LastCall(policy, outcomes, 0)
      decreases policy.maxAttempts - attempt
    {
      res := outcomes(calls);
      calls := calls + 1;
      if res.Success? {
        return;
      }
      attempt := attempt + 1;
      if attempt >= policy.maxAttempts || !res.Retryable() {
        return;
      }
      BackoffBounds(policy, attempt - 1, clock(attempt - 1));
      slept := slept + Backoff(policy, attempt - 1, clock(attempt - 1));
    }
  }

  /** The first `n` calls all fail in a way that may be retried. */
  ghost predicate AllRetryable(outcomes: nat -> CallResult, n: nat) {
    forall j: nat :: j < n ==> outcomes(j).Unavailable? || outcomes(j).Transient?
  }

  /** Some call within the bound succeeds, and every call before it fails retryably. */
  ghost predicate Succeeds(outcomes: nat -> CallResult, bound: nat) {
    exists k: nat :: k < bound && outcomes(k).Success? && AllRetryable(outcomes, k)
  }

  lemma Retried(policy: Policy, outcomes: nat -> CallResult)
    ensures LastCall(policy, outcomes, 0) < Max(1, policy.maxAttempts)
    ensures AllRetryable(outcomes, LastCall(policy, outcomes, 0))
  {
    var last := LastCall(policy, outcomes, 0);
    LastCallBound(policy, outcomes, 0);
    forall j: nat | j < last
      ensures outcomes(j).Unavailable? || outcomes(j).Transient?
    {
      assert !Stops(policy, outcomes, j);
    }
  }

  lemma {:induction false} LastCallBound(policy: Policy, outcomes: nat -> CallResult, k: nat)
    requires k < Max(1, policy.maxAttempts)
    ensures LastCall(policy, outcomes, k) < Max(1, policy.maxAttempts)
    decreases policy.maxAttempts - k
  {
    if !Stops(policy, outcomes, k) {
      LastCallBound(policy, outcomes, k + 1);
    }
  }

  /** The loop succeeds exactly when some call within the bound does, after errors that are all worth a retry. */
  lemma SucceedsIff(policy: Policy, outcomes: nat -> CallResult)
    ensures outcomes(LastCall(policy, outcomes, 0)).Success? <==>
              exists k: nat :: && k < Max(1, policy.maxAttempts) && outcomes(k).Success?
                               && forall j: nat :: j < k ==> outcomes(j).Unavailable? || outcomes(j).Transient?
    ensures outcomes(LastCall(policy, outcomes, 0)).Success? <==> Succeeds(outcomes, Max(1, policy.maxAttempts))
  {
    var last := LastCall(policy, outcomes, 0);
    Retried(policy, outcomes);
    if !outcomes(last).Success? {
      forall k: nat | k < Max(1, policy.maxAttempts) && outcomes(k).Success?
        ensures last < k && !outcomes(last).Unavailable? && !outcomes(last).Transient?
      {
        assert Stops(policy, outcomes, k);
      }
    }
  }

  /** Failure means: the attempts ran out on retryable errors, or an error that cannot be retried came first. */
  lemma FailsIff(policy: Policy, outcomes: nat -> CallResult)
    ensures !outcomes(LastCall(policy, outcomes, 0)).Success? <==>
              || AllRetryable(outcomes, Max(1, policy.maxAttempts))
              || exists k: nat :: && k < Max(1, policy.maxAttempts)
                                 && (outcomes(k).NotFound? || outcomes(k).Permanent?)
                                 && AllRetryable(outcomes, k)
  {
    var last := LastCall(policy, outcomes, 0);
    Retried(policy, outcomes);
    if !outcomes(last).Success? && !outcomes(last).NotFound? && !outcomes(last).Permanent? {
      assert last + 1 >= policy.maxAttempts;
      assert last + 1 == Max(1, policy.maxAttempts);
      assert AllRetryable(outcomes, last + 1);
    }
  }

  /** What `calls` calls mean: all but the last had to be retried, and the last one ended the loop. */
  ghost predicate MadeCalls(outcomes: nat -> CallResult, bound: nat, calls: nat) {
    && 1 <= calls <= bound
    && AllRetryable(outcomes, calls - 1)
    && (calls == bound || (!outcomes(calls - 1).Unavailable? && !outcomes(calls - 1).Transient?))
  }

  lemma LastCallIsMade(policy: Policy, outcomes: nat -> CallResult)
    ensures MadeCalls(outcomes, Max(1, policy.maxAttempts), LastCall(policy, outcomes, 0) + 1)
  {
    Retried(policy, outcomes);
  }

  /** The answers alone say how many calls are made. */
  lemma MadeOnce(outcomes: nat -> CallResult, bound: nat, a: nat, b: nat)
    requires MadeCalls(outcomes, bound, a) && MadeCalls(outcomes, bound, b)
    ensures a == b
  {
  }

  /** How many calls the answers make necessary. */
  function CallsMade(outcomes: nat -> CallResult, bound: nat): (calls: nat)
    requires bound > 0
    ensures MadeCalls(outcomes, bound, calls)
  {
    var policy := Policy(bound, 0, 0);
    LastCallIsMade(policy, outcomes);
    LastCall(policy, outcomes, 0) + 1
  }

  /** A loop that fails has used up its attempts exactly when all but the last of them had to be retried. */
  lemma UsesAllAttemptsIff(outcomes: nat -> CallResult, bound: nat, calls: nat)
    requires MadeCalls(outcomes, bound, calls) && !outcomes(calls - 1).Success?
    ensures calls == bound <==> AllRetryable(outcomes, bound - 1)
  {
    assert calls < bound ==> outcomes(calls - 1).NotFound? || outcomes(calls - 1).Permanent?;
  }

  /** A first call that cannot be retried is the only one. */
  lemma StopsAtOnce(outcomes: nat -> CallResult, bound: nat, calls: nat)
    requires MadeCalls(outcomes, bound, calls) && (outcomes(0).NotFound? || outcomes(0).Permanent? || outcomes(0).Success?)
    ensures calls == 1
  {
  }
}
