// Full Jitter below an exponential window; Retry-After wins up to the cap.
module Backoff {
  import opened Options

  datatype BackoffPolicy = BackoffPolicy(
    baseMs: nat, capMs: nat, maxAttempts: nat, maxDeferrals: nat)

  /** A float in [0, 1). */
  type Draw = r: real | 0.0 <= r < 1.0

  function Pow2(n: nat): (p: nat)
    ensures p >= 1
  {
    if n == 0 then 1 else 2 * Pow2(n - 1)
  }

  function BackoffWindowMs(attempt: nat, policy: BackoffPolicy): nat
    requires attempt >= 1
  {
    Min(policy.capMs, policy.baseMs * Pow2(Min(attempt - 1, 30)))
  }

  datatype DelaySource = Jitter | RetryAfter | RetryAfterClamped

  datatype RetryDelay = RetryDelay(delayMs: nat, source: DelaySource)

  function Jittered(draw: Draw, window: nat): (j: nat)
    ensures j <= window
    ensures 0 < window ==> j < window
  {
    JitterBound(draw, window);
    (draw * window as real).Floor
  }

  lemma JitterBound(draw: Draw, window: nat)
    ensures 0 <= (draw * window as real).Floor <= window
    ensures 0 < window ==> (draw * window as real).Floor < window
  {
    var w := window as real;
    assert 0.0 <= draw * w;
    if window > 0 {
      var x := draw * w;
      assert x < w;
      assert x.Floor as real <= x;
      assert (x.Floor as real) < w;
    }
  }

  function ComputeRetryDelay(attempt: nat, policy: BackoffPolicy, draw: Draw,
                             retryAfterMs: Option<int>): RetryDelay
    requires attempt >= 1
  {
    var jittered := Jittered(draw, BackoffWindowMs(attempt, policy));
    if retryAfterMs.Some? && retryAfterMs.value > 0 && retryAfterMs.value > policy.capMs then
      RetryDelay(policy.capMs, RetryAfterClamped)
    else if retryAfterMs.Some? && retryAfterMs.value > 0 && retryAfterMs.value > jittered then
      RetryDelay(retryAfterMs.value, RetryAfter)
    else
      RetryDelay(jittered, Jitter)
  }

  lemma Pow2Monotone(m: nat, n: nat)
    requires m <= n
    ensures Pow2(m) <= Pow2(n)
  {
    if m < n {
      Pow2Monotone(m, n - 1);
    }
  }

  /** The window starts at the base, doubles until the cap, never shrinks, and stops growing after thirty doublings. */
  lemma WindowShape(attempt: nat, policy: BackoffPolicy)
    requires attempt >= 1
    ensures BackoffWindowMs(1, policy) == if policy.baseMs <= policy.capMs then policy.baseMs else policy.capMs
    ensures BackoffWindowMs(attempt, policy) <= BackoffWindowMs(attempt + 1, policy) <= policy.capMs
    ensures attempt >= 31 ==> BackoffWindowMs(attempt, policy) == BackoffWindowMs(31, policy)
    ensures attempt <= 30 ==>
      BackoffWindowMs(attempt + 1, policy) == Min(policy.capMs, 2 * BackoffWindowMs(attempt, policy))
    ensures policy.capMs <= policy.baseMs * Pow2(30) && attempt >= 31 ==>
      BackoffWindowMs(attempt, policy) == policy.capMs
  {
    var p, q := Pow2(Min(attempt - 1, 30)), Pow2(Min(attempt, 30));
    if attempt <= 30 {
      assert q == 2 * p;
    }
    hide Pow2;
    Doubled(policy.baseMs, p);
  }

  lemma Doubled(base: nat, p: nat)
    ensures base * p <= base * (2 * p) == 2 * (base * p)
  {
  }

  /** Whole milliseconds of this fraction of the window. */
  predicate DrawnFrom(draw: Draw, window: nat, ms: nat) {
    ms as real <= draw * window as real < (ms + 1) as real
  }

  lemma JitterIsDrawn(draw: Draw, window: nat)
    ensures DrawnFrom(draw, window, Jittered(draw, window))
    ensures forall ms :: DrawnFrom(draw, window, ms) ==> ms == Jittered(draw, window)
  {
    JitterBound(draw, window);
  }

  /**
   * Without a request of the provider the delay is the drawn fraction of the
   * window. Asked for longer, it is what was asked, but never past the cap; and
   * the source says which of them won.
   */
  lemma DelayRespectsProvider(attempt: nat, policy: BackoffPolicy, draw: Draw, asked: Option<int>, ms: nat)
    requires attempt >= 1 && DrawnFrom(draw, BackoffWindowMs(attempt, policy), ms)
    ensures ms <= policy.capMs
    ensures var d := ComputeRetryDelay(attempt, policy, draw, asked);
      && (asked.None? || asked.value <= ms ==> d == RetryDelay(ms, Jitter))
      && (asked.Some? && ms < asked.value <= policy.capMs ==> d == RetryDelay(asked.value, RetryAfter))
      && (asked.Some? && asked.value > policy.capMs ==> d == RetryDelay(policy.capMs, RetryAfterClamped))
  {
    JitterIsDrawn(draw, BackoffWindowMs(attempt, policy));
  }

  /** Whatever was drawn: never sooner than asked up to the cap, never past the cap or the window. */
  lemma DelayBounds(attempt: nat, policy: BackoffPolicy, draw: Draw, asked: Option<int>)
    requires attempt >= 1
    ensures var d := ComputeRetryDelay(attempt, policy, draw, asked);
      && d.delayMs <= policy.capMs
      && (asked.Some? ==> Min(asked.value, policy.capMs) <= d.delayMs)
      && (asked.None? ==> d.delayMs <= BackoffWindowMs(attempt, policy))
  {
  }

  function AttemptsRemaining(attemptsConsumed: nat, policy: BackoffPolicy): nat {
    Max(0, policy.maxAttempts - attemptsConsumed)
  }

  /** The windows of attempts `lo`, ..., `hi - 1`. */
  function WindowSum(lo: nat, hi: nat, policy: BackoffPolicy): nat
    requires lo >= 1
    decreases hi - lo
  {
    if lo >= hi then 0 else BackoffWindowMs(lo, policy) + WindowSum(lo + 1, hi, policy)
  }

  lemma {:induction false} WindowSumSnoc(lo: nat, hi: nat, policy: BackoffPolicy)
    requires 1 <= lo <= hi
    ensures WindowSum(lo, hi + 1, policy) == WindowSum(lo, hi, policy) + BackoffWindowMs(hi, policy)
    decreases hi - lo
  {
    if lo == hi {
      assert WindowSum(lo + 1, hi + 1, policy) == 0;
    } else {
      WindowSumSnoc(lo + 1, hi, policy);
    }
  }

  lemma OneMore(n: nat, cap: nat)
    requires n > 0
    ensures n * cap == (n - 1) * cap + cap
  {
  }

  lemma {:induction false} WindowSumCap(lo: nat, hi: nat, policy: BackoffPolicy)
    requires lo >= 1
    ensures WindowSum(lo, hi, policy) <= Max(0, hi - lo) * policy.capMs
    decreases Max(0, hi - lo)
  {
    if lo < hi {
      WindowSumCap(lo + 1, hi, policy);
      WindowShape(lo, policy);
      hide BackoffWindowMs;
      OneMore(hi - lo, policy.capMs);
    }
  }

  method WorstCaseLadderMs(policy: BackoffPolicy) returns (total: nat)
    ensures total == WindowSum(1, policy.maxAttempts, policy)
    ensures total <= Max(0, policy.maxAttempts - 1) * policy.capMs
  {
    total := 0;
    var attempt: nat := 1;
    while attempt < policy.maxAttempts
      invariant 1 <= attempt <= Max(1, policy.maxAttempts)
      invariant total == WindowSum(1, attempt, policy)
    {
      WindowSumSnoc(1, attempt, policy);
      total := total + BackoffWindowMs(attempt, policy);
      attempt := attempt + 1;
    }
    WindowSumCap(1, policy.maxAttempts, policy);
  }
}
