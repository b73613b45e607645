// The per-step retry machine: an attempt failed, what now?
module Retry {
  import opened Options
  import opened ErrorClasses
  import opened Backoff

  datatype StepRetryState = StepRetryState(attemptsStarted: nat, attemptsConsumed: nat, deferrals: nat)

  const INITIAL_RETRY_STATE := StepRetryState(0, 0, 0)

  datatype AttemptFailure = AttemptFailure(errorClass: ErrorClass, idempotent: bool, retryAfterMs: Option<int>)

  datatype RetryOutcome =
    | Again(state: StepRetryState, delayMs: nat, source: DelaySource, nextAttemptAt: int)
    | Exhausted(state: StepRetryState)
    | Terminal(state: StepRetryState, action: ErrorAction)

  function OnAttemptStarted(state: StepRetryState): StepRetryState {
    state.(attemptsStarted := state.attemptsStarted + 1)
  }

  function OnAttemptFailed(state: StepRetryState, failure: AttemptFailure, now: int, draw: Draw,
                           policy: BackoffPolicy): RetryOutcome
  {
    var decision := DecideRetry(failure.errorClass, failure.idempotent);
    var consumed := state.attemptsConsumed + if decision.consumesAttempt then 1 else 0;
    var deferrals := state.deferrals + if decision.retry && !decision.consumesAttempt then 1 else 0;
    var next := StepRetryState(state.attemptsStarted, consumed, deferrals);
    if !decision.retry then
      Terminal(next, decision.action)
    else if decision.consumesAttempt && AttemptsRemaining(consumed, policy) == 0 then
      Exhausted(next)
    else if !decision.consumesAttempt && deferrals >= policy.maxDeferrals then
      Exhausted(next)
    else
      var position := if decision.consumesAttempt then consumed else deferrals;
      var delay := ComputeRetryDelay(Max(1, position), policy, draw, failure.retryAfterMs);
      Again(next, delay.delayMs, delay.source, now + delay.delayMs)
  }

  /** A ceiling of zero still lets the first attempt happen. */
  function Ceiling(limit: nat): nat {
    Max(1, limit)
  }

  /** Both budgets still hold something: the state of every step that may run again. */
  predicate Open(state: StepRetryState, policy: BackoffPolicy) {
    state.attemptsConsumed < Ceiling(policy.maxAttempts) && state.deferrals < Ceiling(policy.maxDeferrals)
  }

  /** Failures still possible from an open state, the last of them final. */
  function Budget(state: StepRetryState, policy: BackoffPolicy): (b: nat)
    requires Open(state, policy)
    ensures b >= 1
  {
    (Ceiling(policy.maxAttempts) - state.attemptsConsumed) + (Ceiling(policy.maxDeferrals) - state.deferrals) - 1
  }

  /** Exactly one counter moved, and it moved onto its ceiling. */
  predicate HitOneCeiling(before: StepRetryState, after: StepRetryState, policy: BackoffPolicy) {
    || (after.attemptsConsumed == Ceiling(policy.maxAttempts) && after.deferrals == before.deferrals)
    || (after.deferrals == Ceiling(policy.maxDeferrals) && after.attemptsConsumed == before.attemptsConsumed)
  }

  /** What one failure does to the two counters, from any open state. */
  lemma FailureMovesOneCounter(state: StepRetryState, failure: AttemptFailure, now: int, draw: Draw,
                               policy: BackoffPolicy)
    requires Open(state, policy)
    ensures var o := OnAttemptFailed(state, failure, now, draw, policy);
      && o.state.attemptsStarted == state.attemptsStarted
      && (o.Again? ==> Open(o.state, policy) && Budget(o.state, policy) == Budget(state, policy) - 1)
      && (o.Exhausted? ==> HitOneCeiling(state, o.state, policy))
      && (o.Terminal? ==> o.state == state)
  {
  }

  datatype ExhaustionReason = AttemptsExhausted | DeferralsExhausted

  /** The reason the executor files with the dead letter. */
  function ReasonFor(state: StepRetryState, policy: BackoffPolicy): ExhaustionReason {
    if state.attemptsConsumed >= policy.maxAttempts then AttemptsExhausted else DeferralsExhausted
  }

  /** The filed reason names the ceiling that actually ended the step, given at least one attempt. */
  lemma ReasonNamesTheCeiling(state: StepRetryState, failure: AttemptFailure, now: int, draw: Draw,
                              policy: BackoffPolicy)
    requires Open(state, policy)
    requires OnAttemptFailed(state, failure, now, draw, policy).Exhausted?
    ensures var charged := DecideRetry(failure.errorClass, failure.idempotent).consumesAttempt;
      var reason := ReasonFor(OnAttemptFailed(state, failure, now, draw, policy).state, policy);
      ((reason == AttemptsExhausted) == charged) <==> (policy.maxAttempts >= 1 || charged)
  {
  }

  /** A node configured with no attempts files a spent deferral budget as spent attempts. */
  lemma ReasonMisnamedAtZeroAttempts()
    ensures var policy := BackoffPolicy(1_000, 900_000, 0, 1);
      var failure := AttemptFailure(RateLimited, true, None);
      var o := OnAttemptFailed(OnAttemptStarted(INITIAL_RETRY_STATE), failure, 0, 0.0, policy);
      o.Exhausted? && o.state.attemptsConsumed == 0 && ReasonFor(o.state, policy) == AttemptsExhausted
  {
  }

  // ---- whole ladders ----

  /** The outcomes of a scripted failure sequence, up to and including the first that is not a retry. */
  function Ladder(failures: seq<AttemptFailure>, draws: seq<Draw>, policy: BackoffPolicy,
                  state: StepRetryState, now: int): seq<RetryOutcome>
    requires |draws| == |failures|
    decreases |failures|
  {
    if failures == [] then []
    else
      var o := OnAttemptFailed(OnAttemptStarted(state), failures[0], now, draws[0], policy);
      if o.Again? then [o] + Ladder(failures[1..], draws[1..], policy, o.state, o.nextAttemptAt)
      else [o]
  }

  function TotalDelay(outcomes: seq<RetryOutcome>): nat {
    if outcomes == [] then 0
    else (if outcomes[0].Again? then outcomes[0].delayMs else 0) + TotalDelay(outcomes[1..])
  }

  lemma {:induction false} TotalDelaySnoc(outcomes: seq<RetryOutcome>, o: RetryOutcome)
    ensures TotalDelay(outcomes + [o]) == TotalDelay(outcomes) + if o.Again? then o.delayMs else 0
  {
    if outcomes == [] {
      assert outcomes + [o] == [o];
    } else {
      assert (outcomes + [o])[1..] == outcomes[1..] + [o];
      TotalDelaySnoc(outcomes[1..], o);
    }
  }

  method SimulateLadder(failures: seq<AttemptFailure>, draws: seq<Draw>, policy: BackoffPolicy, startAt: int)
    returns (outcomes: seq<RetryOutcome>, finalState: StepRetryState, totalDelayMs: nat)
    requires |draws| == |failures|
    ensures outcomes == Ladder(failures, draws, policy, INITIAL_RETRY_STATE, startAt)
    ensures totalDelayMs == TotalDelay(outcomes)
    ensures finalState == if outcomes == [] then INITIAL_RETRY_STATE else outcomes[|outcomes| - 1].state
  {
    hide *;
    var state := INITIAL_RETRY_STATE;
    var now := startAt;
    totalDelayMs := 0;
    outcomes := [];
    ghost var whole := Ladder(failures, draws, policy, INITIAL_RETRY_STATE, startAt);
    WholeLadder(failures, draws, policy, startAt);
    NoDelay();
    for i := 0 to |failures|
      invariant |outcomes| == i
      invariant totalDelayMs == TotalDelay(outcomes)
      invariant outcomes == [] ==> state == INITIAL_RETRY_STATE
      invariant outcomes != [] ==> state == outcomes[|outcomes| - 1].state
      invariant whole == outcomes + RestLadder(failures, draws, policy, state, now, i)
    {
      ghost var before := outcomes;
      RestStep(failures, draws, policy, state, now, i);
      state := OnAttemptStarted(state);
      var outcome := OnAttemptFailed(state, failures[i], now, draws[i], policy);
      TotalDelaySnoc(outcomes, outcome);
      outcomes := outcomes + [outcome];
      state := outcome.state;
      if !outcome.Again? {
        break;
      }
      totalDelayMs := totalDelayMs + outcome.delayMs;
      now := outcome.nextAttemptAt;
      assert before + ([outcome] + RestLadder(failures, draws, policy, state, now, i + 1))
          == outcomes + RestLadder(failures, draws, policy, state, now, i + 1);
    }
    if |outcomes| == |failures| {
      RestEmpty(failures, draws, policy, state, now);
    }
    finalState := state;
  }

  lemma NoDelay()
    ensures TotalDelay([]) == 0
  {
  }

  function RestLadder(failures: seq<AttemptFailure>, draws: seq<Draw>, policy: BackoffPolicy,
                      state: StepRetryState, now: int, i: nat): seq<RetryOutcome>
    requires |draws| == |failures| && i <= |failures|
  {
    Ladder(failures[i..], draws[i..], policy, state, now)
  }

  lemma WholeLadder(failures: seq<AttemptFailure>, draws: seq<Draw>, policy: BackoffPolicy, now: int)
    requires |draws| == |failures|
    ensures Ladder(failures, draws, policy, INITIAL_RETRY_STATE, now)
      == [] + RestLadder(failures, draws, policy, INITIAL_RETRY_STATE, now, 0)
  {
    assert failures[0..] == failures && draws[0..] == draws;
    hide Ladder;
  }

  lemma RestEmpty(failures: seq<AttemptFailure>, draws: seq<Draw>, policy: BackoffPolicy, state: StepRetryState,
                  now: int)
    requires |draws| == |failures|
    ensures RestLadder(failures, draws, policy, state, now, |failures|) == []
  {
  }

  /** The ladder from failure i on: its outcome, then the rest if it is a retry. */
  lemma RestStep(failures: seq<AttemptFailure>, draws: seq<Draw>, policy: BackoffPolicy, state: StepRetryState,
                 now: int, i: nat)
    requires |draws| == |failures| && i < |failures|
    ensures var o := OnAttemptFailed(OnAttemptStarted(state), failures[i], now, draws[i], policy);
      RestLadder(failures, draws, policy, state, now, i) ==
      [o] + if o.Again? then RestLadder(failures, draws, policy, o.state, o.nextAttemptAt, i + 1) else []
  {
    hide OnAttemptFailed;
    assert failures[i..][1..] == failures[i + 1..] && draws[i..][1..] == draws[i + 1..];
  }

  /** However the failures fall, a step ends within its two budgets; only the last outcome is not a retry. */
  lemma {:induction false} LadderLength(failures: seq<AttemptFailure>, draws: seq<Draw>, policy: BackoffPolicy,
                                        state: StepRetryState, now: int)
    requires |draws| == |failures|
    requires Open(state, policy)
    ensures var os := Ladder(failures, draws, policy, state, now);
      && |os| <= Budget(state, policy)
      && (forall i :: 0 <= i < |os| - 1 ==> os[i].Again?)
      && (forall i :: 0 <= i < |os| ==> os[i].state.attemptsStarted == state.attemptsStarted + i + 1)
      && (|os| < |failures| ==> |os| > 0 && !os[|os| - 1].Again?)
    decreases |failures|
  {
    if failures != [] {
      FailureMovesOneCounter(OnAttemptStarted(state), failures[0], now, draws[0], policy);
      var o := OnAttemptFailed(OnAttemptStarted(state), failures[0], now, draws[0], policy);
      if o.Again? {
        LadderLength(failures[1..], draws[1..], policy, o.state, o.nextAttemptAt);
      }
    }
  }

  /** Waiting left on the two ladders, each paced by its own counter. */
  function WaitBound(state: StepRetryState, policy: BackoffPolicy): nat {
    WindowSum(state.attemptsConsumed + 1, policy.maxAttempts, policy)
    + WindowSum(state.deferrals + 1, policy.maxDeferrals, policy)
  }

  lemma OneWait(state: StepRetryState, failure: AttemptFailure, now: int, draw: Draw, policy: BackoffPolicy)
    requires Open(state, policy)
    requires failure.retryAfterMs.None?
    ensures var o := OnAttemptFailed(state, failure, now, draw, policy);
      o.Again? ==> o.delayMs + WaitBound(o.state, policy) <= WaitBound(state, policy)
  {
    var o := OnAttemptFailed(state, failure, now, draw, policy);
    if o.Again? {
      var position := if DecideRetry(failure.errorClass, failure.idempotent).consumesAttempt
                      then o.state.attemptsConsumed else o.state.deferrals;
      assert position >= 1;
      DelayBounds(position, policy, draw, None);
      assert o.delayMs <= BackoffWindowMs(position, policy);
    }
  }

  /** Without Retry-After: the worst-case ladder plus the deferral windows 1 .. maxDeferrals - 1. */
  lemma {:induction false} LadderDelayJitterOnly(failures: seq<AttemptFailure>, draws: seq<Draw>,
                                                 policy: BackoffPolicy, state: StepRetryState, now: int)
    requires |draws| == |failures|
    requires Open(state, policy)
    requires forall f :: f in failures ==> f.retryAfterMs.None?
    ensures TotalDelay(Ladder(failures, draws, policy, state, now)) <= WaitBound(state, policy)
    decreases |failures|
  {
    if failures != [] {
      hide OnAttemptFailed, WindowSum, DecideRetry;
      FailureMovesOneCounter(OnAttemptStarted(state), failures[0], now, draws[0], policy);
      var o := OnAttemptFailed(OnAttemptStarted(state), failures[0], now, draws[0], policy);
      if o.Again? {
        var rest := Ladder(failures[1..], draws[1..], policy, o.state, o.nextAttemptAt);
        assert ([o] + rest)[1..] == rest;
        LadderDelayJitterOnly(failures[1..], draws[1..], policy, o.state, o.nextAttemptAt);
        OneWait(OnAttemptStarted(state), failures[0], now, draws[0], policy);
      }
    }
  }

  /** With Retry-After: one cap per retry, and there are at most maxAttempts + maxDeferrals - 2 retries. */
  lemma {:induction false} LadderDelayClamped(failures: seq<AttemptFailure>, draws: seq<Draw>,
                                              policy: BackoffPolicy, state: StepRetryState, now: int)
    requires |draws| == |failures|
    requires Open(state, policy)
    ensures TotalDelay(Ladder(failures, draws, policy, state, now)) <= (Budget(state, policy) - 1) * policy.capMs
    decreases |failures|
  {
    if failures != [] {
      FailureMovesOneCounter(OnAttemptStarted(state), failures[0], now, draws[0], policy);
      OneDelayCapped(OnAttemptStarted(state), failures[0], now, draws[0], policy);
      hide OnAttemptFailed;
      var o := OnAttemptFailed(OnAttemptStarted(state), failures[0], now, draws[0], policy);
      if o.Again? {
        var rest := Ladder(failures[1..], draws[1..], policy, o.state, o.nextAttemptAt);
        assert ([o] + rest)[1..] == rest;
        LadderDelayClamped(failures[1..], draws[1..], policy, o.state, o.nextAttemptAt);
        OneMore(Budget(state, policy) - 1, policy.capMs);
      } else {
        assert ([o])[1..] == [];
      }
    }
  }

  lemma OneDelayCapped(state: StepRetryState, failure: AttemptFailure, now: int, draw: Draw, policy: BackoffPolicy)
    ensures var o := OnAttemptFailed(state, failure, now, draw, policy);
      o.Again? ==> o.delayMs <= policy.capMs
  {
  }

  /** The three bounds on a fresh step, in the policy's own terms. */
  lemma FreshLadderBounds(failures: seq<AttemptFailure>, draws: seq<Draw>, policy: BackoffPolicy, startAt: int)
    requires |draws| == |failures|
    requires policy.maxAttempts >= 1 && policy.maxDeferrals >= 1
    ensures var os := Ladder(failures, draws, policy, INITIAL_RETRY_STATE, startAt);
      && |os| <= policy.maxAttempts + policy.maxDeferrals - 1
      && TotalDelay(os) <= (policy.maxAttempts + policy.maxDeferrals - 2) * policy.capMs
      && ((forall f :: f in failures ==> f.retryAfterMs.None?) ==>
            TotalDelay(os) <= WindowSum(1, policy.maxAttempts, policy) + WindowSum(1, policy.maxDeferrals, policy))
  {
    LadderLength(failures, draws, policy, INITIAL_RETRY_STATE, startAt);
    LadderDelayClamped(failures, draws, policy, INITIAL_RETRY_STATE, startAt);
    if forall f :: f in failures ==> f.retryAfterMs.None? {
      LadderDelayJitterOnly(failures, draws, policy, INITIAL_RETRY_STATE, startAt);
    }
  }
}
