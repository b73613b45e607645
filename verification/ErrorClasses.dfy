// The class of a failure, not the original error, decides what happens next.
module ErrorClasses {
  datatype ErrorClass =
    | TransientNetwork
    | RateLimited
    | AuthExpired
    | AuthBroken
    | ClientError
    | ServerError
    | Timeout
    | UnknownOutcome
    | Internal
    | Poison

  datatype Retryability = Yes | No | Conditional

  datatype ErrorAction =
    | Backoff
    | RespectRetryAfter
    | RefreshCredentials
    | FailRun
    | FailStep
    | PauseForConfirmation
    | DeadLetter

  datatype ErrorClassSpec = ErrorClassSpec(
    retryable: Retryability, consumesAttempt: bool, action: ErrorAction, alerts: bool)

  function SpecFor(c: ErrorClass): ErrorClassSpec {
    match c
    case TransientNetwork => ErrorClassSpec(Yes, true, Backoff, false)
    case RateLimited => ErrorClassSpec(Yes, false, RespectRetryAfter, false)
    case AuthExpired => ErrorClassSpec(Yes, false, RefreshCredentials, false)
    case AuthBroken => ErrorClassSpec(No, false, FailRun, true)
    case ClientError => ErrorClassSpec(No, false, FailStep, false)
    case ServerError => ErrorClassSpec(Conditional, true, Backoff, false)
    case Timeout => ErrorClassSpec(Conditional, true, Backoff, false)
    case UnknownOutcome => ErrorClassSpec(No, false, PauseForConfirmation, true)
    case Internal => ErrorClassSpec(Yes, true, Backoff, true)
    case Poison => ErrorClassSpec(No, false, DeadLetter, true)
  }

  datatype RetryDecision = RetryDecision(retry: bool, consumesAttempt: bool, action: ErrorAction)

  /** Resolve a class; the conditional rows need to know whether repeating is safe. */
  function DecideRetry(c: ErrorClass, idempotent: bool): RetryDecision {
    var spec := SpecFor(c);
    if spec.retryable == Conditional && !idempotent then
      RetryDecision(false, false, SpecFor(UnknownOutcome).action)
    else
      RetryDecision(spec.retryable != No, spec.consumesAttempt, spec.action)
  }

  /** Worth another attempt: the request did not count, or sending it again does no harm. */
  predicate Repeatable(c: ErrorClass, idempotent: bool) {
    c in {TransientNetwork, RateLimited, AuthExpired, Internal} || (c in {ServerError, Timeout} && idempotent)
  }

  /** The provider's own limits and an expired credential are not the step's fault. */
  predicate Charged(c: ErrorClass, idempotent: bool) {
    Repeatable(c, idempotent) && c != RateLimited && c != AuthExpired
  }

  /** Nobody can know whether the effect happened. */
  predicate InDoubt(c: ErrorClass, idempotent: bool) {
    c == UnknownOutcome || (c in {ServerError, Timeout} && !idempotent)
  }

  /** The class table, by what a caller sees of it. */
  lemma DecisionMeaning(c: ErrorClass, idempotent: bool)
    ensures var d := DecideRetry(c, idempotent);
      && (d.retry <==> Repeatable(c, idempotent))
      && (d.consumesAttempt <==> Charged(c, idempotent))
      && (d.action == PauseForConfirmation <==> InDoubt(c, idempotent))
      && (d.action == FailRun <==> c == AuthBroken)
      && (d.action == FailStep <==> c == ClientError)
      && (d.action == DeadLetter <==> c == Poison)
      && (d.action == RespectRetryAfter <==> c == RateLimited)
      && (d.action == RefreshCredentials <==> c == AuthExpired)
    ensures SpecFor(c).alerts <==> c in {AuthBroken, UnknownOutcome, Internal, Poison}
  {
    match c
    case TransientNetwork => case RateLimited => case AuthExpired => case AuthBroken =>
    case ClientError => case ServerError => case Timeout => case UnknownOutcome =>
    case Internal => case Poison =>
  }
}
