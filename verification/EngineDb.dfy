// One transaction per function: the whole effect on the database of each
// withTransaction block of the engine.
module EngineDb {
  import opened Options
  import opened ErrorClasses
  import opened EngineTypes
  import opened EngineRows
  import Backoff
  import Retry
  import Idempotency
  import Branching

  function PutRun(db: Db, r: RunId, run: Run): Db {
    db.(runs := db.runs[r := run])
  }

  function Enqueue(db: Db, topic: Topic, r: RunId, delayMs: nat): Db {
    db.(outbox := db.outbox + [Message(topic, r, db.now + delayMs)])
  }

  predicate IsStep(db: Db, r: RunId, i: nat) {
    r in db.runs && i < |db.runs[r].steps|
  }

  // ---- createRun ----

  datatype CreateRunInput = CreateRunInput(
    tenantId: string, flow: FlowDefinition, idempotencyKey: Option<string>, runTimeoutMs: Option<nat>)

  datatype CreateOutcome = Created(runId: RunId) | Deduplicated(runId: RunId) | Rejected

  function FreshRun(input: CreateRunInput, now: int): Run {
    Run(input.tenantId, input.flow.id, input.flow.versionId, RunStatus.Queued, 0,
        match input.runTimeoutMs { case Some(ms) => Some(now + ms) case None => None },
        None, None, None, None, None, 0, 0, 0, [])
  }

  function KeyOf(input: CreateRunInput): Option<DeliveryKey> {
    match input.idempotencyKey
    case Some(k) => Some(DeliveryKey(input.tenantId, input.flow.id, k))
    case None => None
  }

  function FindRunByIdempotencyKey(db: Db, key: Option<DeliveryKey>): Option<RunId> {
    if key.Some? && key.value in db.idempotency && db.idempotency[key.value] in db.runs
    then Some(db.idempotency[key.value])
    else None
  }

  /**
   * `raced` is a first lookup that missed a concurrent winner's uncommitted row;
   * the primary key still catches it, and the loser's bare runs row stays behind.
   */
  function CreateRun(db: Db, input: CreateRunInput, newId: RunId, raced: bool): (Db, CreateOutcome) {
    var key := KeyOf(input);
    var existing := FindRunByIdempotencyKey(db, key);
    var bare := FreshRun(input, db.now);
    if newId in db.runs then
      (db, Rejected)
    else if existing.Some? && !raced then
      (db, Deduplicated(existing.value))
    else if key.Some? && key.value in db.idempotency then
      if existing.Some? then (PutRun(db, newId, bare), Deduplicated(existing.value)) else (db, Rejected)
    else if !Insertable(newId, input.flow.nodes) then
      (db, Rejected)
    else
      var run := bare.(steps := FreshRows(newId, input.flow.nodes), stepCount := |input.flow.nodes|);
      var keyed := if key.Some? then db.(idempotency := db.idempotency[key.value := newId]) else db;
      (Enqueue(PutRun(keyed, newId, run), AdvanceRun, newId, 0), Created(newId))
  }

  // ---- advanceRun ----

  function Advance(db: Db, r: RunId): (Db, AdvanceOutcome) {
    if r !in db.runs then (db, Gone)
    else
      var (run, outcome) := AdvanceRow(db.runs[r], db.now);
      var db' := PutRun(db, r, run);
      (if outcome.DispatchedStep? then Enqueue(db', RunStep(outcome.step), r, 0) else db', outcome)
  }

  // ---- claimStep ----

  datatype ConcurrencyLimits = ConcurrencyLimits(perTenant: Option<nat>, perFlow: Option<nat>)

  datatype ClaimResult = Claimed(row: StepRow) | Taken | Blocked

  predicate LiveLease(s: StepRow, now: int) {
    s.status.Running? && s.leaseExpiresAt.Some? && s.leaseExpiresAt.value > now
  }

  function LiveInTenant(db: Db, tenantId: string): set<(RunId, nat)> {
    set r, i: nat | r in db.runs && db.runs[r].tenantId == tenantId && i < |db.runs[r].steps|
      && LiveLease(db.runs[r].steps[i], db.now) :: (r, i)
  }

  function LiveInFlow(db: Db, flowId: string): set<(RunId, nat)> {
    set r, i: nat | r in db.runs && db.runs[r].flowId == flowId && i < |db.runs[r].steps|
      && LiveLease(db.runs[r].steps[i], db.now) :: (r, i)
  }

  predicate OverLimit(db: Db, run: Run, limits: ConcurrencyLimits) {
    || (limits.perTenant.Some? && |LiveInTenant(db, run.tenantId)| >= limits.perTenant.value)
    || (limits.perFlow.Some? && |LiveInFlow(db, run.flowId)| >= limits.perFlow.value)
  }

  function PutStep(db: Db, r: RunId, i: nat, s: StepRow): Db
    requires IsStep(db, r, i)
  {
    PutRun(db, r, db.runs[r].(steps := db.runs[r].steps[i := s]))
  }

  function ClaimStep(db: Db, r: RunId, i: nat, w: WorkerId, leaseMs: nat, limits: Option<ConcurrencyLimits>)
    : (Db, ClaimResult)
    requires r in db.runs
  {
    if limits.Some? && OverLimit(db, db.runs[r], limits.value) then
      (db, Blocked)
    else if i < |db.runs[r].steps| && Claimable(db.runs[r].steps[i], db.now) then
      var s := ClaimRow(db.runs[r].steps[i], w, db.now + leaseMs);
      (PutStep(db, r, i, s), Claimed(s))
    else
      (db, Taken)
  }

  // ---- recording ----

  function RecordSuccess(db: Db, r: RunId, i: nat, w: WorkerId, output: Option<Output>, abandoned: set<NodeId>)
    : (Db, bool)
  {
    if !IsStep(db, r, i) || !OwnedBy(db.runs[r].steps[i], w) then (db, false)
    else
      var run := db.runs[r];
      var done := run.(
        steps := MarkSkipped(run.steps[i := SucceedRow(run.steps[i], output)], abandoned),
        stepsSucceeded := run.stepsSucceeded + 1);
      (Enqueue(PutRun(db, r, done), AdvanceRun, r, 0), true)
  }

  /** What the executor writes for a failed attempt. */
  datatype FailureRecord = FailureRecord(
    status: StepStatus, consumed: nat, deferrals: nat, retryDelayMs: Option<nat>,
    errorClass: ErrorClass, countsFailed: bool, dlq: Option<DlqReason>)

  function WithStepLimits(policy: Backoff.BackoffPolicy, row: StepRow): Backoff.BackoffPolicy {
    policy.(maxAttempts := row.maxAttempts, maxDeferrals := row.maxDeferrals)
  }

  function RetryStateOf(row: StepRow): Retry.StepRetryState {
    Retry.StepRetryState(row.attemptsStarted, row.attemptsConsumed, row.deferrals)
  }

  function DecideFailure(row: StepRow, errorClass: ErrorClass, idempotent: bool, retryAfterMs: Option<int>,
                         draw: Backoff.Draw, now: int, policy: Backoff.BackoffPolicy): FailureRecord
  {
    var limits := WithStepLimits(policy, row);
    var failure := Retry.AttemptFailure(errorClass, idempotent, retryAfterMs);
    match Retry.OnAttemptFailed(RetryStateOf(row), failure, now, draw, limits)
    case Again(state, delayMs, _, _) =>
      FailureRecord(StepStatus.Failed, state.attemptsConsumed, state.deferrals, Some(delayMs), errorClass, false, None)
    case Terminal(state, action) =>
      if action == PauseForConfirmation then
        FailureRecord(StepStatus.WaitingConfirmation, state.attemptsConsumed, state.deferrals, None, errorClass, false,
          None)
      else
        FailureRecord(StepStatus.Failed, state.attemptsConsumed, state.deferrals, None, errorClass, true,
                      if errorClass == Poison then Some(PoisonInput) else None)
    case Exhausted(state) =>
      FailureRecord(StepStatus.Failed, state.attemptsConsumed, state.deferrals, None, errorClass, true,
                    if Retry.ReasonFor(state, limits) == Retry.AttemptsExhausted
                    then Some(AttemptsExhausted) else Some(DeferralsExhausted))
  }

  function RecordFailure(db: Db, r: RunId, i: nat, w: WorkerId, rec: FailureRecord): (Db, bool) {
    if !IsStep(db, r, i) || !OwnedBy(db.runs[r].steps[i], w) then (db, false)
    else
      var run := db.runs[r];
      var s := run.steps[i];
      var wake := match rec.retryDelayMs { case Some(d) => Some(db.now + d) case None => None };
      var failed := run.(
        steps := run.steps[i := FailRow(s, rec.status, rec.consumed, rec.deferrals, wake, rec.errorClass)],
        stepsFailed := run.stepsFailed + if rec.countsFailed then 1 else 0);
      var db' := PutRun(db, r, failed);
      var db'' := match rec.dlq {
        case Some(reason) => db'.(dlq := db'.dlq + [DlqEntry(r, s.nodeId, reason, rec.errorClass, s.key, false)])
        case None => db'
      };
      (Enqueue(db'', AdvanceRun, r, rec.retryDelayMs.GetOr(0)), true)
  }

  // ---- janitor ----

  predicate RunIsLive(s: RunStatus) {
    s.Queued? || s.Running?
  }

  predicate HasExpiredLease(run: Run, now: int) {
    exists s :: s in run.steps && s.status.Running? && s.leaseExpiresAt.Some? && s.leaseExpiresAt.value < now
  }

  predicate HoldsLease(run: Run, now: int) {
    exists s :: s in run.steps && s.status.Running? && s.leaseExpiresAt.Some? && s.leaseExpiresAt.value >= now
  }

  predicate Overdue(run: Run, now: int) {
    RunIsLive(run.status) && run.deadlineAt.Some? && run.deadlineAt.value < now
  }

  predicate HasMessage(outbox: seq<Message>, r: RunId) {
    exists m :: m in outbox && m.runId == r
  }

  predicate Stranded(db: Db, r: RunId)
    requires r in db.runs
  {
    RunIsLive(db.runs[r].status) && !HasMessage(db.outbox, r) && !HoldsLease(db.runs[r], db.now)
  }

  predicate SweepEligible(db: Db, r: RunId) {
    r in db.runs
    && (HasExpiredLease(db.runs[r], db.now) || Overdue(db.runs[r], db.now) || Stranded(db, r))
  }

  function AdvanceMessages(runs: seq<RunId>, now: int): (ms: seq<Message>)
    ensures |ms| == |runs| && forall i :: 0 <= i < |runs| ==> ms[i] == Message(AdvanceRun, runs[i], now)
  {
    seq(|runs|, i requires 0 <= i < |runs| => Message(AdvanceRun, runs[i], now))
  }

  /** The sweep's row limits make its choice: distinct runs, each of them demonstrably stuck. */
  predicate SweepChoice(db: Db, chosen: seq<RunId>) {
    && (forall r :: r in chosen ==> SweepEligible(db, r))
    && (forall i, j :: 0 <= i < j < |chosen| ==> chosen[i] != chosen[j])
  }

  function Sweep(db: Db, chosen: seq<RunId>): Db {
    db.(outbox := db.outbox + AdvanceMessages(chosen, db.now))
  }

  // ---- operators ----

  function RequestCancel(db: Db, r: RunId): (Db, bool) {
    if r !in db.runs || IsTerminal(db.runs[r].status) then (db, false)
    else (PutRun(db, r, MarkCancelRequested(db.runs[r], db.now)), true)
  }

  datatype ResumeError = NoRun | NotStopped | NoStep | NoEntry | AlreadyReplayed

  function TargetOf(steps: seq<StepRow>, nodeId: NodeId): (r: Option<nat>)
    ensures r.Some? ==> r.value < |steps| && steps[r.value].nodeId == nodeId
  {
    FirstWhere(steps, (s: StepRow) => s.nodeId == nodeId)
  }

  function Resume(db: Db, r: RunId, fromNode: NodeId): Result<Db, ResumeError> {
    if r !in db.runs then Err(NoRun)
    else if !Resumable(db.runs[r].status) then Err(NotStopped)
    else
      match TargetOf(db.runs[r].steps, fromNode)
      case None => Err(NoStep)
      case Some(at) => Ok(Enqueue(PutRun(db, r, ResumeRun(r, db.runs[r], at)), AdvanceRun, r, 0))
  }

  function ReplayDlqEntry(db: Db, entry: nat): Result<Db, ResumeError> {
    if entry >= |db.dlq| then Err(NoEntry)
    else if db.dlq[entry].replayed then Err(AlreadyReplayed)
    else
      match Resume(db, db.dlq[entry].runId, db.dlq[entry].nodeId)
      case Err(e) => Err(e)
      case Ok(db') => Ok(db'.(dlq := db'.dlq[entry := db'.dlq[entry].(replayed := true)]))
  }
}
