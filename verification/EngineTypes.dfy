// The rows the engine works on. A run's step rows are a sequence indexed by
// topo_order, so a step id is (run id, topo_order); rows are never deleted. A
// row holds the identity its idempotency key is computed from; Idempotency
// proves that different identities give different key material.
module EngineTypes {
  import opened Options
  import opened ErrorClasses
  import Idempotency
  import Branching
  import Digraph

  type RunId = string
  type NodeId = Digraph.Node
  type WorkerId = nat

  datatype RunStatus =
    | Queued
    | Running
    | WaitingConfirmation
    | Succeeded
    | Failed
    | Cancelled
    | TimedOut

  datatype StepStatus =
    | Pending
    | Dispatched
    | Running
    | Succeeded
    | Failed
    | Skipped
    | SkippedResumed
    | Cancelled
    | TimedOut
    | WaitingConfirmation

  /** A handler's result: opaque data, or the decision of a branch step. */
  datatype Output = Data(text: string) | Decision(taken: Branching.Arm)

  datatype StepRow = StepRow(
    nodeId: NodeId,
    kind: string,
    status: StepStatus,
    attemptsStarted: nat,
    attemptsConsumed: nat,
    deferrals: nat,
    maxAttempts: nat,
    maxDeferrals: nat,
    nextAttemptAt: Option<int>,
    key: Idempotency.StepIdentity,
    leaseExpiresAt: Option<int>,
    workerId: Option<WorkerId>,
    output: Option<Output>,
    errorClass: Option<ErrorClass>)

  datatype Run = Run(
    tenantId: string,
    flowId: string,
    versionId: string,
    status: RunStatus,
    attemptGroup: nat,
    deadlineAt: Option<int>,
    finishedAt: Option<int>,
    cancelRequestedAt: Option<int>,
    cancelledAtStep: Option<NodeId>,
    errorClass: Option<ErrorClass>,
    errorStep: Option<NodeId>,
    stepCount: nat,
    stepsSucceeded: nat,
    stepsFailed: nat,
    steps: seq<StepRow>)

  datatype FlowNode = FlowNode(id: NodeId, kind: string, idempotent: bool, maxAttempts: Option<nat>)

  /** Steps in topological order, and how they connect. */
  datatype FlowDefinition = FlowDefinition(
    id: string, versionId: string, nodes: seq<FlowNode>, edges: seq<Branching.FlowEdge>)

  datatype Topic = AdvanceRun | RunStep(step: nat)

  datatype Message = Message(topic: Topic, runId: RunId, availableAt: int)

  datatype DlqReason = AttemptsExhausted | DeferralsExhausted | PoisonInput

  datatype DlqEntry = DlqEntry(
    runId: RunId, nodeId: NodeId, reason: DlqReason, errorClass: ErrorClass, key: Idempotency.StepIdentity,
    replayed: bool)

  datatype DeliveryKey = DeliveryKey(tenantId: string, flowId: string, key: string)

  /** Everything Postgres holds, under its one clock. */
  datatype Db = Db(
    now: int,
    runs: map<RunId, Run>,
    idempotency: map<DeliveryKey, RunId>,
    outbox: seq<Message>,
    dlq: seq<DlqEntry>)

  const DEFAULT_MAX_ATTEMPTS: nat := 5
  const DEFAULT_MAX_DEFERRALS: nat := 20

  predicate IsTerminal(s: RunStatus) {
    s in {RunStatus.Succeeded, RunStatus.Failed, RunStatus.Cancelled, RunStatus.TimedOut}
  }

  /** Statuses after which a row no longer holds its run open. */
  predicate IsDone(s: StepStatus) {
    s in {StepStatus.Succeeded, StepStatus.Skipped, StepStatus.SkippedResumed, StepStatus.Cancelled}
  }

  /** A failure with no next attempt is final. */
  predicate FinallyFailed(s: StepRow) {
    s.status.Failed? && s.nextAttemptAt.None?
  }
}
