// What each guarded statement of the repository does to the rows of one run.
module EngineRows {
  import opened Options
  import opened ErrorClasses
  import opened EngineTypes
  import Branching
  import Idempotency

  // ---- which step is next ----

  /** The claim guard: fresh, owed a retry, or abandoned by a dead worker. */
  predicate Claimable(s: StepRow, now: int) {
    || s.status.Pending?
    || (s.status.Failed? && s.nextAttemptAt.Some? && s.nextAttemptAt.value <= now)
    || (s.status.Running? && s.leaseExpiresAt.Some? && s.leaseExpiresAt.value < now)
  }

  predicate Blocks(s: StepRow) {
    s.status.TimedOut? || s.status.Cancelled? || FinallyFailed(s)
  }

  /** The WHERE clause of nextRunnableStep for one row. */
  ghost predicate Runnable(steps: seq<StepRow>, now: int, i: nat) {
    && i < |steps|
    && Claimable(steps[i], now)
    && forall j :: 0 <= j < i ==> !Blocks(steps[j])
  }

  function NextFrom(steps: seq<StepRow>, now: int, k: nat): Option<nat>
    requires k <= |steps|
    decreases |steps| - k
  {
    if k == |steps| then None
    else if Claimable(steps[k], now) then Some(k)
    else if Blocks(steps[k]) then None
    else NextFrom(steps, now, k + 1)
  }

  function NextRunnableStep(steps: seq<StepRow>, now: int): Option<nat> {
    NextFrom(steps, now, 0)
  }

  lemma {:induction false} NextFromExact(steps: seq<StepRow>, now: int, k: nat)
    requires k <= |steps|
    requires forall j :: 0 <= j < k ==> !Claimable(steps[j], now) && !Blocks(steps[j])
    ensures var r := NextFrom(steps, now, k);
      && (r.Some? ==> Runnable(steps, now, r.value) && forall j :: 0 <= j < r.value ==> !Claimable(steps[j], now))
      && (r.None? ==> forall i: nat :: !Runnable(steps, now, i))
    decreases |steps| - k
  {
    if k < |steps| && !Claimable(steps[k], now) {
      if Blocks(steps[k]) {
        forall i: nat
          ensures !Runnable(steps, now, i)
        {
          assert i < k && i < |steps| ==> !Claimable(steps[i], now);
        }
      } else {
        NextFromExact(steps, now, k + 1);
      }
    }
  }

  /** The scan returns what the query asks for: the lowest row its WHERE clause admits. */
  lemma NextRunnableStepExact(steps: seq<StepRow>, now: int)
    ensures var r := NextRunnableStep(steps, now);
      && (r.Some? ==> Runnable(steps, now, r.value) && forall j: nat :: Runnable(steps, now, j) ==> r.value <= j)
      && (r.None? ==> forall i: nat :: !Runnable(steps, now, i))
  {
    NextFromExact(steps, now, 0);
  }

  // ---- run status ----

  function SetRunStatus(run: Run, status: RunStatus, now: int, errorClass: Option<ErrorClass>,
                        errorStep: Option<NodeId>, cancelledAt: Option<NodeId>): Run
  {
    run.(status := status,
         finishedAt := if IsTerminal(status) then Some(now) else run.finishedAt,
         errorClass := if errorClass.Some? then errorClass else run.errorClass,
         errorStep := if errorStep.Some? then errorStep else run.errorStep,
         cancelledAtStep := if cancelledAt.Some? then cancelledAt else run.cancelledAtStep)
  }

  function MarkCancelRequested(run: Run, now: int): Run {
    if IsTerminal(run.status) || run.cancelRequestedAt.Some? then run
    else run.(cancelRequestedAt := Some(now))
  }

  datatype AdvanceOutcome =
    | DispatchedStep(step: nat)
    | Waiting
    | Finished(status: RunStatus)
    | Gone

  function FirstWhere(steps: seq<StepRow>, p: StepRow -> bool): (r: Option<nat>)
    ensures r.Some? ==> r.value < |steps| && p(steps[r.value]) && forall j :: 0 <= j < r.value ==> !p(steps[j])
    ensures r.None? ==> forall s :: s in steps ==> !p(s)
  {
    if steps == [] then None
    else if p(steps[0]) then Some(0)
    else
      match FirstWhere(steps[1..], p)
      case Some(i) => Some(i + 1)
      case None => None
  }

  predicate TerminallyFailed(s: StepRow) {
    FinallyFailed(s) || s.status.TimedOut?
  }

  predicate Paused(s: StepRow) {
    s.status.WaitingConfirmation?
  }

  /** No step is runnable: finished, paused, or merely early. */
  function FinishOrWait(run: Run, now: int): (Run, AdvanceOutcome) {
    var failed := FirstWhere(run.steps, TerminallyFailed);
    var paused := FirstWhere(run.steps, Paused);
    if failed.Some? then
      var s := run.steps[failed.value];
      (SetRunStatus(run, RunStatus.Failed, now, Some(s.errorClass.GetOr(Internal)), Some(s.nodeId), None),
       Finished(RunStatus.Failed))
    else if paused.Some? then
      var s := run.steps[paused.value];
      (SetRunStatus(run, RunStatus.WaitingConfirmation, now, Some(s.errorClass.GetOr(UnknownOutcome)), Some(s.nodeId),
        None),
       Waiting)
    else if forall s :: s in run.steps ==> IsDone(s.status) then
      (SetRunStatus(run, RunStatus.Succeeded, now, None, None, None), Finished(RunStatus.Succeeded))
    else
      (run, Waiting)
  }

  /** Move a run forward by at most one step: terminal, cancelled, overdue, then the next runnable step. */
  function AdvanceRow(run: Run, now: int): (Run, AdvanceOutcome) {
    var next := NextRunnableStep(run.steps, now);
    NextRunnableStepExact(run.steps, now);
    if IsTerminal(run.status) then
      (run, Finished(run.status))
    else if run.cancelRequestedAt.Some? then
      (SetRunStatus(run, RunStatus.Cancelled, now, None, None,
                    if next.Some? then Some(run.steps[next.value].nodeId) else None),
       Finished(RunStatus.Cancelled))
    else if run.deadlineAt.Some? && run.deadlineAt.value <= now then
      (SetRunStatus(run, RunStatus.TimedOut, now, Some(Timeout), None, None), Finished(RunStatus.TimedOut))
    else if next.None? then
      FinishOrWait(run, now)
    else
      (if run.status.Queued? then SetRunStatus(run, RunStatus.Running, now, None, None, None) else run,
       DispatchedStep(next.value))
  }

  // ---- claiming and recording ----

  function ClaimRow(s: StepRow, w: WorkerId, leaseUntil: int): StepRow {
    s.(status := StepStatus.Running, workerId := Some(w), leaseExpiresAt := Some(leaseUntil),
       attemptsStarted := s.attemptsStarted + 1)
  }

  /** The fence on every write of a result. */
  predicate OwnedBy(s: StepRow, w: WorkerId) {
    s.status.Running? && s.workerId == Some(w)
  }

  function SucceedRow(s: StepRow, output: Option<Output>): StepRow {
    s.(status := StepStatus.Succeeded, output := output, leaseExpiresAt := None, nextAttemptAt := None)
  }

  function FailRow(s: StepRow, status: StepStatus, consumed: nat, deferrals: nat,
                   nextAttemptAt: Option<int>, errorClass: ErrorClass): StepRow
  {
    s.(status := status, attemptsConsumed := consumed, deferrals := deferrals,
       nextAttemptAt := nextAttemptAt, errorClass := Some(errorClass), leaseExpiresAt := None)
  }

  /** The nodes a result abandons: none unless it is a branch decision. */
  ghost function AbandonedBy(flow: FlowDefinition, nodeId: NodeId, output: Option<Output>): set<NodeId> {
    if output.Some? && output.value.Decision?
    then Branching.StepsToSkip(flow.edges, nodeId, output.value.taken)
    else {}
  }

  /** Only pending rows are skipped: what ran or is running is not erased. */
  function SkipRow(s: StepRow, abandoned: set<NodeId>): StepRow {
    if s.nodeId in abandoned && s.status.Pending? then s.(status := StepStatus.Skipped) else s
  }

  function MarkSkipped(steps: seq<StepRow>, abandoned: set<NodeId>): (r: seq<StepRow>)
    ensures |r| == |steps|
    ensures forall i :: 0 <= i < |steps| ==> r[i] == SkipRow(steps[i], abandoned)
  {
    seq(|steps|, i requires 0 <= i < |steps| => SkipRow(steps[i], abandoned))
  }

  // ---- resuming ----

  function PreserveRow(s: StepRow): StepRow {
    s.(status := StepStatus.SkippedResumed, leaseExpiresAt := None, nextAttemptAt := None, workerId := None)
  }

  function ResetRow(s: StepRow, key: Idempotency.StepIdentity): StepRow {
    s.(status := StepStatus.Pending, key := key, attemptsStarted := 0, attemptsConsumed := 0, deferrals := 0,
       nextAttemptAt := None, leaseExpiresAt := None, workerId := None, output := None, errorClass := None)
  }

  function StepKey(runId: RunId, nodeId: NodeId, attemptGroup: nat): Idempotency.StepIdentity {
    Idempotency.StepIdentity(runId, nodeId, 0, attemptGroup)
  }

  function ResumeRows(runId: RunId, steps: seq<StepRow>, at: nat, group: nat): (r: seq<StepRow>)
    ensures |r| == |steps|
    ensures forall i :: 0 <= i < |steps| ==>
      r[i] == if i < at then PreserveRow(steps[i]) else ResetRow(steps[i], StepKey(runId, steps[i].nodeId, group))
  {
    seq(|steps|, i requires 0 <= i < |steps| =>
      if i < at then PreserveRow(steps[i]) else ResetRow(steps[i], StepKey(runId, steps[i].nodeId, group)))
  }

  predicate Resumable(s: RunStatus) {
    s in {RunStatus.Failed, RunStatus.Cancelled, RunStatus.TimedOut, RunStatus.WaitingConfirmation}
  }

  function ResumeRun(runId: RunId, run: Run, at: nat): Run {
    var group := run.attemptGroup + 1;
    run.(attemptGroup := group, status := RunStatus.Queued, finishedAt := None, errorClass := None,
         errorStep := None, cancelRequestedAt := None, cancelledAtStep := None,
         stepsSucceeded := 0, stepsFailed := 0,
         steps := ResumeRows(runId, run.steps, at, group))
  }

  // ---- creating ----

  function FreshRow(runId: RunId, node: FlowNode): StepRow {
    StepRow(node.id, node.kind, StepStatus.Pending, 0, 0, 0, node.maxAttempts.GetOr(DEFAULT_MAX_ATTEMPTS),
            DEFAULT_MAX_DEFERRALS, None, StepKey(runId, node.id, 0), None, None, None, None)
  }

  function FreshRows(runId: RunId, nodes: seq<FlowNode>): (r: seq<StepRow>)
    ensures |r| == |nodes|
    ensures forall i :: 0 <= i < |nodes| ==> r[i] == FreshRow(runId, nodes[i])
  {
    seq(|nodes|, i requires 0 <= i < |nodes| => FreshRow(runId, nodes[i]))
  }

  /** Key construction accepts every id and the unique index admits every row. */
  predicate Insertable(runId: RunId, nodes: seq<FlowNode>) {
    && (forall n :: n in nodes ==> Idempotency.ValidIdentity(Idempotency.StepIdentity(runId, n.id, 0, 0)))
    && (forall i, j :: 0 <= i < j < |nodes| ==> nodes[i].id != nodes[j].id)
  }

  /** The outputs a later step may refer to. */
  predicate InUpstream(s: StepRow) {
    s.status.Succeeded? || s.status.SkippedResumed?
  }

  function Upstream(steps: seq<StepRow>): map<NodeId, Option<Output>> {
    if steps == [] then map[]
    else
      var s := steps[|steps| - 1];
      var rest := Upstream(steps[..|steps| - 1]);
      if InUpstream(s) then rest[s.nodeId := s.output] else rest
  }
}
