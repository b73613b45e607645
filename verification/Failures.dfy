// What recording an attempt leaves in the database, told by the error's class.
module Failures {
  import opened Options
  import opened ErrorClasses
  import opened EngineTypes
  import opened EngineRows
  import opened EngineDb
  import opened World
  import opened Safety
  import opened Backoff
  import Branching
  import Retry

  /** The worker still owns the row it executes, and its flow is known. */
  predicate OwnsItsRow(world: World, w: WorkerId) {
    && w < |world.workers| && world.workers[w].phase.Executing?
    && var p := world.workers[w].phase;
    && IsStep(world.db, p.runId, p.step) && OwnedBy(world.db.runs[p.runId].steps[p.step], w)
  }

  /** The first node with this id may be run again without harm. */
  predicate SafeToRepeat(flow: FlowDefinition, id: NodeId) {
    exists k :: 0 <= k < |flow.nodes| && flow.nodes[k].id == id && flow.nodes[k].idempotent
      && forall j :: 0 <= j < k ==> flow.nodes[j].id != id
  }

  lemma IdempotentExactly(flow: FlowDefinition, id: NodeId)
    ensures IdempotentIn(flow, id) <==> SafeToRepeat(flow, id)
  {
    FirstNodeLowest(flow.nodes, id);
    hide FirstNode;
    var found := FirstNode(flow.nodes, id);
    if found.None? {
      assert forall k :: 0 <= k < |flow.nodes| ==> flow.nodes[k] in flow.nodes;
    }
  }

  lemma {:induction false} FirstNodeLowest(nodes: seq<FlowNode>, id: NodeId)
    ensures var r := FirstNode(nodes, id); r.Some? ==> forall j :: 0 <= j < r.value ==> nodes[j].id != id
  {
    if nodes != [] && nodes[0].id != id {
      FirstNodeLowest(nodes[1..], id);
    }
  }

  // ---- the row ----

  /** The class allows another attempt, and its own budget still holds one. */
  predicate Spared(s: StepRow, c: ErrorClass, idempotent: bool) {
    && Repeatable(c, idempotent)
    && (if Charged(c, idempotent) then s.attemptsConsumed + 1 < s.maxAttempts else s.deferrals + 1 < s.maxDeferrals)
  }

  /** The drawn delay, the provider's if that is longer, and never more than the cap. */
  ghost predicate WaitsFor(ms: int, position: nat, policy: BackoffPolicy, draw: Draw, asked: Option<int>) {
    && position >= 1
    && exists drawn: nat :: DrawnFrom(draw, BackoffWindowMs(position, policy), drawn)
         && ms == if asked.None? || asked.value <= drawn then drawn
                  else if asked.value <= policy.capMs then asked.value else policy.capMs
  }

  predicate Identical(s: StepRow, t: StepRow) {
    && t.nodeId == s.nodeId && t.kind == s.kind && t.key == s.key && t.output == s.output && t.workerId == s.workerId
    && t.attemptsStarted == s.attemptsStarted && t.maxAttempts == s.maxAttempts && t.maxDeferrals == s.maxDeferrals
  }

  ghost predicate RowFailed(s: StepRow, t: StepRow, c: ErrorClass, idempotent: bool, asked: Option<int>, draw: Draw,
                            now: int, policy: BackoffPolicy)
  {
    var charged := Charged(c, idempotent);
    && Identical(s, t) && t.errorClass == Some(c) && t.leaseExpiresAt.None?
    && t.attemptsConsumed == s.attemptsConsumed + (if charged then 1 else 0)
    && t.deferrals == s.deferrals + (if Repeatable(c, idempotent) && !charged then 1 else 0)
    && (if Spared(s, c, idempotent) then
          && t.status.Failed? && t.nextAttemptAt.Some?
          && WaitsFor(t.nextAttemptAt.value - now, if charged then t.attemptsConsumed
            else t.deferrals, policy, draw, asked)
        else
          && t.nextAttemptAt.None?
          && t.status == if InDoubt(c, idempotent) then StepStatus.WaitingConfirmation else StepStatus.Failed)
  }

  /** What goes to the dead letters: a broken step, or one whose budget is spent. */
  function Letters(r: RunId, s: StepRow, t: StepRow, c: ErrorClass, idempotent: bool): seq<DlqEntry> {
    if c == Poison then [DlqEntry(r, s.nodeId, PoisonInput, c, s.key, false)]
    else if !Repeatable(c, idempotent) || Spared(s, c, idempotent) then []
    else if t.attemptsConsumed >= s.maxAttempts then [DlqEntry(r, s.nodeId, AttemptsExhausted, c, s.key, false)]
    else [DlqEntry(r, s.nodeId, DeferralsExhausted, c, s.key, false)]
  }

  /** Row i of run r, its counters, the dead letter and the advance; nothing else. */
  ghost predicate FailureLanded(a: Db, b: Db, r: RunId, i: nat, c: ErrorClass, idempotent: bool, asked: Option<int>,
                                draw: Draw, policy: BackoffPolicy)
    requires IsStep(a, r, i) && IsStep(b, r, i)
  {
    var run, s, t := a.runs[r], a.runs[r].steps[i], b.runs[r].steps[i];
    && RowFailed(s, t, c, idempotent, asked, draw, a.now, policy)
    && b == a.(
         runs := a.runs[r := run.(steps := run.steps[i := t],
                                  stepsFailed := run.stepsFailed + if FinallyFailed(t) then 1 else 0)],
         dlq := a.dlq + Letters(r, s, t, c, idempotent),
         outbox := a.outbox + [Message(AdvanceRun, r, t.nextAttemptAt.GetOr(a.now))])
  }

  /** The record written for a failed attempt, read off the class. */
  ghost predicate Decided(s: StepRow, rec: FailureRecord, c: ErrorClass, idempotent: bool, asked: Option<int>,
                          draw: Draw, policy: BackoffPolicy)
  {
    var charged, spared := Charged(c, idempotent), Spared(s, c, idempotent);
    && rec.errorClass == c
    && rec.consumed == s.attemptsConsumed + (if charged then 1 else 0)
    && rec.deferrals == s.deferrals + (if Repeatable(c, idempotent) && !charged then 1 else 0)
    && (rec.retryDelayMs.Some? <==> spared)
    && (spared ==>
          && rec.status.Failed?
          && WaitsFor(rec.retryDelayMs.value, if charged then rec.consumed else rec.deferrals, policy, draw, asked))
    && (!spared ==> rec.status == if InDoubt(c, idempotent) then StepStatus.WaitingConfirmation else StepStatus.Failed)
    && (rec.countsFailed <==> rec.status.Failed? && !spared)
    && rec.dlq == (if c == Poison then Some(PoisonInput)
                   else if !Repeatable(c, idempotent) || spared then None
                   else if rec.consumed >= s.maxAttempts then Some(AttemptsExhausted) else Some(DeferralsExhausted))
  }

  lemma ClassApart(c: ErrorClass, idempotent: bool)
    ensures c == Poison ==> !Repeatable(c, idempotent) && !InDoubt(c, idempotent)
    ensures InDoubt(c, idempotent) ==> !Repeatable(c, idempotent)
  {
  }

  lemma DelayWaits(position: nat, s: StepRow, policy: BackoffPolicy, draw: Draw, asked: Option<int>)
    requires position >= 1
    ensures WaitsFor(ComputeRetryDelay(position, WithStepLimits(policy, s), draw, asked).delayMs, position, policy,
                     draw, asked)
  {
    var drawn := Jittered(draw, BackoffWindowMs(position, policy));
    JitterIsDrawn(draw, BackoffWindowMs(position, policy));
    SameDelay(position, WithStepLimits(policy, s), policy, draw, asked);
    DelayRespectsProvider(position, policy, draw, asked, drawn);
    hide ComputeRetryDelay, BackoffWindowMs, DrawnFrom, Jittered;
  }

  lemma AttemptOutcome(s: StepRow, c: ErrorClass, idempotent: bool, asked: Option<int>, draw: Draw, now: int,
                       policy: BackoffPolicy)
    ensures var charged := Charged(c, idempotent);
      var consumed := s.attemptsConsumed + if charged then 1 else 0;
      var deferrals := s.deferrals + if Repeatable(c, idempotent) && !charged then 1 else 0;
      var limits := WithStepLimits(policy, s);
      var o := Retry.OnAttemptFailed(RetryStateOf(s), Retry.AttemptFailure(c, idempotent, asked), now, draw, limits);
      && o.state == Retry.StepRetryState(s.attemptsStarted, consumed, deferrals)
      && (o.Again? <==> Spared(s, c, idempotent))
      && (o.Terminal? <==> !Repeatable(c, idempotent))
      && (o.Terminal? ==> (o.action == PauseForConfirmation <==> InDoubt(c, idempotent)))
      && (o.Again? ==>
            && (if charged then consumed else deferrals) >= 1
            && o.delayMs == ComputeRetryDelay(if charged then consumed else deferrals, limits, draw, asked).delayMs)
  {
    DecisionMeaning(c, idempotent);
    hide DecideRetry, SpecFor, ComputeRetryDelay, Repeatable, InDoubt;
  }

  lemma FailureDecided(s: StepRow, c: ErrorClass, idempotent: bool, asked: Option<int>, draw: Draw, now: int,
                       policy: BackoffPolicy)
    ensures Decided(s, DecideFailure(s, c, idempotent, asked, draw, now, policy), c, idempotent, asked, draw, policy)
  {
    AttemptOutcome(s, c, idempotent, asked, draw, now, policy);
    ClassApart(c, idempotent);
    hide Retry.OnAttemptFailed, Repeatable, Charged, InDoubt, Spared, ComputeRetryDelay, WaitsFor;
    if Spared(s, c, idempotent) {
      DelayWaits(if Charged(c, idempotent) then s.attemptsConsumed + 1 else s.deferrals + 1, s, policy, draw, asked);
    }
  }

  /** Writing the record on the row. */
  lemma RowFailedFrom(s: StepRow, rec: FailureRecord, c: ErrorClass, idempotent: bool, asked: Option<int>, draw: Draw,
                      now: int, policy: BackoffPolicy, wake: Option<int>)
    requires Decided(s, rec, c, idempotent, asked, draw, policy)
    requires wake == match rec.retryDelayMs { case Some(d) => Some(now + d) case None => None }
    ensures var t := FailRow(s, rec.status, rec.consumed, rec.deferrals, wake, rec.errorClass);
      && RowFailed(s, t, c, idempotent, asked, draw, now, policy)
      && (rec.countsFailed <==> FinallyFailed(t))
      && now + rec.retryDelayMs.GetOr(0) == t.nextAttemptAt.GetOr(now)
      && forall r :: Letters(r, s, t, c, idempotent)
           == match rec.dlq { case Some(reason) => [DlqEntry(r, s.nodeId, reason, rec.errorClass, s.key, false)]
                              case None => [] }
  {
    hide WaitsFor, Repeatable, Charged, InDoubt, Spared;
  }

  /** The ceilings play no part in a delay. */
  lemma SameDelay(position: nat, a: BackoffPolicy, b: BackoffPolicy, draw: Draw, asked: Option<int>)
    requires position >= 1 && a.baseMs == b.baseMs && a.capMs == b.capMs
    ensures ComputeRetryDelay(position, a, draw, asked) == ComputeRetryDelay(position, b, draw, asked)
  {
  }

  lemma RecordShape(db: Db, r: RunId, i: nat, w: WorkerId, rec: FailureRecord, wake: Option<int>)
    requires IsStep(db, r, i) && OwnedBy(db.runs[r].steps[i], w)
    requires wake == match rec.retryDelayMs { case Some(d) => Some(db.now + d) case None => None }
    ensures var run, s := db.runs[r], db.runs[r].steps[i];
      var t := FailRow(s, rec.status, rec.consumed, rec.deferrals, wake, rec.errorClass);
      RecordFailure(db, r, i, w, rec).0 == db.(
        runs := db.runs[r := run.(steps := run.steps[i := t],
                                  stepsFailed := run.stepsFailed + if rec.countsFailed then 1 else 0)],
        dlq := db.dlq + (match rec.dlq
                         case Some(reason) => [DlqEntry(r, s.nodeId, reason, rec.errorClass, s.key, false)]
                         case None => []),
        outbox := db.outbox + [Message(AdvanceRun, r, db.now + rec.retryDelayMs.GetOr(0))])
  {
    hide FailRow, OwnedBy;
    assert db.dlq + [] == db.dlq;
  }

  lemma LandedAs(a: Db, b: Db, r: RunId, i: nat, t: StepRow, c: ErrorClass, idempotent: bool, asked: Option<int>,
                 draw: Draw, policy: BackoffPolicy)
    requires IsStep(a, r, i) && RowFailed(a.runs[r].steps[i], t, c, idempotent, asked, draw, a.now, policy)
    requires var run, s := a.runs[r], a.runs[r].steps[i];
      b == a.(
        runs := a.runs[r := run.(steps := run.steps[i := t],
                                 stepsFailed := run.stepsFailed + if FinallyFailed(t) then 1 else 0)],
        dlq := a.dlq + Letters(r, s, t, c, idempotent),
        outbox := a.outbox + [Message(AdvanceRun, r, t.nextAttemptAt.GetOr(a.now))])
    ensures IsStep(b, r, i) && FailureLanded(a, b, r, i, c, idempotent, asked, draw, policy)
  {
    hide RowFailed, Letters, FinallyFailed;
    assert b.runs[r].steps[i] == t;
  }

  lemma LandedFrom(db: Db, r: RunId, i: nat, w: WorkerId, c: ErrorClass, idempotent: bool, asked: Option<int>,
                   draw: Draw, policy: BackoffPolicy)
    requires IsStep(db, r, i) && OwnedBy(db.runs[r].steps[i], w)
    ensures var rec := DecideFailure(db.runs[r].steps[i], c, idempotent, asked, draw, db.now, policy);
      var db' := RecordFailure(db, r, i, w, rec).0;
      IsStep(db', r, i) && FailureLanded(db, db', r, i, c, idempotent, asked, draw, policy)
  {
    var s := db.runs[r].steps[i];
    var rec := DecideFailure(s, c, idempotent, asked, draw, db.now, policy);
    var wake := match rec.retryDelayMs { case Some(d) => Some(db.now + d) case None => None };
    FailureDecided(s, c, idempotent, asked, draw, db.now, policy);
    RowFailedFrom(s, rec, c, idempotent, asked, draw, db.now, policy, wake);
    RecordShape(db, r, i, w, rec, wake);
    var t := FailRow(s, rec.status, rec.consumed, rec.deferrals, wake, rec.errorClass);
    hide *;
    LandedAs(db, RecordFailure(db, r, i, w, rec).0, r, i, t, c, idempotent, asked, draw, policy);
  }

  lemma RecordsFailure(cfg: Config, world: World, w: WorkerId, outcome: Outcome, draw: Draw)
    requires w < |world.workers| && world.workers[w].phase.Executing? && outcome.Failure?
    requires world.workers[w].phase.runId in world.db.runs
    requires world.db.runs[world.workers[w].phase.runId].versionId in cfg.flows
    ensures var p, db := world.workers[w].phase, world.db;
      var flow := cfg.flows[db.runs[p.runId].versionId];
      var rec := DecideFailure(p.row, outcome.errorClass, IdempotentIn(flow, p.row.nodeId), outcome.retryAfterMs, draw,
                               db.now, cfg.policy);
      Apply(cfg, world, Record(w, outcome, draw))
        == world.(db := RecordFailure(db, p.runId, p.step, w, rec).0,
                  workers := world.workers[w := Worker(world.workers[w].batch, Idle)])
  {
    hide DecideFailure, RecordFailure, RecordSuccess, AbandonedBy, IdempotentIn;
  }

  lemma RecordsPoison(cfg: Config, world: World, w: WorkerId, outcome: Outcome, draw: Draw)
    requires w < |world.workers| && world.workers[w].phase.Executing?
    requires outcome.Success? ==> world.workers[w].phase.effectDone
    requires world.workers[w].phase.runId in world.db.runs
    requires world.db.runs[world.workers[w].phase.runId].versionId !in cfg.flows
    ensures var p, db := world.workers[w].phase, world.db;
      var rec := DecideFailure(p.row, Poison, false, None, draw, db.now, cfg.policy);
      Apply(cfg, world, Record(w, outcome, draw)).db == RecordFailure(db, p.runId, p.step, w, rec).0
  {
    hide DecideFailure, RecordFailure, RecordSuccess, AbandonedBy, IdempotentIn;
  }

  /** The fence: the owner's row is the row it claimed. */
  lemma OwnedIsClaimed(world: World, w: WorkerId)
    requires Inv(world) && OwnsItsRow(world, w)
    ensures var p := world.workers[w].phase; world.db.runs[p.runId].steps[p.step] == p.row
  {
    assert Fenced(world.db, w, world.workers[w].phase);
  }

  /**
   * An attempt that failed and is recorded by the row's owner: the class alone
   * decides what is charged and whether it is tried again, within the step's own
   * ceilings; everything else about the database stays.
   */
  lemma FailureRecorded(cfg: Config, world: World, w: WorkerId, c: ErrorClass, asked: Option<int>, draw: Draw)
    requires Inv(world) && OwnsItsRow(world, w)
    requires world.db.runs[world.workers[w].phase.runId].versionId in cfg.flows
    ensures var p := world.workers[w].phase;
      var next := Apply(cfg, world, Record(w, Failure(c, asked), draw));
      var flow := cfg.flows[world.db.runs[p.runId].versionId];
      && IsStep(next.db, p.runId, p.step)
      && FailureLanded(world.db, next.db, p.runId, p.step, c, SafeToRepeat(flow, p.row.nodeId), asked, draw, cfg.policy)
      && next.workers == world.workers[w := Worker(world.workers[w].batch, Idle)]
      && next.effects == world.effects
  {
    var p := world.workers[w].phase;
    var flow := cfg.flows[world.db.runs[p.runId].versionId];
    OwnedIsClaimed(world, w);
    hide Inv, Apply, DecideFailure, RecordFailure, FailureLanded, SafeToRepeat, IdempotentIn;
    IdempotentExactly(flow, p.row.nodeId);
    RecordsFailure(cfg, world, w, Failure(c, asked), draw);
    LandedFrom(world.db, p.runId, p.step, w, c, SafeToRepeat(flow, p.row.nodeId), asked, draw, cfg.policy);
  }

  /** Without the flow's definition the step is broken for good, whatever its handler made of it. */
  lemma MissingFlowRecorded(cfg: Config, world: World, w: WorkerId, outcome: Outcome, draw: Draw)
    requires Inv(world) && OwnsItsRow(world, w) && (outcome.Success? ==> world.workers[w].phase.effectDone)
    requires world.db.runs[world.workers[w].phase.runId].versionId !in cfg.flows
    ensures var p := world.workers[w].phase;
      var next := Apply(cfg, world, Record(w, outcome, draw));
      && IsStep(next.db, p.runId, p.step)
      && FailureLanded(world.db, next.db, p.runId, p.step, Poison, false, None, draw, cfg.policy)
  {
    var p := world.workers[w].phase;
    OwnedIsClaimed(world, w);
    hide Inv, Apply, DecideFailure, RecordFailure, FailureLanded;
    RecordsPoison(cfg, world, w, outcome, draw);
    LandedFrom(world.db, p.runId, p.step, w, Poison, false, None, draw, cfg.policy);
  }

  // ---- a success ----

  /** The rows of an arm not taken, still untouched. */
  ghost predicate LeftBehind(flow: FlowDefinition, branch: NodeId, output: Option<Output>, s: StepRow) {
    && output.Some? && output.value.Decision? && s.status.Pending?
    && s.nodeId in Branching.StepsToSkip(flow.edges, branch, output.value.taken)
  }

  /** The output is kept on the row, the abandoned arm is skipped, and the run is advanced at once. */
  ghost predicate SuccessLanded(a: Db, b: Db, r: RunId, i: nat, flow: FlowDefinition, output: Option<Output>)
    requires IsStep(a, r, i)
  {
    var run := a.runs[r];
    && r in b.runs && |b.runs[r].steps| == |run.steps|
    && b == a.(
         runs := a.runs[r := run.(steps := b.runs[r].steps, stepsSucceeded := run.stepsSucceeded + 1)],
         outbox := a.outbox + [Message(AdvanceRun, r, a.now)])
    && forall j: nat :: j < |run.steps| ==>
         var s, t := run.steps[j], b.runs[r].steps[j];
         if j == i then
           t == s.(status := StepStatus.Succeeded, output := output, leaseExpiresAt := None, nextAttemptAt := None)
         else if LeftBehind(flow, run.steps[i].nodeId, output, s) then t == s.(status := StepStatus.Skipped)
         else t == s
  }

  lemma RecordsSuccess(cfg: Config, world: World, w: WorkerId, output: Option<Output>, draw: Draw)
    requires w < |world.workers| && world.workers[w].phase.Executing? && world.workers[w].phase.effectDone
    requires world.workers[w].phase.runId in world.db.runs
    requires world.db.runs[world.workers[w].phase.runId].versionId in cfg.flows
    ensures var p, db := world.workers[w].phase, world.db;
      var flow := cfg.flows[db.runs[p.runId].versionId];
      Apply(cfg, world, Record(w, Success(output), draw))
        == world.(db := RecordSuccess(db, p.runId, p.step, w, output, AbandonedBy(flow, p.row.nodeId, output)).0,
                  workers := world.workers[w := Worker(world.workers[w].batch, Idle)])
  {
    hide DecideFailure, RecordFailure, RecordSuccess, AbandonedBy, IdempotentIn;
  }

  lemma RowLeft(flow: FlowDefinition, branch: NodeId, output: Option<Output>, s: StepRow)
    ensures SkipRow(s, AbandonedBy(flow, branch, output))
      == if LeftBehind(flow, branch, output, s) then s.(status := StepStatus.Skipped) else s
  {
    hide Branching.StepsToSkip;
  }

  lemma SuccessLandedFrom(db: Db, r: RunId, i: nat, w: WorkerId, flow: FlowDefinition, output: Option<Output>)
    requires IsStep(db, r, i) && OwnedBy(db.runs[r].steps[i], w)
    ensures var gone := AbandonedBy(flow, db.runs[r].steps[i].nodeId, output);
      SuccessLanded(db, RecordSuccess(db, r, i, w, output, gone).0, r, i, flow, output)
  {
    var steps := db.runs[r].steps;
    var branch := steps[i].nodeId;
    forall j: nat | j < |steps|
      ensures SkipRow(steps[j], AbandonedBy(flow, branch, output))
        == if LeftBehind(flow, branch, output, steps[j]) then steps[j].(status := StepStatus.Skipped) else steps[j]
    {
      RowLeft(flow, branch, output, steps[j]);
    }
    hide LeftBehind, AbandonedBy, MarkSkipped;
  }

  lemma SuccessRecorded(cfg: Config, world: World, w: WorkerId, output: Option<Output>, draw: Draw)
    requires Inv(world) && OwnsItsRow(world, w) && world.workers[w].phase.effectDone
    requires world.db.runs[world.workers[w].phase.runId].versionId in cfg.flows
    ensures var p := world.workers[w].phase;
      var next := Apply(cfg, world, Record(w, Success(output), draw));
      && SuccessLanded(world.db, next.db, p.runId, p.step, cfg.flows[world.db.runs[p.runId].versionId], output)
      && next.workers == world.workers[w := Worker(world.workers[w].batch, Idle)]
      && next.effects == world.effects
  {
    var p := world.workers[w].phase;
    OwnedIsClaimed(world, w);
    hide Inv, Apply, RecordSuccess, SuccessLanded, AbandonedBy;
    RecordsSuccess(cfg, world, w, output, draw);
    SuccessLandedFrom(world.db, p.runId, p.step, w, cfg.flows[world.db.runs[p.runId].versionId], output);
  }
}
