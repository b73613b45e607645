// Histories of one run and one worker, step after step.
module SoloHistory {
  import opened Options
  import opened ErrorClasses
  import opened EngineTypes
  import opened EngineRows
  import opened EngineDb
  import opened World
  import opened TokenSteps
  import Recovery
  import Backoff

  /** One idle worker, one message, and it is a due advance of a run that may go on. */
  predicate Due(world: World, r: RunId) {
    && world.workers == [Worker([], Idle)]
    && |world.db.outbox| == 1 && world.db.outbox[0] == Message(AdvanceRun, r, world.db.outbox[0].availableAt)
    && world.db.outbox[0].availableAt <= world.db.now
    && r in world.db.runs
    && var run := world.db.runs[r];
    && (run.status.Queued? || run.status.Running?) && run.cancelRequestedAt.None? && run.deadlineAt.None?
  }

  /** k steps claimed and done, the rest pending. */
  predicate Solo(world: World, r: RunId, flow: FlowDefinition, k: nat) {
    && Due(world, r)
    && var run := world.db.runs[r];
    && run.versionId == flow.versionId
    && |run.steps| == |flow.nodes| && k <= |run.steps|
    && (forall j :: 0 <= j < |run.steps| ==> run.steps[j].nodeId == flow.nodes[j].id)
    && (forall j :: 0 <= j < k ==> run.steps[j].status.Succeeded? && ClaimedStep(r, j) in world.log)
    && (forall j :: k <= j < |run.steps| ==> run.steps[j].status.Pending?)
  }

  /** An answer without a decision, or an error that leaves open whether the effect happened. */
  predicate SilentOrUnknown(outcome: Outcome) {
    outcome == Success(None) || (outcome.Failure? && outcome.errorClass == UnknownOutcome)
  }

  /** Advance, claim, execute, record. */
  function OneRound(outcome: Outcome, draw: Backoff.Draw): seq<Action> {
    [Relay(0, 0), Process(0), Relay(0, 0), Process(0), Effect(0), Record(0, outcome, draw)]
  }

  lemma Dispatches(run: Run, now: int, k: nat)
    requires (run.status.Queued? || run.status.Running?) && run.cancelRequestedAt.None? && run.deadlineAt.None?
    requires NextRunnableStep(run.steps, now) == Some(k)
    ensures AdvanceRow(run, now).1 == DispatchedStep(k)
    ensures var next := AdvanceRow(run, now).0;
      && next.status.Running? && next.cancelRequestedAt.None? && next.deadlineAt.None?
      && next.versionId == run.versionId && next.steps == run.steps
  {
  }

  lemma Advanced(cfg: Config, world: World, r: RunId, k: nat) returns (fetched: World, advanced: World)
    requires Due(world, r) && NextRunnableStep(world.db.runs[r].steps, world.db.now) == Some(k)
    ensures fetched == Apply(cfg, world, Relay(0, 0)) && advanced == Apply(cfg, fetched, Process(0))
    ensures advanced.workers == [Worker([], Idle)]
    ensures advanced.db.outbox == [Message(RunStep(k), r, world.db.now)] && advanced.db.now == world.db.now
    ensures r in advanced.db.runs
    ensures var run := advanced.db.runs[r];
      && run.status.Running? && run.cancelRequestedAt.None? && run.deadlineAt.None?
      && run.versionId == world.db.runs[r].versionId && run.steps == world.db.runs[r].steps
    ensures advanced.log == world.log + [Consumed(r)]
  {
    var m := world.db.outbox[0];
    fetched := Apply(cfg, world, Relay(0, 0));
    assert RemoveAt(world.db.outbox, 0) == [] && [] + [m] == [m];
    assert fetched.workers == [Worker([m], Idle)] && fetched.db.outbox == [];
    Dispatches(world.db.runs[r], world.db.now, k);
    hide AdvanceRow, NextRunnableStep;
    advanced := Apply(cfg, fetched, Process(0));
    assert [m][1..] == [];
    assert [] + [Message(RunStep(k), r, world.db.now)] == [Message(RunStep(k), r, world.db.now)];
  }

  lemma Executed(cfg: Config, advanced: World, r: RunId, k: nat)
    returns (fetched: World, claimed: World, effected: World)
    requires cfg.limits.None?
    requires advanced.workers == [Worker([], Idle)] && advanced.db.outbox == [Message(RunStep(k), r, advanced.db.now)]
    requires IsStep(advanced.db, r, k) && advanced.db.runs[r].steps[k].status.Pending?
    ensures fetched == Apply(cfg, advanced, Relay(0, 0)) && claimed == Apply(cfg, fetched, Process(0))
    ensures effected == Apply(cfg, claimed, Effect(0))
    ensures var run := advanced.db.runs[r];
      var s := ClaimRow(run.steps[k], 0, advanced.db.now + cfg.leaseMs);
      && effected.workers == [Worker([], Executing(r, k, s, true))]
      && effected.db == advanced.db.(outbox := [], runs := advanced.db.runs[r := run.(steps := run.steps[k := s])])
    ensures effected.log == advanced.log + [Consumed(r)] + [ClaimedStep(r, k)]
  {
    var m := Message(RunStep(k), r, advanced.db.now);
    fetched := Apply(cfg, advanced, Relay(0, 0));
    assert RemoveAt(advanced.db.outbox, 0) == [] && [] + [m] == [m];
    assert fetched.workers == [Worker([m], Idle)];
    hide OverLimit;
    claimed := Apply(cfg, fetched, Process(0));
    assert [m][1..] == [];
    effected := Apply(cfg, claimed, Effect(0));
  }

  lemma NothingSkipped(steps: seq<StepRow>)
    ensures MarkSkipped(steps, {}) == steps
  {
  }

  /** The world right before the result of step k is recorded. */
  predicate Recordable(world: World, r: RunId, k: nat, s: StepRow) {
    && world.workers == [Worker([], Executing(r, k, s, true))] && world.db.outbox == []
    && IsStep(world.db, r, k) && world.db.runs[r].steps[k] == s && OwnedBy(s, 0)
  }

  lemma SuccessRecorded(cfg: Config, world: World, r: RunId, k: nat, s: StepRow, draw: Backoff.Draw)
    returns (next: World)
    requires Recordable(world, r, k, s) && world.db.runs[r].versionId in cfg.flows
    ensures next == Apply(cfg, world, Record(0, Success(None), draw))
    ensures next.workers == [Worker([], Idle)] && next.log == world.log && next.db.now == world.db.now
    ensures next.db.outbox == [Message(AdvanceRun, r, world.db.now)] && r in next.db.runs
    ensures var run := world.db.runs[r];
      next.db.runs[r] == run.(steps := run.steps[k := SucceedRow(s, None)], stepsSucceeded := run.stepsSucceeded + 1)
  {
    next := Apply(cfg, world, Record(0, Success(None), draw));
    NothingSkipped(world.db.runs[r].steps[k := SucceedRow(s, None)]);
    assert [] + [Message(AdvanceRun, r, world.db.now)] == [Message(AdvanceRun, r, world.db.now)];
  }

  lemma UnknownPauses(row: StepRow, idempotent: bool, retryAfterMs: Option<int>, draw: Backoff.Draw, now: int,
                      policy: Backoff.BackoffPolicy)
    ensures var rec := DecideFailure(row, UnknownOutcome, idempotent, retryAfterMs, draw, now, policy);
      rec.status.WaitingConfirmation? && rec.retryDelayMs.None? && rec.dlq.None? && !rec.countsFailed
  {
  }

  lemma UnknownRecorded(cfg: Config, world: World, r: RunId, k: nat, s: StepRow, outcome: Outcome, draw: Backoff.Draw)
    returns (next: World, paused: StepRow)
    requires Recordable(world, r, k, s) && world.db.runs[r].versionId in cfg.flows
    requires outcome.Failure? && outcome.errorClass == UnknownOutcome
    ensures next == Apply(cfg, world, Record(0, outcome, draw))
    ensures next.workers == [Worker([], Idle)] && next.log == world.log && next.db.now == world.db.now
    ensures next.db.outbox == [Message(AdvanceRun, r, world.db.now)] && r in next.db.runs
    ensures paused.status.WaitingConfirmation? && paused.nodeId == s.nodeId
    ensures next.db.runs[r] == world.db.runs[r].(steps := world.db.runs[r].steps[k := paused])
  {
    var run := world.db.runs[r];
    var idempotent := IdempotentIn(cfg.flows[run.versionId], s.nodeId);
    var rec := DecideFailure(s, UnknownOutcome, idempotent, outcome.retryAfterMs, draw, world.db.now, cfg.policy);
    UnknownPauses(s, idempotent, outcome.retryAfterMs, draw, world.db.now, cfg.policy);
    hide DecideFailure;
    paused := FailRow(s, rec.status, rec.consumed, rec.deferrals, None, rec.errorClass);
    next := Apply(cfg, world, Record(0, outcome, draw));
    assert [] + [Message(AdvanceRun, r, world.db.now)] == [Message(AdvanceRun, r, world.db.now)];
  }

  /** One round takes the next runnable step and leaves the run due again. */
  lemma RoundOf(cfg: Config, world: World, r: RunId, k: nat, outcome: Outcome, draw: Backoff.Draw)
    returns (next: World, s: StepRow)
    requires cfg.limits.None? && Due(world, r) && world.db.runs[r].versionId in cfg.flows
    requires NextRunnableStep(world.db.runs[r].steps, world.db.now) == Some(k)
    requires k < |world.db.runs[r].steps| && world.db.runs[r].steps[k].status.Pending? && SilentOrUnknown(outcome)
    ensures next == Exec(cfg, world, OneRound(outcome, draw)) && Due(next, r)
    ensures next.db.runs[r].versionId == world.db.runs[r].versionId
    ensures next.db.runs[r].steps == world.db.runs[r].steps[k := s] && s.nodeId == world.db.runs[r].steps[k].nodeId
    ensures if outcome.Success? then s.status.Succeeded? else s.status.WaitingConfirmation?
    ensures next.log == world.log + [Consumed(r)] + [Consumed(r)] + [ClaimedStep(r, k)]
  {
    hide Apply, NextRunnableStep;
    var w1, w2 := Advanced(cfg, world, r, k);
    var w3, w4, w5 := Executed(cfg, w2, r, k);
    var claimed := ClaimRow(w2.db.runs[r].steps[k], 0, w2.db.now + cfg.leaseMs);
    assert Recordable(w5, r, k, claimed);
    if outcome.Success? {
      next := SuccessRecorded(cfg, w5, r, k, claimed, draw);
      s := SucceedRow(claimed, None);
    } else {
      next, s := UnknownRecorded(cfg, w5, r, k, claimed, outcome, draw);
    }
    SixSteps(cfg, world, OneRound(outcome, draw), w1, w2, w3, w4, w5);
  }

  lemma SixSteps(cfg: Config, world: World, a: seq<Action>, w1: World, w2: World, w3: World, w4: World, w5: World)
    requires |a| == 6
    requires w1 == Apply(cfg, world, a[0]) && w2 == Apply(cfg, w1, a[1]) && w3 == Apply(cfg, w2, a[2])
    requires w4 == Apply(cfg, w3, a[3]) && w5 == Apply(cfg, w4, a[4])
    ensures Exec(cfg, world, a) == Apply(cfg, w5, a[5])
  {
    hide Apply;
    assert a[..1][..0] == [] && a[..2][..1] == a[..1] && a[..3][..2] == a[..2];
    assert a[..4][..3] == a[..3] && a[..5][..4] == a[..4] && a[..6] == a && a[..6][..5] == a[..5];
    assert Exec(cfg, world, a[..1]) == w1;
    assert Exec(cfg, world, a[..2]) == w2;
    assert Exec(cfg, world, a[..3]) == w3;
    assert Exec(cfg, world, a[..4]) == w4;
    assert Exec(cfg, world, a[..5]) == w5;
  }

  lemma SoloNext(world: World, r: RunId, flow: FlowDefinition, k: nat)
    requires Solo(world, r, flow, k) && k < |flow.nodes|
    ensures NextRunnableStep(world.db.runs[r].steps, world.db.now) == Some(k)
  {
    var run := world.db.runs[r];
    NextRunnableStepExact(run.steps, world.db.now);
    assert Runnable(run.steps, world.db.now, k);
    assert forall j: nat :: Runnable(run.steps, world.db.now, j) ==> j >= k;
  }

  lemma SoloStep(cfg: Config, world: World, r: RunId, flow: FlowDefinition, k: nat, draw: Backoff.Draw)
    requires cfg.limits.None? && flow.versionId in cfg.flows
    requires Solo(world, r, flow, k) && k < |flow.nodes|
    ensures Solo(Exec(cfg, world, OneRound(Success(None), draw)), r, flow, k + 1)
  {
    SoloNext(world, r, flow, k);
    hide NextRunnableStep, Exec;
    var next, s := RoundOf(cfg, world, r, k, Success(None), draw);
    assert forall e :: e in world.log ==> e in next.log;
    assert ClaimedStep(r, k) in next.log;
  }

  predicate AllDisciplined(actions: seq<Action>) {
    forall a :: a in actions ==> Disciplined(a)
  }

  predicate SilentActions(actions: seq<Action>) {
    forall a :: a in actions ==> Disciplined(a) && (a.Record? ==> a.outcome == Success(None))
  }

  lemma {:induction false} SoloRun(cfg: Config, world: World, r: RunId, flow: FlowDefinition, k: nat, n: nat,
                                   draw: Backoff.Draw)
    returns (actions: seq<Action>)
    requires cfg.limits.None? && flow.versionId in cfg.flows && Solo(world, r, flow, k) && k <= n <= |flow.nodes|
    ensures SilentActions(actions) && Solo(Exec(cfg, world, actions), r, flow, n)
    decreases n - k
  {
    if k == n {
      actions := [];
    } else {
      SoloStep(cfg, world, r, flow, k, draw);
      var first := OneRound(Success(None), draw);
      assert SilentActions(first);
      hide Solo;
      hide Apply;
      var rest := SoloRun(cfg, Exec(cfg, world, first), r, flow, k + 1, n, draw);
      Recovery.ExecConcat(cfg, world, first, rest);
      actions := first + rest;
    }
  }

  lemma CreatedSolo(cfg: Config, input: CreateRunInput, r: RunId, now: int)
    requires Insertable(r, input.flow.nodes) && input.runTimeoutMs.None?
    ensures Solo(Apply(cfg, Start(now, 1), Create(input, r, false)), r, input.flow, 0)
  {
    var world := Apply(cfg, Start(now, 1), Create(input, r, false));
    assert world.db.outbox == [] + [Message(AdvanceRun, r, now)] == [Message(AdvanceRun, r, now)];
  }

  /** From the start, a history that leaves the first n steps done. */
  lemma FirstSteps(cfg: Config, input: CreateRunInput, r: RunId, now: int, n: nat, draw: Backoff.Draw)
    returns (actions: seq<Action>)
    requires cfg.limits.None? && input.flow.versionId in cfg.flows
    requires Insertable(r, input.flow.nodes) && input.runTimeoutMs.None? && n <= |input.flow.nodes|
    ensures SilentActions(actions) && Solo(Exec(cfg, Start(now, 1), actions), r, input.flow, n)
  {
    var create := Create(input, r, false);
    CreatedSolo(cfg, input, r, now);
    var world := Apply(cfg, Start(now, 1), create);
    var rest := SoloRun(cfg, world, r, input.flow, 0, n, draw);
    assert [create][..0] == [];
    assert Exec(cfg, Start(now, 1), [create]) == world;
    Recovery.ExecConcat(cfg, Start(now, 1), [create], rest);
    actions := [create] + rest;
    hide Apply, Solo;
  }
}
