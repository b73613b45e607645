// Where the code does less than its comments say, each with the case that shows it.
module Shortfalls {
  import opened Options
  import opened Digraph
  import opened EngineTypes
  import opened EngineRows
  import opened EngineDb
  import opened World
  import opened ErrorClasses
  import opened SoloHistory
  import Recovery
  import Backoff
  import Branching
  import Canvas
  import Compiler
  import CompilerWalk
  import Texts

  /** Ready to be advanced: not stopped, not cancelled, in time. */
  predicate Going(run: Run, now: int) {
    !IsTerminal(run.status) && run.cancelRequestedAt.None? && (run.deadlineAt.Some? ==> run.deadlineAt.value > now)
  }

  /** A row that waits for a human does not hold back a later pending one. */
  lemma PausedRowPassedOver(run: Run, now: int, i: nat, j: nat)
    requires Going(run, now) && i < j < |run.steps|
    requires run.steps[i].status.WaitingConfirmation? && run.steps[j].status.Pending?
    requires forall k :: 0 <= k < |run.steps| && k != j ==> !Claimable(run.steps[k], now) && !Blocks(run.steps[k])
    ensures AdvanceRow(run, now).1 == DispatchedStep(j)
  {
    NextRunnableStepExact(run.steps, now);
    assert Runnable(run.steps, now, j);
    assert forall k: nat :: Runnable(run.steps, now, k) ==> k == j;
  }

  /** Step k is paused, what is before it is done, and what is behind it pending. */
  predicate PausedAt(world: World, r: RunId, flow: FlowDefinition, k: nat) {
    && Due(world, r)
    && var run := world.db.runs[r];
    && run.versionId == flow.versionId && |run.steps| == |flow.nodes| && k < |run.steps|
    && run.steps[k].status.WaitingConfirmation?
    && (forall j :: 0 <= j < k ==> run.steps[j].status.Succeeded?)
    && (forall j :: k < j < |run.steps| ==> run.steps[j].status.Pending?)
  }

  lemma PausesAt(cfg: Config, world: World, r: RunId, flow: FlowDefinition, k: nat, draw: Backoff.Draw)
    requires cfg.limits.None? && flow.versionId in cfg.flows && Solo(world, r, flow, k) && k < |flow.nodes|
    ensures PausedAt(Exec(cfg, world, OneRound(Failure(UnknownOutcome, None), draw)), r, flow, k)
  {
    SoloNext(world, r, flow, k);
    hide NextRunnableStep, Exec;
    var next, s := RoundOf(cfg, world, r, k, Failure(UnknownOutcome, None), draw);
  }

  lemma PausedNext(world: World, r: RunId, flow: FlowDefinition, k: nat)
    requires PausedAt(world, r, flow, k) && k + 1 < |flow.nodes|
    ensures NextRunnableStep(world.db.runs[r].steps, world.db.now) == Some(k + 1)
  {
    var run := world.db.runs[r];
    NextRunnableStepExact(run.steps, world.db.now);
    assert Runnable(run.steps, world.db.now, k + 1);
    assert forall j: nat :: Runnable(run.steps, world.db.now, j) ==> j > k;
  }

  /** The step behind a paused one was claimed and is done; the paused one still waits. */
  predicate Overtaken(world: World, r: RunId, k: nat) {
    && r in world.db.runs && k + 1 < |world.db.runs[r].steps|
    && world.db.runs[r].steps[k].status.WaitingConfirmation?
    && world.db.runs[r].steps[k + 1].status.Succeeded? && ClaimedStep(r, k + 1) in world.log
  }

  lemma Overtakes(cfg: Config, world: World, r: RunId, flow: FlowDefinition, k: nat, draw: Backoff.Draw)
    requires cfg.limits.None? && flow.versionId in cfg.flows && PausedAt(world, r, flow, k) && k + 1 < |flow.nodes|
    ensures Overtaken(Exec(cfg, world, OneRound(Success(None), draw)), r, k)
  {
    PausedNext(world, r, flow, k);
    hide NextRunnableStep, Exec;
    var next, s := RoundOf(cfg, world, r, k + 1, Success(None), draw);
    assert ClaimedStep(r, k + 1) in next.log;
  }

  /** In some crash-free history of any flow, any step but the last waits for a human and the next one is run. */
  lemma PausedStepDoesNotBlock(cfg: Config, input: CreateRunInput, r: RunId, now: int, k: nat, draw: Backoff.Draw)
    returns (actions: seq<Action>)
    requires cfg.limits.None? && input.flow.versionId in cfg.flows
    requires Insertable(r, input.flow.nodes) && input.runTimeoutMs.None? && k + 1 < |input.flow.nodes|
    ensures AllDisciplined(actions) && Overtaken(Exec(cfg, Start(now, 1), actions), r, k)
  {
    var before := FirstSteps(cfg, input, r, now, k, draw);
    var pause, go := OneRound(Failure(UnknownOutcome, None), draw), OneRound(Success(None), draw);
    assert AllDisciplined(before) && AllDisciplined(pause) && AllDisciplined(go);
    hide *;
    var world := Exec(cfg, Start(now, 1), before);
    PausesAt(cfg, world, r, input.flow, k, draw);
    Overtakes(cfg, Exec(cfg, world, pause), r, input.flow, k, draw);
    Recovery.ExecConcat(cfg, Start(now, 1), before, pause);
    Recovery.ExecConcat(cfg, Start(now, 1), before + pause, go);
    actions := before + pause + go;
    DisciplinedConcat(before, pause);
    DisciplinedConcat(before + pause, go);
  }

  lemma DisciplinedConcat(a: seq<Action>, b: seq<Action>)
    requires AllDisciplined(a) && AllDisciplined(b)
    ensures AllDisciplined(a + b)
  {
  }

  /** A sweep adds an advance for an overdue run that already has one. */
  lemma SweepDuplicates(db: Db, r: RunId, m: Message)
    requires r in db.runs && Overdue(db.runs[r], db.now) && m in db.outbox && m == Message(AdvanceRun, r, db.now)
    ensures SweepChoice(db, [r])
    ensures multiset(Sweep(db, [r]).outbox)[m] == multiset(db.outbox)[m] + 1
  {
    assert AdvanceMessages([r], db.now) == [m];
  }

  /** Claiming looks at the row alone: a pending step of a stopped run, behind a final failure, is claimed. */
  lemma ClaimIgnoresRun(db: Db, r: RunId, i: nat, w: WorkerId, leaseMs: nat)
    requires IsStep(db, r, i) && db.runs[r].steps[i].status.Pending?
    ensures ClaimStep(db, r, i, w, leaseMs, None).1.Claimed?
  {
  }

  /** Resuming makes every step at or after the target pending again, a skipped arm included. */
  lemma ResumeRevivesSkipped(db: Db, r: RunId, n: NodeId, k: nat)
    requires Resume(db, r, n).Ok? && k < |db.runs[r].steps| && db.runs[r].steps[k].status.Skipped?
    requires TargetOf(db.runs[r].steps, n).value <= k
    ensures Resume(db, r, n).value.runs[r].steps[k].status.Pending?
  {
  }

  /** A run without steps, as a racing loser leaves it, is finished as succeeded by the first advance. */
  lemma BareRunSucceeds(run: Run, now: int)
    requires run.steps == [] && Going(run, now)
    ensures AdvanceRow(run, now).0.status == RunStatus.Succeeded
  {
  }

  function RenewRow(s: StepRow, w: WorkerId, leaseUntil: int): StepRow {
    if OwnedBy(s, w) then s.(leaseExpiresAt := Some(leaseUntil)) else s
  }

  /** Renewing looks at the owner only: a lapsed lease counts against the ceilings again. */
  lemma RenewRevivesLapsed(db: Db, r: RunId, i: nat, w: WorkerId, leaseMs: nat)
    requires IsStep(db, r, i) && OwnedBy(db.runs[r].steps[i], w) && leaseMs > 0
    requires !LiveLease(db.runs[r].steps[i], db.now)
    ensures var after := PutStep(db, r, i, RenewRow(db.runs[r].steps[i], w, db.now + leaseMs));
      |LiveInTenant(after, db.runs[r].tenantId)| == |LiveInTenant(db, db.runs[r].tenantId)| + 1
  {
    var after := PutStep(db, r, i, RenewRow(db.runs[r].steps[i], w, db.now + leaseMs));
    assert LiveInTenant(after, db.runs[r].tenantId) == LiveInTenant(db, db.runs[r].tenantId) + {(r, i)};
    assert (r, i) !in LiveInTenant(db, db.runs[r].tenantId);
  }

  lemma {:induction false} UnlabelledNotCounted(edges: seq<Canvas.CanvasEdge>, e: Canvas.CanvasEdge, handle: string)
    requires !Compiler.IsArm(e, handle)
    ensures Compiler.ArmCount(edges + [e], handle) == Compiler.ArmCount(edges, handle)
  {
    if edges == [] {
      assert edges + [e] == [e] && [e][1..] == [];
    } else {
      assert (edges + [e])[1..] == edges[1..] + [e];
      UnlabelledNotCounted(edges[1..], e, handle);
    }
  }

  lemma ArmsUnchanged(edges: seq<Canvas.CanvasEdge>, n: Node, e: Canvas.CanvasEdge, handle: string)
    requires !Compiler.IsArm(e, handle)
    ensures Compiler.ArmCount(Compiler.OutEdges(edges + [e], n), handle)
         == Compiler.ArmCount(Compiler.OutEdges(edges, n), handle)
  {
    hide Compiler.ArmCount, Compiler.OutEdges, Compiler.IsArm;
    CompilerWalk.OutEdgesSnoc(edges, e, n);
    var out := Compiler.OutEdges(edges, n);
    if e.source == n {
      UnlabelledNotCounted(out, e, handle);
    } else {
      assert out + [] == out;
    }
  }

  /** An extra unlabelled edge out of a branch passes the branch check unnoticed. */
  lemma ExtraEdgeUnnoticed(edges: seq<Canvas.CanvasEdge>, n: Canvas.CanvasNode, e: Canvas.CanvasEdge)
    requires n.kind == "branch" && !Compiler.IsArm(e, "yes") && !Compiler.IsArm(e, "no")
    ensures Compiler.ShapeProblems(edges + [e], n) == Compiler.ShapeProblems(edges, n)
  {
    hide Compiler.ArmCount, Compiler.OutEdges, Compiler.IsArm, Canvas.DataText, Texts.Trim;
    ArmsUnchanged(edges, n.id, e, "yes");
    ArmsUnchanged(edges, n.id, e, "no");
  }
}
