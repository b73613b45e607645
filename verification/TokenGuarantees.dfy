// What token discipline gives.
module TokenGuarantees {
  import opened Options
  import opened ErrorClasses
  import opened EngineTypes
  import opened EngineRows
  import opened EngineDb
  import opened World
  import opened RowInvariants
  import opened Safety
  import opened TokenDiscipline
  import opened TokenSteps
  import Backoff

  ghost predicate Sound(world: World) {
    Inv(world) && TokenInv(world)
  }

  lemma KeepSound(cfg: Config, world: World, a: Action)
    requires Sound(world) && Disciplined(a) && (Resumes(a) ==> StrayFree(world))
    ensures Sound(Apply(cfg, world, a))
  {
    hide Inv;
    hide TokenInv;
    StepKeepsInv(cfg, world, a);
    StepKeepsTokens(cfg, world, a);
  }

  lemma ExecKeepsSound(cfg: Config, world: World, actions: seq<Action>)
    requires Sound(world) && Orderly(world, actions)
    ensures Sound(Exec(cfg, world, actions)) && (StrayFree(world) ==> StrayFree(Exec(cfg, world, actions)))
  {
    hide Inv;
    hide TokenInv;
    hide StrayFree;
    ExecKeepsTokens(cfg, world, actions);
  }

  ghost predicate DisciplinedReach(cfg: Config, world: World) {
    exists now, n, actions ::
      (forall a :: a in actions ==> Disciplined(a)) && world == Exec(cfg, Start(now, n), actions)
  }

  /** What follows holds of every history without crash, sweep or loss, raced creations included. */
  lemma DisciplinedIsSound(cfg: Config, world: World)
    requires DisciplinedReach(cfg, world)
    ensures Sound(world) && StrayFree(world)
  {
    hide Inv;
    hide TokenInv;
    hide StrayFree;
    var now, n, actions :|
      (forall a :: a in actions ==> Disciplined(a)) && world == Exec(cfg, Start(now, n), actions);
    StartInv(now, n);
    StartTokens(now, n);
    ExecKeepsTokens(cfg, Start(now, n), actions);
  }

  // ---- what the discipline rules out ----

  /**
   * One token per live run that owns steps; a run without steps has at most one,
   * and only while queued none. A stopped run has none, unless a sweep woke it:
   * then it has that one.
   */
  lemma ExactlyOneToken(world: World, r: RunId)
    requires Sound(world)
    ensures Tokens(world, r) <= 1
    ensures StrayFree(world) && !IsLive(world.db, r) ==> Tokens(world, r) == 0
    ensures IsLive(world.db, r) && world.db.runs[r].steps != [] ==> Tokens(world, r) == 1
    ensures IsLive(world.db, r) && Tokens(world, r) != 1 ==> Tokens(world, r) == 0 && Bare(world.db.runs[r])
  {
    hide Inv;
    assert RunTokenOk(world, r);
  }

  /** A fetched advance finds every retry of its run due and nobody running, so it dispatches or stops the run. */
  lemma AdvanceNeverEarly(world: World, w: WorkerId)
    requires Sound(world)
    requires w < |world.workers| && world.workers[w].phase.Idle? && world.workers[w].batch != []
    requires world.workers[w].batch[0].topic.AdvanceRun?
    ensures var r := world.workers[w].batch[0].runId;
      && r in world.db.runs
      && (forall s :: s in world.db.runs[r].steps && OpenRow(s) ==> Claimable(s, world.db.now))
      && var (db', outcome) := Advance(world.db, r);
         outcome.DispatchedStep? || !RunIsLive(db'.runs[r].status)
  {
    var m := world.workers[w].batch[0];
    var taken := TakeFromBatch(world, w);
    AdvanceMoves(m.runId, world.db.runs[m.runId], world.db.now);
  }

  /**
   * A delivered run_step claims its step, or is held back by a limit: never
   * "taken". Its run is live, and every earlier step is settled or paused: the
   * order is strict exactly if nothing before the step is paused.
   */
  lemma ClaimsInOrder(cfg: Config, world: World, w: WorkerId)
    requires Sound(world)
    requires w < |world.workers| && world.workers[w].phase.Idle? && world.workers[w].batch != []
    requires world.workers[w].batch[0].topic.RunStep?
    ensures var m := world.workers[w].batch[0];
      && IsStep(world.db, m.runId, m.topic.step)
      && !IsTerminal(world.db.runs[m.runId].status)
      && (StrayFree(world) ==> RunIsLive(world.db.runs[m.runId].status))
      && !ClaimStep(world.db, m.runId, m.topic.step, w, cfg.leaseMs, cfg.limits).1.Taken?
      && forall j :: 0 <= j < m.topic.step ==> SettledOrPaused(world.db.runs[m.runId].steps[j])
    ensures var m := world.workers[w].batch[0];
      var before := world.db.runs[m.runId].steps[..m.topic.step];
      (forall s :: s in before ==> Settled(s)) <==> (forall s :: s in before ==> !s.status.WaitingConfirmation?)
  {
    assert world.workers[w].batch[0] in world.workers[w].batch;
    assert Delivered(world.db, world.workers[w].batch[0]);
    HeadToken(world, w);
    hide Inv;
    hide TokenInv;
    hide Tokens;
    hide OverLimit;
  }

  lemma HeadToken(world: World, w: WorkerId)
    requires w < |world.workers| && world.workers[w].batch != []
    ensures Tokens(world, world.workers[w].batch[0].runId) > 0
  {
    var r := world.workers[w].batch[0].runId;
    CountTail(world.workers[w].batch, r);
    SumUpdate(world.workers, w, world.workers[w], r);
  }

  lemma HolderToken(world: World, w: WorkerId)
    requires w < |world.workers| && !world.workers[w].phase.Idle?
    ensures Tokens(world, world.workers[w].phase.runId) > 0
  {
    SumUpdate(world.workers, w, world.workers[w], world.workers[w].phase.runId);
  }

  /** Nobody's result is ever stale. */
  lemma RecordsAlwaysLand(world: World, w: WorkerId)
    requires Sound(world)
    requires w < |world.workers| && world.workers[w].phase.Executing?
    ensures var p := world.workers[w].phase;
      && IsStep(world.db, p.runId, p.step)
      && world.db.runs[p.runId].steps[p.step] == p.row
      && OwnedBy(p.row, w)
      && !IsTerminal(world.db.runs[p.runId].status)
      && (StrayFree(world) ==> RunIsLive(world.db.runs[p.runId].status))
      && forall j :: 0 <= j < p.step ==> SettledOrPaused(world.db.runs[p.runId].steps[j])
  {
    var p := world.workers[w].phase;
    assert PhaseOk(world.db, w, p) && Fenced(world.db, w, p);
    HolderToken(world, w);
  }

  predicate Quiescent(world: World) {
    world.db.outbox == [] && forall w :: 0 <= w < |world.workers| ==> world.workers[w] == Worker([], Idle)
  }

  lemma {:induction false} NoWorkerTokens(ws: seq<Worker>, r: RunId)
    requires forall w :: 0 <= w < |ws| ==> ws[w] == Worker([], Idle)
    ensures SumWorkers(ws, r) == 0
  {
    if ws != [] {
      NoWorkerTokens(ws[..|ws| - 1], r);
    }
  }

  lemma QuietNoTokens(world: World, r: RunId)
    requires Quiescent(world)
    ensures Tokens(world, r) == 0
  {
    NoWorkerTokens(world.workers, r);
  }

  predicate Stopped(run: Run) {
    IsTerminal(run.status) || run.status.WaitingConfirmation?
  }

  /** When the queue is empty and every worker is idle, no run is left hanging but the bare losers. */
  lemma QuietMeansStopped(world: World, r: RunId)
    requires Sound(world) && Quiescent(world)
    requires r in world.db.runs
    ensures Stopped(world.db.runs[r]) || Bare(world.db.runs[r])
    ensures Scheduled(world) ==> Stopped(world.db.runs[r])
  {
    ExactlyOneToken(world, r);
    QuietNoTokens(world, r);
    hide *;
    TokenlessStopped(world, r);
  }

  lemma TokenlessStopped(world: World, r: RunId)
    requires r in world.db.runs && Tokens(world, r) == 0
    requires IsLive(world.db, r) && Tokens(world, r) != 1 ==> Bare(world.db.runs[r])
    ensures Stopped(world.db.runs[r]) || Bare(world.db.runs[r])
    ensures Scheduled(world) ==> Stopped(world.db.runs[r])
  {
    hide Tokens;
    hide Bare;
  }
}
