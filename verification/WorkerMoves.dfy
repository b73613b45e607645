// What each move of a worker does to queue, rows and phase, in any state.
module WorkerMoves {
  import opened Options
  import opened ErrorClasses
  import opened EngineTypes
  import opened EngineRows
  import opened EngineDb
  import opened World
  import opened RowInvariants
  import opened Safety
  import opened TokenDiscipline
  import opened TokenSteps
  import opened Budgets
  import opened TokenMoves
  import Backoff

  // ---- advancing ----

  /** Nothing is dispatched: the run, if there is one, has the status an advance left it. */
  predicate AdvanceRests(world: World, next: World, r: RunId) {
    && next.db.outbox == world.db.outbox
    && (r in world.db.runs ==> !AdvanceRow(world.db.runs[r], world.db.now).1.DispatchedStep?
                               && r in next.db.runs && next.db.runs[r] == AdvanceRow(world.db.runs[r], world.db.now).0)
  }

  /** A claimable step is dispatched. */
  predicate AdvanceDispatches(world: World, next: World, r: RunId, i: nat) {
    && IsStep(world.db, r, i) && Claimable(world.db.runs[r].steps[i], world.db.now)
    && Appended(world.db.outbox, next.db.outbox, Message(RunStep(i), r, world.db.now))
  }

  lemma AdvanceRowShape(run: Run, now: int)
    ensures var (run', outcome) := AdvanceRow(run, now);
      && run'.steps == run.steps && run'.attemptGroup == run.attemptGroup
      && (outcome.DispatchedStep? ==> outcome.step < |run.steps| && Claimable(run.steps[outcome.step], now))
  {
    NextRunnableStepExact(run.steps, now);
  }

  lemma AdvanceShape(cfg: Config, world: World, w: WorkerId)
    requires HasHead(world, w) && world.workers[w].batch[0].topic.AdvanceRun?
    ensures var r := world.workers[w].batch[0].runId;
      var next := ApplyProcess(cfg, world, w);
      && next.workers == Unbatched(world, w).workers
      && (r !in world.db.runs ==> next.db == world.db)
      && (r in world.db.runs ==> RewroteRun(world, next, r) && next.db.runs[r].steps == world.db.runs[r].steps)
      && (AdvanceRests(world, next, r) || exists i :: AdvanceDispatches(world, next, r, i))
  {
    var r := world.workers[w].batch[0].runId;
    var next := ApplyProcess(cfg, world, w);
    if r in world.db.runs {
      var run := world.db.runs[r];
      AdvanceRowShape(run, world.db.now);
      var outcome := AdvanceRow(run, world.db.now).1;
      hide AdvanceRow;
      hide Claimable;
      if outcome.DispatchedStep? {
        assert AdvanceDispatches(world, next, r, outcome.step);
      }
    }
  }

  // ---- claiming ----

  /** The step is not claimable any more: the message is dropped. */
  predicate ClaimDropped(world: World, next: World, w: WorkerId, r: RunId, i: nat)
    requires HasHead(world, w)
  {
    && next.db == world.db && next.workers == Unbatched(world, w).workers
    && !(IsStep(world.db, r, i) && Claimable(world.db.runs[r].steps[i], world.db.now))
  }

  predicate ClaimHeldBack(world: World, next: World, w: WorkerId, r: RunId, i: nat)
    requires HasHead(world, w)
  {
    && r in world.db.runs && next.db == world.db
    && next.workers == world.workers[w := Worker(world.workers[w].batch[1..], PuttingBack(r, i))]
  }

  predicate ClaimMade(cfg: Config, world: World, next: World, w: WorkerId, r: RunId, i: nat)
    requires HasHead(world, w)
  {
    && IsStep(world.db, r, i) && Claimable(world.db.runs[r].steps[i], world.db.now)
    && var s := ClaimRow(world.db.runs[r].steps[i], w, world.db.now + cfg.leaseMs);
    && next.db == PutStep(world.db, r, i, s)
    && next.workers == world.workers[w := Worker(world.workers[w].batch[1..], Executing(r, i, s, false))]
  }

  lemma ProcessShape(cfg: Config, world: World, w: WorkerId)
    requires HasHead(world, w) && world.workers[w].batch[0].topic.RunStep?
    ensures var m := world.workers[w].batch[0];
      var r, i := m.runId, m.topic.step;
      var next := ApplyProcess(cfg, world, w);
      || ClaimDropped(world, next, w, r, i)
      || (ClaimHeldBack(world, next, w, r, i) && !Unblocked(cfg, world, r))
      || ClaimMade(cfg, world, next, w, r, i)
  {
    hide Claimable;
    hide OverLimit;
  }

  // ---- recording ----

  /** The row is no longer the worker's: nothing is written. */
  predicate RecordStale(world: World, next: World, w: WorkerId)
    requires w < |world.workers|
  {
    !Lands(world.db, w, world.workers[w].phase) && next.db == world.db
  }

  /** The row is rewritten, others are at most skipped, and the run's next advance covers the row's retry. */
  predicate RecordWritten(world: World, next: World, w: WorkerId, m: Message)
    requires w < |world.workers|
  {
    var p := world.workers[w].phase;
    && Lands(world.db, w, p) && RewroteRun(world, next, p.runId)
    && next.db.runs[p.runId].status == world.db.runs[p.runId].status
    && Appended(world.db.outbox, next.db.outbox, m) && m.runId == p.runId && m.topic.AdvanceRun?
    && RowsRewritten(world.db.runs[p.runId].steps, next.db.runs[p.runId].steps, p.step, m.availableAt)
    && SumBudget(next.db.runs[p.runId].steps) + 1 <= SumBudget(world.db.runs[p.runId].steps)
  }

  predicate RowsRewritten(before: seq<StepRow>, after: seq<StepRow>, i: nat, due: int) {
    && i < |before| == |after|
    && !after[i].status.Running?
    && (after[i].status.Failed? && after[i].nextAttemptAt.Some? ==> after[i].nextAttemptAt.value <= due)
    && (forall j :: 0 <= j < |before| && j != i ==>
          after[j] == before[j] || (before[j].status.Pending? && after[j].status.Skipped?))
  }

  lemma SuccessWritten(db: Db, w: WorkerId, p: Phase, output: Option<Output>, abandoned: set<NodeId>)
    requires Lands(db, w, p)
    ensures var db' := RecordSuccess(db, p.runId, p.step, w, output, abandoned).0;
      && p.runId in db'.runs && db'.now == db.now && db'.runs == db.runs[p.runId := db'.runs[p.runId]]
      && db'.runs[p.runId].status == db.runs[p.runId].status
      && db'.runs[p.runId].attemptGroup == db.runs[p.runId].attemptGroup
      && db'.outbox == db.outbox + [Message(AdvanceRun, p.runId, db.now)]
      && RowsRewritten(db.runs[p.runId].steps, db'.runs[p.runId].steps, p.step, db.now)
  {
  }

  lemma FailureWritten(db: Db, w: WorkerId, p: Phase, rec: FailureRecord)
    requires Lands(db, w, p) && !rec.status.Running?
    ensures var db' := RecordFailure(db, p.runId, p.step, w, rec).0;
      var due := db.now + rec.retryDelayMs.GetOr(0);
      && p.runId in db'.runs && db'.now == db.now && db'.runs == db.runs[p.runId := db'.runs[p.runId]]
      && db'.runs[p.runId].status == db.runs[p.runId].status
      && db'.runs[p.runId].attemptGroup == db.runs[p.runId].attemptGroup
      && db'.outbox == db.outbox + [Message(AdvanceRun, p.runId, due)]
      && RowsRewritten(db.runs[p.runId].steps, db'.runs[p.runId].steps, p.step, due)
  {
  }

  lemma RecordShape(cfg: Config, world: World, w: WorkerId, outcome: Outcome, draw: Backoff.Draw)
    requires Inv(world) && CanRecord(world, w, outcome)
    ensures var next := ApplyRecord(cfg, world, w, outcome, draw);
      && next.workers == Released(world, w).workers
      && (RecordStale(world, next, w) || exists m :: RecordWritten(world, next, w, m))
  {
    var p := world.workers[w].phase;
    var next := ApplyRecord(cfg, world, w, outcome, draw);
    assert Fenced(world.db, w, p) && RunsOk(world.db);
    hide Inv;
    hide RunsOk;
    hide Fenced;
    hide RowsRewritten;
    if Lands(world.db, w, p) {
      RecordSpendsBudget(cfg, world.db, w, p, outcome, draw);
      var m := RecordSends(cfg, world.db, w, p, outcome, draw);
      hide RecordInto;
      hide SumBudget;
      hide SumCeiling;
      assert RecordWritten(world, next, w, m);
    } else {
      StaleWritesNothing(cfg, world.db, w, p, outcome, draw);
      hide RecordInto;
    }
  }

  lemma StaleWritesNothing(cfg: Config, db: Db, w: WorkerId, p: Phase, outcome: Outcome, draw: Backoff.Draw)
    requires p.Executing? && !Lands(db, w, p)
    ensures RecordInto(cfg, db, w, p, outcome, draw) == db
  {
    hide DecideFailure;
    hide AbandonedBy;
    hide OwnedBy;
  }

  lemma RecordSends(cfg: Config, db: Db, w: WorkerId, p: Phase, outcome: Outcome, draw: Backoff.Draw)
    returns (m: Message)
    requires Lands(db, w, p)
    ensures var db' := RecordInto(cfg, db, w, p, outcome, draw);
      && p.runId in db'.runs && db'.now == db.now && db'.runs == db.runs[p.runId := db'.runs[p.runId]]
      && db'.runs[p.runId].status == db.runs[p.runId].status
      && db'.runs[p.runId].attemptGroup == db.runs[p.runId].attemptGroup
      && Appended(db.outbox, db'.outbox, m) && m.runId == p.runId && m.topic.AdvanceRun?
      && RowsRewritten(db.runs[p.runId].steps, db'.runs[p.runId].steps, p.step, m.availableAt)
  {
    hide DecideFailure;
    hide RowsRewritten;
    var version := db.runs[p.runId].versionId;
    if version in cfg.flows && outcome.Success? {
      SuccessWritten(db, w, p, outcome.output, AbandonedBy(cfg.flows[version], p.row.nodeId, outcome.output));
      hide AbandonedBy;
      hide RecordSuccess;
      m := Message(AdvanceRun, p.runId, db.now);
    } else {
      hide AbandonedBy;
      var rec := if version !in cfg.flows
        then DecideFailure(p.row, Poison, false, None, draw, db.now, cfg.policy)
        else DecideFailure(p.row, outcome.errorClass, IdempotentIn(cfg.flows[version], p.row.nodeId),
                           outcome.retryAfterMs, draw, db.now, cfg.policy);
      DecidedNotRunning(p.row, draw, db.now, cfg.policy);
      FailureWritten(db, w, p, rec);
      hide RecordFailure;
      m := Message(AdvanceRun, p.runId, db.now + rec.retryDelayMs.GetOr(0));
    }
  }
}
