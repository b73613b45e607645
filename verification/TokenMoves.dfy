// What the three moves of a run's token do: an advance, a claim, a record.
module TokenMoves {
  import opened Options
  import opened ErrorClasses
  import opened EngineTypes
  import opened EngineRows
  import opened EngineDb
  import opened World
  import opened RowInvariants
  import opened Safety
  import opened TokenDiscipline
  import opened TokenSteps
  import opened TokenGuarantees
  import opened Budgets
  import Backoff

  /** Nothing queued, fetched or held belongs to run r. */
  ghost predicate NoneFor(world: World, r: RunId) {
    && (forall m :: m in world.db.outbox ==> m.runId != r)
    && (forall w, m {:trigger m in world.workers[w].batch} ::
          0 <= w < |world.workers| && m in world.workers[w].batch ==> m.runId != r)
    && (forall w :: 0 <= w < |world.workers| ==> !Holds(world.workers[w].phase, r))
  }

  /** Run r is rewritten, within its attempt group; nothing else in the table changes. */
  predicate RewroteRun(a: World, b: World, r: RunId) {
    && r in a.db.runs && r in b.db.runs && b.db.runs == a.db.runs[r := b.db.runs[r]] && b.db.now == a.db.now
    && b.db.runs[r].attemptGroup == a.db.runs[r].attemptGroup
  }

  predicate Appended(a: seq<Message>, b: seq<Message>, m: Message) {
    b == a + [m]
  }

  predicate HasHead(world: World, w: WorkerId) {
    w < |world.workers| && world.workers[w].phase.Idle? && world.workers[w].batch != []
  }

  /** Worker w without the message it is about to process. */
  function Unbatched(world: World, w: WorkerId): World
    requires HasHead(world, w)
  {
    PutWorker(world, w, Worker(world.workers[w].batch[1..], Idle))
  }

  /** Worker w without the step it holds. */
  function Released(world: World, w: WorkerId): World
    requires w < |world.workers|
  {
    PutWorker(world, w, world.workers[w].(phase := Idle))
  }

  lemma HeadFacts(world: World, w: WorkerId)
    requires Sound(world) && HasHead(world, w)
    ensures var m := world.workers[w].batch[0];
      && m in world.workers[w].batch && Delivered(world.db, m)
      && RunOk(m.runId, world.db.runs[m.runId]) && NoneFor(Unbatched(world, w), m.runId)
  {
    var taken := TakeFromBatch(world, w);
  }

  lemma HolderFacts(world: World, w: WorkerId)
    requires Sound(world) && w < |world.workers| && !world.workers[w].phase.Idle?
    ensures var p := world.workers[w].phase;
      && PhaseOk(world.db, w, p) && Fenced(world.db, w, p)
      && RunsOk(world.db) && NoneFor(Released(world, w), p.runId)
  {
    var taken := TakeFromPhase(world, w);
  }

  /** One step of run r is dispatched, for sure if the run is live; otherwise nothing is. */
  ghost predicate AdvanceSent(world: World, next: World, r: RunId) {
    || (exists i :: Appended(world.db.outbox, next.db.outbox, Message(RunStep(i), r, world.db.now)))
    || (next.db.outbox == world.db.outbox && !IsLive(next.db, r))
  }

  /** An advance dispatches one step of its run or stops it. */
  lemma AdvanceMove(cfg: Config, world: World, w: WorkerId)
    requires Sound(world) && HasHead(world, w) && world.workers[w].batch[0].topic.AdvanceRun?
    ensures var r := world.workers[w].batch[0].runId;
      var next := ApplyProcess(cfg, world, w);
      && next.workers == Unbatched(world, w).workers
      && RewroteRun(world, next, r) && next.db.runs[r].steps == world.db.runs[r].steps
      && AdvanceSent(world, next, r)
  {
    HeadFacts(world, w);
    hide Sound;
    AdvanceMoveFrom(cfg, world, w);
  }

  lemma AdvanceMoveFrom(cfg: Config, world: World, w: WorkerId)
    requires HasHead(world, w) && world.workers[w].batch[0].topic.AdvanceRun?
    requires var m := world.workers[w].batch[0];
      Delivered(world.db, m) && RunOk(m.runId, world.db.runs[m.runId])
    ensures var r := world.workers[w].batch[0].runId;
      var next := ApplyProcess(cfg, world, w);
      && next.workers == Unbatched(world, w).workers
      && RewroteRun(world, next, r) && next.db.runs[r].steps == world.db.runs[r].steps
      && AdvanceSent(world, next, r)
  {
    var m := world.workers[w].batch[0];
    var run := world.db.runs[m.runId];
    AdvanceMoves(m.runId, run, world.db.now);
    AdvanceRowOk(m.runId, run, world.db.now);
    hide RunOk;
    hide RunReady;
    var (run', outcome) := AdvanceRow(run, world.db.now);
    hide AdvanceRow;
    var next := ApplyProcess(cfg, world, w);
    if outcome.DispatchedStep? {
      assert Appended(world.db.outbox, next.db.outbox, Message(RunStep(outcome.step), m.runId, world.db.now));
    }
  }

  /** Nothing holds the claim of worker w's next message back. */
  predicate Unblocked(cfg: Config, world: World, r: RunId)
    requires r in world.db.runs
  {
    cfg.limits.None? || !OverLimit(world.db, world.db.runs[r], cfg.limits.value)
  }

  /** A claim opens one attempt: the run's budget is as it was, and not yet spent. */
  lemma ClaimMove(cfg: Config, world: World, w: WorkerId)
    requires Sound(world) && HasHead(world, w) && world.workers[w].batch[0].topic.RunStep?
    requires world.workers[w].batch[0].runId in world.db.runs && Unblocked(cfg, world, world.workers[w].batch[0].runId)
    ensures var r := world.workers[w].batch[0].runId;
      var next := ApplyProcess(cfg, world, w);
      && w < |next.workers| && next.workers[w].phase.Executing?
      && next.workers[w].phase.runId == r && !next.workers[w].phase.effectDone
      && next.workers == world.workers[w := Worker(world.workers[w].batch[1..], next.workers[w].phase)]
      && RewroteRun(world, next, r) && next.db.runs[r].status == world.db.runs[r].status
      && next.db.outbox == world.db.outbox
      && SumBudget(next.db.runs[r].steps) == SumBudget(world.db.runs[r].steps) >= 1
      && SumCeiling(next.db.runs[r].steps) == SumCeiling(world.db.runs[r].steps)
  {
    HeadFacts(world, w);
    var m := world.workers[w].batch[0];
    var r, i := m.runId, m.topic.step;
    var run := world.db.runs[r];
    var s := ClaimRow(run.steps[i], w, world.db.now + cfg.leaseMs);
    OpenBudget(r, run, i, s);
    hide Sound;
    hide RunOk;
    ClaimShape(cfg, world, w);
    hide ApplyProcess;
    hide ClaimRow;
    hide Claimable;
  }

  lemma ClaimShape(cfg: Config, world: World, w: WorkerId)
    requires HasHead(world, w) && world.workers[w].batch[0].topic.RunStep?
    requires var m := world.workers[w].batch[0];
      && IsStep(world.db, m.runId, m.topic.step) && Unblocked(cfg, world, m.runId)
      && Claimable(world.db.runs[m.runId].steps[m.topic.step], world.db.now)
    ensures var m := world.workers[w].batch[0];
      var r, i := m.runId, m.topic.step;
      var s := ClaimRow(world.db.runs[r].steps[i], w, world.db.now + cfg.leaseMs);
      var world' := ApplyProcess(cfg, world, w);
      && world'.db == PutStep(world.db, r, i, s)
      && world'.workers == world.workers[w := Worker(world.workers[w].batch[1..], Executing(r, i, s, false))]
  {
    hide Claimable;
    hide OverLimit;
  }

  predicate CanRecord(world: World, w: WorkerId, outcome: Outcome) {
    && w < |world.workers| && world.workers[w].phase.Executing?
    && (outcome.Success? ==> world.workers[w].phase.effectDone)
  }

  /** A record spends an attempt and sends the run its next advance. */
  lemma RecordMove(cfg: Config, world: World, w: WorkerId, outcome: Outcome, draw: Backoff.Draw)
    requires Sound(world) && CanRecord(world, w, outcome)
    ensures var r := world.workers[w].phase.runId;
      var next := ApplyRecord(cfg, world, w, outcome, draw);
      && next.workers == Released(world, w).workers
      && RewroteRun(world, next, r) && next.db.runs[r].status == world.db.runs[r].status
      && (exists at :: Appended(world.db.outbox, next.db.outbox, Message(AdvanceRun, r, at)))
      && SumBudget(next.db.runs[r].steps) + 1 <= SumBudget(world.db.runs[r].steps)
      && SumCeiling(next.db.runs[r].steps) == SumCeiling(world.db.runs[r].steps)
  {
    HolderFacts(world, w);
    var p := world.workers[w].phase;
    assert Lands(world.db, w, p);
    hide Sound;
    hide RunsOk;
    hide PhaseOk;
    hide Fenced;
    hide MsgOk;
    hide SumBudget;
    hide SumCeiling;
    hide NoneFor;
    hide Lands;
    RecordWrites(cfg, world.db, w, p, outcome, draw);
    RecordSpendsBudget(cfg, world.db, w, p, outcome, draw);
    RecordKeepsGroup(cfg, world.db, w, p, outcome, draw);
    hide RecordInto;
    var next := ApplyRecord(cfg, world, w, outcome, draw);
    var m := next.db.outbox[|world.db.outbox|];
    assert Appended(world.db.outbox, next.db.outbox, Message(AdvanceRun, p.runId, m.availableAt));
  }

  lemma RecordKeepsGroup(cfg: Config, db: Db, w: WorkerId, p: Phase, outcome: Outcome, draw: Backoff.Draw)
    requires p.Executing? && p.runId in db.runs
    ensures var db' := RecordInto(cfg, db, w, p, outcome, draw);
      p.runId in db'.runs && db'.runs[p.runId].attemptGroup == db.runs[p.runId].attemptGroup
  {
    hide DecideFailure;
    hide AbandonedBy;
    hide OwnedBy;
  }
}
