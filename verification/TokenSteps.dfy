// Every disciplined action keeps the token discipline: the run's one token is
// taken from a message or a worker, the run is worked on, and the token is put
// back as the next message, the next holder, or not at all if the run stopped.
module TokenSteps {
  import opened Options
  import opened ErrorClasses
  import opened EngineTypes
  import opened EngineRows
  import opened EngineDb
  import opened World
  import opened RowInvariants
  import opened Safety
  import opened TokenDiscipline
  import Backoff

  /** No crash, no sweep, nothing lost or duplicated. */
  predicate Disciplined(a: Action) {
    !a.Crash? && !a.SweepRuns? && !a.LoseMessage? && !a.DuplicateMessage?
  }

  predicate Resumes(a: Action) {
    a.ResumeFrom? || a.Replay?
  }

  lemma CreateKeepsTokens(world: World, input: CreateRunInput, newId: RunId, raced: bool)
    requires TokenInv(world)
    ensures TokenInv(ApplyCreate(world, input, newId, raced))
    ensures !raced ==> KeepsScheduled(world, ApplyCreate(world, input, newId, raced))
    ensures KeepsStrayFree(world, ApplyCreate(world, input, newId, raced))
  {
    var (db', outcome) := CreateRun(world.db, input, newId, raced);
    var world' := ApplyCreate(world, input, newId, raced);
    assert RunTokenOk(world, newId);
    if outcome.Created? {
      ButFromZero(world, newId);
      var run := db'.runs[newId];
      var m := Message(AdvanceRun, newId, world.db.now);
      assert RunReady(run, db'.now, db'.now);
      PutMessage(world, newId, run, [m], world');
    } else if db' != world.db {
      BareKeepsTokens(world, newId, FreshRun(input, world.db.now), world');
    }
  }

  /** A bare row is added and nothing else. */
  lemma BareKeepsTokens(world: World, newId: RunId, bare: Run, world': World)
    requires TokenInv(world) && newId !in world.db.runs && Bare(bare)
    requires world' == world.(db := PutRun(world.db, newId, bare))
    ensures TokenInv(world')
    ensures KeepsStrayFree(world, world')
  {
    assert RunTokenOk(world, newId);
    ButFromZero(world, newId);
    OthersStillOk(world.db, world'.db, newId);
    forall q
      ensures RunTokenOk(world', q)
    {
      assert RunTokenOk(world, q);
      assert Tokens(world', q) == Tokens(world, q);
    }
  }

  lemma RelayKeepsTokens(world: World, w: WorkerId, k: nat)
    requires TokenInv(world)
    ensures TokenInv(ApplyRelay(world, w, k))
    ensures KeepsScheduled(world, ApplyRelay(world, w, k))
    ensures KeepsStrayFree(world, ApplyRelay(world, w, k))
  {
    var world' := ApplyRelay(world, w, k);
    if w < |world.workers| && k < |world.db.outbox| && world.db.outbox[k].availableAt <= world.db.now {
      var m := world.db.outbox[k];
      assert m in world.db.outbox;
      var worker' := world.workers[w].(batch := world.workers[w].batch + [m]);
      forall q
        ensures RunTokenOk(world', q) && Tokens(world', q) == Tokens(world, q)
      {
        CountRemove(world.db.outbox, k, q);
        CountSnoc(world.workers[w].batch, m, q);
        SumUpdate(world.workers, w, worker', q);
        assert RunTokenOk(world, q);
      }
      SameRunsStillOk(world.db, world'.db);
      forall x, n | 0 <= x < |world'.workers| && n in world'.workers[x].batch
        ensures Delivered(world'.db, n)
      {
        assert n in world.workers[x].batch || n == m;
      }
    }
  }

  lemma SameRunsStillOk(a: Db, b: Db)
    requires b.runs == a.runs && b.now == a.now
    ensures forall m: Message :: MsgOk(a, m) ==> MsgOk(b, m)
    ensures forall w: WorkerId, p: Phase :: PhaseOk(a, w, p) ==> PhaseOk(b, w, p)
  {
  }

  lemma AdvanceKeepsTokens(cfg: Config, world: World, w: WorkerId)
    requires RunsOk(world.db) && TokenInv(world)
    requires w < |world.workers| && world.workers[w].phase.Idle? && world.workers[w].batch != []
    requires world.workers[w].batch[0].topic.AdvanceRun?
    ensures TokenInv(ApplyProcess(cfg, world, w))
    ensures KeepsScheduled(world, ApplyProcess(cfg, world, w))
    ensures KeepsStrayFree(world, ApplyProcess(cfg, world, w))
  {
    var m := world.workers[w].batch[0];
    var taken := TakeFromBatch(world, w);
    var run := world.db.runs[m.runId];
    AdvanceMoves(m.runId, run, world.db.now);
    var (run', outcome) := AdvanceRow(run, world.db.now);
    var ms := if outcome.DispatchedStep? then [Message(RunStep(outcome.step), m.runId, world.db.now)] else [];
    hide AdvanceRow;
    hide Tokens;
    var next := ApplyProcess(cfg, world, w);
    PutMessage(taken, m.runId, run', ms, next);
    hide *;
    MovedOn(world, taken, next, m.runId);
  }

  lemma ClaimKeepsTokens(cfg: Config, world: World, w: WorkerId)
    requires TokenInv(world)
    requires w < |world.workers| && world.workers[w].phase.Idle? && world.workers[w].batch != []
    requires world.workers[w].batch[0].topic.RunStep?
    ensures TokenInv(ApplyProcess(cfg, world, w))
    ensures KeepsScheduled(world, ApplyProcess(cfg, world, w))
    ensures KeepsStrayFree(world, ApplyProcess(cfg, world, w))
    ensures !ApplyProcess(cfg, world, w).workers[w].phase.Idle?
  {
    var m := world.workers[w].batch[0];
    var taken := TakeFromBatch(world, w);
    var r, i := m.runId, m.topic.step;
    var run := world.db.runs[r];
    var world' := ApplyProcess(cfg, world, w);
    hide OverLimit;
    hide Tokens;
    if ClaimStep(world.db, r, i, w, cfg.leaseMs, cfg.limits).1.Blocked? {
      assert world.db.runs[r := run] == world.db.runs;
      PutPhase(taken, r, run, w, PuttingBack(r, i), world');
    } else {
      var s := ClaimRow(run.steps[i], w, world.db.now + cfg.leaseMs);
      ClaimedPhase(world.db, r, i, w, cfg.leaseMs);
      PutPhase(taken, r, run.(steps := run.steps[i := s]), w, Executing(r, i, s, false), world');
    }
    hide *;
    MovedOn(world, taken, world', r);
  }

  lemma PutBackKeepsTokens(cfg: Config, world: World, w: WorkerId)
    requires TokenInv(world)
    ensures TokenInv(ApplyPutBack(cfg, world, w))
    ensures KeepsScheduled(world, ApplyPutBack(cfg, world, w))
    ensures KeepsStrayFree(world, ApplyPutBack(cfg, world, w))
  {
    if w < |world.workers| && world.workers[w].phase.PuttingBack? {
      var p := world.workers[w].phase;
      var taken := TakeFromPhase(world, w);
      var run := world.db.runs[p.runId];
      var m := Message(RunStep(p.step), p.runId, world.db.now + cfg.blockedRetryMs);
      assert world.db.runs[p.runId := run] == world.db.runs;
      PutMessage(taken, p.runId, run, [m], ApplyPutBack(cfg, world, w));
      MovedOn(world, taken, ApplyPutBack(cfg, world, w), p.runId);
    }
  }

  lemma EffectKeepsTokens(world: World, w: WorkerId)
    requires TokenInv(world)
    ensures TokenInv(ApplyEffect(world, w))
    ensures KeepsScheduled(world, ApplyEffect(world, w))
    ensures KeepsStrayFree(world, ApplyEffect(world, w))
  {
    if w < |world.workers| && world.workers[w].phase.Executing? {
      var p := world.workers[w].phase;
      var taken := TakeFromPhase(world, w);
      var run := world.db.runs[p.runId];
      assert world.db.runs[p.runId := run] == world.db.runs;
      PutPhase(taken, p.runId, run, w, p.(effectDone := true), ApplyEffect(world, w));
      MovedOn(world, taken, ApplyEffect(world, w), p.runId);
    }
  }

  /** Recording an owned row: the run stays live and gets its one advance message. */
  lemma RecordWrites(cfg: Config, db: Db, w: WorkerId, p: Phase, outcome: Outcome, draw: Backoff.Draw)
    requires p.Executing? && PhaseOk(db, w, p)
    ensures var db' := RecordInto(cfg, db, w, p, outcome, draw);
      && p.runId in db'.runs && db'.now == db.now
      && db'.runs == db.runs[p.runId := db'.runs[p.runId]]
      && db'.runs[p.runId].status == db.runs[p.runId].status
      && |db'.outbox| == |db.outbox| + 1 && db'.outbox == db.outbox + [db'.outbox[|db.outbox|]]
      && db'.outbox[|db.outbox|].runId == p.runId && db'.outbox[|db.outbox|].topic == AdvanceRun
      && MsgOk(db', db'.outbox[|db.outbox|])
  {
    var r := p.runId;
    var version := db.runs[r].versionId;
    hide DecideFailure;
    if version in cfg.flows && outcome.Success? {
      var abandoned := AbandonedBy(cfg.flows[version], p.row.nodeId, outcome.output);
      hide AbandonedBy;
      var db' := RecordInto(cfg, db, w, p, outcome, draw);
      RecordedMessage(db, w, p, SucceedRow(db.runs[r].steps[p.step], outcome.output), abandoned, db'.runs[r], 0);
    } else {
      hide AbandonedBy;
      var rec := if version !in cfg.flows
        then DecideFailure(p.row, Poison, false, None, draw, db.now, cfg.policy)
        else DecideFailure(p.row, outcome.errorClass, IdempotentIn(cfg.flows[version], p.row.nodeId),
                           outcome.retryAfterMs, draw, db.now, cfg.policy);
      FailureWrites(db, w, p, rec);
      DecidedNotRunning(p.row, draw, db.now, cfg.policy);
    }
  }

  lemma DecidedNotRunning(row: StepRow, draw: Backoff.Draw, now: int, policy: Backoff.BackoffPolicy)
    ensures forall c, idem, asked :: !DecideFailure(row, c, idem, asked, draw, now, policy).status.Running?
  {
  }

  lemma FailureWrites(db: Db, w: WorkerId, p: Phase, rec: FailureRecord)
    requires p.Executing? && PhaseOk(db, w, p)
    ensures var db' := RecordFailure(db, p.runId, p.step, w, rec).0;
      && p.runId in db'.runs && db'.now == db.now
      && db'.runs == db.runs[p.runId := db'.runs[p.runId]]
      && db'.runs[p.runId].status == db.runs[p.runId].status
      && db'.outbox == db.outbox + [Message(AdvanceRun, p.runId, db.now + rec.retryDelayMs.GetOr(0))]
      && (!rec.status.Running? ==> MsgOk(db', db'.outbox[|db.outbox|]))
  {
    var run := db.runs[p.runId];
    var db' := RecordFailure(db, p.runId, p.step, w, rec).0;
    var wake := match rec.retryDelayMs { case Some(d) => Some(db.now + d) case None => None };
    var s := FailRow(run.steps[p.step], rec.status, rec.consumed, rec.deferrals, wake, rec.errorClass);
    assert db'.runs[p.runId].steps == run.steps[p.step := s];
    if !rec.status.Running? {
      assert MarkSkipped(run.steps[p.step := s], {}) == run.steps[p.step := s];
      RecordedMessage(db, w, p, s, {}, db'.runs[p.runId], rec.retryDelayMs.GetOr(0));
    }
  }

  lemma RecordKeepsTokens(cfg: Config, world: World, w: WorkerId, outcome: Outcome, draw: Backoff.Draw)
    requires TokenInv(world)
    ensures TokenInv(ApplyRecord(cfg, world, w, outcome, draw))
    ensures KeepsScheduled(world, ApplyRecord(cfg, world, w, outcome, draw))
    ensures KeepsStrayFree(world, ApplyRecord(cfg, world, w, outcome, draw))
  {
    if && w < |world.workers| && world.workers[w].phase.Executing?
       && (outcome.Success? ==> world.workers[w].phase.effectDone)
    {
      var p := world.workers[w].phase;
      var taken := TakeFromPhase(world, w);
      RecordWrites(cfg, world.db, w, p, outcome, draw);
      var world' := ApplyRecord(cfg, world, w, outcome, draw);
      hide RecordInto;
      hide Tokens;
      PutMessage(taken, p.runId, world'.db.runs[p.runId], [world'.db.outbox[|world.db.outbox|]], world');
      hide *;
      MovedOn(world, taken, world', p.runId);
    }
  }

  lemma ResumeKeepsTokens(world: World, r: RunId, n: NodeId, world': World)
    requires TokenInv(world) && StrayFree(world) && Resume(world.db, r, n).Ok?
    requires world'.db.(dlq := []) == Resume(world.db, r, n).value.(dlq := []) && world'.workers == world.workers
    ensures TokenInv(world')
    ensures KeepsScheduled(world, world')
    ensures KeepsStrayFree(world, world')
  {
    assert RunTokenOk(world, r);
    ButFromZero(world, r);
    var run := world'.db.runs[r];
    var m := Message(AdvanceRun, r, world.db.now);
    assert RunReady(run, world.db.now, world.db.now);
    assert world'.db.runs == Resume(world.db, r, n).value.runs
      && world'.db.outbox == Resume(world.db, r, n).value.outbox;
    PutMessage(world, r, run, [m], world');
  }

  lemma CancelKeepsTokens(world: World, r: RunId)
    requires TokenInv(world)
    ensures TokenInv(world.(db := RequestCancel(world.db, r).0))
    ensures KeepsScheduled(world, world.(db := RequestCancel(world.db, r).0))
    ensures KeepsStrayFree(world, world.(db := RequestCancel(world.db, r).0))
  {
    var world' := world.(db := RequestCancel(world.db, r).0);
    forall q
      ensures RunTokenOk(world', q)
    {
      assert RunTokenOk(world, q);
      assert Tokens(world', q) == Tokens(world, q);
    }
    StepsSameStillOk(world.db, world'.db);
  }

  lemma StepsSameStillOk(a: Db, b: Db)
    requires a.runs.Keys == b.runs.Keys && a.now == b.now
    requires forall r :: r in a.runs ==> b.runs[r].steps == a.runs[r].steps && b.runs[r].status == a.runs[r].status
    ensures forall m: Message :: MsgOk(a, m) ==> MsgOk(b, m)
    ensures forall w: WorkerId, p: Phase :: PhaseOk(a, w, p) ==> PhaseOk(b, w, p)
  {
  }

  lemma TickKeepsTokens(world: World, ms: nat)
    requires TokenInv(world)
    ensures TokenInv(world.(db := world.db.(now := world.db.now + ms)))
    ensures KeepsScheduled(world, world.(db := world.db.(now := world.db.now + ms)))
    ensures KeepsStrayFree(world, world.(db := world.db.(now := world.db.now + ms)))
  {
    var world' := world.(db := world.db.(now := world.db.now + ms));
    forall q
      ensures RunTokenOk(world', q)
    {
      assert RunTokenOk(world, q);
      assert Tokens(world', q) == Tokens(world, q);
    }
    LaterStillOk(world.db, world'.db);
  }

  /** Everything a token promises only becomes truer with time. */
  lemma LaterStillOk(a: Db, b: Db)
    requires a.runs == b.runs && a.now <= b.now
    ensures forall m: Message :: MsgOk(a, m) ==> MsgOk(b, m)
    ensures forall w: WorkerId, p: Phase :: PhaseOk(a, w, p) ==> PhaseOk(b, w, p)
  {
  }

  /** What keeping the discipline comes to, whatever the action. */
  ghost predicate KeepsTokens(a: World, b: World) {
    TokenInv(b) && KeepsScheduled(a, b) && KeepsStrayFree(a, b)
  }

  lemma SameKeepsTokens(world: World)
    requires TokenInv(world)
    ensures KeepsTokens(world, world)
  {
    hide TokenInv, Tokens;
    assert forall q {:trigger Tokens(world, q)} :: Tokens(world, q) >= 0;
  }

  lemma ProcessKeepsTokens(cfg: Config, world: World, w: WorkerId)
    requires RunsOk(world.db) && TokenInv(world)
    ensures KeepsTokens(world, ApplyProcess(cfg, world, w))
  {
    if w < |world.workers| && world.workers[w].phase.Idle? && world.workers[w].batch != [] {
      hide ApplyProcess, TokenInv, KeepsScheduled, KeepsStrayFree, RunsOk;
      if world.workers[w].batch[0].topic.AdvanceRun? {
        AdvanceKeepsTokens(cfg, world, w);
      } else {
        ClaimKeepsTokens(cfg, world, w);
      }
    } else {
      hide TokenInv, KeepsScheduled, KeepsStrayFree, RunsOk;
      SameKeepsTokens(world);
    }
  }

  lemma ResumeFromKeepsTokens(cfg: Config, world: World, r: RunId, n: NodeId)
    requires TokenInv(world) && StrayFree(world)
    ensures KeepsTokens(world, Apply(cfg, world, ResumeFrom(r, n)))
  {
    hide TokenInv, KeepsScheduled, KeepsStrayFree, StrayFree, Resume;
    if Resume(world.db, r, n).Ok? {
      ResumeKeepsTokens(world, r, n, Apply(cfg, world, ResumeFrom(r, n)));
    } else {
      SameKeepsTokens(world);
    }
  }

  lemma ReplayKeepsTokens(cfg: Config, world: World, e: nat)
    requires TokenInv(world) && StrayFree(world)
    ensures KeepsTokens(world, Apply(cfg, world, Replay(e)))
  {
    hide TokenInv, KeepsScheduled, KeepsStrayFree, StrayFree, Resume;
    if ReplayDlqEntry(world.db, e).Ok? {
      ResumeKeepsTokens(world, world.db.dlq[e].runId, world.db.dlq[e].nodeId, Apply(cfg, world, Replay(e)));
    } else {
      SameKeepsTokens(world);
    }
  }

  /** What callers and operators do, and time. */
  lemma OperatorKeepsTokens(cfg: Config, world: World, a: Action)
    requires TokenInv(world) && (a.Cancel? || a.Tick? || Resumes(a))
    requires Resumes(a) ==> StrayFree(world)
    ensures KeepsTokens(world, Apply(cfg, world, a))
  {
    hide TokenInv, KeepsScheduled, KeepsStrayFree, StrayFree;
    match a {
      case Cancel(r) => CancelKeepsTokens(world, r);
      case ResumeFrom(r, n) => ResumeFromKeepsTokens(cfg, world, r, n);
      case Replay(e) => ReplayKeepsTokens(cfg, world, e);
      case Tick(ms) => TickKeepsTokens(world, ms);
    }
  }

  lemma WorkerKeepsTokens(cfg: Config, world: World, a: Action)
    requires RunsOk(world.db) && TokenInv(world)
    requires a.Relay? || a.Process? || a.PutBack? || a.Effect? || a.Record?
    ensures KeepsTokens(world, Apply(cfg, world, a))
  {
    hide TokenInv, KeepsScheduled, KeepsStrayFree, RunsOk;
    hide ApplyRelay, ApplyProcess, ApplyPutBack, ApplyEffect, ApplyRecord;
    match a {
      case Relay(w, k) => RelayKeepsTokens(world, w, k);
      case Process(w) => ProcessKeepsTokens(cfg, world, w);
      case PutBack(w) => PutBackKeepsTokens(cfg, world, w);
      case Effect(w) => EffectKeepsTokens(world, w);
      case Record(w, outcome, draw) => RecordKeepsTokens(cfg, world, w, outcome, draw);
    }
  }

  lemma KeepsTokensMeans(a: World, b: World)
    requires KeepsTokens(a, b)
    ensures TokenInv(b)
    ensures StrayFree(a) ==> StrayFree(b)
    ensures Scheduled(a) ==> Scheduled(b)
  {
    hide TokenInv, Tokens;
    assert forall q {:trigger Tokens(b, q)} :: Tokens(b, q) >= 0 && Tokens(a, q) >= 0;
  }

  lemma StepKeepsTokens(cfg: Config, world: World, a: Action)
    requires Inv(world) && TokenInv(world) && Disciplined(a)
    requires Resumes(a) ==> StrayFree(world)
    ensures TokenInv(Apply(cfg, world, a))
    ensures StrayFree(world) ==> StrayFree(Apply(cfg, world, a))
    ensures Scheduled(world) && !(a.Create? && a.raced) ==> Scheduled(Apply(cfg, world, a))
  {
    assert RunsOk(world.db);
    if a.Create? {
      CreateStepKeepsTokens(cfg, world, a.input, a.newId, a.raced);
    } else {
      hide *;
      Disciplines(a);
      if a.Relay? || a.Process? || a.PutBack? || a.Effect? || a.Record? {
        WorkerKeepsTokens(cfg, world, a);
      } else {
        OperatorKeepsTokens(cfg, world, a);
      }
      KeepsTokensMeans(world, Apply(cfg, world, a));
    }
  }

  lemma Disciplines(a: Action)
    requires Disciplined(a) && !a.Create?
    ensures a.Relay? || a.Process? || a.PutBack? || a.Effect? || a.Record? || a.Cancel? || a.Tick? || Resumes(a)
  {
  }

  lemma CreateStepKeepsTokens(cfg: Config, world: World, input: CreateRunInput, newId: RunId, raced: bool)
    requires TokenInv(world)
    ensures var world' := Apply(cfg, world, Create(input, newId, raced));
      && TokenInv(world')
      && (StrayFree(world) ==> StrayFree(world'))
      && (Scheduled(world) && !raced ==> Scheduled(world'))
  {
    CreateKeepsTokens(world, input, newId, raced);
    hide TokenInv, ApplyCreate, Tokens;
    var world' := ApplyCreate(world, input, newId, raced);
    assert forall q {:trigger Tokens(world', q)} :: Tokens(world', q) >= 0 && Tokens(world, q) >= 0;
  }

  lemma StartTokens(now: int, n: nat)
    ensures TokenInv(Start(now, n)) && StrayFree(Start(now, n))
  {
    forall r
      ensures RunTokenOk(Start(now, n), r) && Tokens(Start(now, n), r) == 0
    {
      SumIdle(n, r);
    }
  }

  lemma {:induction false} SumIdle(n: nat, r: RunId)
    ensures SumWorkers(IdleWorkers(n), r) == 0
  {
    if n > 0 {
      assert IdleWorkers(n)[..n - 1] == IdleWorkers(n - 1);
      SumIdle(n - 1, r);
    }
  }

  /** Crash-free histories; a run that a sweep may just have woken is not resumed on top. */
  ghost predicate Orderly(world: World, actions: seq<Action>) {
    && (forall a :: a in actions ==> Disciplined(a))
    && (StrayFree(world) || forall a :: a in actions ==> !Resumes(a))
  }

  lemma OrderlyPrefix(world: World, actions: seq<Action>)
    requires Orderly(world, actions) && actions != []
    ensures Orderly(world, actions[..|actions| - 1]) && Disciplined(actions[|actions| - 1])
  {
    hide StrayFree;
  }

  lemma {:induction false} ExecKeepsTokens(cfg: Config, world: World, actions: seq<Action>)
    requires Inv(world) && TokenInv(world) && Orderly(world, actions)
    ensures Inv(Exec(cfg, world, actions)) && TokenInv(Exec(cfg, world, actions))
    ensures StrayFree(world) ==> StrayFree(Exec(cfg, world, actions))
    ensures Scheduled(world) && (forall a :: a in actions ==> !(a.Create? && a.raced)) ==>
      Scheduled(Exec(cfg, world, actions))
    decreases |actions|
  {
    hide Inv;
    hide TokenInv;
    hide Apply;
    hide StrayFree;
    hide Scheduled;
    if actions != [] {
      var n := |actions| - 1;
      ExecKeepsTokens(cfg, world, actions[..n]);
      StepKeepsTokens(cfg, Exec(cfg, world, actions[..n]), actions[n]);
      StepKeepsInv(cfg, Exec(cfg, world, actions[..n]), actions[n]);
    }
  }
}
