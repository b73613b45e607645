// What holds in every interleaving: crashes, lost and duplicated messages,
// sweeps, cancellation, resumes and replays included. Each transaction is shown
// to let rows evolve only as its guards allow; the invariant follows from that.
module Safety {
  import opened Options
  import opened ErrorClasses
  import opened EngineTypes
  import opened EngineRows
  import opened EngineDb
  import opened World
  import opened RowInvariants
  import opened Digraph
  import Backoff
  import Idempotency
  import Retry

  predicate RunsOk(db: Db) {
    forall r :: r in db.runs ==> RunOk(r, db.runs[r])
  }

  /** If the row still carries this worker's claim, it is the very row that was claimed. */
  predicate Fenced(db: Db, w: WorkerId, p: Phase) {
    p.Executing? ==>
      && IsStep(db, p.runId, p.step)
      && p.row.nodeId == db.runs[p.runId].steps[p.step].nodeId
      && KeyOk(p.runId, p.row, p.row.key.attemptGroup)
      && p.row.key.attemptGroup <= db.runs[p.runId].attemptGroup
      && WithinBudget(p.row)
      && (OwnedBy(db.runs[p.runId].steps[p.step], w) ==> db.runs[p.runId].steps[p.step] == p.row)
  }

  /** Every effect carries the key some step of some run had under one of its groups. */
  ghost predicate Legitimate(db: Db, key: Idempotency.StepIdentity) {
    && key.runId in db.runs
    && key.attemptGroup <= db.runs[key.runId].attemptGroup
    && key.iterationIndex == 0
    && Idempotency.ValidIdentity(key)
    && exists i :: 0 <= i < |db.runs[key.runId].steps| && db.runs[key.runId].steps[i].nodeId == key.nodeId
  }

  ghost predicate EffectsOk(world: World) {
    && Distinct(world.effects)
    && (forall k :: k in world.effects ==> Legitimate(world.db, k))
    && (forall r, i: nat :: IsStep(world.db, r, i) && world.db.runs[r].steps[i].status.Succeeded? ==>
          world.db.runs[r].steps[i].key in world.effects)
    && (forall w ::
          0 <= w < |world.workers| && world.workers[w].phase.Executing? && world.workers[w].phase.effectDone ==>
          world.workers[w].phase.row.key in world.effects)
  }

  ghost predicate WorkersFenced(world: World) {
    forall w: nat :: w < |world.workers| ==> Fenced(world.db, w, world.workers[w].phase)
  }

  ghost predicate Inv(world: World) {
    RunsOk(world.db) && WorkersFenced(world) && EffectsOk(world)
  }

  // ---- how one step may change a row ----

  predicate RowEvolves(s: StepRow, t: StepRow, w: WorkerId, effects: seq<Idempotency.StepIdentity>) {
    && t.nodeId == s.nodeId
    && (t == s || !t.status.Running? || t.workerId == Some(w))
    && (t.status.Succeeded? ==> t == s || t.key in effects)
  }

  predicate RunEvolves(a: Run, b: Run, w: WorkerId, effects: seq<Idempotency.StepIdentity>) {
    && |a.steps| == |b.steps|
    && a.attemptGroup <= b.attemptGroup
    && (forall i :: 0 <= i < |a.steps| ==> RowEvolves(a.steps[i], b.steps[i], w, effects))
    && (a.status.Succeeded? ==> b.status.Succeeded? && b.steps == a.steps)
  }

  predicate DbEvolves(a: Db, b: Db, w: WorkerId, effects: seq<Idempotency.StepIdentity>) {
    && (forall r :: r in a.runs ==> r in b.runs && RunEvolves(a.runs[r], b.runs[r], w, effects))
    && (forall r :: r in b.runs && r !in a.runs ==> forall s :: s in b.runs[r].steps ==> s.status.Pending?)
  }

  /** All but worker w keep what they are doing. */
  predicate OthersKeep(a: seq<Worker>, b: seq<Worker>, w: WorkerId) {
    |a| == |b| && forall x :: 0 <= x < |a| && x != w ==> b[x].phase == a[x].phase
  }

  lemma FencedEvolves(a: Db, b: Db, w: WorkerId, x: WorkerId, p: Phase, effects: seq<Idempotency.StepIdentity>)
    requires DbEvolves(a, b, w, effects) && Fenced(a, x, p) && x != w
    ensures Fenced(b, x, p)
  {
    if p.Executing? {
      assert RunEvolves(a.runs[p.runId], b.runs[p.runId], w, effects);
      assert RowEvolves(a.runs[p.runId].steps[p.step], b.runs[p.runId].steps[p.step], w, effects);
    }
  }

  lemma LegitimateEvolves(a: Db, b: Db, w: WorkerId, k: Idempotency.StepIdentity,
                          effects: seq<Idempotency.StepIdentity>)
    requires DbEvolves(a, b, w, effects) && Legitimate(a, k)
    ensures Legitimate(b, k)
  {
    var i :| 0 <= i < |a.runs[k.runId].steps| && a.runs[k.runId].steps[i].nodeId == k.nodeId;
    assert RunEvolves(a.runs[k.runId], b.runs[k.runId], w, effects);
    assert RowEvolves(a.runs[k.runId].steps[i], b.runs[k.runId].steps[i], w, effects);
    assert b.runs[k.runId].steps[i].nodeId == k.nodeId;
  }

  lemma SucceededEvolves(a: World, b: World, w: WorkerId, r: RunId, i: nat)
    requires EffectsOk(a) && DbEvolves(a.db, b.db, w, b.effects)
    requires forall k :: k in a.effects ==> k in b.effects
    requires IsStep(b.db, r, i) && b.db.runs[r].steps[i].status.Succeeded?
    ensures b.db.runs[r].steps[i].key in b.effects
  {
    assert b.db.runs[r].steps[i] in b.db.runs[r].steps;
    if r in a.db.runs {
      assert RunEvolves(a.db.runs[r], b.db.runs[r], w, b.effects);
      assert RowEvolves(a.db.runs[r].steps[i], b.db.runs[r].steps[i], w, b.effects);
      assert IsStep(a.db, r, i);
    }
  }

  /** The shared half of every preservation proof: whatever one worker did, the rest of the invariant follows. */
  lemma InvFrom(a: World, b: World, w: WorkerId)
    requires Inv(a)
    requires RunsOk(b.db)
    requires DbEvolves(a.db, b.db, w, b.effects)
    requires OthersKeep(a.workers, b.workers, w)
    requires w < |b.workers| ==> Fenced(b.db, w, b.workers[w].phase)
    requires w < |b.workers| && b.workers[w].phase.Executing? && b.workers[w].phase.effectDone ==>
      b.workers[w].phase.row.key in b.effects
    requires Distinct(b.effects) && forall k :: k in a.effects ==> k in b.effects
    requires forall k :: k in b.effects && k !in a.effects ==> Legitimate(b.db, k)
    ensures Inv(b)
  {
    forall x: nat | x < |b.workers|
      ensures Fenced(b.db, x, b.workers[x].phase)
    {
      if x != w {
        FencedEvolves(a.db, b.db, w, x, a.workers[x].phase, b.effects);
      }
    }
    forall k | k in b.effects
      ensures Legitimate(b.db, k)
    {
      if k in a.effects {
        LegitimateEvolves(a.db, b.db, w, k, b.effects);
      }
    }
    forall r, i: nat | IsStep(b.db, r, i) && b.db.runs[r].steps[i].status.Succeeded?
      ensures b.db.runs[r].steps[i].key in b.effects
    {
      SucceededEvolves(a, b, w, r, i);
    }
  }

  lemma EvolvesSelf(db: Db, w: WorkerId, effects: seq<Idempotency.StepIdentity>)
    ensures DbEvolves(db, db, w, effects)
  {
  }

  /** A database with the same runs. */
  lemma SameRuns(a: Db, b: Db, w: WorkerId, effects: seq<Idempotency.StepIdentity>)
    requires RunsOk(a) && b.runs == a.runs
    ensures RunsOk(b) && DbEvolves(a, b, w, effects)
  {
  }

  /** One run rewritten in place. */
  lemma OneRun(a: Db, b: Db, r: RunId, run: Run, w: WorkerId, effects: seq<Idempotency.StepIdentity>)
    requires RunsOk(a) && r in a.runs && b.runs == a.runs[r := run]
    requires RunOk(r, run) && RunEvolves(a.runs[r], run, w, effects)
    ensures RunsOk(b) && DbEvolves(a, b, w, effects)
  {
    hide RunOk;
    hide RunEvolves;
    forall q | q in a.runs
      ensures q in b.runs && RunEvolves(a.runs[q], b.runs[q], w, effects)
    {
      if q != r {
        RunEvolvesSelf(a.runs[q], w, effects);
      }
    }
  }

  lemma RunEvolvesSelf(run: Run, w: WorkerId, effects: seq<Idempotency.StepIdentity>)
    ensures RunEvolves(run, run, w, effects)
  {
  }

  /** A run with one row rewritten evolves if the row does. */
  lemma OneRow(run: Run, run': Run, i: nat, w: WorkerId, effects: seq<Idempotency.StepIdentity>)
    requires i < |run.steps| == |run'.steps| && run'.steps == run.steps[i := run'.steps[i]]
      && run'.attemptGroup == run.attemptGroup
    requires RowEvolves(run.steps[i], run'.steps[i], w, effects)
    requires !run.status.Succeeded?
    ensures RunEvolves(run, run', w, effects)
  {
  }

  /** A run with an unfinished row has not succeeded. */
  lemma UnfinishedRow(r: RunId, run: Run, i: nat)
    requires RunOk(r, run) && i < |run.steps| && !IsDone(run.steps[i].status)
    ensures !run.status.Succeeded?
  {
    assert run.steps[i] in run.steps;
  }

  // ---- each transaction ----

  lemma CreateEvolves(db: Db, input: CreateRunInput, newId: RunId, raced: bool, w: WorkerId,
                      effects: seq<Idempotency.StepIdentity>)
    requires RunsOk(db)
    ensures var db' := CreateRun(db, input, newId, raced).0; RunsOk(db') && DbEvolves(db, db', w, effects)
  {
    var (db', outcome) := CreateRun(db, input, newId, raced);
    if newId in db.runs || db'.runs == db.runs {
      SameRuns(db, db', w, effects);
    } else {
      if outcome.Created? {
        FreshRunOk(newId, input, db.now);
      } else {
        assert RunOk(newId, db'.runs[newId]);
      }
      assert db'.runs == db.runs[newId := db'.runs[newId]];
      forall r | r in db.runs
        ensures r in db'.runs && RunEvolves(db.runs[r], db'.runs[r], w, effects)
      {
        assert db'.runs[r] == db.runs[r];
      }
      assert forall s :: s in db'.runs[newId].steps ==> s.status.Pending?;
    }
  }

  lemma AdvanceEvolves(db: Db, r: RunId, w: WorkerId, effects: seq<Idempotency.StepIdentity>)
    requires RunsOk(db)
    ensures var db' := Advance(db, r).0; RunsOk(db') && DbEvolves(db, db', w, effects)
  {
    var db' := Advance(db, r).0;
    if r in db.runs {
      AdvanceRowOk(r, db.runs[r], db.now);
      OneRun(db, db', r, AdvanceRow(db.runs[r], db.now).0, w, effects);
    } else {
      SameRuns(db, db', w, effects);
    }
  }

  lemma ClaimEvolves(db: Db, r: RunId, i: nat, w: WorkerId, leaseMs: nat, limits: Option<ConcurrencyLimits>,
                     effects: seq<Idempotency.StepIdentity>)
    requires RunsOk(db) && r in db.runs
    ensures var (db', res) := ClaimStep(db, r, i, w, leaseMs, limits);
      && RunsOk(db') && DbEvolves(db, db', w, effects)
      && (res.Claimed? ==>
        IsStep(db', r, i) && db'.runs[r].steps[i] == res.row && res.row.key == db.runs[r].steps[i].key)
      && (!res.Claimed? ==> db' == db)
      && Fenced(db', w, if res.Claimed? then Executing(r, i, res.row, false) else Idle)
  {
    var (db', res) := ClaimStep(db, r, i, w, leaseMs, limits);
    if res.Claimed? {
      var run := db.runs[r];
      assert RunOk(r, run) && RowOk(run.steps[i]) && KeyOk(r, run.steps[i], run.attemptGroup);
      ClaimRowOk(r, run, i, w, db.now, db.now + leaseMs);
      UnfinishedRow(r, run, i);
      hide OverLimit;
      hide RunOk;
      hide KeyOk;
      OneRow(run, run.(steps := run.steps[i := res.row]), i, w, effects);
      hide RunEvolves;
      OneRun(db, db', r, run.(steps := run.steps[i := res.row]), w, effects);
    } else {
      SameRuns(db, db', w, effects);
    }
  }

  lemma SuccessEvolves(db: Db, p: Phase, w: WorkerId, output: Option<Output>, abandoned: set<NodeId>,
                       effects: seq<Idempotency.StepIdentity>)
    requires RunsOk(db) && p.Executing? && Fenced(db, w, p) && p.row.key in effects
    ensures var db' := RecordSuccess(db, p.runId, p.step, w, output, abandoned).0;
      RunsOk(db') && DbEvolves(db, db', w, effects)
  {
    var r, i := p.runId, p.step;
    var (db', wrote) := RecordSuccess(db, r, i, w, output, abandoned);
    if wrote {
      var run := db.runs[r];
      var done := DoneRun(run, i, output, abandoned);
      assert RunOk(r, run) && run.steps[i].key in effects;
      assert db'.runs == db.runs[r := done];
      hide *;
      DoneRunEvolves(r, run, i, output, abandoned, w, effects);
      OneRun(db, db', r, done, w, effects);
    } else {
      SameRuns(db, db', w, effects);
    }
  }

  function DoneRun(run: Run, i: nat, output: Option<Output>, abandoned: set<NodeId>): Run
    requires i < |run.steps|
  {
    run.(steps := MarkSkipped(run.steps[i := SucceedRow(run.steps[i], output)], abandoned),
         stepsSucceeded := run.stepsSucceeded + 1)
  }

  lemma DoneRunEvolves(r: RunId, run: Run, i: nat, output: Option<Output>, abandoned: set<NodeId>, w: WorkerId,
                       effects: seq<Idempotency.StepIdentity>)
    requires RunOk(r, run) && i < |run.steps| && OwnedBy(run.steps[i], w) && run.steps[i].key in effects
    ensures RunOk(r, DoneRun(run, i, output, abandoned))
    ensures RunEvolves(run, DoneRun(run, i, output, abandoned), w, effects)
  {
    var s := SucceedRow(run.steps[i], output);
    var one := run.(steps := run.steps[i := s], stepsSucceeded := run.stepsSucceeded + 1);
    assert RowOk(run.steps[i]) && KeyOk(r, run.steps[i], run.attemptGroup);
    assert run.steps[i] in run.steps;
    ReplaceRowOk(r, run, i, s, one);
    hide RunOk, KeyOk, RowOk;
    SkipRowsOk(r, one, abandoned);
  }

  /** What DecideFailure can ask to be written for a row within its budget. */
  predicate Sensible(row: StepRow, rec: FailureRecord) {
    && rec.status in {StepStatus.Failed, StepStatus.WaitingConfirmation}
    && (rec.retryDelayMs.Some? ==>
          rec.status.Failed? && rec.consumed < Retry.Ceiling(row.maxAttempts)
            && rec.deferrals < Retry.Ceiling(row.maxDeferrals))
    && (rec.countsFailed <==> rec.status.Failed? && rec.retryDelayMs.None?)
  }

  lemma RecordedFailureEvolves(db: Db, p: Phase, w: WorkerId, rec: FailureRecord,
                               effects: seq<Idempotency.StepIdentity>)
    requires RunsOk(db) && p.Executing? && Fenced(db, w, p) && Sensible(p.row, rec)
    ensures var db' := RecordFailure(db, p.runId, p.step, w, rec).0;
      RunsOk(db') && DbEvolves(db, db', w, effects)
  {
    var r, i := p.runId, p.step;
    var (db', wrote) := RecordFailure(db, r, i, w, rec);
    if wrote {
      var run := db.runs[r];
      var s := db'.runs[r].steps[i];
      assert RunOk(r, run) && RowOk(run.steps[i]) && KeyOk(r, run.steps[i], run.attemptGroup);
      assert db'.runs[r] == run.(steps := run.steps[i := s], stepsFailed := db'.runs[r].stepsFailed);
      UnfinishedRow(r, run, i);
      ReplaceRowOk(r, run, i, s, db'.runs[r]);
      OneRow(run, db'.runs[r], i, w, effects);
      hide RunOk;
      hide KeyOk;
      hide RunEvolves;
      OneRun(db, db', r, db'.runs[r], w, effects);
    } else {
      SameRuns(db, db', w, effects);
    }
  }

  lemma FailureEvolves(db: Db, p: Phase, w: WorkerId, errorClass: ErrorClass, idempotent: bool,
                       retryAfterMs: Option<int>, draw: Backoff.Draw, policy: Backoff.BackoffPolicy,
                       effects: seq<Idempotency.StepIdentity>)
    requires RunsOk(db) && p.Executing? && Fenced(db, w, p)
    ensures var rec := DecideFailure(p.row, errorClass, idempotent, retryAfterMs, draw, db.now, policy);
      var db' := RecordFailure(db, p.runId, p.step, w, rec).0;
      RunsOk(db') && DbEvolves(db, db', w, effects)
  {
    DecideFailureOk(p.row, errorClass, idempotent, retryAfterMs, draw, db.now, policy);
    hide DecideFailure;
    hide RunsOk;
    hide DbEvolves;
    hide RecordFailure;
    RecordedFailureEvolves(db, p, w, DecideFailure(p.row, errorClass, idempotent, retryAfterMs, draw, db.now, policy),
      effects);
  }

  lemma ResumeEvolves(db: Db, r: RunId, n: NodeId, w: WorkerId, effects: seq<Idempotency.StepIdentity>)
    requires RunsOk(db)
    ensures var res := Resume(db, r, n); res.Ok? ==> RunsOk(res.value) && DbEvolves(db, res.value, w, effects)
  {
    var res := Resume(db, r, n);
    if res.Ok? {
      var at := TargetOf(db.runs[r].steps, n).value;
      ResumeRunOk(r, db.runs[r], at);
      OneRun(db, res.value, r, ResumeRun(r, db.runs[r], at), w, effects);
    }
  }

  lemma RequestCancelEvolves(db: Db, r: RunId, w: WorkerId, effects: seq<Idempotency.StepIdentity>)
    requires RunsOk(db)
    ensures var db' := RequestCancel(db, r).0; RunsOk(db') && DbEvolves(db, db', w, effects)
  {
    var db' := RequestCancel(db, r).0;
    if r in db.runs && !IsTerminal(db.runs[r].status) {
      assert RunOk(r, MarkCancelRequested(db.runs[r], db.now));
      OneRun(db, db', r, MarkCancelRequested(db.runs[r], db.now), w, effects);
    } else {
      SameRuns(db, db', w, effects);
    }
  }

  // ---- each action ----

  lemma AdvanceKeepsInv(cfg: Config, world: World, w: WorkerId)
    requires Inv(world) && w < |world.workers| && world.workers[w].phase.Idle? && world.workers[w].batch != []
    requires world.workers[w].batch[0].topic.AdvanceRun?
    ensures Inv(ApplyProcess(cfg, world, w))
    ensures DbEvolves(world.db, ApplyProcess(cfg, world, w).db, w, world.effects)
  {
    hide Advance;
    hide DbEvolves;
    hide RunsOk;
    AdvanceEvolves(world.db, world.workers[w].batch[0].runId, w, world.effects);
    InvFrom(world, ApplyProcess(cfg, world, w), w);
  }

  lemma ClaimKeepsInv(cfg: Config, world: World, w: WorkerId)
    requires Inv(world) && w < |world.workers| && world.workers[w].phase.Idle? && world.workers[w].batch != []
    requires world.workers[w].batch[0].topic.RunStep?
    ensures Inv(ApplyProcess(cfg, world, w))
    ensures DbEvolves(world.db, ApplyProcess(cfg, world, w).db, w, world.effects)
  {
    hide ClaimStep;
    hide DbEvolves;
    hide RunsOk;
    var m := world.workers[w].batch[0];
    if m.runId in world.db.runs {
      ClaimEvolves(world.db, m.runId, m.topic.step, w, cfg.leaseMs, cfg.limits, world.effects);
    } else {
      EvolvesSelf(world.db, w, world.effects);
    }
    InvFrom(world, ApplyProcess(cfg, world, w), w);
  }

  lemma ProcessKeepsInv(cfg: Config, world: World, w: WorkerId)
    requires Inv(world)
    ensures Inv(ApplyProcess(cfg, world, w))
    ensures DbEvolves(world.db, ApplyProcess(cfg, world, w).db, w, world.effects)
  {
    hide Inv;
    hide DbEvolves;
    if w < |world.workers| && world.workers[w].phase.Idle? && world.workers[w].batch != [] {
      if world.workers[w].batch[0].topic.AdvanceRun? {
        AdvanceKeepsInv(cfg, world, w);
      } else {
        ClaimKeepsInv(cfg, world, w);
      }
    } else {
      EvolvesSelf(world.db, w, world.effects);
    }
  }

  lemma RecordKeepsInv(cfg: Config, world: World, w: WorkerId, outcome: Outcome, draw: Backoff.Draw)
    requires Inv(world)
    ensures Inv(ApplyRecord(cfg, world, w, outcome, draw))
    ensures DbEvolves(world.db, ApplyRecord(cfg, world, w, outcome, draw).db, w, world.effects)
  {
    var world' := ApplyRecord(cfg, world, w, outcome, draw);
    EvolvesSelf(world.db, w, world.effects);
    if && w < |world.workers| && world.workers[w].phase.Executing?
       && (outcome.Success? ==> world.workers[w].phase.effectDone)
    {
      var p := world.workers[w].phase;
      assert Fenced(world.db, w, p);
      var version := world.db.runs[p.runId].versionId;
      if version !in cfg.flows {
        FailureEvolves(world.db, p, w, Poison, false, None, draw, cfg.policy, world.effects);
      } else {
        var flow := cfg.flows[version];
        match outcome {
          case Success(output) =>
            SuccessEvolves(world.db, p, w, output, AbandonedBy(flow, p.row.nodeId, output), world.effects);
          case Failure(errorClass, retryAfterMs) =>
            FailureEvolves(world.db, p, w, errorClass, IdempotentIn(flow, p.row.nodeId), retryAfterMs, draw, cfg.policy,
              world.effects);
        }
      }
      InvFrom(world, world', w);
    }
  }

  lemma EffectKeepsInv(world: World, w: WorkerId)
    requires Inv(world)
    ensures Inv(ApplyEffect(world, w))
  {
    if w < |world.workers| && world.workers[w].phase.Executing? {
      var world' := ApplyEffect(world, w);
      var p := world.workers[w].phase;
      assert Fenced(world.db, w, p);
      EvolvesSelf(world.db, w, world'.effects);
      assert Legitimate(world.db, p.row.key);
      InvFrom(world, world', w);
    }
  }

  /** Actions that touch neither rows nor what a worker is executing. */
  lemma QuietKeepsInv(world: World, world': World, w: WorkerId)
    requires Inv(world)
    requires world'.db.runs == world.db.runs && world'.effects == world.effects
    requires OthersKeep(world.workers, world'.workers, w)
    requires w < |world'.workers| ==>
      world'.workers[w].phase == world.workers[w].phase || !world'.workers[w].phase.Executing?
    ensures Inv(world') && DbEvolves(world.db, world'.db, w, world'.effects)
  {
    SameRuns(world.db, world'.db, w, world'.effects);
    if w < |world.workers| {
      assert Fenced(world.db, w, world.workers[w].phase);
    }
    InvFrom(world, world', w);
  }

  /** Operator actions: rows change, workers do not. */
  lemma OperatorKeepsInv(world: World, db': Db)
    requires Inv(world) && RunsOk(db') && DbEvolves(world.db, db', |world.workers|, world.effects)
    ensures Inv(world.(db := db'))
  {
    InvFrom(world, world.(db := db'), |world.workers|);
  }

  lemma ResumeKeepsInv(world: World, r: RunId, n: NodeId)
    requires Inv(world) && Resume(world.db, r, n).Ok?
    ensures var world' := world.(db := Resume(world.db, r, n).value);
      Inv(world') && DbEvolves(world.db, world'.db, |world.workers|, world.effects)
  {
    ResumeEvolves(world.db, r, n, |world.workers|, world.effects);
    OperatorKeepsInv(world, Resume(world.db, r, n).value);
  }

  lemma ReplayKeepsInv(world: World, e: nat)
    requires Inv(world) && ReplayDlqEntry(world.db, e).Ok?
    ensures var world' := world.(db := ReplayDlqEntry(world.db, e).value);
      Inv(world') && DbEvolves(world.db, world'.db, |world.workers|, world.effects)
  {
    var r, n := world.db.dlq[e].runId, world.db.dlq[e].nodeId;
    ResumeEvolves(world.db, r, n, |world.workers|, world.effects);
    var resumed, replayed := Resume(world.db, r, n).value, ReplayDlqEntry(world.db, e).value;
    assert replayed.runs == resumed.runs;
    OperatorKeepsInv(world, replayed);
  }

  lemma CancelKeepsInv(world: World, r: RunId)
    requires Inv(world)
    ensures var world' := world.(db := RequestCancel(world.db, r).0);
      Inv(world') && DbEvolves(world.db, world'.db, |world.workers|, world.effects)
  {
    RequestCancelEvolves(world.db, r, |world.workers|, world.effects);
    OperatorKeepsInv(world, RequestCancel(world.db, r).0);
  }

  lemma CreateKeepsInv(world: World, input: CreateRunInput, newId: RunId, raced: bool)
    requires Inv(world)
    ensures var world' := ApplyCreate(world, input, newId, raced);
      Inv(world') && DbEvolves(world.db, world'.db, |world.workers|, world.effects)
  {
    CreateEvolves(world.db, input, newId, raced, |world.workers|, world.effects);
    InvFrom(world, ApplyCreate(world, input, newId, raced), |world.workers|);
  }

  /** The worker an action belongs to; anything else belongs to nobody. */
  function Actor(world: World, a: Action): WorkerId {
    match a
    case Relay(w, _) => w
    case Process(w) => w
    case PutBack(w) => w
    case Effect(w) => w
    case Record(w, _, _) => w
    case Crash(w) => w
    case _ => |world.workers|
  }

  lemma EffectEvolves(world: World, w: WorkerId)
    ensures DbEvolves(world.db, ApplyEffect(world, w).db, w, ApplyEffect(world, w).effects)
  {
    EvolvesSelf(world.db, w, ApplyEffect(world, w).effects);
  }

  lemma UnchangedKeepsInv(world: World, w: WorkerId)
    requires Inv(world)
    ensures DbEvolves(world.db, world.db, w, world.effects)
  {
    EvolvesSelf(world.db, w, world.effects);
  }

  lemma StepKeepsInv(cfg: Config, world: World, a: Action)
    requires Inv(world)
    ensures Inv(Apply(cfg, world, a))
    ensures DbEvolves(world.db, Apply(cfg, world, a).db, Actor(world, a), Apply(cfg, world, a).effects)
  {
    hide Inv;
    hide DbEvolves;
    match a {
      case Create(input, newId, raced) => CreateKeepsInv(world, input, newId, raced);
      case Process(w) => ProcessKeepsInv(cfg, world, w);
      case Record(w, outcome, draw) => RecordKeepsInv(cfg, world, w, outcome, draw);
      case Effect(w) =>
        EffectKeepsInv(world, w);
        EffectEvolves(world, w);
      case Cancel(r) => CancelKeepsInv(world, r);
      case ResumeFrom(r, n) =>
        if Resume(world.db, r, n).Ok? {
          ResumeKeepsInv(world, r, n);
        } else {
          UnchangedKeepsInv(world, |world.workers|);
        }
      case Replay(e) =>
        if ReplayDlqEntry(world.db, e).Ok? {
          ReplayKeepsInv(world, e);
        } else {
          UnchangedKeepsInv(world, |world.workers|);
        }
      case _ => QuietKeepsInv(world, Apply(cfg, world, a), Actor(world, a));
    }
  }

  lemma StartInv(now: int, workers: nat)
    ensures Inv(Start(now, workers))
  {
  }

  lemma {:induction false} ExecKeepsInv(cfg: Config, world: World, actions: seq<Action>)
    requires Inv(world)
    ensures Inv(Exec(cfg, world, actions))
    decreases |actions|
  {
    if actions != [] {
      var n := |actions| - 1;
      ExecKeepsInv(cfg, world, actions[..n]);
      StepKeepsInv(cfg, Exec(cfg, world, actions[..n]), actions[n]);
    }
  }
}
