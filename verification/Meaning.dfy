// Running the flat rows under token discipline walks the graph: the steps a run
// claims are, in order, the nodes its branch decisions pick, and its rows say
// at every moment which nodes that walk can still come by.
module Meaning {
  import opened Options
  import opened ErrorClasses
  import opened EngineTypes
  import opened EngineRows
  import opened EngineDb
  import opened World
  import opened RowInvariants
  import opened Safety
  import opened TokenDiscipline
  import opened TokenSteps
  import opened TokenGuarantees
  import opened GraphMeaning
  import Backoff

  /** The steps a run has claimed, a retry of the last one not counted again. */
  function DistinctClaims(log: seq<Event>, r: RunId): seq<nat> {
    if log == [] then []
    else
      var before := DistinctClaims(log[..|log| - 1], r);
      var e := log[|log| - 1];
      if e.ClaimedStep? && e.runId == r && (before == [] || before[|before| - 1] != e.step)
      then before + [e.step] else before
  }

  /** Every branch that succeeded said which way it went. */
  ghost predicate Answered(flow: FlowDefinition, steps: seq<StepRow>) {
    forall i :: 0 <= i < |steps| && steps[i].status.Succeeded? ==>
      HonestAt(flow.edges, steps[i].nodeId, steps[i].output)
  }

  /** Never resumed, nothing paused, its rows those of its well shaped flow, its branches answered. */
  ghost predicate Straight(cfg: Config, run: Run) {
    && run.attemptGroup == 0
    && (forall s :: s in run.steps ==> !Paused(s))
    && run.versionId in cfg.flows
    && var flow := cfg.flows[run.versionId];
    && WellShaped(flow) && RowsFollow(flow, run.steps) && Answered(flow, run.steps)
  }

  /** The walk has been claimed up to its last node, and that one too once it has left pending. */
  predicate ClaimedAlong(steps: seq<StepRow>, path: seq<nat>, claims: seq<nat>)
    requires path != [] && path[|path| - 1] < |steps|
  {
    claims == if steps[path[|path| - 1]].status.Pending? then path[..|path| - 1] else path
  }

  ghost predicate Walking(flow: FlowDefinition, steps: seq<StepRow>, claims: seq<nat>) {
    exists path :: OnWalk(flow, steps, path) && ClaimedAlong(steps, path, claims)
  }

  ghost predicate MeaningAt(cfg: Config, world: World, r: RunId) {
    if r in world.db.runs then
      Straight(cfg, world.db.runs[r]) ==>
        Walking(cfg.flows[world.db.runs[r].versionId], world.db.runs[r].steps, DistinctClaims(world.log, r))
    else DistinctClaims(world.log, r) == []
  }

  ghost predicate MeaningInv(cfg: Config, world: World) {
    forall r :: MeaningAt(cfg, world, r)
  }

  // ---- untouched runs ----

  predicate SameWalk(a: Run, b: Run) {
    a.steps == b.steps && a.attemptGroup == b.attemptGroup && a.versionId == b.versionId
  }

  ghost predicate Untouched(a: World, b: World, r: RunId) {
    && (r in a.db.runs <==> r in b.db.runs)
    && (r in a.db.runs ==> SameWalk(a.db.runs[r], b.db.runs[r]))
    && DistinctClaims(a.log, r) == DistinctClaims(b.log, r)
  }

  lemma UntouchedKeepsMeaning(cfg: Config, a: World, b: World, r: RunId)
    requires MeaningAt(cfg, a, r) && Untouched(a, b, r)
    ensures MeaningAt(cfg, b, r)
  {
    hide Walking;
  }

  /** One run was worked on and keeps its meaning; the rest were not. */
  lemma MeaningFrom(cfg: Config, a: World, b: World, r: RunId)
    requires MeaningInv(cfg, a) && MeaningAt(cfg, b, r)
    requires forall q :: q != r ==> Untouched(a, b, q)
    ensures MeaningInv(cfg, b)
  {
    forall q
      ensures MeaningAt(cfg, b, q)
    {
      if q != r {
        assert MeaningAt(cfg, a, q);
        UntouchedKeepsMeaning(cfg, a, b, q);
      }
    }
  }

  lemma AllUntouched(cfg: Config, a: World, b: World)
    requires MeaningInv(cfg, a)
    requires a.db.runs.Keys == b.db.runs.Keys && a.log == b.log
    requires forall r :: r in a.db.runs ==> SameWalk(a.db.runs[r], b.db.runs[r])
    ensures MeaningInv(cfg, b)
  {
    forall r
      ensures MeaningAt(cfg, b, r)
    {
      assert MeaningAt(cfg, a, r);
      UntouchedKeepsMeaning(cfg, a, b, r);
    }
  }

  lemma ClaimsSnoc(log: seq<Event>, e: Event, r: RunId)
    ensures e != ClaimedStep(r, if e.ClaimedStep? then e.step else 0) ==>
      DistinctClaims(log + [e], r) == DistinctClaims(log, r)
    ensures e.ClaimedStep? && e.runId == r ==>
      var before := DistinctClaims(log, r);
      DistinctClaims(log + [e], r)
        == if before == [] || before[|before| - 1] != e.step then before + [e.step] else before
  {
    assert (log + [e])[..|log|] == log;
  }

  // ---- the run a claim is made in ----

  function AfterClaim(claims: seq<nat>, i: nat): seq<nat> {
    if claims == [] || claims[|claims| - 1] != i then claims + [i] else claims
  }

  /** The ready row is the walk's last, and claiming it claims the walk to its end. */
  lemma ClaimOnWalk(flow: FlowDefinition, steps: seq<StepRow>, path: seq<nat>, i: nat, s: StepRow, claims: seq<nat>)
    requires WellShaped(flow) && OnWalk(flow, steps, path) && ClaimedAlong(steps, path, claims)
    requires i < |steps| && AtRow(steps[i]) && forall j :: 0 <= j < i ==> !AtRow(steps[j])
    requires s.status.Running? && s.nodeId == steps[i].nodeId
    ensures Walking(flow, steps[i := s], AfterClaim(claims, i))
  {
    OnlyNextIsReady(flow, steps, path, i);
    StayOnWalk(flow, steps, path, s);
    WalkIncreases(flow, steps, path);
    hide OnWalk;
    hide WellShaped;
    hide IsWalk;
    hide ClaimedAlong;
    ClaimedToEnd(steps, path, i, s, claims);
    hide AfterClaim;
  }

  lemma ClaimedToEnd(steps: seq<StepRow>, path: seq<nat>, i: nat, s: StepRow, claims: seq<nat>)
    requires path != [] && path[|path| - 1] == i < |steps| && ClaimedAlong(steps, path, claims)
    requires forall j, k :: 0 <= j < k < |path| ==> path[j] < path[k]
    requires s.status.Running?
    ensures ClaimedAlong(steps[i := s], path, AfterClaim(claims, i))
  {
    assert path == path[..|path| - 1] + [i];
    assert |path| > 1 ==> path[|path| - 2] < i;
  }

  /** One unfinished row was rewritten, and pending ones perhaps skipped. */
  predicate RowsMoved(before: seq<StepRow>, after: seq<StepRow>, i: nat) {
    && i < |before| == |after|
    && !Paused(before[i]) && !before[i].status.Succeeded?
    && (forall k :: 0 <= k < |before| ==> after[k].nodeId == before[k].nodeId)
    && (forall k :: 0 <= k < |before| && k != i ==> after[k] == before[k] || before[k].status.Pending?)
  }

  /** If the run is straight afterwards it was so before. */
  lemma WasStraight(cfg: Config, run: Run, run': Run, i: nat)
    requires run' == run.(steps := run'.steps) && RowsMoved(run.steps, run'.steps, i)
    requires Straight(cfg, run')
    ensures Straight(cfg, run)
  {
    hide WellShaped;
    hide HonestAt;
    forall t | t in run.steps
      ensures !Paused(t)
    {
      var k :| 0 <= k < |run.steps| && run.steps[k] == t;
      assert run'.steps[k] in run'.steps;
    }
    var flow := cfg.flows[run.versionId];
    forall k | 0 <= k < |run.steps| && run.steps[k].status.Succeeded?
      ensures HonestAt(flow.edges, run.steps[k].nodeId, run.steps[k].output)
    {
      assert run'.steps[k] == run.steps[k];
    }
  }

  /** In a run with nothing paused, everything before a ready step is settled. */
  lemma ReadyIsFirst(run: Run, i: nat, now: int)
    requires StepReady(run, i, now)
    requires forall s :: s in run.steps ==> !Paused(s)
    ensures AtRow(run.steps[i]) && forall j :: 0 <= j < i ==> !AtRow(run.steps[j])
  {
  }

  lemma ClaimWalks(cfg: Config, run: Run, i: nat, s: StepRow, now: int, claims: seq<nat>)
    requires StepReady(run, i, now)
    requires s.status.Running? && s.nodeId == run.steps[i].nodeId
    requires Straight(cfg, run) ==> Walking(cfg.flows[run.versionId], run.steps, claims)
    ensures var run' := run.(steps := run.steps[i := s]);
      Straight(cfg, run') ==> Walking(cfg.flows[run'.versionId], run'.steps, AfterClaim(claims, i))
  {
    if Straight(cfg, run.(steps := run.steps[i := s])) {
      WasStraight(cfg, run, run.(steps := run.steps[i := s]), i);
      ReadyIsFirst(run, i, now);
      var flow := cfg.flows[run.versionId];
      var path :| OnWalk(flow, run.steps, path) && ClaimedAlong(run.steps, path, claims);
      hide OnWalk;
      hide WellShaped;
      hide Walking;
      ClaimOnWalk(flow, run.steps, path, i, s, claims);
    }
  }

  /** A worker holding a run_step message, and what claiming it logs. */
  lemma ClaimShape(cfg: Config, world: World, w: WorkerId)
    requires TokenInv(world)
    requires w < |world.workers| && world.workers[w].phase.Idle? && world.workers[w].batch != []
    requires world.workers[w].batch[0].topic.RunStep?
    ensures var m := world.workers[w].batch[0];
      var r, i := m.runId, m.topic.step;
      var world' := ApplyProcess(cfg, world, w);
      && r in world.db.runs && StepReady(world.db.runs[r], i, world.db.now)
      && ((world'.db.runs == world.db.runs && world'.log == world.log + [Consumed(r)])
          || (&& world'.db.runs == world.db.runs[r := world.db.runs[r].(steps :=
                   world.db.runs[r].steps[i := ClaimRow(world.db.runs[r].steps[i], w, world.db.now + cfg.leaseMs)])]
              && world'.log == world.log + [Consumed(r)] + [ClaimedStep(r, i)]))
  {
    assert world.workers[w].batch[0] in world.workers[w].batch;
    hide OverLimit;
  }

  lemma ClaimKeepsMeaning(cfg: Config, world: World, w: WorkerId)
    requires TokenInv(world) && MeaningInv(cfg, world)
    requires w < |world.workers| && world.workers[w].phase.Idle? && world.workers[w].batch != []
    requires world.workers[w].batch[0].topic.RunStep?
    ensures MeaningInv(cfg, ApplyProcess(cfg, world, w))
  {
    var m := world.workers[w].batch[0];
    var r, i := m.runId, m.topic.step;
    var world' := ApplyProcess(cfg, world, w);
    ClaimShape(cfg, world, w);
    var run := world.db.runs[r];
    assert MeaningAt(cfg, world, r);
    var s := ClaimRow(run.steps[i], w, world.db.now + cfg.leaseMs);
    assert s.status.Running? && s.nodeId == run.steps[i].nodeId;
    hide TokenInv;
    hide ApplyProcess;
    hide ClaimRow;
    hide StepReady;
    hide Straight;
    hide Walking;
    ClaimWalks(cfg, run, i, s, world.db.now, DistinctClaims(world.log, r));
    forall q
      ensures DistinctClaims(world.log + [Consumed(r)], q) == DistinctClaims(world.log, q)
      ensures DistinctClaims(world.log + [Consumed(r)] + [ClaimedStep(r, i)], q)
           == if q == r then AfterClaim(DistinctClaims(world.log, r), i) else DistinctClaims(world.log, q)
    {
      ClaimsSnoc(world.log, Consumed(r), q);
      ClaimsSnoc(world.log + [Consumed(r)], ClaimedStep(r, i), q);
    }
    hide DistinctClaims;
    hide AfterClaim;
    MeaningFrom(cfg, world, world', r);
  }

  lemma AdvanceKeepsMeaning(cfg: Config, world: World, w: WorkerId)
    requires MeaningInv(cfg, world)
    requires w < |world.workers| && world.workers[w].phase.Idle? && world.workers[w].batch != []
    requires world.workers[w].batch[0].topic.AdvanceRun?
    ensures MeaningInv(cfg, ApplyProcess(cfg, world, w))
  {
    var r := world.workers[w].batch[0].runId;
    var world' := ApplyProcess(cfg, world, w);
    forall q
      ensures DistinctClaims(world'.log, q) == DistinctClaims(world.log, q)
    {
      ClaimsSnoc(world.log, Consumed(r), q);
    }
    if r in world.db.runs {
      AdvanceSameWalk(world.db.runs[r], world.db.now);
    }
    hide AdvanceRow;
    hide Straight;
    hide Walking;
    forall q
      ensures MeaningAt(cfg, world', q)
    {
      assert MeaningAt(cfg, world, q);
      UntouchedKeepsMeaning(cfg, world, world', q);
    }
  }

  lemma AdvanceSameWalk(run: Run, now: int)
    ensures SameWalk(run, AdvanceRow(run, now).0)
  {
  }

  // ---- the run a result is recorded in ----

  lemma SuccessWalks(cfg: Config, run: Run, i: nat, output: Option<Output>, claims: seq<nat>)
    requires i < |run.steps| && run.steps[i].status.Running?
    requires Straight(cfg, run) ==> Walking(cfg.flows[run.versionId], run.steps, claims)
    ensures run.versionId in cfg.flows ==>
      var flow := cfg.flows[run.versionId];
      var run' := run.(steps := MarkSkipped(run.steps[i := SucceedRow(run.steps[i], output)],
                                            AbandonedBy(flow, run.steps[i].nodeId, output)));
      Straight(cfg, run') ==> Walking(flow, run'.steps, claims)
  {
    if run.versionId in cfg.flows {
      var flow := cfg.flows[run.versionId];
      var mid := run.steps[i := SucceedRow(run.steps[i], output)];
      var rows := MarkSkipped(mid, AbandonedBy(flow, run.steps[i].nodeId, output));
      var run' := run.(steps := rows);
      if Straight(cfg, run') {
        WasStraight(cfg, run, run', i);
        assert rows[i] == SucceedRow(run.steps[i], output);
        assert HonestAt(flow.edges, rows[i].nodeId, rows[i].output);
        var path :| OnWalk(flow, run.steps, path) && ClaimedAlong(run.steps, path, claims);
        OnlyLastIsBusy(flow, run.steps, path, i);
        var path' := SucceedOnWalk(flow, run.steps, path, output);
        assert ClaimedAlong(rows, path', claims);
      }
    }
  }

  lemma FailureWalks(cfg: Config, run: Run, i: nat, s: StepRow, claims: seq<nat>)
    requires i < |run.steps| && run.steps[i].status.Running? && s.nodeId == run.steps[i].nodeId
    requires s.status.Failed? || s.status.WaitingConfirmation?
    requires Straight(cfg, run) ==> Walking(cfg.flows[run.versionId], run.steps, claims)
    ensures var run' := run.(steps := run.steps[i := s]);
      Straight(cfg, run') ==> Walking(cfg.flows[run.versionId], run'.steps, claims)
  {
    var run' := run.(steps := run.steps[i := s]);
    if Straight(cfg, run') {
      assert run'.steps[i] in run'.steps && !Paused(s);
      WasStraight(cfg, run, run', i);
      var flow := cfg.flows[run.versionId];
      var path :| OnWalk(flow, run.steps, path) && ClaimedAlong(run.steps, path, claims);
      FailureOnWalk(flow, run.steps, path, i, s, claims);
      hide *;
    }
  }

  /** A failure leaves the walk where it stands. */
  lemma FailureOnWalk(flow: FlowDefinition, steps: seq<StepRow>, path: seq<nat>, i: nat, s: StepRow, claims: seq<nat>)
    requires WellShaped(flow) && OnWalk(flow, steps, path) && ClaimedAlong(steps, path, claims)
    requires i < |steps| && steps[i].status.Running? && s.status.Failed? && s.nodeId == steps[i].nodeId
    ensures Walking(flow, steps[i := s], claims)
  {
    OnlyLastIsBusy(flow, steps, path, i);
    StayOnWalk(flow, steps, path, s);
    hide OnWalk;
    hide WellShaped;
    assert ClaimedAlong(steps[i := s], path, claims);
  }

  ghost predicate WalksOn(cfg: Config, run: Run, claims: seq<nat>) {
    Straight(cfg, run) ==> Walking(cfg.flows[run.versionId], run.steps, claims)
  }

  lemma SameWalksOn(cfg: Config, a: Run, b: Run, claims: seq<nat>)
    requires SameWalk(a, b) && WalksOn(cfg, a, claims)
    ensures WalksOn(cfg, b, claims)
  {
    hide Walking;
  }

  lemma SuccessWalksOn(cfg: Config, db: Db, w: WorkerId, p: Phase, outcome: Outcome, draw: Backoff.Draw,
                       claims: seq<nat>)
    requires p.Executing? && IsStep(db, p.runId, p.step) && db.runs[p.runId].steps[p.step] == p.row && OwnedBy(p.row, w)
    requires WalksOn(cfg, db.runs[p.runId], claims)
    requires db.runs[p.runId].versionId in cfg.flows && outcome.Success?
    ensures var db' := RecordInto(cfg, db, w, p, outcome, draw);
      p.runId in db'.runs && WalksOn(cfg, db'.runs[p.runId], claims)
  {
    hide RecordInto;
    hide AbandonedBy;
    hide Straight;
    hide Walking;
    var run := db.runs[p.runId];
    SuccessWalks(cfg, run, p.step, outcome.output, claims);
    SuccessRewrites(cfg, db, w, p, outcome, draw);
    var flow := cfg.flows[run.versionId];
    var walked := run.(steps := MarkSkipped(run.steps[p.step := SucceedRow(run.steps[p.step], outcome.output)],
                                            AbandonedBy(flow, run.steps[p.step].nodeId, outcome.output)));
    assert WalksOn(cfg, walked, claims);
    SameWalksOn(cfg, walked, RecordInto(cfg, db, w, p, outcome, draw).runs[p.runId], claims);
  }

  lemma FailureRewrites(cfg: Config, db: Db, w: WorkerId, p: Phase, outcome: Outcome, draw: Backoff.Draw)
    requires p.Executing? && IsStep(db, p.runId, p.step) && db.runs[p.runId].steps[p.step] == p.row && OwnedBy(p.row, w)
    requires db.runs[p.runId].versionId !in cfg.flows || outcome.Failure?
    ensures var db' := RecordInto(cfg, db, w, p, outcome, draw);
      && p.runId in db'.runs && db'.runs == db.runs[p.runId := db'.runs[p.runId]]
      && p.step < |db'.runs[p.runId].steps|
      && var s := db'.runs[p.runId].steps[p.step];
      && (s.status.Failed? || s.status.WaitingConfirmation?) && s.nodeId == p.row.nodeId
      && SameWalk(db.runs[p.runId].(steps := db.runs[p.runId].steps[p.step := s]), db'.runs[p.runId])
  {
    hide AbandonedBy;
    FailedOrPaused(p.row, draw, db.now, cfg.policy);
    hide DecideFailure;
  }

  /** What a record leaves: the run's walk goes on, every other run is untouched. */
  lemma RecordWalks(cfg: Config, db: Db, w: WorkerId, p: Phase, outcome: Outcome, draw: Backoff.Draw, claims: seq<nat>)
    requires p.Executing? && IsStep(db, p.runId, p.step) && db.runs[p.runId].steps[p.step] == p.row && OwnedBy(p.row, w)
    requires WalksOn(cfg, db.runs[p.runId], claims)
    ensures var db' := RecordInto(cfg, db, w, p, outcome, draw);
      && p.runId in db'.runs && db'.runs == db.runs[p.runId := db'.runs[p.runId]]
      && WalksOn(cfg, db'.runs[p.runId], claims)
  {
    hide RecordInto;
    hide AbandonedBy;
    hide Straight;
    hide Walking;
    var run := db.runs[p.runId];
    if run.versionId in cfg.flows && outcome.Success? {
      SuccessRewrites(cfg, db, w, p, outcome, draw);
      SuccessWalksOn(cfg, db, w, p, outcome, draw, claims);
    } else {
      FailureRewrites(cfg, db, w, p, outcome, draw);
      var run' := RecordInto(cfg, db, w, p, outcome, draw).runs[p.runId];
      FailureWalks(cfg, run, p.step, run'.steps[p.step], claims);
      var walked := run.(steps := run.steps[p.step := run'.steps[p.step]]);
      assert WalksOn(cfg, walked, claims);
      SameWalksOn(cfg, walked, run', claims);
    }
  }

  lemma SuccessRewrites(cfg: Config, db: Db, w: WorkerId, p: Phase, outcome: Outcome, draw: Backoff.Draw)
    requires p.Executing? && IsStep(db, p.runId, p.step) && db.runs[p.runId].steps[p.step] == p.row && OwnedBy(p.row, w)
    requires db.runs[p.runId].versionId in cfg.flows && outcome.Success?
    ensures var db' := RecordInto(cfg, db, w, p, outcome, draw);
      var run := db.runs[p.runId];
      && p.runId in db'.runs && db'.runs == db.runs[p.runId := db'.runs[p.runId]]
      && db'.runs[p.runId].versionId == run.versionId && db'.runs[p.runId].attemptGroup == run.attemptGroup
      && db'.runs[p.runId].steps == MarkSkipped(run.steps[p.step := SucceedRow(p.row, outcome.output)],
                                                AbandonedBy(cfg.flows[run.versionId], p.row.nodeId, outcome.output))
  {
    hide AbandonedBy;
  }

  lemma FailedOrPaused(row: StepRow, draw: Backoff.Draw, now: int, policy: Backoff.BackoffPolicy)
    ensures forall c, idem, asked ::
      var rec := DecideFailure(row, c, idem, asked, draw, now, policy);
      rec.status.Failed? || rec.status.WaitingConfirmation?
  {
  }

  lemma RecordKeepsMeaning(cfg: Config, world: World, w: WorkerId, outcome: Outcome, draw: Backoff.Draw)
    requires Inv(world) && TokenInv(world) && MeaningInv(cfg, world)
    ensures MeaningInv(cfg, ApplyRecord(cfg, world, w, outcome, draw))
  {
    if && w < |world.workers| && world.workers[w].phase.Executing?
       && (outcome.Success? ==> world.workers[w].phase.effectDone)
    {
      var p := world.workers[w].phase;
      var next := ApplyRecord(cfg, world, w, outcome, draw);
      HolderRow(world, w);
      assert MeaningAt(cfg, world, p.runId);
      assert next.db == RecordInto(cfg, world.db, w, p, outcome, draw) && next.log == world.log by { hide RecordInto; }
      hide *;
      RecordWalks(cfg, world.db, w, p, outcome, draw, DistinctClaims(world.log, p.runId)) by {
        KnownMeaning(cfg, world, p.runId);
      }
      RecordedMeaning(cfg, world, next, p.runId);
    }
  }

  /** What a worker executes is its row, still its own. */
  lemma HolderRow(world: World, w: WorkerId)
    requires Inv(world) && TokenInv(world) && w < |world.workers| && world.workers[w].phase.Executing?
    ensures var p := world.workers[w].phase;
      IsStep(world.db, p.runId, p.step) && world.db.runs[p.runId].steps[p.step] == p.row && OwnedBy(p.row, w)
  {
    var p := world.workers[w].phase;
    assert Fenced(world.db, w, p) && PhaseOk(world.db, w, p);
  }

  lemma KnownMeaning(cfg: Config, world: World, r: RunId)
    requires MeaningAt(cfg, world, r) && r in world.db.runs
    ensures WalksOn(cfg, world.db.runs[r], DistinctClaims(world.log, r))
  {
    hide Straight;
    hide Walking;
  }

  /** Only run r was rewritten and its walk goes on. */
  lemma RecordedMeaning(cfg: Config, world: World, next: World, r: RunId)
    requires MeaningInv(cfg, world) && next.log == world.log
    requires r in world.db.runs && r in next.db.runs && next.db.runs == world.db.runs[r := next.db.runs[r]]
    requires WalksOn(cfg, next.db.runs[r], DistinctClaims(world.log, r))
    ensures MeaningInv(cfg, next)
  {
    hide Straight;
    hide Walking;
    hide DistinctClaims;
    MeaningFrom(cfg, world, next, r);
  }

  // ---- the other actions ----

  /** A creation adds at most the new run, all of it pending, and claims nothing. */
  lemma CreateShape(world: World, input: CreateRunInput, newId: RunId, raced: bool)
    ensures var world' := ApplyCreate(world, input, newId, raced);
      && (forall q :: DistinctClaims(world'.log, q) == DistinctClaims(world.log, q))
      && (forall q :: q != newId || q in world.db.runs ==>
            (q in world.db.runs <==> q in world'.db.runs)
              && (q in world.db.runs ==> world'.db.runs[q] == world.db.runs[q]))
      && (newId !in world.db.runs && newId in world'.db.runs ==>
            forall i :: 0 <= i < |world'.db.runs[newId].steps| ==> world'.db.runs[newId].steps[i].status.Pending?)
  {
    var world' := ApplyCreate(world, input, newId, raced);
    forall q
      ensures DistinctClaims(world'.log, q) == DistinctClaims(world.log, q)
    {
      ClaimsSnoc(world.log, CreatedRun(newId, KeyOf(input)), q);
    }
    hide DistinctClaims;
  }

  lemma CreateKeepsMeaning(cfg: Config, world: World, input: CreateRunInput, newId: RunId, raced: bool)
    requires MeaningInv(cfg, world)
    ensures MeaningInv(cfg, ApplyCreate(world, input, newId, raced))
  {
    var world' := ApplyCreate(world, input, newId, raced);
    CreateShape(world, input, newId, raced);
    assert MeaningAt(cfg, world, newId);
    hide ApplyCreate;
    hide DistinctClaims;
    hide Straight;
    hide Walking;
    if newId !in world.db.runs && newId in world'.db.runs {
      FreshWalks(cfg, world'.db.runs[newId]);
    }
    MeaningFrom(cfg, world, world', newId);
  }

  lemma FreshWalks(cfg: Config, run: Run)
    requires forall i :: 0 <= i < |run.steps| ==> run.steps[i].status.Pending?
    ensures WalksOn(cfg, run, [])
  {
    if Straight(cfg, run) {
      var flow := cfg.flows[run.versionId];
      FreshOnWalk(flow, run.steps);
      assert ClaimedAlong(run.steps, [0], []);
      assert OnWalk(flow, run.steps, [0]);
      hide OnWalk;
    }
  }

  lemma ResumeKeepsMeaning(cfg: Config, world: World, r: RunId, n: NodeId, world': World)
    requires MeaningInv(cfg, world) && Resume(world.db, r, n).Ok?
    requires world'.db.runs == Resume(world.db, r, n).value.runs && world'.log == world.log
    ensures MeaningInv(cfg, world')
  {
    assert world'.db.runs[r].attemptGroup > 0;
    hide Walking;
    MeaningFrom(cfg, world, world', r);
  }

  lemma StepKeepsMeaning(cfg: Config, world: World, a: Action)
    requires Inv(world) && TokenInv(world) && MeaningInv(cfg, world)
    requires Disciplined(a)
    ensures MeaningInv(cfg, Apply(cfg, world, a))
  {
    hide Inv;
    hide TokenInv;
    hide MeaningInv;
    match a {
      case Create(input, newId, raced) => CreateKeepsMeaning(cfg, world, input, newId, raced);
      case Process(w) =>
        if w < |world.workers| && world.workers[w].phase.Idle? && world.workers[w].batch != [] {
          if world.workers[w].batch[0].topic.AdvanceRun? {
            AdvanceKeepsMeaning(cfg, world, w);
          } else {
            ClaimKeepsMeaning(cfg, world, w);
          }
        }
      case Record(w, outcome, draw) => RecordKeepsMeaning(cfg, world, w, outcome, draw);
      case ResumeFrom(r, n) =>
        if Resume(world.db, r, n).Ok? {
          ResumeKeepsMeaning(cfg, world, r, n, Apply(cfg, world, a));
        }
      case Replay(e) =>
        if ReplayDlqEntry(world.db, e).Ok? {
          ResumeKeepsMeaning(cfg, world, world.db.dlq[e].runId, world.db.dlq[e].nodeId, Apply(cfg, world, a));
        }
      case _ => AllUntouched(cfg, world, Apply(cfg, world, a));
    }
  }

  lemma StartMeaning(cfg: Config, now: int, n: nat)
    ensures MeaningInv(cfg, Start(now, n))
  {
  }

  lemma {:induction false} ExecKeepsMeaning(cfg: Config, world: World, actions: seq<Action>)
    requires Inv(world) && TokenInv(world) && MeaningInv(cfg, world) && Orderly(world, actions)
    ensures MeaningInv(cfg, Exec(cfg, world, actions))
    decreases |actions|
  {
    hide Inv;
    hide TokenInv;
    hide MeaningInv;
    hide Orderly;
    hide Apply;
    if actions != [] {
      var n := |actions| - 1;
      OrderlyPrefix(world, actions);
      ExecKeepsMeaning(cfg, world, actions[..n]);
      ExecKeepsTokens(cfg, world, actions[..n]);
      StepKeepsMeaning(cfg, Exec(cfg, world, actions[..n]), actions[n]);
    }
  }

  // ---- the theorems ----

  lemma WalkInv(cfg: Config, world: World)
    requires DisciplinedReach(cfg, world)
    ensures Sound(world) && MeaningInv(cfg, world)
  {
    DisciplinedIsSound(cfg, world);
    hide Inv;
    hide TokenInv;
    hide MeaningInv;
    var now, n, actions :|
      (forall a :: a in actions ==> Disciplined(a)) && world == Exec(cfg, Start(now, n), actions);
    StartInv(now, n);
    StartTokens(now, n);
    StartMeaning(cfg, now, n);
    hide StrayFree;
    ExecKeepsMeaning(cfg, Start(now, n), actions);
  }

  /**
   * Meaning preservation. A run that was never resumed, has nothing paused and
   * whose succeeded branches all said which way they went stands on one walk of
   * its graph: the steps claimed so far are that walk's nodes in order, every
   * node behind has succeeded, and a row off the walk is pending exactly if the
   * walk's last node can still lead to it, otherwise skipped.
   */
  lemma ClaimsWalkTheGraph(cfg: Config, world: World, r: RunId) returns (path: seq<nat>)
    requires DisciplinedReach(cfg, world)
    requires r in world.db.runs && Straight(cfg, world.db.runs[r])
    ensures var flow, steps := cfg.flows[world.db.runs[r].versionId], world.db.runs[r].steps;
      && OnWalk(flow, steps, path)
      && ClaimedAlong(steps, path, DistinctClaims(world.log, r))
      && (forall other :: IsWalk(flow, steps, other) && |other| == |path| ==> other == path)
  {
    WalkInv(cfg, world);
    assert MeaningAt(cfg, world, r);
    hide Inv;
    hide TokenInv;
    hide MeaningInv;
    hide DisciplinedReach;
    var flow, steps := cfg.flows[world.db.runs[r].versionId], world.db.runs[r].steps;
    path :| OnWalk(flow, steps, path) && ClaimedAlong(steps, path, DistinctClaims(world.log, r));
    forall other | IsWalk(flow, steps, other) && |other| == |path|
      ensures other == path
    {
      WalkUnique(flow, steps, other, path);
    }
  }

  /** A succeeded run walked to an end of its graph and skipped exactly what lies off that path. */
  lemma SuccessWalkedToAnEnd(cfg: Config, world: World, r: RunId) returns (path: seq<nat>)
    requires DisciplinedReach(cfg, world)
    requires r in world.db.runs && Straight(cfg, world.db.runs[r]) && world.db.runs[r].status.Succeeded?
    ensures var flow, steps := cfg.flows[world.db.runs[r].versionId], world.db.runs[r].steps;
      && IsWalk(flow, steps, path) && IsEnd(flow.edges, flow.nodes[path[|path| - 1]].id)
      && DistinctClaims(world.log, r) == path
      && (forall i :: 0 <= i < |steps| ==> (steps[i].status.Succeeded? <==> i in path))
      && (forall i :: 0 <= i < |steps| ==> (steps[i].status.Skipped? <==> i !in path))
  {
    path := ClaimsWalkTheGraph(cfg, world, r);
    WalkInv(cfg, world);
    assert RunOk(r, world.db.runs[r]);
    hide Inv;
    hide TokenInv;
    hide MeaningInv;
    hide DisciplinedReach;
    AllDoneOnWalk(cfg.flows[world.db.runs[r].versionId], world.db.runs[r].steps, path);
    assert path[|path| - 1] in path;
  }
}
