// The queue is disposable: from any reachable state, with messages lost or
// duplicated and workers in the middle of steps, working to quiet, waiting, one
// full sweep and working to quiet again stops every run.
module Recovery {
  import opened Options
  import opened ErrorClasses
  import opened EngineTypes
  import opened EngineRows
  import opened EngineDb
  import opened World
  import opened RowInvariants
  import opened Safety
  import opened Interleavings
  import opened TokenDiscipline
  import opened TokenSteps
  import opened TokenGuarantees
  import opened Budgets
  import opened TokenMoves
  import opened Accounts
  import opened WorkerMoves
  import opened Schedules
  import opened Coverage
  import Backoff

  // ---- one sweep ----

  /** The row limits were not reached: everything stuck was chosen. */
  ghost predicate SweepComplete(db: Db, chosen: seq<RunId>) {
    SweepChoice(db, chosen) && forall r :: r in db.runs && SweepEligible(db, r) ==> r in chosen
  }

  /** After a full sweep nothing live is forgotten: it has a message or somebody holds its lease. */
  lemma SweepCoversLiveRuns(db: Db, chosen: seq<RunId>, r: RunId)
    requires SweepComplete(db, chosen)
    requires r in db.runs && RunIsLive(db.runs[r].status)
    ensures HasMessage(Sweep(db, chosen).outbox, r) || HoldsLease(db.runs[r], db.now)
  {
    var ms := AdvanceMessages(chosen, db.now);
    if HasMessage(db.outbox, r) {
      var m :| m in db.outbox && m.runId == r;
      assert m in Sweep(db, chosen).outbox;
    } else if !HoldsLease(db.runs[r], db.now) {
      assert Stranded(db, r);
      var i :| 0 <= i < |chosen| && chosen[i] == r;
      assert ms[i] in Sweep(db, chosen).outbox;
    }
  }

  // ---- runs of actions ----

  lemma {:induction false} ExecConcat(cfg: Config, world: World, a: seq<Action>, b: seq<Action>)
    ensures Exec(cfg, world, a + b) == Exec(cfg, Exec(cfg, world, a), b)
    decreases |b|
  {
    hide Apply;
    if b == [] {
      assert a + b == a;
    } else {
      var n := |b| - 1;
      ExecConcat(cfg, world, a, b[..n]);
      assert (a + b)[..|a + b| - 1] == a + b[..n];
    }
  }

  // ---- a full sweep of a quiet queue ----

  predicate ExpiredBy(s: StepRow, t: int) {
    && (s.leaseExpiresAt.Some? ==> s.leaseExpiresAt.value < t)
    && (s.nextAttemptAt.Some? ==> s.nextAttemptAt.value <= t)
  }

  lemma {:induction false} StepsHorizon(steps: seq<StepRow>, now: int) returns (t: int)
    ensures t >= now && forall i :: 0 <= i < |steps| ==> ExpiredBy(steps[i], t)
  {
    if steps == [] {
      t := now;
    } else {
      var s := steps[|steps| - 1];
      t := StepsHorizon(steps[..|steps| - 1], now);
      t := Max(t, Max(s.leaseExpiresAt.GetOr(now) + 1, s.nextAttemptAt.GetOr(now)));
    }
  }

  lemma {:induction false} RunsHorizon(runs: map<RunId, Run>, keys: set<RunId>, now: int) returns (t: int)
    requires keys <= runs.Keys
    ensures t >= now
    ensures forall r, i :: r in keys && 0 <= i < |runs[r].steps| ==> ExpiredBy(runs[r].steps[i], t)
  {
    if r :| r in keys {
      var a := RunsHorizon(runs, keys - {r}, now);
      var b := StepsHorizon(runs[r].steps, now);
      t := Max(a, b);
    } else {
      t := now;
    }
  }

  lemma {:induction false} Listing(s: set<RunId>) returns (l: seq<RunId>)
    ensures forall x :: x in l <==> x in s
    ensures forall i, j :: 0 <= i < j < |l| ==> l[i] != l[j]
  {
    if x :| x in s {
      l := Listing(s - {x});
      l := l + [x];
    } else {
      l := [];
    }
  }

  lemma {:induction false} CountListed(l: seq<RunId>, now: int, r: RunId)
    requires forall i, j :: 0 <= i < j < |l| ==> l[i] != l[j]
    ensures CountMsgs(AdvanceMessages(l, now), r) == if r in l then 1 else 0
  {
    if l != [] {
      var n := |l| - 1;
      assert AdvanceMessages(l, now)[..n] == AdvanceMessages(l[..n], now);
      CountListed(l[..n], now, r);
      assert r in l <==> r in l[..n] || r == l[n];
    }
  }

  lemma ExpiredRunReady(r: RunId, run: Run, now: int)
    requires RunOk(r, run) && forall i :: 0 <= i < |run.steps| ==> ExpiredBy(run.steps[i], now)
    ensures RunReady(run, now, now)
  {
    forall s | s in run.steps
      ensures Ripe(s, now, now)
    {
      var i :| 0 <= i < |run.steps| && run.steps[i] == s;
      assert RowOk(run.steps[i]);
    }
  }

  predicate AllExpired(db: Db) {
    forall r, i :: r in db.runs && 0 <= i < |db.runs[r].steps| ==> ExpiredBy(db.runs[r].steps[i], db.now)
  }

  lemma LiveIsStranded(world: World, r: RunId)
    requires Quiescent(world) && AllExpired(world.db) && IsLive(world.db, r)
    ensures SweepEligible(world.db, r)
  {
    var run := world.db.runs[r];
    forall s | s in run.steps
      ensures ExpiredBy(s, world.db.now)
    {
      var i :| 0 <= i < |run.steps| && run.steps[i] == s;
    }
    assert Stranded(world.db, r);
  }

  lemma SweptOutbox(world: World, chosen: seq<RunId>)
    requires Quiescent(world)
    ensures Sweep(world.db, chosen) == world.db.(outbox := AdvanceMessages(chosen, world.db.now))
  {
    assert world.db.outbox == [];
    assert [] + AdvanceMessages(chosen, world.db.now) == AdvanceMessages(chosen, world.db.now);
  }

  lemma SweptTokens(world: World, chosen: seq<RunId>, r: RunId)
    requires Quiescent(world) && forall i, j :: 0 <= i < j < |chosen| ==> chosen[i] != chosen[j]
    ensures Tokens(world.(db := Sweep(world.db, chosen)), r) == if r in chosen then 1 else 0
  {
    SweptOutbox(world, chosen);
    NoWorkerTokens(world.workers, r);
    hide Sweep;
    hide CountMsgs;
    hide SumWorkers;
    hide Quiescent;
    CountListed(chosen, world.db.now, r);
  }

  lemma SweptMessage(db: Db, chosen: seq<RunId>, i: nat)
    requires RunsOk(db) && AllExpired(db) && i < |chosen| && chosen[i] in db.runs
    ensures MsgOk(Sweep(db, chosen), AdvanceMessages(chosen, db.now)[i])
  {
    var r := chosen[i];
    assert RunOk(r, db.runs[r]);
    ExpiredRunReady(r, db.runs[r], db.now);
    hide RunOk;
    hide RunReady;
    hide ExpiredBy;
  }

  /**
   * Once every lease and delay has run out, a full sweep of an empty queue gives
   * every live run its one token. It may wake stopped runs that died with a step
   * running; they get one too.
   */
  lemma SweepRestoresTokens(world: World, chosen: seq<RunId>)
    requires Inv(world) && Quiescent(world) && AllExpired(world.db) && SweepComplete(world.db, chosen)
    ensures var swept := world.(db := Sweep(world.db, chosen));
      && TokenInv(swept) && Scheduled(swept)
      && (forall r :: IsLive(swept.db, r) ==> HasMessage(swept.db.outbox, r))
      && (forall m :: m in swept.db.outbox ==> m.topic.AdvanceRun?)
  {
    assert RunsOk(world.db);
    hide Inv;
    hide RunsOk;
    hide AllExpired;
    hide MsgOk;
    hide Sweep;
    hide Tokens;
    hide Stranded;
    hide HasExpiredLease;
    hide Overdue;
    hide HasMessage;
    var swept := world.(db := Sweep(world.db, chosen));
    SweptOutbox(world, chosen);
    SweptMessages(world, chosen);
    forall r
      ensures RunTokenOk(swept, r) && (IsLive(world.db, r) ==> Tokens(swept, r) == 1)
    {
      SweptTokens(world, chosen, r);
      if IsLive(world.db, r) {
        LiveIsStranded(world, r);
      }
    }
  }

  lemma SweptMessages(world: World, chosen: seq<RunId>)
    requires RunsOk(world.db) && Quiescent(world) && AllExpired(world.db) && SweepComplete(world.db, chosen)
    ensures var db := Sweep(world.db, chosen);
      && (forall r :: IsLive(db, r) ==> HasMessage(db.outbox, r))
      && (forall m :: m in db.outbox ==> MsgOk(db, m) && m.topic.AdvanceRun?)
  {
    hide RunsOk;
    hide AllExpired;
    hide MsgOk;
    hide Sweep;
    hide Stranded;
    hide HasExpiredLease;
    hide Overdue;
    var db := Sweep(world.db, chosen);
    SweptOutbox(world, chosen);
    forall m | m in db.outbox
      ensures MsgOk(db, m) && m.topic.AdvanceRun?
    {
      var i :| 0 <= i < |chosen| && AdvanceMessages(chosen, world.db.now)[i] == m;
      ChosenKnown(world.db, chosen, i);
      SweptMessage(world.db, chosen, i);
    }
    forall r | IsLive(db, r)
      ensures HasMessage(db.outbox, r)
    {
      LiveIsStranded(world, r);
      var i :| 0 <= i < |chosen| && chosen[i] == r;
      assert AdvanceMessages(chosen, world.db.now)[i] in db.outbox;
    }
  }

  lemma ChosenKnown(db: Db, chosen: seq<RunId>, i: nat)
    requires SweepChoice(db, chosen) && i < |chosen|
    ensures chosen[i] in db.runs
  {
    assert chosen[i] in chosen;
    hide HasExpiredLease;
    hide Overdue;
    hide Stranded;
  }

  /** Such a sweep covers every live run, and every row. */
  lemma SweepCovers(world: World, chosen: seq<RunId>)
    requires Inv(world) && Quiescent(world) && AllExpired(world.db) && SweepComplete(world.db, chosen)
    ensures CoverInv(world.(db := Sweep(world.db, chosen)))
  {
    var swept := world.(db := Sweep(world.db, chosen));
    assert RunsOk(world.db);
    SweptMessages(world, chosen);
    SweepShape(world.db, chosen);
    hide Inv;
    hide Sweep;
    hide SweepComplete;
    forall r | IsLive(swept.db, r)
      ensures Covered(swept, r)
    {
      assert HasMessage(swept.db.outbox, r);
      var m :| m in swept.db.outbox && m.runId == r;
      assert InQueue(swept, r, m);
    }
    hide Covered;
    forall r, i: nat | IsStep(swept.db, r, i)
      ensures RowCovered(swept, r, i)
    {
      assert RunOk(r, world.db.runs[r]) && RowOk(world.db.runs[r].steps[i]);
      assert ExpiredBy(world.db.runs[r].steps[i], world.db.now);
      hide RunOk;
    }
  }

  lemma SweepShape(db: Db, chosen: seq<RunId>)
    ensures Sweep(db, chosen).runs == db.runs && Sweep(db, chosen).now == db.now
  {
  }

  lemma ExpiredNoLeases(db: Db)
    requires AllExpired(db)
    ensures NoLeases(db)
  {
    forall r, i | r in db.runs && 0 <= i < |db.runs[r].steps|
      ensures !LiveLease(db.runs[r].steps[i], db.now)
    {
      assert ExpiredBy(db.runs[r].steps[i], db.now);
    }
  }

  /** A quiet state, the clock moved past every lease and delay, and one full sweep. */
  ghost predicate QuietSweep(cfg: Config, quiet: World, ms: nat, chosen: seq<RunId>, swept: World) {
    && Quiescent(quiet)
    && AllExpired(Apply(cfg, quiet, Tick(ms)).db)
    && SweepComplete(Apply(cfg, quiet, Tick(ms)).db, chosen)
    && swept == Apply(cfg, Apply(cfg, quiet, Tick(ms)), SweepRuns(chosen))
  }

  /** Without limits, or with one worker and limits that admit a step. */
  predicate Admits(cfg: Config, world: World) {
    cfg.limits.None? || (LimitsAdmit(cfg) && |world.workers| == 1)
  }

  lemma UnleasedIsFree(cfg: Config, world: World)
    requires Admits(cfg, world) && NoLeases(world.db)
    ensures Free(cfg, world)
  {
    hide LiveLease;
  }

  lemma SweptIsGood(cfg: Config, quiet: World, ms: nat, chosen: seq<RunId>, swept: World)
    requires Inv(quiet) && QuietSweep(cfg, quiet, ms, chosen, swept)
    ensures Inv(swept) && CoverInv(swept) && NoLeases(swept.db)
    ensures TokenInv(swept) && Scheduled(swept)
    ensures swept.db.runs == quiet.db.runs && swept.workers == quiet.workers && swept.log == quiet.log
  {
    var later := Apply(cfg, quiet, Tick(ms));
    hide Inv;
    hide TokenInv;
    hide CoverInv;
    hide Scheduled;
    StepKeepsInv(cfg, quiet, Tick(ms));
    SweepRestoresTokens(later, chosen);
    SweepCovers(later, chosen);
    StepKeepsInv(cfg, later, SweepRuns(chosen));
    hide SweepComplete;
    hide Sweep;
    ExpiredNoLeases(later.db);
    SweepShape(later.db, chosen);
  }

  // ---- the theorems ----

  lemma LiveNotStopped(world: World, r: RunId)
    requires IsLive(world.db, r)
    ensures r in world.db.runs && !Stopped(world.db.runs[r])
  {
  }

  lemma TendKeepsKeys(cfg: Config, world: World, a: Action)
    requires Tends(a)
    ensures Apply(cfg, world, a).db.runs.Keys == world.db.runs.Keys
  {
    SameRunsAndKeys(cfg, world, a);
    hide Apply;
    assert forall r :: r in Apply(cfg, world, a).db.runs.Keys <==> r in world.db.runs.Keys;
  }

  lemma {:induction false} SameKeysLater(cfg: Config, world: World, actions: seq<Action>)
    requires forall a :: a in actions ==> Tends(a)
    ensures Exec(cfg, world, actions).db.runs.Keys == world.db.runs.Keys
    decreases |actions|
  {
    hide Apply;
    hide Tends;
    if actions != [] {
      var n := |actions| - 1;
      SameKeysLater(cfg, world, actions[..n]);
      TendKeepsKeys(cfg, Exec(cfg, world, actions[..n]), actions[n]);
    }
  }

  /** After the sweep: every schedule ends, and where it can do no more every run has stopped. */
  lemma AfterSweep(cfg: Config, quiet: World, ms: nat, chosen: seq<RunId>, swept: World, actions: seq<Action>)
    requires Inv(quiet) && QuietSweep(cfg, quiet, ms, chosen, swept) && |quiet.workers| > 0 && Admits(cfg, quiet)
    requires forall a :: a in actions ==> Tends(a)
    ensures var last := Exec(cfg, swept, actions);
      && MovesIn(cfg, swept, actions) <= Rank(swept) + SweptIn(cfg, swept, actions)
      && last.db.runs.Keys == quiet.db.runs.Keys
      && ((exists r :: IsLive(last.db, r)) ==> !Exhausted(last))
      && (Exhausted(last) ==> forall r :: r in quiet.db.runs ==> Stopped(last.db.runs[r]))
  {
    SweptIsGood(cfg, quiet, ms, chosen, swept);
    SameAdmits(cfg, quiet, swept);
    UnleasedIsFree(cfg, swept);
    hide *;
    var last := Exec(cfg, swept, actions);
    EveryScheduleEnds(cfg, swept, actions);
    ExecKeepsFree(cfg, swept, actions);
    ExecCovers(cfg, swept, actions);
    SameKeysLater(cfg, swept, actions);
    ExhaustedIsQuiet(last);
    forall r | r in quiet.db.runs
      ensures Exhausted(last) ==> Stopped(last.db.runs[r])
    {
      if Exhausted(last) {
        QuietCovered(last, r);
      }
    }
    forall r | IsLive(last.db, r)
      ensures !Exhausted(last)
    {
      LiveNotStopped(last, r);
      if Exhausted(last) {
        QuietCovered(last, r);
      }
    }
  }

  lemma SameAdmits(cfg: Config, a: World, b: World)
    requires Admits(cfg, a) && |b.workers| == |a.workers|
    ensures Admits(cfg, b)
  {
  }

  /**
   * Queue disposability. From any reachable state, whatever its workers hold and
   * its queue has lost or doubled, without limits or with one worker and limits
   * that admit a step: tend the runs to quiet, in any order and with any sweeps;
   * wait; sweep once in full; and tend them again, in any order and with any
   * further sweeps. Each schedule holds a bounded number of moves; while a run is
   * live a move is left; and where none is left every run has stopped.
   */
  lemma EveryRecoveryStops(cfg: Config, world: World, first: seq<Action>, ms: nat, chosen: seq<RunId>, swept: World,
                           second: seq<Action>)
    requires Reachable(cfg, world) && |world.workers| > 0 && Admits(cfg, world)
    requires (forall a :: a in first ==> Tends(a)) && (forall a :: a in second ==> Tends(a))
    requires QuietSweep(cfg, Exec(cfg, world, first), ms, chosen, swept)
    ensures Free(cfg, world) ==> MovesIn(cfg, world, first) <= Rank(world) + SweptIn(cfg, world, first)
    ensures var last := Exec(cfg, swept, second);
      && MovesIn(cfg, swept, second) <= Rank(swept) + SweptIn(cfg, swept, second)
      && last.db.runs.Keys == world.db.runs.Keys
      && ((exists r :: IsLive(last.db, r)) ==> !Exhausted(last))
      && (Exhausted(last) ==> forall r :: r in world.db.runs ==> Stopped(last.db.runs[r]))
  {
    hide *;
    ReachableInv(cfg, world);
    if Free(cfg, world) {
      EveryScheduleEnds(cfg, world, first);
    }
    TendsKeepInv(cfg, world, first);
    SameKeysLater(cfg, world, first);
    SameAdmits(cfg, world, Exec(cfg, world, first));
    AfterSweep(cfg, Exec(cfg, world, first), ms, chosen, swept, second);
  }

  lemma {:induction false} TendsKeepInv(cfg: Config, world: World, actions: seq<Action>)
    requires Inv(world) && forall a :: a in actions ==> Tends(a)
    ensures Inv(Exec(cfg, world, actions)) && |Exec(cfg, world, actions).workers| == |world.workers|
    decreases |actions|
  {
    hide Inv;
    hide Apply;
    hide Tends;
    if actions != [] {
      var n := |actions| - 1;
      TendsKeepInv(cfg, world, actions[..n]);
      StepKeepsInv(cfg, Exec(cfg, world, actions[..n]), actions[n]);
      SameWorkerCount(cfg, Exec(cfg, world, actions[..n]), actions[n]);
    }
  }

  /** With the queue flushed and every worker restarted there is nothing to tend first. */
  lemma QueueIsDisposable(cfg: Config, world: World, ms: nat, chosen: seq<RunId>, swept: World, actions: seq<Action>)
    requires Reachable(cfg, world) && |world.workers| > 0 && Admits(cfg, world)
    requires QuietSweep(cfg, world, ms, chosen, swept) && forall a :: a in actions ==> Tends(a)
    ensures var last := Exec(cfg, swept, actions);
      && MovesIn(cfg, swept, actions) <= Rank(swept) + SweptIn(cfg, swept, actions)
      && (Exhausted(last) ==> forall r :: r in world.db.runs ==> r in last.db.runs && Stopped(last.db.runs[r]))
  {
    hide *;
    ReachableInv(cfg, world);
    AfterSweep(cfg, world, ms, chosen, swept, actions);
  }

  /**
   * Unless something is swept on top, a run then consumes one message and two for each
   * attempt it has left, at most.
   */
  lemma RecoveryMessagesBounded(cfg: Config, quiet: World, ms: nat, chosen: seq<RunId>, swept: World,
                                actions: seq<Action>, r: RunId)
    requires cfg.limits.None? && Inv(quiet) && QuietSweep(cfg, quiet, ms, chosen, swept) && r in quiet.db.runs
    requires forall a :: a in actions ==> Working(a)
    ensures var last := Exec(cfg, swept, actions);
      Spent(last.log, r) - Spent(quiet.log, r) <= 1 + 2 * SumBudget(quiet.db.runs[r].steps)
  {
    SweptIsGood(cfg, quiet, ms, chosen, swept);
    assert Sound(swept);
    hide *;
    WorkingOrderly(swept, actions);
    FurtherMessagesBounded(cfg, swept, actions, r);
    SameGroupLater(cfg, swept, actions, r);
  }

  lemma ProcessKeepsGroup(cfg: Config, world: World, w: WorkerId, r: RunId)
    requires r in world.db.runs && r in ApplyProcess(cfg, world, w).db.runs
    ensures ApplyProcess(cfg, world, w).db.runs[r].attemptGroup == world.db.runs[r].attemptGroup
  {
    hide OverLimit;
    hide Claimable;
    if HasHead(world, w) && world.workers[w].batch[0].runId in world.db.runs {
      AdvanceKeepsGroup(world.db.runs[world.workers[w].batch[0].runId], world.db.now);
    }
    hide AdvanceRow;
  }

  lemma RecordedKeepsGroup(cfg: Config, world: World, w: WorkerId, outcome: Outcome, draw: Backoff.Draw, r: RunId)
    requires r in world.db.runs && r in ApplyRecord(cfg, world, w, outcome, draw).db.runs
    ensures ApplyRecord(cfg, world, w, outcome, draw).db.runs[r].attemptGroup == world.db.runs[r].attemptGroup
  {
    hide DecideFailure;
    hide AbandonedBy;
    hide OwnedBy;
    hide MarkSkipped;
  }

  lemma WorkKeepsGroup(cfg: Config, world: World, a: Action, r: RunId)
    requires Working(a) && r in world.db.runs && r in Apply(cfg, world, a).db.runs
    ensures Apply(cfg, world, a).db.runs[r].attemptGroup == world.db.runs[r].attemptGroup
  {
    hide ApplyProcess;
    hide ApplyRecord;
    match a {
      case Process(w) => ProcessKeepsGroup(cfg, world, w, r);
      case Record(w, outcome, draw) => RecordedKeepsGroup(cfg, world, w, outcome, draw, r);
      case _ =>
    }
  }

  lemma AdvanceKeepsGroup(run: Run, now: int)
    ensures AdvanceRow(run, now).0.attemptGroup == run.attemptGroup
  {
    hide NextRunnableStep;
  }

  lemma {:induction false} SameGroupLater(cfg: Config, world: World, actions: seq<Action>, r: RunId)
    requires (forall a :: a in actions ==> Working(a)) && r in world.db.runs
    ensures r in Exec(cfg, world, actions).db.runs
    ensures Exec(cfg, world, actions).db.runs[r].attemptGroup == world.db.runs[r].attemptGroup
    decreases |actions|
  {
    hide Apply;
    if actions != [] {
      var n := |actions| - 1;
      SameGroupLater(cfg, world, actions[..n], r);
      TendKeepsKeys(cfg, Exec(cfg, world, actions[..n]), actions[n]);
      WorkKeepsGroup(cfg, Exec(cfg, world, actions[..n]), actions[n], r);
    }
  }

  // ---- there is always such a recovery ----

  /** Waiting long enough frees every lease. */
  lemma WaitFrees(cfg: Config, world: World) returns (ms: nat)
    requires Admits(cfg, world)
    ensures AllExpired(Apply(cfg, world, Tick(ms)).db) && Free(cfg, Apply(cfg, world, Tick(ms)))
  {
    var t := RunsHorizon(world.db.runs, world.db.runs.Keys, world.db.now);
    ms := t - world.db.now;
    var later := Apply(cfg, world, Tick(ms));
    ExpiredNoLeases(later.db);
    hide AllExpired;
    hide NoLeases;
    UnleasedIsFree(cfg, later);
  }

  lemma OneTick(cfg: Config, world: World, ms: nat, oracle: Oracle)
    ensures Exec(cfg, world, [Tick(ms)]) == Apply(cfg, world, Tick(ms))
    ensures AllAnswer(cfg, world, [Tick(ms)], oracle) && Working(Tick(ms))
  {
    hide Apply;
    assert [Tick(ms)][..0] == [];
  }

  lemma AnsweredJoin(cfg: Config, world: World, a: seq<Action>, b: seq<Action>, oracle: Oracle)
    requires AllAnswer(cfg, world, a, oracle) && AllAnswer(cfg, Exec(cfg, world, a), b, oracle)
    ensures AllAnswer(cfg, world, a + b, oracle)
    decreases |b|
  {
    hide *;
    if b == [] {
      assert a + b == a;
    } else {
      var n := |b| - 1;
      AnswersLast(cfg, Exec(cfg, world, a), b, oracle);
      AnsweredJoin(cfg, world, a, b[..n], oracle);
      ExecConcat(cfg, world, a, b[..n]);
      AllAnswerSnoc(cfg, world, a + b[..n], b[n], oracle);
      assert a + b == a + b[..n] + [b[n]];
    }
  }

  lemma AnswersLast(cfg: Config, world: World, actions: seq<Action>, oracle: Oracle)
    requires AllAnswer(cfg, world, actions, oracle) && actions != []
    ensures var n := |actions| - 1;
      AllAnswer(cfg, world, actions[..n], oracle) && Answers(Exec(cfg, world, actions[..n]), actions[n], oracle)
  {
    hide Exec;
    hide Answers;
  }

  /** Wait, then work to quiet: possible from every reachable state, whatever the handlers answer. */
  lemma QuietReached(cfg: Config, world: World, oracle: Oracle) returns (actions: seq<Action>)
    requires Inv(world) && |world.workers| > 0 && Admits(cfg, world)
    ensures (forall a :: a in actions ==> Working(a)) && AllAnswer(cfg, world, actions, oracle)
    ensures Quiescent(Exec(cfg, world, actions))
  {
    hide Inv;
    hide Free;
    hide Quiescent;
    var ms := WaitFrees(cfg, world);
    var tick := Tick(ms);
    OneTick(cfg, world, ms, oracle);
    StepKeepsInv(cfg, world, tick);
    SameWorkerCount(cfg, world, tick);
    hide Apply;
    var rest := WorkToQuiet(cfg, Apply(cfg, world, tick), [], oracle);
    actions := [tick] + rest;
    ExecConcat(cfg, world, [tick], rest);
    AnsweredJoin(cfg, world, [tick], rest, oracle);
  }

  /** Everything a sweep without row limits picks, in some order. */
  lemma FullSweep(db: Db) returns (chosen: seq<RunId>)
    ensures SweepComplete(db, chosen)
  {
    hide HasExpiredLease;
    hide Overdue;
    hide Stranded;
    chosen := Listing(set r | r in db.runs && SweepEligible(db, r));
  }

  lemma SweepReached(cfg: Config, quiet: World) returns (ms: nat, chosen: seq<RunId>, swept: World)
    requires Quiescent(quiet) && Admits(cfg, quiet)
    ensures QuietSweep(cfg, quiet, ms, chosen, swept)
  {
    ms := WaitFrees(cfg, quiet);
    chosen := FullSweep(Apply(cfg, quiet, Tick(ms)).db);
    swept := Apply(cfg, Apply(cfg, quiet, Tick(ms)), SweepRuns(chosen));
    hide SweepComplete;
    hide Apply;
  }

  /** And there is always such a recovery, whatever the handlers answer: it ends with every run stopped. */
  lemma CanRecover(cfg: Config, world: World, oracle: Oracle)
    returns (first: seq<Action>, ms: nat, chosen: seq<RunId>, swept: World, second: seq<Action>)
    requires Reachable(cfg, world) && |world.workers| > 0 && Admits(cfg, world)
    ensures (forall a :: a in first ==> Tends(a)) && AllAnswer(cfg, world, first, oracle)
    ensures QuietSweep(cfg, Exec(cfg, world, first), ms, chosen, swept)
    ensures (forall a :: a in second ==> Tends(a)) && AllAnswer(cfg, swept, second, oracle)
    ensures forall r :: r in world.db.runs ==>
      r in Exec(cfg, swept, second).db.runs && Stopped(Exec(cfg, swept, second).db.runs[r])
  {
    hide *;
    ReachableInv(cfg, world);
    first := QuietReached(cfg, world, oracle);
    WorkTends(first);
    TendsKeepInv(cfg, world, first);
    var quiet := Exec(cfg, world, first);
    SameAdmits(cfg, world, quiet);
    ms, chosen, swept := SweepReached(cfg, quiet);
    SweptIsGood(cfg, quiet, ms, chosen, swept);
    SameAdmits(cfg, quiet, swept);
    second := QuietReached(cfg, swept, oracle);
    WorkTends(second);
    TendsKeepInv(cfg, swept, second);
    EveryRecoveryStops(cfg, world, first, ms, chosen, swept, second);
    ExhaustedIsQuiet(Exec(cfg, swept, second));
  }

  lemma WorkTends(actions: seq<Action>)
    requires forall a :: a in actions ==> Working(a)
    ensures forall a :: a in actions ==> Tends(a)
  {
    hide Working;
  }
}
