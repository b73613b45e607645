// What callers, operators and the janitor get when they ask, and what faults take away.
module Requests {
  import opened Options
  import opened ErrorClasses
  import opened EngineTypes
  import opened EngineRows
  import opened EngineDb
  import opened World
  import opened Advancing
  import Idempotency
  import Recovery

  // ---- a run is created ----

  function FreshStep(r: RunId, n: FlowNode): StepRow {
    StepRow(n.id, n.kind, StepStatus.Pending, 0, 0, 0, if n.maxAttempts.Some? then n.maxAttempts.value else 5, 20, None,
            Idempotency.StepIdentity(r, n.id, 0, 0), None, None, None, None)
  }

  /** A queued run with one fresh row per node, in the flow's order. */
  predicate IsFreshRun(run: Run, r: RunId, input: CreateRunInput, now: int) {
    && run.tenantId == input.tenantId && run.flowId == input.flow.id && run.versionId == input.flow.versionId
    && run.status.Queued? && run.attemptGroup == 0 && run.finishedAt.None? && run.cancelRequestedAt.None?
    && run.cancelledAtStep.None? && run.errorClass.None? && run.errorStep.None?
    && (input.runTimeoutMs.None? ==> run.deadlineAt.None?)
    && (input.runTimeoutMs.Some? ==> run.deadlineAt == Some(now + input.runTimeoutMs.value))
    && run.stepCount == |run.steps| == |input.flow.nodes| && run.stepsSucceeded == 0 && run.stepsFailed == 0
    && forall i :: 0 <= i < |run.steps| ==> run.steps[i] == FreshStep(r, input.flow.nodes[i])
  }

  function KeyAsked(input: CreateRunInput): Option<DeliveryKey> {
    if input.idempotencyKey.None? then None
    else Some(DeliveryKey(input.tenantId, input.flow.id, input.idempotencyKey.value))
  }

  /** Under a new id and a key nobody holds: the run, its key, and an advance due at once. */
  lemma CreatedExactly(db: Db, input: CreateRunInput, newId: RunId, raced: bool)
    requires newId !in db.runs && Insertable(newId, input.flow.nodes)
    requires KeyAsked(input).Some? ==> KeyAsked(input).value !in db.idempotency
    ensures var (db', outcome) := CreateRun(db, input, newId, raced);
      && outcome == Created(newId)
      && newId in db'.runs && IsFreshRun(db'.runs[newId], newId, input, db.now)
      && db' == db.(runs := db.runs[newId := db'.runs[newId]],
                    outbox := db.outbox + [Message(AdvanceRun, newId, db.now)],
                    idempotency := if KeyAsked(input).None? then db.idempotency
                                   else db.idempotency[KeyAsked(input).value := newId])
  {
    hide Insertable;
  }

  /** The key of a run that is there: no second run, and the answer names the first. */
  lemma DuplicateAnswered(db: Db, input: CreateRunInput, newId: RunId)
    requires newId !in db.runs && KeyAsked(input).Some? && KeyAsked(input).value in db.idempotency
    requires db.idempotency[KeyAsked(input).value] in db.runs
    ensures CreateRun(db, input, newId, false) == (db, Deduplicated(db.idempotency[KeyAsked(input).value]))
  {
    hide Insertable, FreshRows;
  }

  /** The first advance of a new run, before its deadline, sends for its first step. */
  lemma FirstStepFirst(db: Db, input: CreateRunInput, newId: RunId, raced: bool, later: int)
    requires newId !in db.runs && Insertable(newId, input.flow.nodes) && input.flow.nodes != []
    requires KeyAsked(input).Some? ==> KeyAsked(input).value !in db.idempotency
    requires db.now <= later && (input.runTimeoutMs.Some? ==> later < db.now + input.runTimeoutMs.value)
    ensures var created := CreateRun(db, input, newId, raced).0.(now := later);
      && newId in created.runs && created.runs[newId].steps != []
      && Advance(created, newId).1 == DispatchedStep(0)
      && created.runs[newId].steps[0].nodeId == input.flow.nodes[0].id
  {
    CreatedExactly(db, input, newId, raced);
    var created := CreateRun(db, input, newId, raced).0.(now := later);
    hide CreateRun;
    assert IsNext(created.runs[newId].steps, later, 0);
    AdvanceDispatches(created, newId, 0);
    hide Advance;
  }

  // ---- a cancel is asked ----

  /** Noted once, on a run that has not ended; nothing else changes. */
  lemma CancelAsked(db: Db, r: RunId)
    ensures var (db', noted) := RequestCancel(db, r);
      && (noted <==> r in db.runs && !IsTerminal(db.runs[r].status))
      && (noted ==> db' == db.(runs := db.runs[r := db.runs[r].(
            cancelRequestedAt := Some(if db.runs[r].cancelRequestedAt.Some? then db.runs[r].cancelRequestedAt.value
                                      else db.now))]))
      && (!noted ==> db' == db)
  {
  }

  // ---- a run is resumed ----

  predicate Revivable(run: Run) {
    run.status.Failed? || run.status.Cancelled? || run.status.TimedOut? || run.status.WaitingConfirmation?
  }

  predicate LowestOf(steps: seq<StepRow>, n: NodeId, at: nat) {
    at < |steps| && steps[at].nodeId == n && forall j :: 0 <= j < at ==> steps[j].nodeId != n
  }

  /** Kept as it is, output included, and never run again. */
  predicate KeptRow(s: StepRow, t: StepRow) {
    t == s.(status := StepStatus.SkippedResumed, leaseExpiresAt := None, nextAttemptAt := None, workerId := None)
  }

  /** As fresh as when the run was created, under a key of the new group. */
  predicate RenewedRow(s: StepRow, t: StepRow, r: RunId, group: nat) {
    t == StepRow(s.nodeId, s.kind, StepStatus.Pending, 0, 0, 0, s.maxAttempts, s.maxDeferrals, None,
                 Idempotency.StepIdentity(r, s.nodeId, 0, group), None, None, None, None)
  }

  predicate ResumedAt(a: Run, b: Run, r: RunId, at: nat) {
    && |b.steps| == |a.steps|
    && b == a.(status := RunStatus.Queued, attemptGroup := a.attemptGroup + 1, finishedAt := None, errorClass := None,
               errorStep := None, cancelRequestedAt := None, cancelledAtStep := None, stepsSucceeded := 0,
               stepsFailed := 0, steps := b.steps)
    && forall i :: 0 <= i < |a.steps| ==>
         if i < at then KeptRow(a.steps[i], b.steps[i]) else RenewedRow(a.steps[i], b.steps[i], r, a.attemptGroup + 1)
  }

  lemma TargetExactly(steps: seq<StepRow>, n: NodeId)
    ensures forall at: nat :: TargetOf(steps, n) == Some(at) <==> LowestOf(steps, n, at)
    ensures TargetOf(steps, n).None? <==> forall s :: s in steps ==> s.nodeId != n
  {
    var found := FirstWhere(steps, (s: StepRow) => s.nodeId == n);
    assert TargetOf(steps, n) == found;
    hide FirstWhere;
    assert forall i :: 0 <= i < |steps| ==> steps[i] in steps;
  }

  /** Only a stopped run, and only from one of its steps; the first of that name. */
  lemma ResumedExactly(db: Db, r: RunId, n: NodeId)
    ensures var res := Resume(db, r, n);
      && (r !in db.runs ==> res == Err(NoRun))
      && (r in db.runs && !Revivable(db.runs[r]) ==> res == Err(NotStopped))
      && (r in db.runs && Revivable(db.runs[r]) && (forall s :: s in db.runs[r].steps ==> s.nodeId != n) ==>
            res == Err(NoStep))
      && (forall at: nat :: r in db.runs && Revivable(db.runs[r]) && LowestOf(db.runs[r].steps, n, at) ==>
            && res.Ok? && r in res.value.runs && ResumedAt(db.runs[r], res.value.runs[r], r, at)
            && res.value == db.(runs := db.runs[r := res.value.runs[r]],
                                outbox := db.outbox + [Message(AdvanceRun, r, db.now)]))
  {
    if r in db.runs {
      TargetExactly(db.runs[r].steps, n);
    }
    hide TargetOf;
  }

  /** The first advance of a resumed run, unless its deadline is over, sends for the step it was resumed from. */
  lemma ResumeRunsFromThere(db: Db, r: RunId, n: NodeId, at: nat)
    requires r in db.runs && Revivable(db.runs[r]) && LowestOf(db.runs[r].steps, n, at)
    requires !Advancing.Overdue(db.runs[r], db.now)
    ensures var res := Resume(db, r, n);
      && res.Ok? && Advance(res.value, r).1 == DispatchedStep(at)
  {
    ResumedExactly(db, r, n);
    var after := Resume(db, r, n).value;
    hide Resume, Advance;
    ResumedNext(db.runs[r], after.runs[r], r, at, db.now);
    AdvanceDispatches(after, r, at);
  }

  lemma ResumedNext(a: Run, b: Run, r: RunId, at: nat, now: int)
    requires ResumedAt(a, b, r, at) && at < |a.steps|
    ensures IsNext(b.steps, now, at)
  {
    assert RenewedRow(a.steps[at], b.steps[at], r, a.attemptGroup + 1);
    forall j | 0 <= j < at
      ensures !DueRow(b.steps[j], now) && !EndsChain(b.steps[j])
    {
      assert KeptRow(a.steps[j], b.steps[j]);
    }
  }

  /** A dead letter is replayed once, from the step it names; what refuses a resume refuses the replay. */
  lemma ReplayedExactly(db: Db, e: nat)
    ensures var res := ReplayDlqEntry(db, e);
      && (e >= |db.dlq| ==> res == Err(NoEntry))
      && (e < |db.dlq| && db.dlq[e].replayed ==> res == Err(AlreadyReplayed))
      && (e < |db.dlq| && !db.dlq[e].replayed ==>
            var resumed := Resume(db, db.dlq[e].runId, db.dlq[e].nodeId);
            && (resumed.Err? ==> res == Err(resumed.error))
            && (resumed.Ok? ==> res == Ok(resumed.value.(dlq := db.dlq[e := db.dlq[e].(replayed := true)]))))
  {
    if e < |db.dlq| {
      ResumeKeepsLetters(db, db.dlq[e].runId, db.dlq[e].nodeId);
    }
    hide Resume;
  }

  lemma ResumeKeepsLetters(db: Db, r: RunId, n: NodeId)
    ensures Resume(db, r, n).Ok? ==> Resume(db, r, n).value.dlq == db.dlq
  {
    hide TargetOf;
  }

  // ---- the janitor ----

  predicate Unfinished(run: Run) {
    run.status.Queued? || run.status.Running?
  }

  /** A step whose worker's lease has run out. */
  predicate Abandoned(run: Run, now: int) {
    exists i :: 0 <= i < |run.steps| && run.steps[i].status.Running? && run.steps[i].leaseExpiresAt.Some?
      && now > run.steps[i].leaseExpiresAt.value
  }

  predicate Attended(run: Run, now: int) {
    exists i :: 0 <= i < |run.steps| && run.steps[i].status.Running? && run.steps[i].leaseExpiresAt.Some?
      && now <= run.steps[i].leaseExpiresAt.value
  }

  /** Abandoned by its worker, past its deadline, or with nothing on its way. */
  predicate Stuck(db: Db, r: RunId) {
    && r in db.runs
    && var run := db.runs[r];
    || Abandoned(run, db.now)
    || (Unfinished(run) && run.deadlineAt.Some? && db.now > run.deadlineAt.value)
    || (Unfinished(run) && (forall m :: m in db.outbox ==> m.runId != r) && !Attended(run, db.now))
  }

  lemma StuckExactly(db: Db)
    ensures forall r :: SweepEligible(db, r) <==> Stuck(db, r)
    ensures forall r :: Stuck(db, r) ==> r in db.runs
  {
    forall r
      ensures SweepEligible(db, r) <==> Stuck(db, r)
    {
      if r in db.runs {
        LeasesBothWays(db.runs[r], db.now);
      }
      hide HasExpiredLease, HoldsLease, Abandoned, Attended;
    }
  }

  lemma LeasesBothWays(run: Run, now: int)
    ensures HasExpiredLease(run, now) <==> Abandoned(run, now)
    ensures HoldsLease(run, now) <==> Attended(run, now)
  {
    assert forall i :: 0 <= i < |run.steps| ==> run.steps[i] in run.steps;
  }

  /** A sweep below its row limits sends one advance, due at once, to each stuck run and to no other. */
  lemma SweepWakesTheStuck(cfg: Config, world: World, chosen: seq<RunId>)
    requires Recovery.SweepComplete(world.db, chosen)
    ensures var next := Apply(cfg, world, SweepRuns(chosen));
      && |next.db.outbox| == |world.db.outbox| + |chosen|
      && next == world.(db := world.db.(outbox := world.db.outbox + next.db.outbox[|world.db.outbox|..]))
      && (forall k :: 0 <= k < |chosen| ==>
            next.db.outbox[|world.db.outbox| + k] == Message(AdvanceRun, chosen[k], world.db.now))
      && (forall r :: r in chosen <==> Stuck(world.db, r))
      && forall j, k :: 0 <= j < k < |chosen| ==> chosen[j] != chosen[k]
  {
    StuckExactly(world.db);
    hide SweepEligible, Stuck;
  }

  // ---- what faults take away ----

  /** A crash forgets what the worker had fetched and was doing, and touches nothing stored. */
  lemma CrashForgets(cfg: Config, world: World, w: WorkerId)
    requires w < |world.workers|
    ensures var next := Apply(cfg, world, Crash(w));
      && next.workers[w] == Worker([], Idle) && |next.workers| == |world.workers|
      && (forall x :: 0 <= x < |world.workers| && x != w ==> next.workers[x] == world.workers[x])
      && next.db == world.db && next.effects == world.effects && next.log == world.log
  {
  }

  /** A message can vanish, and it can come twice. */
  lemma QueueFaults(cfg: Config, world: World, k: nat)
    requires k < |world.db.outbox|
    ensures var m, lost, doubled := world.db.outbox[k], Apply(cfg, world, LoseMessage(k)),
                                    Apply(cfg, world, DuplicateMessage(k));
      && multiset(lost.db.outbox)[m] == multiset(world.db.outbox)[m] - 1
      && multiset(doubled.db.outbox)[m] == multiset(world.db.outbox)[m] + 1
      && lost == world.(db := world.db.(outbox := lost.db.outbox))
      && doubled == world.(db := world.db.(outbox := doubled.db.outbox))
  {
    var box := world.db.outbox;
    assert box == box[..k] + [box[k]] + box[k + 1..];
    assert Apply(cfg, world, LoseMessage(k)).db.outbox == box[..k] + box[k + 1..];
  }

  /**
   * A worker dies over a step. Once its lease is over and a full sweep was made,
   * an advance of the run is due, and the step is due again.
   */
  lemma DeadWorkersStepReturns(cfg: Config, world: World, w: WorkerId, ms: nat, chosen: seq<RunId>)
    requires w < |world.workers| && world.workers[w].phase.Executing?
    requires var p := world.workers[w].phase;
      && IsStep(world.db, p.runId, p.step) && OwnedBy(world.db.runs[p.runId].steps[p.step], w)
      && world.db.runs[p.runId].steps[p.step].leaseExpiresAt.Some?
      && world.db.runs[p.runId].steps[p.step].leaseExpiresAt.value < world.db.now + ms
    requires Recovery.SweepComplete(Exec(cfg, world, [Crash(w), Tick(ms)]).db, chosen)
    ensures var p, last := world.workers[w].phase, Exec(cfg, world, [Crash(w), Tick(ms), SweepRuns(chosen)]);
      && |last.workers| == |world.workers| && last.workers[w] == Worker([], Idle)
      && Message(AdvanceRun, p.runId, last.db.now) in last.db.outbox
      && IsStep(last.db, p.runId, p.step) && DueRow(last.db.runs[p.runId].steps[p.step], last.db.now)
  {
    var p := world.workers[w].phase;
    var dead := Apply(cfg, world, Crash(w));
    var later := Apply(cfg, dead, Tick(ms));
    var two, three := [Crash(w), Tick(ms)], [Crash(w), Tick(ms), SweepRuns(chosen)];
    assert two[..1][..0] == [] && two[..1] == [Crash(w)] && three[..2] == two;
    assert Exec(cfg, world, two[..1]) == dead;
    assert Exec(cfg, world, two) == later;
    var last := Apply(cfg, later, SweepRuns(chosen));
    assert Exec(cfg, world, three) == last;
    hide Exec;
    CrashForgets(cfg, world, w);
    SweepWakesTheStuck(cfg, later, chosen);
    assert Abandoned(later.db.runs[p.runId], later.db.now);
    assert p.runId in chosen;
    var k :| 0 <= k < |chosen| && chosen[k] == p.runId;
    assert last.db.outbox[|later.db.outbox| + k] == Message(AdvanceRun, p.runId, later.db.now);
    hide Apply;
  }

  /** An effect happens at the provider once, however often its key is presented. */
  lemma EffectHappensOnce(cfg: Config, world: World, w: WorkerId)
    requires w < |world.workers| && world.workers[w].phase.Executing?
    ensures var p, next := world.workers[w].phase, Apply(cfg, world, Effect(w));
      && next.db == world.db && next.log == world.log
      && next.workers == world.workers[w := Worker(world.workers[w].batch, Executing(p.runId, p.step, p.row, true))]
      && (p.row.key in world.effects ==> next.effects == world.effects)
      && (p.row.key !in world.effects ==> next.effects == world.effects + [p.row.key])
      && Apply(cfg, next, Effect(w)) == next
  {
  }
}
