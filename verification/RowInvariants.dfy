// What every run's rows satisfy in every interleaving, proved transition by
// transition on the rows of one run.
module RowInvariants {
  import opened Options
  import opened ErrorClasses
  import opened EngineTypes
  import opened EngineRows
  import opened EngineDb
  import Backoff
  import Retry
  import Idempotency

  // ---- counting rows ----

  function CountRows(steps: seq<StepRow>, p: StepRow -> bool): nat {
    if steps == [] then 0
    else CountRows(steps[..|steps| - 1], p) + if p(steps[|steps| - 1]) then 1 else 0
  }

  lemma {:induction false} CountUpdate(steps: seq<StepRow>, i: nat, s: StepRow, p: StepRow -> bool)
    requires i < |steps|
    ensures CountRows(steps[i := s], p)
         == CountRows(steps, p) - (if p(steps[i]) then 1 else 0) + (if p(s) then 1 else 0)
  {
    var n := |steps| - 1;
    if i == n {
      assert steps[i := s][..n] == steps[..n];
    } else {
      assert steps[i := s][..n] == steps[..n][i := s];
      CountUpdate(steps[..n], i, s, p);
    }
  }

  lemma {:induction false} CountSame(a: seq<StepRow>, b: seq<StepRow>, p: StepRow -> bool)
    requires |a| == |b|
    requires forall i :: 0 <= i < |a| ==> p(a[i]) == p(b[i])
    ensures CountRows(a, p) == CountRows(b, p)
  {
    if a != [] {
      CountSame(a[..|a| - 1], b[..|b| - 1], p);
    }
  }

  lemma {:induction false} CountNone(a: seq<StepRow>, p: StepRow -> bool)
    requires forall i :: 0 <= i < |a| ==> !p(a[i])
    ensures CountRows(a, p) == 0
  {
    if a != [] {
      CountNone(a[..|a| - 1], p);
    }
  }

  lemma {:induction false} CountDisjoint(a: seq<StepRow>, p: StepRow -> bool, q: StepRow -> bool)
    requires forall s :: s in a ==> !(p(s) && q(s))
    ensures CountRows(a, p) + CountRows(a, q) <= |a|
  {
    if a != [] {
      CountDisjoint(a[..|a| - 1], p, q);
    }
  }

  // ---- the row and run invariants ----

  predicate IsSucceeded(s: StepRow) {
    s.status.Succeeded?
  }

  /** The statuses the engine ever writes. */
  predicate Written(s: StepStatus) {
    s in {StepStatus.Pending, StepStatus.Running, StepStatus.Succeeded, StepStatus.Failed,
          StepStatus.Skipped, StepStatus.SkippedResumed, StepStatus.WaitingConfirmation}
  }

  /** Rows that may still be attempted. */
  predicate OpenRow(s: StepRow) {
    s.status.Pending? || s.status.Running? || (s.status.Failed? && s.nextAttemptAt.Some?)
  }

  predicate WithinBudget(s: StepRow) {
    s.attemptsConsumed < Retry.Ceiling(s.maxAttempts) && s.deferrals < Retry.Ceiling(s.maxDeferrals)
  }

  predicate RowOk(s: StepRow) {
    && Written(s.status)
    && (s.status.Running? ==> s.leaseExpiresAt.Some? && s.workerId.Some?)
    && (OpenRow(s) ==> WithinBudget(s))
  }

  /** The key is the row's identity under some group of the run; the current one unless a resume passed the row by. */
  predicate KeyOk(r: RunId, s: StepRow, group: nat) {
    && Idempotency.ValidIdentity(Idempotency.StepIdentity(r, s.nodeId, 0, 0))
    && s.key == StepKey(r, s.nodeId, s.key.attemptGroup)
    && s.key.attemptGroup <= group
    && (!s.status.SkippedResumed? ==> s.key.attemptGroup == group)
  }

  predicate CountersOk(run: Run) {
    && run.stepsSucceeded == CountRows(run.steps, IsSucceeded)
    && run.stepsFailed == CountRows(run.steps, FinallyFailed)
  }

  predicate VerdictOk(run: Run) {
    && (run.status.Succeeded? ==> forall s :: s in run.steps ==> IsDone(s.status))
    && (run.status.Failed? ==> exists s :: s in run.steps && FinallyFailed(s))
  }

  predicate RowsOk(r: RunId, steps: seq<StepRow>, group: nat) {
    && (forall i :: 0 <= i < |steps| ==> RowOk(steps[i]) && KeyOk(r, steps[i], group))
    && (forall i, j :: 0 <= i < j < |steps| ==> steps[i].nodeId != steps[j].nodeId)
  }

  predicate RunOk(r: RunId, run: Run) {
    && RowsOk(r, run.steps, run.attemptGroup)
    && run.stepCount == |run.steps|
    && CountersOk(run)
    && VerdictOk(run)
  }

  /** A consequence read off the counters: they never outnumber the steps. */
  lemma CountersBounded(r: RunId, run: Run)
    requires RunOk(r, run)
    ensures run.stepsSucceeded + run.stepsFailed <= run.stepCount
  {
    CountDisjoint(run.steps, IsSucceeded, FinallyFailed);
  }

  // ---- preservation, one kind of write at a time ----

  lemma FreshRunOk(r: RunId, input: CreateRunInput, now: int)
    requires Insertable(r, input.flow.nodes)
    ensures RunOk(r, FreshRun(input, now).(steps := FreshRows(r, input.flow.nodes), stepCount := |input.flow.nodes|))
  {
    var rows := FreshRows(r, input.flow.nodes);
    CountNone(rows, IsSucceeded);
    CountNone(rows, FinallyFailed);
    forall i | 0 <= i < |rows|
      ensures RowOk(rows[i]) && KeyOk(r, rows[i], 0)
    {
      assert input.flow.nodes[i] in input.flow.nodes;
      assert rows[i] == FreshRow(r, input.flow.nodes[i]);
      assert rows[i].key == StepKey(r, rows[i].nodeId, 0);
    }
  }

  /** Marking a run failed or succeeded is only ever done on rows that say so. */
  lemma AdvanceRowOk(r: RunId, run: Run, now: int)
    requires RunOk(r, run)
    ensures RunOk(r, AdvanceRow(run, now).0)
    ensures AdvanceRow(run, now).0.steps == run.steps
    ensures AdvanceRow(run, now).0.attemptGroup == run.attemptGroup
  {
    var run' := AdvanceRow(run, now).0;
    assert run'.steps == run.steps && run'.attemptGroup == run.attemptGroup && CountersOk(run');
    var failed := FirstWhere(run.steps, TerminallyFailed);
    if failed.Some? {
      assert RowOk(run.steps[failed.value]);
      assert FinallyFailed(run.steps[failed.value]);
    }
    hide KeyOk;
    hide CountersOk;
    hide NextRunnableStep;
    assert VerdictOk(run');
  }

  /** Replacing one row that is neither finished verdict-wise keeps everything but the counters. */
  lemma ReplaceRowOk(r: RunId, run: Run, i: nat, s: StepRow, run': Run)
    requires RunOk(r, run) && i < |run.steps|
    requires run' == run.(steps := run.steps[i := s], stepsSucceeded := run'.stepsSucceeded,
      stepsFailed := run'.stepsFailed)
    requires s.nodeId == run.steps[i].nodeId && s.key == run.steps[i].key
    requires RowOk(s) && !s.status.SkippedResumed?
    requires !IsDone(run.steps[i].status) && !FinallyFailed(run.steps[i])
    requires run'.stepsSucceeded == run.stepsSucceeded + if IsSucceeded(s) then 1 else 0
    requires run'.stepsFailed == run.stepsFailed + if FinallyFailed(s) then 1 else 0
    ensures RunOk(r, run')
  {
    CountUpdate(run.steps, i, s, IsSucceeded);
    CountUpdate(run.steps, i, s, FinallyFailed);
    assert KeyOk(r, run.steps[i], run.attemptGroup);
    assert KeyOk(r, s, run.attemptGroup);
    if run.status.Failed? {
      var f :| f in run.steps && FinallyFailed(f);
      var k :| 0 <= k < |run.steps| && run.steps[k] == f;
      assert run'.steps[k] == f;
    }
    assert run.steps[i] in run.steps;
  }

  lemma SkipVerdictOk(run: Run, abandoned: set<NodeId>)
    requires VerdictOk(run)
    ensures VerdictOk(run.(steps := MarkSkipped(run.steps, abandoned)))
  {
    var rows := MarkSkipped(run.steps, abandoned);
    if run.status.Succeeded? {
      forall s | s in rows
        ensures IsDone(s.status)
      {
        var i :| 0 <= i < |rows| && rows[i] == s;
        assert run.steps[i] in run.steps;
      }
    }
    if run.status.Failed? {
      var f :| f in run.steps && FinallyFailed(f);
      var k :| 0 <= k < |run.steps| && run.steps[k] == f;
      assert rows[k] == f;
    }
  }

  lemma SkipRowsOk(r: RunId, run: Run, abandoned: set<NodeId>)
    requires RunOk(r, run)
    ensures RunOk(r, run.(steps := MarkSkipped(run.steps, abandoned)))
  {
    var rows := MarkSkipped(run.steps, abandoned);
    CountSame(run.steps, rows, IsSucceeded);
    CountSame(run.steps, rows, FinallyFailed);
    SkipVerdictOk(run, abandoned);
    assert RowsOk(r, rows, run.attemptGroup) by {
      forall i | 0 <= i < |rows|
        ensures RowOk(rows[i]) && KeyOk(r, rows[i], run.attemptGroup)
      {
        assert RowOk(run.steps[i]) && KeyOk(r, run.steps[i], run.attemptGroup);
      }
    }
  }

  lemma ClaimRowOk(r: RunId, run: Run, i: nat, w: WorkerId, now: int, leaseUntil: int)
    requires RunOk(r, run) && i < |run.steps| && Claimable(run.steps[i], now)
    ensures RunOk(r, run.(steps := run.steps[i := ClaimRow(run.steps[i], w, leaseUntil)]))
  {
    var s := ClaimRow(run.steps[i], w, leaseUntil);
    assert RowOk(run.steps[i]);
    assert RowOk(s);
    ReplaceRowOk(r, run, i, s, run.(steps := run.steps[i := s]));
  }

  lemma DecideFailureOk(s: StepRow, errorClass: ErrorClass, idempotent: bool, retryAfterMs: Option<int>,
                        draw: Backoff.Draw, now: int, policy: Backoff.BackoffPolicy)
    requires WithinBudget(s)
    ensures var rec := DecideFailure(s, errorClass, idempotent, retryAfterMs, draw, now, policy);
      && rec.status in {StepStatus.Failed, StepStatus.WaitingConfirmation}
      && (rec.retryDelayMs.Some? ==>
            (&& rec.status.Failed?
             && rec.consumed < Retry.Ceiling(s.maxAttempts) && rec.deferrals < Retry.Ceiling(s.maxDeferrals)
             && rec.consumed + rec.deferrals == s.attemptsConsumed + s.deferrals + 1))
      && (rec.countsFailed <==> rec.status.Failed? && rec.retryDelayMs.None?)
      && (rec.dlq.Some? ==> rec.countsFailed)
  {
    Retry.FailureMovesOneCounter(RetryStateOf(s), Retry.AttemptFailure(errorClass, idempotent, retryAfterMs), now, draw,
                                 WithStepLimits(policy, s));
  }

  lemma ResumeRunOk(r: RunId, run: Run, at: nat)
    requires RunOk(r, run)
    ensures RunOk(r, ResumeRun(r, run, at))
  {
    var run' := ResumeRun(r, run, at);
    CountNone(run'.steps, IsSucceeded);
    CountNone(run'.steps, FinallyFailed);
    forall i | 0 <= i < |run'.steps|
      ensures RowOk(run'.steps[i]) && KeyOk(r, run'.steps[i], run'.attemptGroup)
    {
      assert KeyOk(r, run.steps[i], run.attemptGroup);
    }
  }
}
