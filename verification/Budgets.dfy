// What is left of a run's attempts, and that every attempt spends some.
module Budgets {
  import opened Options
  import opened ErrorClasses
  import opened EngineTypes
  import opened EngineRows
  import opened EngineDb
  import opened World
  import opened RowInvariants
  import opened Safety
  import opened TokenDiscipline
  import opened TokenSteps
  import Backoff
  import Retry

  // ---- what is left of a run's attempts ----

  /** Attempts a row may still end in, its final one included. */
  function RowBudget(s: StepRow): nat {
    if OpenRow(s) && WithinBudget(s)
    then Retry.Ceiling(s.maxAttempts) - s.attemptsConsumed + (Retry.Ceiling(s.maxDeferrals) - s.deferrals) - 1
    else 0
  }

  function SumBudget(steps: seq<StepRow>): nat {
    if steps == [] then 0 else SumBudget(steps[..|steps| - 1]) + RowBudget(steps[|steps| - 1])
  }

  function RowCeiling(s: StepRow): nat {
    Retry.Ceiling(s.maxAttempts) + Retry.Ceiling(s.maxDeferrals) - 1
  }

  function SumCeiling(steps: seq<StepRow>): nat {
    if steps == [] then 0 else SumCeiling(steps[..|steps| - 1]) + RowCeiling(steps[|steps| - 1])
  }

  lemma {:induction false} BudgetUpdate(steps: seq<StepRow>, i: nat, s: StepRow)
    requires i < |steps|
    ensures SumBudget(steps[i := s]) == SumBudget(steps) - RowBudget(steps[i]) + RowBudget(s)
    ensures RowBudget(steps[i]) <= SumBudget(steps)
    ensures RowCeiling(s) == RowCeiling(steps[i]) ==> SumCeiling(steps[i := s]) == SumCeiling(steps)
  {
    var n := |steps| - 1;
    if i == n {
      assert steps[i := s][..n] == steps[..n];
    } else {
      assert steps[i := s][..n] == steps[..n][i := s];
      BudgetUpdate(steps[..n], i, s);
    }
  }

  lemma {:induction false} BudgetSkip(steps: seq<StepRow>, abandoned: set<NodeId>)
    ensures SumBudget(MarkSkipped(steps, abandoned)) <= SumBudget(steps)
    ensures SumCeiling(MarkSkipped(steps, abandoned)) == SumCeiling(steps)
  {
    if steps != [] {
      var n := |steps| - 1;
      assert MarkSkipped(steps, abandoned)[..n] == MarkSkipped(steps[..n], abandoned);
      BudgetSkip(steps[..n], abandoned);
    }
  }

  lemma {:induction false} FreshBudget(steps: seq<StepRow>)
    requires forall s :: s in steps ==> s.status.Pending? && s.attemptsConsumed == 0 && s.deferrals == 0
    ensures SumBudget(steps) == SumCeiling(steps)
  {
    if steps != [] {
      assert steps[|steps| - 1] in steps;
      FreshBudget(steps[..|steps| - 1]);
    }
  }

  lemma OpenBudget(r: RunId, run: Run, i: nat, s: StepRow)
    requires RunOk(r, run) && i < |run.steps| && s.status.Running?
    requires s == run.steps[i].(status := s.status, workerId := s.workerId, leaseExpiresAt := s.leaseExpiresAt,
                                attemptsStarted := s.attemptsStarted)
    requires run.steps[i].status.Pending? || run.steps[i].status.Running?
      || (run.steps[i].status.Failed? && run.steps[i].nextAttemptAt.Some?)
    ensures SumBudget(run.steps[i := s]) == SumBudget(run.steps)
    ensures SumCeiling(run.steps[i := s]) == SumCeiling(run.steps)
    ensures SumBudget(run.steps) >= 1
  {
    assert RowOk(run.steps[i]);
    hide RunOk;
    BudgetUpdate(run.steps, i, s);
  }

  /** What worker w records of p is written: the row is still its own. */
  predicate Lands(db: Db, w: WorkerId, p: Phase) {
    p.Executing? && IsStep(db, p.runId, p.step) && OwnedBy(db.runs[p.runId].steps[p.step], w)
  }

  /** However an attempt ends, the run has at least one attempt fewer left. */
  lemma RecordSpendsBudget(cfg: Config, db: Db, w: WorkerId, p: Phase, outcome: Outcome, draw: Backoff.Draw)
    requires RunsOk(db) && Lands(db, w, p) && Fenced(db, w, p)
    ensures var db' := RecordInto(cfg, db, w, p, outcome, draw);
      && p.runId in db'.runs
      && SumBudget(db'.runs[p.runId].steps) + 1 <= SumBudget(db.runs[p.runId].steps)
      && SumCeiling(db'.runs[p.runId].steps) == SumCeiling(db.runs[p.runId].steps)
  {
    hide SumBudget;
    hide SumCeiling;
    hide AbandonedBy;
    hide DecideFailure;
    var run := db.runs[p.runId];
    var i := p.step;
    assert RunOk(p.runId, run) && RowOk(run.steps[i]);
    hide RunsOk;
    hide RunOk;
    var version := run.versionId;
    if version in cfg.flows && outcome.Success? {
      var s := SucceedRow(run.steps[i], outcome.output);
      BudgetUpdate(run.steps, i, s);
      BudgetSkip(run.steps[i := s], AbandonedBy(cfg.flows[version], p.row.nodeId, outcome.output));
    } else if version !in cfg.flows {
      FailureSpendsBudget(db, w, p, Poison, false, None, draw, cfg.policy);
    } else {
      FailureSpendsBudget(db, w, p, outcome.errorClass, IdempotentIn(cfg.flows[version], p.row.nodeId),
                          outcome.retryAfterMs, draw, cfg.policy);
    }
  }

  function FailedRow(s: StepRow, rec: FailureRecord, now: int): StepRow {
    FailRow(s, rec.status, rec.consumed, rec.deferrals,
            match rec.retryDelayMs { case Some(d) => Some(now + d) case None => None }, rec.errorClass)
  }

  lemma FailedRowBudget(s: StepRow, errorClass: ErrorClass, idempotent: bool, retryAfterMs: Option<int>,
                        draw: Backoff.Draw, now: int, policy: Backoff.BackoffPolicy)
    requires WithinBudget(s) && OpenRow(s)
    ensures var t := FailedRow(s, DecideFailure(s, errorClass, idempotent, retryAfterMs, draw, now, policy), now);
      RowBudget(t) + 1 <= RowBudget(s) && RowCeiling(t) == RowCeiling(s)
  {
    DecideFailureOk(s, errorClass, idempotent, retryAfterMs, draw, now, policy);
    hide DecideFailure;
  }

  lemma FailureRewritesRow(db: Db, r: RunId, i: nat, w: WorkerId, rec: FailureRecord)
    requires IsStep(db, r, i) && OwnedBy(db.runs[r].steps[i], w)
    ensures var db' := RecordFailure(db, r, i, w, rec).0;
      && r in db'.runs && db'.runs.Keys == db.runs.Keys
      && db'.runs[r].steps == db.runs[r].steps[i := FailedRow(db.runs[r].steps[i], rec, db.now)]
  {
  }

  lemma FailureSpendsBudget(db: Db, w: WorkerId, p: Phase, errorClass: ErrorClass, idempotent: bool,
                            retryAfterMs: Option<int>, draw: Backoff.Draw, policy: Backoff.BackoffPolicy)
    requires RunsOk(db) && Lands(db, w, p) && Fenced(db, w, p)
    ensures var rec := DecideFailure(p.row, errorClass, idempotent, retryAfterMs, draw, db.now, policy);
      var db' := RecordFailure(db, p.runId, p.step, w, rec).0;
      && p.runId in db'.runs
      && SumBudget(db'.runs[p.runId].steps) + 1 <= SumBudget(db.runs[p.runId].steps)
      && SumCeiling(db'.runs[p.runId].steps) == SumCeiling(db.runs[p.runId].steps)
  {
    var run := db.runs[p.runId];
    assert run.steps[p.step] == p.row;
    var rec := DecideFailure(p.row, errorClass, idempotent, retryAfterMs, draw, db.now, policy);
    FailedRowBudget(p.row, errorClass, idempotent, retryAfterMs, draw, db.now, policy);
    BudgetUpdate(run.steps, p.step, FailedRow(p.row, rec, db.now));
    assert OpenRow(p.row);
    FailureRewritesRow(db, p.runId, p.step, w, rec);
    hide *;
  }
}
