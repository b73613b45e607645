// The repository as the source writes it: tables updated in place, statement by
// statement. Each method is proved to be one transaction of EngineDb, so every
// theorem about the machine's transactions is about these methods.
module EngineStore {
  import opened Options
  import opened ErrorClasses
  import opened EngineTypes
  import opened EngineRows
  import D = EngineDb
  import Branching
  import Idempotency

  class Store {
    var now: int
    var runs: map<RunId, Run>
    var idempotency: map<DeliveryKey, RunId>
    var outbox: seq<Message>
    var dlq: seq<DlqEntry>

    ghost function View(): Db
      reads this
    {
      Db(now, runs, idempotency, outbox, dlq)
    }

    constructor (at: int)
      ensures View() == Db(at, map[], map[], [], [])
    {
      now, runs, idempotency, outbox, dlq := at, map[], map[], [], [];
    }

    method Enqueue(topic: Topic, r: RunId, delayMs: nat)
      modifies this
      ensures View() == D.Enqueue(old(View()), topic, r, delayMs)
    {
      outbox := outbox + [Message(topic, r, now + delayMs)];
    }

    // ---- createRun ----

    /** One row per node in order; fails on an id no key can be built from, or on a second row for a node. */
    method InsertSteps(r: RunId, nodes: seq<FlowNode>) returns (ok: bool, rows: seq<StepRow>)
      ensures ok <==> Insertable(r, nodes)
      ensures ok ==> rows == FreshRows(r, nodes)
    {
      rows := [];
      for order := 0 to |nodes|
        invariant rows == FreshRows(r, nodes[..order]) && Insertable(r, nodes[..order])
      {
        var node := nodes[order];
        assert nodes[..order + 1] == nodes[..order] + [node];
        if !Idempotency.ValidIdentity(Idempotency.StepIdentity(r, node.id, 0, 0)) {
          assert node in nodes;
          return false, [];
        }
        if exists s :: s in rows && s.nodeId == node.id {
          var s :| s in rows && s.nodeId == node.id;
          var i :| 0 <= i < order && rows[i] == s;
          assert nodes[i].id == nodes[order].id;
          return false, [];
        }
        forall i | 0 <= i < order
          ensures nodes[i].id != node.id
        {
          assert rows[i] in rows;
        }
        rows := rows + [FreshRow(r, node)];
      }
      assert nodes[..|nodes|] == nodes;
      ok := true;
    }

    method FindRunByIdempotencyKey(key: Option<DeliveryKey>) returns (r: Option<RunId>)
      ensures r == D.FindRunByIdempotencyKey(View(), key)
    {
      if key.Some? && key.value in idempotency && idempotency[key.value] in runs {
        return Some(idempotency[key.value]);
      }
      r := None;
    }

    /** `raced` is a first lookup that ran before the winner committed. */
    method CreateRun(input: D.CreateRunInput, newId: RunId, raced: bool) returns (outcome: D.CreateOutcome)
      modifies this
      ensures (View(), outcome) == D.CreateRun(old(View()), input, newId, raced)
    {
      var before := runs;
      if newId in runs {
        return D.Rejected;
      }
      var key := D.KeyOf(input);
      var existing := FindRunByIdempotencyKey(key);
      if existing.Some? && !raced {
        return D.Deduplicated(existing.value);
      }
      runs := runs[newId := D.FreshRun(input, now)];
      if key.Some? && key.value in idempotency {
        if existing.Some? {
          return D.Deduplicated(existing.value);
        }
        runs := before;
        return D.Rejected;
      }
      var ok, rows := InsertSteps(newId, input.flow.nodes);
      if !ok {
        runs := before;
        return D.Rejected;
      }
      if key.Some? {
        idempotency := idempotency[key.value := newId];
      }
      runs := runs[newId := runs[newId].(steps := rows, stepCount := |input.flow.nodes|)];
      assert runs == before[newId := D.FreshRun(input, now).(steps := rows, stepCount := |input.flow.nodes|)];
      Enqueue(AdvanceRun, newId, 0);
      outcome := D.Created(newId);
    }

    // ---- advanceRun ----

    method NextRunnable(r: RunId) returns (next: Option<nat>)
      requires r in runs
      ensures next == NextRunnableStep(runs[r].steps, now)
    {
      var steps := runs[r].steps;
      for i := 0 to |steps|
        invariant NextRunnableStep(steps, now) == NextFrom(steps, now, i)
      {
        if Claimable(steps[i], now) {
          return Some(i);
        }
        if Blocks(steps[i]) {
          return None;
        }
      }
      next := None;
    }

    method SetStatus(r: RunId, status: RunStatus, errorClass: Option<ErrorClass>, errorStep: Option<NodeId>,
                     cancelledAt: Option<NodeId>)
      requires r in runs
      modifies this
      ensures View() == D.PutRun(old(View()), r,
        SetRunStatus(old(runs[r]), status, now, errorClass, errorStep, cancelledAt))
    {
      runs := runs[r := SetRunStatus(runs[r], status, now, errorClass, errorStep, cancelledAt)];
    }

    method FinishOrWait(r: RunId) returns (outcome: AdvanceOutcome)
      requires r in runs
      modifies this
      ensures var (run, result) := EngineRows.FinishOrWait(old(runs[r]), now);
        View() == D.PutRun(old(View()), r, run) && outcome == result
    {
      var steps := runs[r].steps;
      var failed := FirstWhere(steps, TerminallyFailed);
      if failed.Some? {
        SetStatus(r, RunStatus.Failed, Some(steps[failed.value].errorClass.GetOr(Internal)),
          Some(steps[failed.value].nodeId), None);
        return Finished(RunStatus.Failed);
      }
      var paused := FirstWhere(steps, Paused);
      if paused.Some? {
        SetStatus(r, RunStatus.WaitingConfirmation, Some(steps[paused.value].errorClass.GetOr(UnknownOutcome)),
                  Some(steps[paused.value].nodeId), None);
        return Waiting;
      }
      if forall s :: s in steps ==> IsDone(s.status) {
        SetStatus(r, RunStatus.Succeeded, None, None, None);
        return Finished(RunStatus.Succeeded);
      }
      runs := runs[r := runs[r]];
      outcome := Waiting;
    }

    method Advance(r: RunId) returns (outcome: AdvanceOutcome)
      modifies this
      ensures (View(), outcome) == D.Advance(old(View()), r)
    {
      if r !in runs {
        return Gone;
      }
      var run := runs[r];
      NextRunnableStepExact(run.steps, now);
      assert runs[r := run] == runs;
      if IsTerminal(run.status) {
        return Finished(run.status);
      }
      var next := NextRunnable(r);
      if run.cancelRequestedAt.Some? {
        SetStatus(r, RunStatus.Cancelled, None, None, if next.Some? then Some(run.steps[next.value].nodeId) else None);
        return Finished(RunStatus.Cancelled);
      }
      if run.deadlineAt.Some? && run.deadlineAt.value <= now {
        SetStatus(r, RunStatus.TimedOut, Some(Timeout), None, None);
        return Finished(RunStatus.TimedOut);
      }
      if next.None? {
        outcome := FinishOrWait(r);
        return;
      }
      if run.status.Queued? {
        SetStatus(r, RunStatus.Running, None, None, None);
      }
      Enqueue(RunStep(next.value), r, 0);
      outcome := DispatchedStep(next.value);
    }

    // ---- claimStep ----

    method PutRow(r: RunId, i: nat, s: StepRow)
      requires D.IsStep(View(), r, i)
      modifies this
      ensures View() == D.PutStep(old(View()), r, i, s)
    {
      runs := runs[r := runs[r].(steps := runs[r].steps[i := s])];
    }

    method Claim(r: RunId, i: nat, w: WorkerId, leaseMs: nat, limits: Option<D.ConcurrencyLimits>)
      returns (result: D.ClaimResult)
      requires r in runs
      modifies this
      ensures (View(), result) == D.ClaimStep(old(View()), r, i, w, leaseMs, limits)
    {
      if limits.Some? && D.OverLimit(Db(now, runs, idempotency, outbox, dlq), runs[r], limits.value) {
        return D.Blocked;
      }
      if i < |runs[r].steps| && Claimable(runs[r].steps[i], now) {
        var s := ClaimRow(runs[r].steps[i], w, now + leaseMs);
        PutRow(r, i, s);
        return D.Claimed(s);
      }
      result := D.Taken;
    }

    // ---- recording ----

    method SkipAbandoned(r: RunId, abandoned: set<NodeId>)
      requires r in runs
      modifies this
      ensures View() == D.PutRun(old(View()), r, old(runs[r]).(steps := MarkSkipped(old(runs[r].steps), abandoned)))
    {
      var steps := runs[r].steps;
      var was := steps;
      for i := 0 to |was|
        invariant |steps| == |was|
        invariant forall k :: 0 <= k < |was| ==> steps[k] == if k < i then SkipRow(was[k], abandoned) else was[k]
      {
        if steps[i].nodeId in abandoned && steps[i].status.Pending? {
          steps := steps[i := steps[i].(status := StepStatus.Skipped)];
        }
      }
      assert steps == MarkSkipped(was, abandoned);
      runs := runs[r := runs[r].(steps := steps)];
    }

    method Succeed(r: RunId, i: nat, w: WorkerId, output: Option<Output>, abandoned: set<NodeId>) returns (wrote: bool)
      modifies this
      ensures (View(), wrote) == D.RecordSuccess(old(View()), r, i, w, output, abandoned)
    {
      if !(r in runs && i < |runs[r].steps| && OwnedBy(runs[r].steps[i], w)) {
        return false;
      }
      PutRow(r, i, SucceedRow(runs[r].steps[i], output));
      runs := runs[r := runs[r].(stepsSucceeded := runs[r].stepsSucceeded + 1)];
      SkipAbandoned(r, abandoned);
      assert runs == old(runs)[r := runs[r]];
      Enqueue(AdvanceRun, r, 0);
      wrote := true;
    }

    method Fail(r: RunId, i: nat, w: WorkerId, rec: D.FailureRecord) returns (wrote: bool)
      modifies this
      ensures (View(), wrote) == D.RecordFailure(old(View()), r, i, w, rec)
    {
      if !(r in runs && i < |runs[r].steps| && OwnedBy(runs[r].steps[i], w)) {
        return false;
      }
      var s := runs[r].steps[i];
      var wake := match rec.retryDelayMs { case Some(d) => Some(now + d) case None => None };
      PutRow(r, i, FailRow(s, rec.status, rec.consumed, rec.deferrals, wake, rec.errorClass));
      if rec.countsFailed {
        runs := runs[r := runs[r].(stepsFailed := runs[r].stepsFailed + 1)];
      }
      assert runs == old(runs)[r := runs[r]];
      if rec.dlq.Some? {
        dlq := dlq + [DlqEntry(r, s.nodeId, rec.dlq.value, rec.errorClass, s.key, false)];
      }
      Enqueue(AdvanceRun, r, rec.retryDelayMs.GetOr(0));
      wrote := true;
    }

    // ---- operators ----

    method RequestCancel(r: RunId) returns (ok: bool)
      modifies this
      ensures (View(), ok) == D.RequestCancel(old(View()), r)
    {
      if r !in runs || IsTerminal(runs[r].status) {
        return false;
      }
      runs := runs[r := MarkCancelRequested(runs[r], now)];
      ok := true;
    }

    /** Preserve what ran before the target, reset it and everything after. */
    method ResetRows(r: RunId, at: nat, group: nat)
      requires r in runs && at < |runs[r].steps|
      modifies this
      ensures View() == D.PutRun(old(View()), r, old(runs[r]).(steps := ResumeRows(r, old(runs[r].steps), at, group)))
    {
      var steps := runs[r].steps;
      var was := steps;
      for i := 0 to |was|
        invariant |steps| == |was|
        invariant forall k :: 0 <= k < |was| ==> steps[k] == if k < i then ResumeRows(r, was, at, group)[k] else was[k]
      {
        if i < at {
          steps := steps[i := PreserveRow(steps[i])];
        } else {
          steps := steps[i := ResetRow(steps[i], StepKey(r, steps[i].nodeId, group))];
        }
      }
      assert steps == ResumeRows(r, was, at, group);
      runs := runs[r := runs[r].(steps := steps)];
    }

    method Resume(r: RunId, fromNode: NodeId) returns (error: Option<D.ResumeError>)
      modifies this
      ensures match D.Resume(old(View()), r, fromNode)
              case Ok(db) => error.None? && View() == db
              case Err(e) => error == Some(e) && View() == old(View())
    {
      if r !in runs {
        return Some(D.NoRun);
      }
      if !Resumable(runs[r].status) {
        return Some(D.NotStopped);
      }
      var target := D.TargetOf(runs[r].steps, fromNode);
      if target.None? {
        return Some(D.NoStep);
      }
      var group := runs[r].attemptGroup + 1;
      runs := runs[r := runs[r].(attemptGroup := group, status := RunStatus.Queued, finishedAt := None,
                                 errorClass := None, errorStep := None, cancelRequestedAt := None,
                                 cancelledAtStep := None)];
      ResetRows(r, target.value, group);
      runs := runs[r := runs[r].(stepsSucceeded := 0, stepsFailed := 0)];
      Enqueue(AdvanceRun, r, 0);
      error := None;
    }

    method ReplayDlqEntry(entry: nat) returns (error: Option<D.ResumeError>)
      modifies this
      ensures match D.ReplayDlqEntry(old(View()), entry)
              case Ok(db) => error.None? && View() == db
              case Err(e) => error == Some(e) && View() == old(View())
    {
      if entry >= |dlq| {
        return Some(D.NoEntry);
      }
      if dlq[entry].replayed {
        return Some(D.AlreadyReplayed);
      }
      error := Resume(dlq[entry].runId, dlq[entry].nodeId);
      if error.None? {
        dlq := dlq[entry := dlq[entry].(replayed := true)];
      }
    }

    // ---- janitor ----

    /** LIMIT: some of the matching rows, all of them if they fit. */
    method Limited(matching: set<RunId>, limit: nat) returns (rows: seq<RunId>)
      ensures forall r :: r in rows ==> r in matching
      ensures forall i, j :: 0 <= i < j < |rows| ==> rows[i] != rows[j]
      ensures |matching| <= limit ==> forall r :: r in matching ==> r in rows
      ensures |rows| == Min(|matching|, limit)
    {
      rows := [];
      var left := matching;
      while left != {} && |rows| < limit
        invariant left <= matching && |rows| + |left| == |matching| && |rows| <= limit
        invariant forall r :: r in rows <==> r in matching && r !in left
        invariant forall i, j :: 0 <= i < j < |rows| ==> rows[i] != rows[j]
        decreases left
      {
        var r :| r in left;
        left := left - {r};
        rows := rows + [r];
      }
    }

    /** Enqueue one advance for every row not scheduled yet. */
    method ScheduleAll(rows: seq<RunId>, scheduled: set<RunId>, ghost chosen: seq<RunId>, ghost before: Db)
      returns (after: set<RunId>, ghost more: seq<RunId>)
      requires now == before.now && outbox == before.outbox + D.AdvanceMessages(chosen, now)
      requires scheduled == (set r | r in chosen) && forall i, j :: 0 <= i < j < |chosen| ==> chosen[i] != chosen[j]
      modifies this`outbox
      ensures outbox == before.outbox + D.AdvanceMessages(more, now)
      ensures after == (set r | r in more) && forall i, j :: 0 <= i < j < |more| ==> more[i] != more[j]
      ensures forall r :: r in more <==> r in chosen || r in rows
    {
      after, more := scheduled, chosen;
      for i := 0 to |rows|
        invariant outbox == before.outbox + D.AdvanceMessages(more, now)
        invariant after == (set r | r in more) && forall j, k :: 0 <= j < k < |more| ==> more[j] != more[k]
        invariant forall r :: r in more <==> r in chosen || r in rows[..i]
      {
        assert rows[..i + 1] == rows[..i] + [rows[i]];
        if rows[i] !in after {
          after := after + {rows[i]};
          outbox := outbox + [Message(AdvanceRun, rows[i], now)];
          assert D.AdvanceMessages(more + [rows[i]], now)
            == D.AdvanceMessages(more, now) + [Message(AdvanceRun, rows[i], now)];
          more := more + [rows[i]];
        }
      }
      assert rows[..|rows|] == rows;
    }

    /** One pass: lapsed leases, overdue runs, stranded runs, each run scheduled at most once. */
    method Sweep(limit: nat) returns (ghost chosen: seq<RunId>)
      modifies this
      ensures D.SweepChoice(old(View()), chosen) && View() == D.Sweep(old(View()), chosen)
      ensures var db := old(View());
        |ExpiredRuns(db)| <= limit && |OverdueRuns(db)| <= limit && |StrandedRuns(db)| <= limit ==>
        forall r :: D.SweepEligible(db, r) ==> r in chosen
    {
      ghost var before := View();
      var db := Db(now, runs, idempotency, outbox, dlq);
      var expiredRows := Limited(ExpiredRuns(db), limit);
      var overdueRows := Limited(OverdueRuns(db), limit);
      var strandedRows := Limited(StrandedRuns(db), limit);
      assert D.AdvanceMessages([], now) == [];
      var scheduled;
      scheduled, chosen := ScheduleAll(expiredRows, {}, [], before);
      scheduled, chosen := ScheduleAll(overdueRows, scheduled, chosen, before);
      scheduled, chosen := ScheduleAll(strandedRows, scheduled, chosen, before);
      EligibleIsListed(before);
      hide D.SweepEligible;
      hide ExpiredRuns;
      hide OverdueRuns;
      hide StrandedRuns;
    }

    // ---- the test clock ----

    /** Shift every scheduled instant into the past. */
    method AdvanceClock(ms: int)
      modifies this
      ensures View() == if ms <= 0 then old(View()) else Shifted(old(View()), ms)
    {
      if ms <= 0 {
        return;
      }
      var messages := outbox;
      for i := 0 to |messages|
        invariant |messages| == |old(outbox)|
        invariant forall k :: 0 <= k < |messages| ==>
          messages[k] == if k < i then ShiftedMessage(old(outbox)[k], ms) else old(outbox)[k]
      {
        messages := messages[i := messages[i].(availableAt := messages[i].availableAt - ms)];
      }
      outbox := messages;
      assert outbox == ShiftedOutbox(old(outbox), ms);
      runs := map r | r in runs :: ShiftedRun(runs[r], ms);
    }
  }

  function ExpiredRuns(db: Db): set<RunId> {
    set r | r in db.runs && D.HasExpiredLease(db.runs[r], db.now)
  }

  function OverdueRuns(db: Db): set<RunId> {
    set r | r in db.runs && D.Overdue(db.runs[r], db.now)
  }

  function StrandedRuns(db: Db): set<RunId> {
    set r | r in db.runs && D.Stranded(db, r)
  }

  lemma EligibleIsListed(db: Db)
    ensures forall r :: D.SweepEligible(db, r) <==>
      r in ExpiredRuns(db) || r in OverdueRuns(db) || r in StrandedRuns(db)
  {
    hide D.HasExpiredLease;
    hide D.Overdue;
  }

  function ShiftedMessage(m: Message, ms: int): Message {
    m.(availableAt := m.availableAt - ms)
  }

  function ShiftedOutbox(ms': seq<Message>, ms: int): (r: seq<Message>)
    ensures |r| == |ms'| && forall i :: 0 <= i < |r| ==> r[i] == ShiftedMessage(ms'[i], ms)
  {
    seq(|ms'|, i requires 0 <= i < |ms'| => ShiftedMessage(ms'[i], ms))
  }

  function Earlier(at: Option<int>, ms: int): Option<int> {
    match at
    case Some(t) => Some(t - ms)
    case None => None
  }

  function ShiftedRow(s: StepRow, ms: int): StepRow {
    s.(nextAttemptAt := Earlier(s.nextAttemptAt, ms), leaseExpiresAt := Earlier(s.leaseExpiresAt, ms))
  }

  function ShiftedRows(steps: seq<StepRow>, ms: int): (r: seq<StepRow>)
    ensures |r| == |steps| && forall i :: 0 <= i < |r| ==> r[i] == ShiftedRow(steps[i], ms)
  {
    seq(|steps|, i requires 0 <= i < |steps| => ShiftedRow(steps[i], ms))
  }

  /** A finished run's deadline is left alone. */
  function ShiftedRun(run: Run, ms: int): Run {
    run.(steps := ShiftedRows(run.steps, ms),
         deadlineAt := if run.finishedAt.None? then Earlier(run.deadlineAt, ms) else run.deadlineAt)
  }

  function Shifted(db: Db, ms: int): Db {
    db.(outbox := ShiftedOutbox(db.outbox, ms), runs := map r | r in db.runs :: ShiftedRun(db.runs[r], ms))
  }

  // ---- shifting the rows is waiting ----

  lemma {:induction false} NextAfterShift(steps: seq<StepRow>, now: int, ms: int, k: nat)
    requires k <= |steps|
    ensures NextFrom(ShiftedRows(steps, ms), now, k) == NextFrom(steps, now + ms, k)
    decreases |steps| - k
  {
    if k < |steps| {
      NextAfterShift(steps, now, ms, k + 1);
    }
  }

  lemma RowAfterShift(s: StepRow, now: int, ms: int)
    ensures Claimable(ShiftedRow(s, ms), now) <==> Claimable(s, now + ms)
    ensures D.LiveLease(ShiftedRow(s, ms), now) <==> D.LiveLease(s, now + ms)
  {
  }

  /**
   * Every question the engine asks of the clock has the same answer after the
   * shift as after waiting: which step is next, what may be claimed, which
   * leases hold or have lapsed, which messages are due, which runs are overdue.
   */
  lemma ShiftIsWaiting(db: Db, ms: int, r: RunId)
    requires r in db.runs && db.runs[r].finishedAt.None?
    ensures var run, shifted := db.runs[r], Shifted(db, ms).runs[r];
      var later := db.now + ms;
      && NextRunnableStep(shifted.steps, db.now) == NextRunnableStep(run.steps, later)
      && (forall i :: 0 <= i < |run.steps| ==>
            && (Claimable(shifted.steps[i], db.now) <==> Claimable(run.steps[i], later))
            && (D.LiveLease(shifted.steps[i], db.now) <==> D.LiveLease(run.steps[i], later)))
      && (D.Overdue(shifted, db.now) <==> D.Overdue(run, later))
      && (D.HasExpiredLease(shifted, db.now) <==> D.HasExpiredLease(run, later))
      && (D.HoldsLease(shifted, db.now) <==> D.HoldsLease(run, later))
    ensures forall k :: 0 <= k < |db.outbox| ==>
      (Shifted(db, ms).outbox[k].availableAt <= db.now <==> db.outbox[k].availableAt <= db.now + ms)
  {
    var run := db.runs[r];
    assert Shifted(db, ms).runs[r] == ShiftedRun(run, ms);
    NextAfterShift(run.steps, db.now, ms, 0);
    LeasesAfterShift(run, ms, db.now);
    hide NextFrom;
    hide Claimable;
    hide D.LiveLease;
    hide D.HasExpiredLease;
    hide D.HoldsLease;
    hide ShiftedRow;
    forall i | 0 <= i < |run.steps|
      ensures Claimable(ShiftedRun(run, ms).steps[i], db.now) <==> Claimable(run.steps[i], db.now + ms)
      ensures D.LiveLease(ShiftedRun(run, ms).steps[i], db.now) <==> D.LiveLease(run.steps[i], db.now + ms)
    {
      RowAfterShift(run.steps[i], db.now, ms);
    }
  }

  lemma LeasesAfterShift(run: Run, ms: int, now: int)
    ensures D.HasExpiredLease(ShiftedRun(run, ms), now) <==> D.HasExpiredLease(run, now + ms)
    ensures D.HoldsLease(ShiftedRun(run, ms), now) <==> D.HoldsLease(run, now + ms)
  {
    var steps, shifted := run.steps, ShiftedRows(run.steps, ms);
    forall s | s in steps
      ensures ShiftedRow(s, ms) in shifted
    {
      var i :| 0 <= i < |steps| && steps[i] == s;
      assert shifted[i] == ShiftedRow(s, ms);
    }
    forall t | t in shifted
      ensures exists s :: s in steps && ShiftedRow(s, ms) == t
    {
      var i :| 0 <= i < |shifted| && shifted[i] == t;
      assert steps[i] in steps;
    }
  }
}
