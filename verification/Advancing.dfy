// What an advance does to a run, told by the run's own columns.
module Advancing {
  import opened Options
  import opened ErrorClasses
  import opened EngineTypes
  import opened EngineRows
  import opened EngineDb
  import opened World
  import Interleavings

  // ---- rows, by status ----

  /** Fresh; or a retry whose instant has come; or taken by a worker whose lease ran out. */
  predicate DueRow(s: StepRow, now: int) {
    match s.status
    case Pending => true
    case Failed => s.nextAttemptAt.Some? && now >= s.nextAttemptAt.value
    case Running => s.leaseExpiresAt.Some? && now > s.leaseExpiresAt.value
    case _ => false
  }

  /** Nothing behind such a row runs any more. */
  predicate EndsChain(s: StepRow) {
    match s.status
    case TimedOut => true
    case Cancelled => true
    case Failed => s.nextAttemptAt.None?
    case _ => false
  }

  /** Row i is the lowest due row that no ended row stands before. */
  predicate IsNext(steps: seq<StepRow>, now: int, i: nat) {
    && i < |steps| && DueRow(steps[i], now)
    && forall j :: 0 <= j < i ==> !DueRow(steps[j], now) && !EndsChain(steps[j])
  }

  ghost predicate NoneNext(steps: seq<StepRow>, now: int) {
    forall i: nat :: !IsNext(steps, now, i)
  }

  lemma NextExactly(steps: seq<StepRow>, now: int)
    ensures forall i: nat :: NextRunnableStep(steps, now) == Some(i) <==> IsNext(steps, now, i)
    ensures NextRunnableStep(steps, now).None? <==> NoneNext(steps, now)
  {
    NextRunnableStepExact(steps, now);
    var next := NextRunnableStep(steps, now);
    assert forall s: StepRow :: (Claimable(s, now) <==> DueRow(s, now)) && (Blocks(s) <==> EndsChain(s));
    hide NextRunnableStep, Claimable, Blocks, DueRow, EndsChain;
    if next.Some? {
      forall j | 0 <= j < next.value
        ensures !Claimable(steps[j], now) && !Blocks(steps[j])
      {
        assert Runnable(steps, now, next.value);
        assert !Runnable(steps, now, j);
      }
      assert IsNext(steps, now, next.value);
    } else {
      forall i: nat
        ensures !IsNext(steps, now, i)
      {
        assert !Runnable(steps, now, i);
      }
    }
  }

  // ---- one advance ----

  predicate Overdue(run: Run, now: int) {
    run.deadlineAt.Some? && now >= run.deadlineAt.value
  }

  predicate GoesOn(run: Run, now: int) {
    !IsTerminal(run.status) && run.cancelRequestedAt.None? && !Overdue(run, now)
  }

  /** Only run r changed, and nothing was sent. */
  predicate OnlyRun(a: Db, b: Db, r: RunId, run: Run) {
    b == a.(runs := a.runs[r := run])
  }

  /** A late copy of the message changes nothing. */
  lemma StoppedRunStays(db: Db, r: RunId)
    requires r in db.runs && IsTerminal(db.runs[r].status)
    ensures Advance(db, r) == (db, Finished(db.runs[r].status))
  {
    assert db.runs[r := db.runs[r]] == db.runs;
  }

  /** A requested cancel wins over everything but an end, and is told where the run stopped. */
  lemma AdvanceCancels(db: Db, r: RunId)
    requires r in db.runs && !IsTerminal(db.runs[r].status) && db.runs[r].cancelRequestedAt.Some?
    ensures var run := db.runs[r];
      var (db', outcome) := Advance(db, r);
      && outcome == Finished(RunStatus.Cancelled)
      && r in db'.runs
      && OnlyRun(db, db', r, run.(status := RunStatus.Cancelled, finishedAt := Some(db.now),
                                  cancelledAtStep := db'.runs[r].cancelledAtStep))
      && (forall i: nat :: IsNext(run.steps, db.now, i) ==> db'.runs[r].cancelledAtStep == Some(run.steps[i].nodeId))
      && (NoneNext(run.steps, db.now) ==> db'.runs[r].cancelledAtStep == run.cancelledAtStep)
  {
    NextExactly(db.runs[r].steps, db.now);
    hide NextRunnableStep, IsNext;
  }

  lemma AdvanceTimesOut(db: Db, r: RunId)
    requires r in db.runs && !IsTerminal(db.runs[r].status)
    requires db.runs[r].cancelRequestedAt.None? && Overdue(db.runs[r], db.now)
    ensures var (db', outcome) := Advance(db, r);
      && outcome == Finished(RunStatus.TimedOut)
      && OnlyRun(db, db', r, db.runs[r].(status := RunStatus.TimedOut, finishedAt := Some(db.now),
                                         errorClass := Some(Timeout)))
  {
    hide NextRunnableStep;
  }

  /** The next row is sent for, due at once; a queued run starts. */
  lemma AdvanceDispatches(db: Db, r: RunId, i: nat)
    requires r in db.runs && GoesOn(db.runs[r], db.now) && IsNext(db.runs[r].steps, db.now, i)
    ensures var run := db.runs[r];
      var (db', outcome) := Advance(db, r);
      && outcome == DispatchedStep(i)
      && db' == db.(runs := db.runs[r := if run.status.Queued? then run.(status := RunStatus.Running) else run],
                    outbox := db.outbox + [Message(RunStep(i), r, db.now)])
  {
    NextExactly(db.runs[r].steps, db.now);
    hide NextRunnableStep, IsNext;
  }

  predicate Hopeless(s: StepRow) {
    s.status.TimedOut? || (s.status.Failed? && s.nextAttemptAt.None?)
  }

  predicate LowestHopeless(steps: seq<StepRow>, i: nat) {
    i < |steps| && Hopeless(steps[i]) && forall j :: 0 <= j < i ==> !Hopeless(steps[j])
  }

  predicate LowestPaused(steps: seq<StepRow>, i: nat) {
    && i < |steps| && steps[i].status.WaitingConfirmation?
    && (forall j :: 0 <= j < i ==> !steps[j].status.WaitingConfirmation?)
    && forall s :: s in steps ==> !Hopeless(s)
  }

  /** Every row succeeded, was skipped, kept by a resume, or cancelled. */
  predicate AllSettled(steps: seq<StepRow>) {
    forall s :: s in steps ==>
      s.status.Succeeded? || s.status.Skipped? || s.status.SkippedResumed? || s.status.Cancelled?
  }

  /** The lowest failed row fails the run, else the lowest paused one pauses it, else it is done or early. */
  predicate EndedAs(run: Run, now: int, run': Run) {
    && (forall i :: 0 <= i < |run.steps| && LowestHopeless(run.steps, i) ==>
          run' == run.(status := RunStatus.Failed, finishedAt := Some(now),
                       errorClass := Some(run.steps[i].errorClass.GetOr(Internal)),
                       errorStep := Some(run.steps[i].nodeId)))
    && (forall i :: 0 <= i < |run.steps| && LowestPaused(run.steps, i) ==>
          run' == run.(status := RunStatus.WaitingConfirmation,
                       errorClass := Some(run.steps[i].errorClass.GetOr(UnknownOutcome)),
                       errorStep := Some(run.steps[i].nodeId)))
    && (AllSettled(run.steps) ==> run' == run.(status := RunStatus.Succeeded, finishedAt := Some(now)))
    && ((forall s :: s in run.steps ==> !Hopeless(s) && !s.status.WaitingConfirmation?) && !AllSettled(run.steps) ==>
          run' == run)
  }

  lemma FinishedRow(run: Run, now: int)
    ensures EndedAs(run, now, FinishOrWait(run, now).0)
  {
    EndRows(run.steps);
    hide LowestHopeless, LowestPaused, AllSettled, Hopeless, FirstWhere, IsDone;
  }

  /** With no row to send for, nothing is sent, and the rows say how the run stands. */
  lemma AdvanceEnds(db: Db, r: RunId)
    requires r in db.runs && GoesOn(db.runs[r], db.now) && NoneNext(db.runs[r].steps, db.now)
    ensures var db' := Advance(db, r).0;
      && r in db'.runs && OnlyRun(db, db', r, db'.runs[r])
      && EndedAs(db.runs[r], db.now, db'.runs[r])
  {
    NextExactly(db.runs[r].steps, db.now);
    FinishedRow(db.runs[r], db.now);
    hide NextRunnableStep, NoneNext, EndedAs, FirstWhere, IsDone;
  }

  /** The two searches of the end, and the test for success. */
  lemma EndRows(steps: seq<StepRow>)
    ensures var failed, paused := FirstWhere(steps, TerminallyFailed), FirstWhere(steps, Paused);
      && (forall i: nat :: LowestHopeless(steps, i) <==> failed == Some(i))
      && (forall i: nat :: LowestPaused(steps, i) <==> failed.None? && paused == Some(i))
      && (failed.None? && paused.None? <==> forall s :: s in steps ==> !Hopeless(s) && !s.status.WaitingConfirmation?)
    ensures AllSettled(steps) <==> forall s :: s in steps ==> IsDone(s.status)
    ensures AllSettled(steps) ==> FirstWhere(steps, TerminallyFailed).None? && FirstWhere(steps, Paused).None?
  {
    var failed, paused := FirstWhere(steps, TerminallyFailed), FirstWhere(steps, Paused);
    hide FirstWhere;
    assert forall s: StepRow :: TerminallyFailed(s) <==> Hopeless(s);
    assert forall s: StepRow :: Paused(s) <==> s.status.WaitingConfirmation?;
    hide TerminallyFailed, Paused;
    assert forall i :: 0 <= i < |steps| ==> steps[i] in steps;
    forall i: nat
      ensures LowestHopeless(steps, i) <==> failed == Some(i)
    {
    }
    forall i: nat
      ensures LowestPaused(steps, i) <==> failed.None? && paused == Some(i)
    {
    }
  }
}
