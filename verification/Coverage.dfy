// Every live run is covered: something on its way will still move it. Duplicated
// messages, stale holders and further sweeps do not disturb this.
module Coverage {
  import opened Options
  import opened EngineTypes
  import opened EngineRows
  import opened EngineDb
  import opened World
  import opened RowInvariants
  import opened Safety
  import opened TokenDiscipline
  import opened TokenGuarantees
  import opened Budgets
  import opened TokenMoves
  import opened WorkerMoves
  import opened Schedules
  import Backoff

  // ---- what covers a run, and a row ----

  predicate ClaimableStep(db: Db, r: RunId, i: nat) {
    IsStep(db, r, i) && Claimable(db.runs[r].steps[i], db.now)
  }

  /** The message will move its run: an advance, or a step that can be claimed. */
  predicate Wakes(db: Db, m: Message) {
    m.topic.RunStep? ==> ClaimableStep(db, m.runId, m.topic.step)
  }

  /** The worker will move run r: it executes a row still its own, or puts a claimable step back. */
  predicate Moving(db: Db, w: WorkerId, p: Phase, r: RunId) {
    && Holds(p, r)
    && (p.Executing? ==> Lands(db, w, p))
    && (p.PuttingBack? ==> ClaimableStep(db, r, p.step))
  }

  predicate InQueue(world: World, r: RunId, m: Message) {
    m in world.db.outbox && m.runId == r && Wakes(world.db, m)
  }

  predicate Fetched(world: World, r: RunId, w: WorkerId, m: Message) {
    w < |world.workers| && m in world.workers[w].batch && m.runId == r && Wakes(world.db, m)
  }

  predicate Worked(world: World, r: RunId, w: WorkerId) {
    w < |world.workers| && Moving(world.db, w, world.workers[w].phase, r)
  }

  ghost predicate Covered(world: World, r: RunId) {
    || (exists m :: InQueue(world, r, m))
    || (exists w, m :: Fetched(world, r, w, m))
    || (exists w :: Worked(world, r, w))
  }

  /** A running row is lapsed or held by its worker; a retry to come has its advance queued. */
  ghost predicate RowCovered(world: World, r: RunId, i: nat)
    requires IsStep(world.db, r, i)
  {
    var s := world.db.runs[r].steps[i];
    && (s.status.Running? ==> Lapsed(s, world.db.now) || exists w :: Holder(world, w, r, i))
    && (s.status.Failed? && s.nextAttemptAt.Some? && s.nextAttemptAt.value > world.db.now ==>
          exists m :: Retries(world, r, s.nextAttemptAt.value, m))
  }

  predicate Retries(world: World, r: RunId, due: int, m: Message) {
    m in world.db.outbox && m.runId == r && m.topic.AdvanceRun? && m.availableAt >= due
  }

  ghost predicate CoverInv(world: World) {
    && (forall r :: IsLive(world.db, r) ==> Covered(world, r))
    && (forall r, i: nat :: IsStep(world.db, r, i) ==> RowCovered(world, r, i))
  }

  // ---- what one action leaves of another run's cover ----

  /** Run q as it was, at the same instant, and nothing that moves it gone. */
  ghost predicate Undisturbed(a: World, b: World, q: RunId) {
    && (q in a.db.runs <==> q in b.db.runs)
    && (q in a.db.runs ==> b.db.runs[q].steps == a.db.runs[q].steps)
    && a.db.now == b.db.now && |a.workers| == |b.workers|
    && (forall m :: m in a.db.outbox && m.runId == q ==> m in b.db.outbox)
    && (forall w, m {:trigger m in a.workers[w].batch} ::
          0 <= w < |a.workers| && m in a.workers[w].batch && m.runId == q ==> m in b.workers[w].batch)
    && (forall w :: 0 <= w < |a.workers| && Holds(a.workers[w].phase, q) ==> b.workers[w].phase == a.workers[w].phase)
  }

  lemma StaysCovered(a: World, b: World, q: RunId)
    requires Undisturbed(a, b, q) && Covered(a, q)
    ensures Covered(b, q)
  {
    if m :| InQueue(a, q, m) {
      assert InQueue(b, q, m);
    } else if w, m :| Fetched(a, q, w, m) {
      assert Fetched(b, q, w, m);
    } else {
      var w :| Worked(a, q, w);
      assert Worked(b, q, w);
    }
  }

  lemma RowStaysCovered(a: World, b: World, q: RunId, i: nat)
    requires Undisturbed(a, b, q) && IsStep(a.db, q, i) && RowCovered(a, q, i)
    ensures IsStep(b.db, q, i) && RowCovered(b, q, i)
  {
    var s := a.db.runs[q].steps[i];
    if s.status.Running? && !Lapsed(s, a.db.now) {
      var w :| Holder(a, w, q, i);
      assert Holder(b, w, q, i);
    }
    if s.status.Failed? && s.nextAttemptAt.Some? && s.nextAttemptAt.value > a.db.now {
      var m :| Retries(a, q, s.nextAttemptAt.value, m);
      assert Retries(b, q, s.nextAttemptAt.value, m);
    }
  }

  /** One run was moved and is covered; the others are undisturbed. */
  lemma CoverFrom(a: World, b: World, r: RunId)
    requires CoverInv(a)
    requires forall q :: q != r ==> Undisturbed(a, b, q) && (IsLive(b.db, q) ==> IsLive(a.db, q))
    requires IsLive(b.db, r) ==> Covered(b, r)
    requires forall i: nat :: IsStep(b.db, r, i) ==> RowCovered(b, r, i)
    ensures CoverInv(b)
  {
    hide Covered;
    hide RowCovered;
    forall q | IsLive(b.db, q)
      ensures Covered(b, q)
    {
      if q != r {
        StaysCovered(a, b, q);
      }
    }
    forall q, i: nat | IsStep(b.db, q, i)
      ensures RowCovered(b, q, i)
    {
      if q != r {
        assert Undisturbed(a, b, q);
        RowStaysCovered(a, b, q, i);
      }
    }
  }

  // ---- advancing ----

  /** An advance that dispatches nothing and stops nothing waits for a holder or a retry. */
  lemma WaitsForARow(r: RunId, run: Run, now: int) returns (i: nat)
    requires RunOk(r, run) && !AdvanceRow(run, now).1.DispatchedStep? && RunIsLive(AdvanceRow(run, now).0.status)
    ensures i < |run.steps|
    ensures var s := run.steps[i];
      || (s.status.Running? && !Lapsed(s, now))
      || (s.status.Failed? && s.nextAttemptAt.Some? && s.nextAttemptAt.value > now)
  {
    RestsMeans(run, now);
    forall k | 0 <= k < |run.steps|
      ensures RowOk(run.steps[k])
    {
      assert run.steps[k] in run.steps;
    }
    hide RunOk;
    hide AdvanceRow;
    i := UnreadyRow(run.steps, now);
  }

  /** Nothing is runnable, and not all is done, failed or paused. */
  lemma RestsMeans(run: Run, now: int)
    requires !AdvanceRow(run, now).1.DispatchedStep? && RunIsLive(AdvanceRow(run, now).0.status)
    ensures forall k: nat :: !Runnable(run.steps, now, k)
    ensures forall s :: s in run.steps ==> !TerminallyFailed(s) && !Paused(s)
    ensures exists s :: s in run.steps && !IsDone(s.status)
  {
    NextRunnableStepExact(run.steps, now);
    hide Runnable;
    hide NextRunnableStep;
  }

  lemma UnreadyRow(steps: seq<StepRow>, now: int) returns (i: nat)
    requires forall k :: 0 <= k < |steps| ==> RowOk(steps[k])
    requires forall k: nat :: !Runnable(steps, now, k)
    requires forall s :: s in steps ==> !TerminallyFailed(s) && !Paused(s)
    requires exists s :: s in steps && !IsDone(s.status)
    ensures i < |steps|
    ensures var s := steps[i];
      || (s.status.Running? && !Lapsed(s, now))
      || (s.status.Failed? && s.nextAttemptAt.Some? && s.nextAttemptAt.value > now)
  {
    var s :| s in steps && !IsDone(s.status);
    i :| 0 <= i < |steps| && steps[i] == s;
    forall k | 0 <= k < i
      ensures !Blocks(steps[k])
    {
      assert steps[k] in steps && RowOk(steps[k]);
    }
    assert !Runnable(steps, now, i);
  }

  /** A waiting run is covered by what covers the row it waits for. */
  lemma WaitingCovered(world: World, r: RunId, i: nat)
    requires IsStep(world.db, r, i) && RowCovered(world, r, i)
    requires var s := world.db.runs[r].steps[i];
      || (s.status.Running? && !Lapsed(s, world.db.now))
      || (s.status.Failed? && s.nextAttemptAt.Some? && s.nextAttemptAt.value > world.db.now)
    ensures Covered(world, r)
  {
    var s := world.db.runs[r].steps[i];
    if s.status.Running? {
      var w :| Holder(world, w, r, i);
      assert Worked(world, r, w);
    } else {
      var m :| Retries(world, r, s.nextAttemptAt.value, m);
      assert InQueue(world, r, m);
    }
  }

  /** The rows of the run that was advanced, or whose claim was dropped, keep their cover. */
  lemma RowsOutlive(a: World, b: World, r: RunId, i: nat)
    requires IsStep(a.db, r, i) && RowCovered(a, r, i) && IsStep(b.db, r, i)
    requires b.db.runs[r].steps[i] == a.db.runs[r].steps[i] && a.db.now == b.db.now
    requires forall m :: m in a.db.outbox && m.runId == r && m.topic.AdvanceRun? ==> m in b.db.outbox
    requires forall w :: Holder(a, w, r, i) ==> Holder(b, w, r, i)
    ensures RowCovered(b, r, i)
  {
    var s := a.db.runs[r].steps[i];
    if s.status.Failed? && s.nextAttemptAt.Some? && s.nextAttemptAt.value > a.db.now {
      var m :| Retries(a, r, s.nextAttemptAt.value, m);
      assert Retries(b, r, s.nextAttemptAt.value, m);
    }
  }

  lemma AdvanceUndisturbs(world: World, next: World, w: WorkerId, q: RunId)
    requires HasHead(world, w) && world.workers[w].batch[0].runId != q
    requires var r := world.workers[w].batch[0].runId;
      && next.workers == Unbatched(world, w).workers
      && (r !in world.db.runs ==> next.db == world.db)
      && (r in world.db.runs ==> RewroteRun(world, next, r))
      && (AdvanceRests(world, next, r) || exists i :: AdvanceDispatches(world, next, r, i))
    ensures Undisturbed(world, next, q) && (IsLive(next.db, q) ==> IsLive(world.db, q))
  {
    hide AdvanceRow;
    hide Claimable;
    var batch := world.workers[w].batch;
    forall m | m in batch && m.runId == q
      ensures m in batch[1..]
    {
      var k :| 0 <= k < |batch| && batch[k] == m;
      assert batch[1..][k - 1] == m;
    }
  }

  lemma AdvanceCovers(cfg: Config, world: World, w: WorkerId)
    requires Inv(world) && CoverInv(world) && HasHead(world, w) && world.workers[w].batch[0].topic.AdvanceRun?
    ensures CoverInv(ApplyProcess(cfg, world, w))
  {
    var r := world.workers[w].batch[0].runId;
    var next := ApplyProcess(cfg, world, w);
    AdvanceShape(cfg, world, w);
    assert RunsOk(world.db);
    hide Inv;
    hide ApplyProcess;
    forall q | q != r
      ensures Undisturbed(world, next, q) && (IsLive(next.db, q) ==> IsLive(world.db, q))
    {
      AdvanceUndisturbs(world, next, w, q);
    }
    AdvancedRun(world, next, w);
    hide *;
    CoverFrom(world, next, r);
  }

  lemma AdvancedRun(world: World, next: World, w: WorkerId)
    requires RunsOk(world.db) && CoverInv(world) && HasHead(world, w)
    requires var r := world.workers[w].batch[0].runId;
      && next.workers == Unbatched(world, w).workers
      && (r !in world.db.runs ==> next.db == world.db)
      && (r in world.db.runs ==> RewroteRun(world, next, r) && next.db.runs[r].steps == world.db.runs[r].steps)
      && (AdvanceRests(world, next, r) || exists i :: AdvanceDispatches(world, next, r, i))
    ensures var r := world.workers[w].batch[0].runId;
      && (forall i: nat :: IsStep(next.db, r, i) ==> RowCovered(next, r, i))
      && (IsLive(next.db, r) ==> Covered(next, r))
  {
    var r := world.workers[w].batch[0].runId;
    forall i: nat | IsStep(next.db, r, i)
      ensures RowCovered(next, r, i)
    {
      hide AdvanceRow;
      hide Covered;
      hide RowCovered;
      RowsOutlive(world, next, r, i);
    }
    if IsLive(next.db, r) {
      assert RunOk(r, world.db.runs[r]);
      hide RunsOk;
      hide RowCovered;
      if i :| AdvanceDispatches(world, next, r, i) {
        assert InQueue(next, r, Message(RunStep(i), r, world.db.now));
      } else {
        hide AdvanceRow;
        hide RunOk;
        hide Covered;
        var i := WaitsForARow(r, world.db.runs[r], world.db.now);
        assert IsStep(next.db, r, i);
        WaitingCovered(next, r, i);
      }
    }
  }

  // ---- claiming ----

  lemma ProcessUndisturbs(cfg: Config, world: World, next: World, w: WorkerId, q: RunId)
    requires HasHead(world, w) && world.workers[w].batch[0].topic.RunStep? && world.workers[w].batch[0].runId != q
    requires var m := world.workers[w].batch[0];
      || ClaimDropped(world, next, w, m.runId, m.topic.step)
      || ClaimHeldBack(world, next, w, m.runId, m.topic.step)
      || ClaimMade(cfg, world, next, w, m.runId, m.topic.step)
    ensures Undisturbed(world, next, q) && (IsLive(next.db, q) ==> IsLive(world.db, q))
  {
    hide Claimable;
    hide ClaimRow;
    var batch := world.workers[w].batch;
    forall m | m in batch && m.runId == q
      ensures m in batch[1..]
    {
      var k :| 0 <= k < |batch| && batch[k] == m;
      assert batch[1..][k - 1] == m;
    }
  }

  /** A dropped message moved nothing: whatever else covers the run is still there. */
  lemma DroppedRun(world: World, next: World, w: WorkerId)
    requires CoverInv(world) && HasHead(world, w) && world.workers[w].batch[0].topic.RunStep?
    requires ClaimDropped(world, next, w, world.workers[w].batch[0].runId, world.workers[w].batch[0].topic.step)
    ensures var r := world.workers[w].batch[0].runId;
      && (forall i: nat :: IsStep(next.db, r, i) ==> RowCovered(next, r, i))
      && (IsLive(next.db, r) ==> Covered(next, r))
  {
    hide Claimable;
    var head := world.workers[w].batch[0];
    var r := head.runId;
    forall i: nat | IsStep(next.db, r, i)
      ensures RowCovered(next, r, i)
    {
      hide Covered;
      hide RowCovered;
      RowsOutlive(world, next, r, i);
    }
    hide RowCovered;
    if IsLive(next.db, r) {
      assert Covered(world, r);
      if m :| InQueue(world, r, m) {
        assert InQueue(next, r, m);
      } else if x, m :| Fetched(world, r, x, m) {
        FetchedOutlives(world, next, w, r, x, m);
      } else {
        var x :| Worked(world, r, x);
        assert Worked(next, r, x);
      }
    }
  }

  lemma FetchedOutlives(world: World, next: World, w: WorkerId, r: RunId, x: WorkerId, m: Message)
    requires HasHead(world, w) && next.db == world.db && next.workers == Unbatched(world, w).workers
    requires Fetched(world, r, x, m) && !Wakes(world.db, world.workers[w].batch[0])
    ensures Covered(next, r)
  {
    var batch := world.workers[w].batch;
    if x == w {
      var k :| 0 <= k < |batch| && batch[k] == m;
      assert k > 0 && batch[1..][k - 1] == m;
    }
    assert Fetched(next, r, x, m);
  }

  /** A step held back by a limit is put back, unless it need not be: then something else covers the run. */
  lemma HeldBackRun(world: World, next: World, w: WorkerId)
    requires CoverInv(world) && HasHead(world, w) && world.workers[w].batch[0].topic.RunStep?
    requires ClaimHeldBack(world, next, w, world.workers[w].batch[0].runId, world.workers[w].batch[0].topic.step)
    ensures var r := world.workers[w].batch[0].runId;
      && (forall i: nat :: IsStep(next.db, r, i) ==> RowCovered(next, r, i))
      && (IsLive(next.db, r) ==> Covered(next, r))
  {
    hide Claimable;
    var head := world.workers[w].batch[0];
    var r := head.runId;
    forall i: nat | IsStep(next.db, r, i)
      ensures RowCovered(next, r, i)
    {
      hide Covered;
      hide RowCovered;
      RowsOutlive(world, next, r, i);
    }
    hide RowCovered;
    if Wakes(world.db, head) {
      assert Worked(next, r, w);
    } else if IsLive(next.db, r) {
      assert Covered(world, r);
      if m :| InQueue(world, r, m) {
        assert InQueue(next, r, m);
      } else if x, m :| Fetched(world, r, x, m) {
        var batch := world.workers[w].batch;
        if x == w {
          var k :| 0 <= k < |batch| && batch[k] == m;
          assert k > 0 && batch[1..][k - 1] == m;
        }
        assert Fetched(next, r, x, m);
      } else {
        var x :| Worked(world, r, x);
        assert Worked(next, r, x);
      }
    }
  }

  lemma ClaimedRun(cfg: Config, world: World, next: World, w: WorkerId)
    requires CoverInv(world) && HasHead(world, w) && world.workers[w].batch[0].topic.RunStep?
    requires ClaimMade(cfg, world, next, w, world.workers[w].batch[0].runId, world.workers[w].batch[0].topic.step)
    ensures var r := world.workers[w].batch[0].runId;
      && (forall i: nat :: IsStep(next.db, r, i) ==> RowCovered(next, r, i))
      && Covered(next, r)
  {
    hide Claimable;
    var head := world.workers[w].batch[0];
    var r, k := head.runId, head.topic.step;
    assert Holder(next, w, r, k);
    assert Worked(next, r, w);
    forall i: nat | IsStep(next.db, r, i)
      ensures RowCovered(next, r, i)
    {
      hide Covered;
      if i != k {
        assert RowCovered(world, r, i);
        hide RowCovered;
        RowsOutlive(world, next, r, i);
      }
    }
  }

  lemma ProcessCovers(cfg: Config, world: World, w: WorkerId)
    requires CoverInv(world) && HasHead(world, w) && world.workers[w].batch[0].topic.RunStep?
    ensures CoverInv(ApplyProcess(cfg, world, w))
  {
    var m := world.workers[w].batch[0];
    var next := ApplyProcess(cfg, world, w);
    ProcessShape(cfg, world, w);
    hide *;
    forall q | q != m.runId
      ensures Undisturbed(world, next, q) && (IsLive(next.db, q) ==> IsLive(world.db, q))
    {
      ProcessUndisturbs(cfg, world, next, w, q);
    }
    if ClaimDropped(world, next, w, m.runId, m.topic.step) {
      DroppedRun(world, next, w);
    } else if ClaimHeldBack(world, next, w, m.runId, m.topic.step) {
      HeldBackRun(world, next, w);
    } else {
      ClaimedRun(cfg, world, next, w);
    }
    CoverFrom(world, next, m.runId);
  }

  // ---- recording ----

  lemma RecordUndisturbs(world: World, next: World, w: WorkerId, q: RunId)
    requires w < |world.workers| && world.workers[w].phase.Executing? && world.workers[w].phase.runId != q
    requires next.workers == Released(world, w).workers
    requires RecordStale(world, next, w) || exists m :: RecordWritten(world, next, w, m)
    ensures Undisturbed(world, next, q) && (IsLive(next.db, q) ==> IsLive(world.db, q))
  {
    hide SumBudget;
    hide RowsRewritten;
    hide Lands;
  }

  lemma RecordedRun(world: World, next: World, w: WorkerId, m: Message)
    requires CoverInv(world) && w < |world.workers| && next.workers == Released(world, w).workers
    requires RecordWritten(world, next, w, m)
    ensures var r := m.runId;
      && (forall i: nat :: IsStep(next.db, r, i) ==> RowCovered(next, r, i))
      && Covered(next, r)
  {
    hide SumBudget;
    var r := m.runId;
    assert InQueue(next, r, m);
    forall i: nat | IsStep(next.db, r, i)
      ensures RowCovered(next, r, i)
    {
      hide Covered;
      assert m in next.db.outbox;
      if i == world.workers[w].phase.step {
        var s := next.db.runs[r].steps[i];
        if s.status.Failed? && s.nextAttemptAt.Some? {
          assert Retries(next, r, s.nextAttemptAt.value, m);
        }
      } else if next.db.runs[r].steps[i] == world.db.runs[r].steps[i] {
        assert RowCovered(world, r, i);
        hide RowCovered;
        RowsOutlive(world, next, r, i);
      }
    }
  }

  /** A stale result changes no row, and its worker covered nothing. */
  lemma StaleRun(world: World, next: World, w: WorkerId, r: RunId)
    requires CoverInv(world) && w < |world.workers| && world.workers[w].phase.Executing?
    requires next.workers == Released(world, w).workers && RecordStale(world, next, w)
    ensures forall i: nat :: IsStep(next.db, r, i) ==> RowCovered(next, r, i)
    ensures IsLive(next.db, r) ==> Covered(next, r)
  {
    forall i: nat | IsStep(next.db, r, i)
      ensures RowCovered(next, r, i)
    {
      hide Covered;
      hide RowCovered;
      RowsOutlive(world, next, r, i);
    }
    hide RowCovered;
    if IsLive(next.db, r) {
      assert Covered(world, r);
      if m :| InQueue(world, r, m) {
        assert InQueue(next, r, m);
      } else if x, m :| Fetched(world, r, x, m) {
        assert Fetched(next, r, x, m);
      } else {
        var x :| Worked(world, r, x);
        assert Worked(next, r, x);
      }
    }
  }

  lemma RecordCovers(cfg: Config, world: World, w: WorkerId, outcome: Outcome, draw: Backoff.Draw)
    requires Inv(world) && CoverInv(world) && CanRecord(world, w, outcome)
    ensures CoverInv(ApplyRecord(cfg, world, w, outcome, draw))
  {
    var r := world.workers[w].phase.runId;
    var next := ApplyRecord(cfg, world, w, outcome, draw);
    RecordShape(cfg, world, w, outcome, draw);
    assert w < |world.workers| && world.workers[w].phase.Executing?;
    hide *;
    forall q | q != r
      ensures Undisturbed(world, next, q) && (IsLive(next.db, q) ==> IsLive(world.db, q))
    {
      RecordUndisturbs(world, next, w, q);
    }
    if m :| RecordWritten(world, next, w, m) {
      WrittenFor(world, next, w, m);
      RecordedRun(world, next, w, m);
    } else {
      StaleRun(world, next, w, r);
    }
    CoverFrom(world, next, r);
  }

  lemma WrittenFor(world: World, next: World, w: WorkerId, m: Message)
    requires w < |world.workers| && RecordWritten(world, next, w, m)
    ensures m.runId == world.workers[w].phase.runId
  {
    hide SumBudget;
    hide RowsRewritten;
  }

  // ---- the rest ----

  lemma PutBackCovers(cfg: Config, world: World, w: WorkerId)
    requires CoverInv(world) && w < |world.workers| && world.workers[w].phase.PuttingBack?
    ensures CoverInv(ApplyPutBack(cfg, world, w))
  {
    hide Claimable;
    var p := world.workers[w].phase;
    var m := Message(RunStep(p.step), p.runId, world.db.now + cfg.blockedRetryMs);
    var next := ApplyPutBack(cfg, world, w);
    assert m in next.db.outbox;
    var r := p.runId;
    forall i: nat | IsStep(next.db, r, i)
      ensures RowCovered(next, r, i)
    {
      hide Covered;
      hide RowCovered;
      RowsOutlive(world, next, r, i);
    }
    hide RowCovered;
    if IsLive(next.db, r) {
      assert Covered(world, r);
      if n :| InQueue(world, r, n) {
        assert InQueue(next, r, n);
      } else if x, n :| Fetched(world, r, x, n) {
        assert Fetched(next, r, x, n);
      } else {
        var x :| Worked(world, r, x);
        if x == w {
          assert InQueue(next, r, m);
        } else {
          assert Worked(next, r, x);
        }
      }
    }
    hide Covered;
    hide CoverInv;
    CoverFrom(world, next, r);
  }

  lemma RelayCovers(world: World, w: WorkerId, k: nat)
    requires CoverInv(world) && w < |world.workers| && k < |world.db.outbox|
    requires world.db.outbox[k].availableAt <= world.db.now
    ensures CoverInv(ApplyRelay(world, w, k))
  {
    var next := ApplyRelay(world, w, k);
    var m := world.db.outbox[k];
    var r := m.runId;
    RelayUndisturbs(world, w, k);
    forall i: nat | IsStep(next.db, r, i)
      ensures RowCovered(next, r, i)
    {
      RelayRow(world, w, k, i);
    }
    if IsLive(next.db, r) {
      RelayRun(world, w, k);
    }
    hide *;
    CoverFrom(world, next, r);
  }

  lemma KeptAt(ms: seq<Message>, k: nat, n: Message)
    requires k < |ms| && n in ms && n != ms[k]
    ensures n in RemoveAt(ms, k)
  {
    var j :| 0 <= j < |ms| && ms[j] == n;
    assert RemoveAt(ms, k)[if j < k then j else j - 1] == n;
  }

  lemma RelayUndisturbs(world: World, w: WorkerId, k: nat)
    requires w < |world.workers| && k < |world.db.outbox| && world.db.outbox[k].availableAt <= world.db.now
    ensures var next := ApplyRelay(world, w, k);
      forall q :: q != world.db.outbox[k].runId ==>
        Undisturbed(world, next, q) && (IsLive(next.db, q) ==> IsLive(world.db, q))
  {
    var next := ApplyRelay(world, w, k);
    forall n | n in world.db.outbox && n.runId != world.db.outbox[k].runId
      ensures n in next.db.outbox
    {
      KeptAt(world.db.outbox, k, n);
    }
  }

  lemma RelayRow(world: World, w: WorkerId, k: nat, i: nat)
    requires CoverInv(world) && w < |world.workers| && k < |world.db.outbox|
    requires world.db.outbox[k].availableAt <= world.db.now && IsStep(world.db, world.db.outbox[k].runId, i)
    ensures RowCovered(ApplyRelay(world, w, k), world.db.outbox[k].runId, i)
  {
    var next := ApplyRelay(world, w, k);
    var r := world.db.outbox[k].runId;
    var s := world.db.runs[r].steps[i];
    assert RowCovered(world, r, i);
    if s.status.Running? && !Lapsed(s, world.db.now) {
      var x :| Holder(world, x, r, i);
      assert Holder(next, x, r, i);
    }
    if s.status.Failed? && s.nextAttemptAt.Some? && s.nextAttemptAt.value > world.db.now {
      var n :| Retries(world, r, s.nextAttemptAt.value, n);
      KeptAt(world.db.outbox, k, n);
      assert Retries(next, r, s.nextAttemptAt.value, n);
    }
  }

  lemma RelayRun(world: World, w: WorkerId, k: nat)
    requires CoverInv(world) && w < |world.workers| && k < |world.db.outbox|
    requires world.db.outbox[k].availableAt <= world.db.now && IsLive(world.db, world.db.outbox[k].runId)
    ensures Covered(ApplyRelay(world, w, k), world.db.outbox[k].runId)
  {
    hide Claimable;
    hide RowCovered;
    var next := ApplyRelay(world, w, k);
    var m := world.db.outbox[k];
    var r := m.runId;
    assert m in next.workers[w].batch;
    assert Covered(world, r);
    if n :| InQueue(world, r, n) {
      if n == m {
        assert Fetched(next, r, w, m);
      } else {
        KeptAt(world.db.outbox, k, n);
        assert InQueue(next, r, n);
      }
    } else if x, n :| Fetched(world, r, x, n) {
      assert Fetched(next, r, x, n);
    } else {
      var x :| Worked(world, r, x);
      assert Worked(next, r, x);
    }
  }

  /** Nothing taken away, phases as good as they were, perhaps later. */
  ghost predicate Onward(a: World, b: World) {
    && b.db.runs.Keys == a.db.runs.Keys
    && (forall r :: r in a.db.runs ==>
          b.db.runs[r].steps == a.db.runs[r].steps && b.db.runs[r].status == a.db.runs[r].status)
    && a.db.now <= b.db.now && |a.workers| == |b.workers|
    && (forall m :: m in a.db.outbox ==> m in b.db.outbox)
    && (forall w :: 0 <= w < |a.workers| ==>
          && b.workers[w].batch == a.workers[w].batch
          && (b.workers[w].phase == a.workers[w].phase
              || (a.workers[w].phase.Executing? && b.workers[w].phase == a.workers[w].phase.(effectDone := true))))
  }

  lemma OnwardCovered(a: World, b: World, r: RunId)
    requires Onward(a, b) && Covered(a, r)
    ensures Covered(b, r)
  {
    if m :| InQueue(a, r, m) {
      assert InQueue(b, r, m);
    } else if w, m :| Fetched(a, r, w, m) {
      assert Fetched(b, r, w, m);
    } else {
      var w :| Worked(a, r, w);
      assert Worked(b, r, w);
    }
  }

  lemma OnwardRow(a: World, b: World, r: RunId, i: nat)
    requires Onward(a, b) && IsStep(a.db, r, i) && RowCovered(a, r, i)
    ensures RowCovered(b, r, i)
  {
    var s := a.db.runs[r].steps[i];
    if s.status.Running? && !Lapsed(s, a.db.now) {
      var w :| Holder(a, w, r, i);
      assert Holder(b, w, r, i);
    }
    if s.status.Failed? && s.nextAttemptAt.Some? && s.nextAttemptAt.value > b.db.now {
      var m :| Retries(a, r, s.nextAttemptAt.value, m);
      assert Retries(b, r, s.nextAttemptAt.value, m);
    }
  }

  lemma OnwardCovers(a: World, b: World)
    requires Onward(a, b) && CoverInv(a)
    ensures CoverInv(b)
  {
    hide Covered;
    hide RowCovered;
    forall r | IsLive(b.db, r)
      ensures Covered(b, r)
    {
      OnwardCovered(a, b, r);
    }
    forall r, i: nat | IsStep(b.db, r, i)
      ensures RowCovered(b, r, i)
    {
      OnwardRow(a, b, r, i);
    }
  }

  lemma PlainOnward(cfg: Config, world: World, a: Action)
    requires a.Effect? || a.Cancel? || a.Tick? || a.SweepRuns?
    ensures Onward(world, Apply(cfg, world, a))
  {
    hide SweepChoice;
  }

  /** Work, time and sweeps keep every live run covered, limits or not. */
  lemma StepCovers(cfg: Config, world: World, a: Action)
    requires Inv(world) && CoverInv(world) && Tends(a)
    ensures CoverInv(Apply(cfg, world, a))
  {
    hide Inv;
    hide CoverInv;
    hide ApplyProcess;
    hide RecordInto;
    match a {
      case Relay(w, k) =>
        if w < |world.workers| && k < |world.db.outbox| && world.db.outbox[k].availableAt <= world.db.now {
          RelayCovers(world, w, k);
        }
      case Process(w) =>
        if HasHead(world, w) {
          if world.workers[w].batch[0].topic.AdvanceRun? {
            AdvanceCovers(cfg, world, w);
          } else {
            ProcessCovers(cfg, world, w);
          }
        } else {
          NoHeadNoProcess(cfg, world, w);
        }
      case PutBack(w) =>
        if w < |world.workers| && world.workers[w].phase.PuttingBack? {
          PutBackCovers(cfg, world, w);
        }
      case Record(w, outcome, draw) =>
        if CanRecord(world, w, outcome) {
          RecordCovers(cfg, world, w, outcome, draw);
        }
      case _ =>
        PlainOnward(cfg, world, a);
        OnwardCovers(world, Apply(cfg, world, a));
    }
  }

  lemma {:induction false} ExecCovers(cfg: Config, world: World, actions: seq<Action>)
    requires Inv(world) && CoverInv(world) && forall a :: a in actions ==> Tends(a)
    ensures Inv(Exec(cfg, world, actions)) && CoverInv(Exec(cfg, world, actions))
    decreases |actions|
  {
    hide Inv;
    hide CoverInv;
    hide Apply;
    hide Tends;
    if actions != [] {
      var n := |actions| - 1;
      ExecCovers(cfg, world, actions[..n]);
      StepCovers(cfg, Exec(cfg, world, actions[..n]), actions[n]);
      StepKeepsInv(cfg, Exec(cfg, world, actions[..n]), actions[n]);
    }
  }

  /** With nothing queued, fetched or held, covered means stopped. */
  lemma QuietCovered(world: World, r: RunId)
    requires CoverInv(world) && Quiescent(world) && r in world.db.runs
    ensures Stopped(world.db.runs[r])
  {
    assert forall m :: !InQueue(world, r, m);
    assert forall w, m :: !Fetched(world, r, w, m);
    assert forall w :: !Worked(world, r, w);
    hide RowCovered;
    assert !Covered(world, r);
    assert !IsLive(world.db, r);
  }
}
