// Token discipline: without crashes, sweeps and queue loss every live run has
// exactly one of an outbox message, a fetched message, or a worker holding it,
// and a stopped run has none. Two exceptions are harmless: the bare row that a
// lost creation race leaves has none, and a sweep may wake a stopped run.
module TokenDiscipline {
  import opened Options
  import opened ErrorClasses
  import opened EngineTypes
  import opened EngineRows
  import opened EngineDb
  import opened World
  import opened RowInvariants
  import opened Safety
  import Backoff

  // ---- counting tokens ----

  function CountMsgs(ms: seq<Message>, r: RunId): nat {
    if ms == [] then 0
    else CountMsgs(ms[..|ms| - 1], r) + if ms[|ms| - 1].runId == r then 1 else 0
  }

  predicate Holds(p: Phase, r: RunId) {
    !p.Idle? && p.runId == r
  }

  function WorkerTokens(worker: Worker, r: RunId): nat {
    CountMsgs(worker.batch, r) + if Holds(worker.phase, r) then 1 else 0
  }

  function SumWorkers(ws: seq<Worker>, r: RunId): nat {
    if ws == [] then 0 else SumWorkers(ws[..|ws| - 1], r) + WorkerTokens(ws[|ws| - 1], r)
  }

  function Tokens(world: World, r: RunId): nat {
    CountMsgs(world.db.outbox, r) + SumWorkers(world.workers, r)
  }

  lemma CountSnoc(ms: seq<Message>, m: Message, r: RunId)
    ensures CountMsgs(ms + [m], r) == CountMsgs(ms, r) + if m.runId == r then 1 else 0
  {
    assert (ms + [m])[..|ms|] == ms;
  }

  lemma {:induction false} CountRemove(ms: seq<Message>, k: nat, r: RunId)
    requires k < |ms|
    ensures CountMsgs(RemoveAt(ms, k), r) == CountMsgs(ms, r) - if ms[k].runId == r then 1 else 0
  {
    var n := |ms| - 1;
    if k == n {
      assert RemoveAt(ms, k) == ms[..n];
    } else {
      assert RemoveAt(ms, k) == RemoveAt(ms[..n], k) + [ms[n]];
      CountSnoc(RemoveAt(ms[..n], k), ms[n], r);
      CountRemove(ms[..n], k, r);
    }
  }

  lemma CountTail(ms: seq<Message>, r: RunId)
    requires ms != []
    ensures CountMsgs(ms[1..], r) == CountMsgs(ms, r) - if ms[0].runId == r then 1 else 0
  {
    CountRemove(ms, 0, r);
    assert RemoveAt(ms, 0) == ms[1..];
  }

  lemma {:induction false} CountZero(ms: seq<Message>, r: RunId)
    ensures CountMsgs(ms, r) == 0 <==> forall m :: m in ms ==> m.runId != r
  {
    if ms != [] {
      CountZero(ms[..|ms| - 1], r);
      assert forall m :: m in ms <==> m in ms[..|ms| - 1] || m == ms[|ms| - 1];
    }
  }

  lemma {:induction false} SumUpdate(ws: seq<Worker>, w: nat, x: Worker, r: RunId)
    requires w < |ws|
    ensures SumWorkers(ws[w := x], r) == SumWorkers(ws, r) - WorkerTokens(ws[w], r) + WorkerTokens(x, r)
    ensures WorkerTokens(ws[w], r) <= SumWorkers(ws, r)
  {
    var n := |ws| - 1;
    if w == n {
      assert ws[w := x][..n] == ws[..n];
    } else {
      assert ws[w := x][..n] == ws[..n][w := x];
      SumUpdate(ws[..n], w, x, r);
    }
  }

  lemma {:induction false} SumZero(ws: seq<Worker>, r: RunId)
    requires SumWorkers(ws, r) == 0
    ensures forall w :: 0 <= w < |ws| ==> WorkerTokens(ws[w], r) == 0
  {
    if ws != [] {
      SumZero(ws[..|ws| - 1], r);
    }
  }

  // ---- what a token promises about its run ----

  /** A row some dead worker left running. */
  predicate Lapsed(s: StepRow, now: int) {
    s.leaseExpiresAt.Some? && s.leaseExpiresAt.value < now
  }

  /** Whatever is still open can be claimed: nobody is on it and no retry lies beyond `due`. */
  predicate Ripe(s: StepRow, now: int, due: int) {
    && (s.status.Running? ==> Lapsed(s, now))
    && (s.status.Failed? && s.nextAttemptAt.Some? ==> s.nextAttemptAt.value <= due)
  }

  predicate Settled(s: StepRow) {
    s.status.Succeeded? || s.status.Skipped? || s.status.SkippedResumed?
  }

  /** Done with, or paused for a human. */
  predicate SettledOrPaused(s: StepRow) {
    Settled(s) || s.status.WaitingConfirmation?
  }

  predicate SettledBefore(steps: seq<StepRow>, i: nat) {
    i <= |steps| && forall j :: 0 <= j < i ==> SettledOrPaused(steps[j])
  }

  predicate RipeExcept(steps: seq<StepRow>, now: int, i: int) {
    forall j :: 0 <= j < |steps| && j != i ==> Ripe(steps[j], now, now)
  }

  predicate StepReady(run: Run, i: nat, now: int) {
    && i < |run.steps|
    && Claimable(run.steps[i], now)
    && SettledBefore(run.steps, i)
    && RipeExcept(run.steps, now, -1)
  }

  predicate RunReady(run: Run, now: int, due: int) {
    forall s :: s in run.steps ==> Ripe(s, now, due)
  }

  predicate IsLive(db: Db, r: RunId) {
    r in db.runs && RunIsLive(db.runs[r].status)
  }

  predicate Unfinished(db: Db, r: RunId) {
    r in db.runs && !IsTerminal(db.runs[r].status)
  }

  predicate MsgOk(db: Db, m: Message) {
    && m.runId in db.runs
    && match m.topic
       case AdvanceRun => RunReady(db.runs[m.runId], db.now, Max(db.now, m.availableAt))
       case RunStep(i) => !IsTerminal(db.runs[m.runId].status) && StepReady(db.runs[m.runId], i, db.now)
  }

  predicate PhaseOk(db: Db, w: WorkerId, p: Phase) {
    match p
    case Idle => true
    case PuttingBack(r, i) => Unfinished(db, r) && StepReady(db.runs[r], i, db.now)
    case Executing(r, i, row, _) =>
      && Unfinished(db, r) && IsStep(db, r, i)
      && OwnedBy(db.runs[r].steps[i], w)
      && SettledBefore(db.runs[r].steps, i)
      && RipeExcept(db.runs[r].steps, db.now, i)
  }

  /** What the loser of a creation race leaves: a queued run that owns no steps. */
  predicate Bare(run: Run) {
    run.status.Queued? && run.steps == []
  }

  predicate RunTokenOk(world: World, r: RunId) {
    if r !in world.db.runs then Tokens(world, r) == 0
    else if !RunIsLive(world.db.runs[r].status) then Tokens(world, r) <= 1
    else Tokens(world, r) == 1 || (Tokens(world, r) == 0 && Bare(world.db.runs[r]))
  }

  /** No wake-up is on its way to a stopped run. */
  ghost predicate StrayFree(world: World) {
    forall r :: !IsLive(world.db, r) ==> Tokens(world, r) == 0
  }

  /** Going from a to b, no stopped run gains a token. */
  ghost predicate KeepsStrayFree(a: World, b: World) {
    forall q :: !IsLive(b.db, q) ==> Tokens(b, q) == 0 || (!IsLive(a.db, q) && Tokens(a, q) > 0)
  }

  /** No live run without a token, bare or not. */
  ghost predicate Scheduled(world: World) {
    forall r :: IsLive(world.db, r) ==> Tokens(world, r) > 0
  }

  /** Going from a to b, no live run loses its token. */
  ghost predicate KeepsScheduled(a: World, b: World) {
    forall q :: IsLive(b.db, q) ==> Tokens(b, q) > 0 || (IsLive(a.db, q) && Tokens(a, q) == 0)
  }

  predicate Delivered(db: Db, m: Message) {
    MsgOk(db, m) && m.availableAt <= db.now
  }

  ghost predicate TokenInv(world: World) {
    && (forall r :: RunTokenOk(world, r))
    && (forall m :: m in world.db.outbox ==> MsgOk(world.db, m))
    && (forall w, m {:trigger m in world.workers[w].batch} ::
          0 <= w < |world.workers| && m in world.workers[w].batch ==> Delivered(world.db, m))
    && (forall w :: 0 <= w < |world.workers| ==> PhaseOk(world.db, w, world.workers[w].phase))
  }

  /** The invariant with run r's token in nobody's hands. */
  ghost predicate TokenInvBut(world: World, r: RunId) {
    && Tokens(world, r) == 0
    && (forall q :: q != r ==> RunTokenOk(world, q))
    && (forall m :: m in world.db.outbox ==> MsgOk(world.db, m) && m.runId != r)
    && (forall w, m {:trigger m in world.workers[w].batch} ::
          0 <= w < |world.workers| && m in world.workers[w].batch ==> Delivered(world.db, m) && m.runId != r)
    && (forall w :: 0 <= w < |world.workers| ==>
          PhaseOk(world.db, w, world.workers[w].phase) && !Holds(world.workers[w].phase, r))
  }

  /** Every other run keeps its tokens. */
  ghost predicate OnlyMoves(a: World, b: World, r: RunId) {
    forall q :: q != r ==> Tokens(b, q) == Tokens(a, q)
  }

  /** A run's token was taken and, for sure if it is live, put back; a live run does not keep it when it stops. */
  lemma MovedOn(world: World, taken: World, next: World, r: RunId)
    requires OnlyMoves(world, taken, r) && OnlyMoves(taken, next, r)
    requires r in world.db.runs && r in next.db.runs && next.db.runs == world.db.runs[r := next.db.runs[r]]
    requires Tokens(world, r) > 0 && (IsLive(next.db, r) ==> Tokens(next, r) > 0)
    requires Tokens(next, r) > 0 && IsLive(world.db, r) ==> IsLive(next.db, r)
    ensures KeepsScheduled(world, next) && KeepsStrayFree(world, next)
  {
    hide Tokens;
    forall q
      ensures IsLive(next.db, q) ==> Tokens(next, q) > 0 || (IsLive(world.db, q) && Tokens(world, q) == 0)
      ensures !IsLive(next.db, q) ==> Tokens(next, q) == 0 || (!IsLive(world.db, q) && Tokens(world, q) > 0)
    {
      if q != r {
        assert Tokens(taken, q) == Tokens(world, q) && Tokens(next, q) == Tokens(taken, q);
      }
    }
  }

  lemma NoTokens(world: World, r: RunId)
    requires Tokens(world, r) == 0
    ensures forall m :: m in world.db.outbox ==> m.runId != r
    ensures forall w, m {:trigger m in world.workers[w].batch} ::
      0 <= w < |world.workers| && m in world.workers[w].batch ==> m.runId != r
    ensures forall w :: 0 <= w < |world.workers| ==> !Holds(world.workers[w].phase, r)
  {
    CountZero(world.db.outbox, r);
    SumZero(world.workers, r);
    forall w, m | 0 <= w < |world.workers| && m in world.workers[w].batch
      ensures m.runId != r
    {
      assert WorkerTokens(world.workers[w], r) == 0;
      CountZero(world.workers[w].batch, r);
    }
    forall w | 0 <= w < |world.workers|
      ensures !Holds(world.workers[w].phase, r)
    {
      assert WorkerTokens(world.workers[w], r) == 0;
    }
  }

  /** A run without a token already satisfies the weaker invariant. */
  lemma ButFromZero(world: World, r: RunId)
    requires TokenInv(world) && Tokens(world, r) == 0
    ensures TokenInvBut(world, r)
  {
    NoTokens(world, r);
  }

  // ---- taking the token ----

  lemma TakeFromBatch(world: World, w: WorkerId) returns (taken: World)
    requires TokenInv(world)
    requires w < |world.workers| && world.workers[w].phase.Idle? && world.workers[w].batch != []
    ensures var m := world.workers[w].batch[0];
      && taken == PutWorker(world, w, Worker(world.workers[w].batch[1..], Idle))
      && TokenInvBut(taken, m.runId)
      && Delivered(world.db, m)
      && OnlyMoves(world, taken, m.runId) && Tokens(world, m.runId) > 0
  {
    var worker := world.workers[w];
    var m := worker.batch[0];
    assert m in worker.batch;
    taken := PutWorker(world, w, Worker(worker.batch[1..], Idle));
    forall q
      ensures Tokens(taken, q) == Tokens(world, q) - if q == m.runId then 1 else 0
    {
      CountTail(worker.batch, q);
      SumUpdate(world.workers, w, Worker(worker.batch[1..], Idle), q);
    }
    assert RunTokenOk(world, m.runId);
    NoTokens(taken, m.runId);
    forall q | q != m.runId
      ensures RunTokenOk(taken, q)
    {
      assert RunTokenOk(world, q);
    }
    forall x, n | 0 <= x < |taken.workers| && n in taken.workers[x].batch
      ensures Delivered(taken.db, n) && n.runId != m.runId
    {
      assert n in world.workers[x].batch;
    }
  }

  lemma TakeFromPhase(world: World, w: WorkerId) returns (taken: World)
    requires TokenInv(world)
    requires w < |world.workers| && !world.workers[w].phase.Idle?
    ensures var p := world.workers[w].phase;
      && taken == PutWorker(world, w, world.workers[w].(phase := Idle))
      && TokenInvBut(taken, p.runId)
      && PhaseOk(world.db, w, p)
      && p.runId in world.db.runs && !IsTerminal(world.db.runs[p.runId].status)
      && OnlyMoves(world, taken, p.runId) && Tokens(world, p.runId) > 0
  {
    var p := world.workers[w].phase;
    taken := PutWorker(world, w, world.workers[w].(phase := Idle));
    forall q
      ensures Tokens(taken, q) == Tokens(world, q) - if q == p.runId then 1 else 0
    {
      SumUpdate(world.workers, w, world.workers[w].(phase := Idle), q);
    }
    assert RunTokenOk(world, p.runId);
    NoTokens(taken, p.runId);
    forall q | q != p.runId
      ensures RunTokenOk(taken, q)
    {
      assert RunTokenOk(world, q);
    }
    forall x, n | 0 <= x < |taken.workers| && n in taken.workers[x].batch
      ensures Delivered(taken.db, n) && n.runId != p.runId
    {
      assert n in world.workers[x].batch;
    }
  }

  // ---- putting it back ----

  lemma OthersStillOk(a: Db, b: Db, r: RunId)
    requires b.runs.Keys == a.runs.Keys + {r} && b.now == a.now
    requires forall q :: q in a.runs && q != r ==> b.runs[q] == a.runs[q]
    ensures forall m: Message :: m.runId != r && MsgOk(a, m) ==> MsgOk(b, m)
    ensures forall w: WorkerId, p: Phase :: !Holds(p, r) && PhaseOk(a, w, p) ==> PhaseOk(b, w, p)
  {
  }

  /** Run r rewritten to run and, surely if it is live, scheduled by one message. */
  lemma PutMessage(world: World, r: RunId, run: Run, ms: seq<Message>, world': World)
    requires TokenInvBut(world, r)
    requires world'.db.runs == world.db.runs[r := run] && world'.db.now == world.db.now
    requires world'.db.outbox == world.db.outbox + ms && world'.workers == world.workers
    requires ms == [] || (|ms| == 1 && ms[0].runId == r && MsgOk(world'.db, ms[0]))
    requires RunIsLive(run.status) ==> ms != []
    ensures TokenInv(world')
    ensures Tokens(world', r) == |ms|
    ensures OnlyMoves(world, world', r)
  {
    OthersStillOk(world.db, world'.db, r);
    forall q
      ensures RunTokenOk(world', q) && (q != r ==> Tokens(world', q) == Tokens(world, q))
      ensures q == r ==> Tokens(world', q) == |ms|
    {
      if ms == [] {
        assert world.db.outbox + ms == world.db.outbox;
      } else {
        assert ms == [ms[0]];
        CountSnoc(world.db.outbox, ms[0], q);
      }
      if q != r {
        assert RunTokenOk(world, q);
      }
    }
  }

  /** Run r rewritten to run and held by idle worker w. */
  lemma PutPhase(world: World, r: RunId, run: Run, w: WorkerId, p: Phase, world': World)
    requires TokenInvBut(world, r)
    requires w < |world.workers| && world.workers[w].phase.Idle? && Holds(p, r)
    requires world'.db.runs == world.db.runs[r := run] && world'.db.now == world.db.now
    requires world'.db.outbox == world.db.outbox
    requires world'.workers == world.workers[w := world.workers[w].(phase := p)]
    requires PhaseOk(world'.db, w, p)
    ensures TokenInv(world')
    ensures Tokens(world', r) == 1
    ensures OnlyMoves(world, world', r)
  {
    OthersStillOk(world.db, world'.db, r);
    forall q
      ensures RunTokenOk(world', q) && Tokens(world', q) == if q == r then 1 else Tokens(world, q)
    {
      SumUpdate(world.workers, w, world.workers[w].(phase := p), q);
      if q != r {
        assert RunTokenOk(world, q);
      }
    }
    forall x, n | 0 <= x < |world'.workers| && n in world'.workers[x].batch
      ensures Delivered(world'.db, n)
    {
      assert n in world.workers[x].batch;
    }
  }

  // ---- the rows behind each move of the token ----

  lemma NextIsReady(run: Run, now: int, i: nat)
    requires forall j :: 0 <= j < |run.steps| ==> RowOk(run.steps[j]) && Ripe(run.steps[j], now, now)
    requires Runnable(run.steps, now, i) && forall j :: 0 <= j < i ==> !Claimable(run.steps[j], now)
    ensures StepReady(run, i, now)
  {
  }

  /** An advance of a ready run dispatches its lowest open step or stops the run: it never just waits. */
  lemma AdvanceMoves(r: RunId, run: Run, now: int)
    requires RunOk(r, run) && RunReady(run, now, now)
    ensures var (run', outcome) := AdvanceRow(run, now);
      && run'.steps == run.steps
      && (RunIsLive(run'.status) ==> outcome.DispatchedStep? && RunIsLive(run.status))
      && (outcome.DispatchedStep? ==> run'.status == run.status || (run.status.Queued? && run'.status.Running?))
      && (outcome.DispatchedStep? ==> !IsTerminal(run'.status))
      && (outcome.DispatchedStep? ==> StepReady(run', outcome.step, now))
  {
    NextRunnableStepExact(run.steps, now);
    forall j | 0 <= j < |run.steps|
      ensures RowOk(run.steps[j]) && Ripe(run.steps[j], now, now)
    {
      assert run.steps[j] in run.steps;
    }
    var next := NextRunnableStep(run.steps, now);
    if next.Some? {
      NextFromExact(run.steps, now, 0);
      NextIsReady(run, now, next.value);
    } else if !FirstWhere(run.steps, TerminallyFailed).Some? && !FirstWhere(run.steps, Paused).Some? {
      NothingOpen(run.steps, now, |run.steps|);
    }
  }

  /** If no row is runnable, failed for good or paused, every row is done. */
  lemma {:induction false} NothingOpen(steps: seq<StepRow>, now: int, n: nat)
    requires n <= |steps|
    requires forall j :: 0 <= j < |steps| ==> RowOk(steps[j]) && Ripe(steps[j], now, now)
    requires forall s :: s in steps ==> !TerminallyFailed(s) && !Paused(s)
    requires forall i: nat :: !Runnable(steps, now, i)
    ensures forall j :: 0 <= j < n ==> IsDone(steps[j].status)
  {
    if n > 0 {
      NothingOpen(steps, now, n - 1);
      assert steps[n - 1] in steps;
      assert !Runnable(steps, now, n - 1);
      assert forall j :: 0 <= j < |steps| ==> steps[j] in steps;
    }
  }

  lemma ClaimedPhase(db: Db, r: RunId, i: nat, w: WorkerId, leaseMs: nat)
    requires Unfinished(db, r) && StepReady(db.runs[r], i, db.now)
    ensures var s := ClaimRow(db.runs[r].steps[i], w, db.now + leaseMs);
      PhaseOk(PutStep(db, r, i, s), w, Executing(r, i, s, false))
  {
  }

  lemma RecordedMessage(db: Db, w: WorkerId, p: Phase, s: StepRow, abandoned: set<NodeId>, run: Run, due: nat)
    requires p.Executing? && PhaseOk(db, w, p)
    requires !s.status.Running? && (s.status.Failed? && s.nextAttemptAt.Some? ==> s.nextAttemptAt.value <= db.now + due)
    requires run.steps == MarkSkipped(db.runs[p.runId].steps[p.step := s], abandoned)
    ensures RunReady(run, db.now, db.now + due)
  {
    var old' := db.runs[p.runId].steps;
    forall t | t in run.steps
      ensures Ripe(t, db.now, db.now + due)
    {
      var j :| 0 <= j < |run.steps| && run.steps[j] == t;
      assert j != p.step ==> Ripe(old'[j], db.now, db.now);
    }
  }
}
