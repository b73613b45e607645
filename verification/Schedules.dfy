// Every schedule of crash-free work ends: each move uses up some of a finite rank.
module Schedules {
  import opened Options
  import opened EngineTypes
  import opened EngineRows
  import opened EngineDb
  import opened World
  import opened RowInvariants
  import opened Safety
  import opened TokenDiscipline
  import opened TokenSteps
  import opened TokenGuarantees
  import opened Budgets
  import opened TokenMoves
  import opened WorkerMoves
  import Backoff

  // ---- the rank: what is left of each token's way, attempt by attempt ----

  type Runs = map<RunId, Run>

  function Left(runs: Runs, r: RunId): nat {
    if r in runs then SumBudget(runs[r].steps) else 0
  }

  /** An attempt is six moves: relay, advance, relay, claim, effect, record. */
  function MessageRank(runs: Runs, m: Message, fetched: bool): nat {
    6 * Left(runs, m.runId) + (if m.topic.AdvanceRun? then 6 else 4) - if fetched then 1 else 0
  }

  function MessagesRank(runs: Runs, ms: seq<Message>, fetched: bool): nat {
    if ms == [] then 0
    else MessagesRank(runs, ms[..|ms| - 1], fetched) + MessageRank(runs, ms[|ms| - 1], fetched)
  }

  function PhaseRank(runs: Runs, p: Phase): nat {
    match p
    case Idle => 0
    case PuttingBack(r, _) => 6 * Left(runs, r) + 5
    case Executing(r, _, _, effectDone) => 6 * Left(runs, r) + if effectDone then 1 else 2
  }

  function WorkerRank(runs: Runs, worker: Worker): nat {
    MessagesRank(runs, worker.batch, true) + PhaseRank(runs, worker.phase)
  }

  function WorkersRank(runs: Runs, ws: seq<Worker>): nat {
    if ws == [] then 0 else WorkersRank(runs, ws[..|ws| - 1]) + WorkerRank(runs, ws[|ws| - 1])
  }

  function Rank(world: World): nat {
    MessagesRank(world.db.runs, world.db.outbox, false) + WorkersRank(world.db.runs, world.workers)
  }

  lemma RankSnoc(runs: Runs, ms: seq<Message>, m: Message, fetched: bool)
    ensures MessagesRank(runs, ms + [m], fetched) == MessagesRank(runs, ms, fetched) + MessageRank(runs, m, fetched)
  {
    assert (ms + [m])[..|ms|] == ms;
  }

  lemma {:induction false} RankRemove(runs: Runs, ms: seq<Message>, k: nat, fetched: bool)
    requires k < |ms|
    ensures MessagesRank(runs, RemoveAt(ms, k), fetched)
         == MessagesRank(runs, ms, fetched) - MessageRank(runs, ms[k], fetched)
  {
    hide MessageRank;
    var n := |ms| - 1;
    if k == n {
      assert RemoveAt(ms, k) == ms[..n];
    } else {
      assert RemoveAt(ms, k) == RemoveAt(ms[..n], k) + [ms[n]];
      RankSnoc(runs, RemoveAt(ms[..n], k), ms[n], fetched);
      RankRemove(runs, ms[..n], k, fetched);
    }
  }

  lemma RankTail(runs: Runs, ms: seq<Message>)
    requires ms != []
    ensures MessagesRank(runs, ms[1..], true) == MessagesRank(runs, ms, true) - MessageRank(runs, ms[0], true)
  {
    RankRemove(runs, ms, 0, true);
    assert RemoveAt(ms, 0) == ms[1..];
  }

  lemma {:induction false} WorkersRankUpdate(runs: Runs, ws: seq<Worker>, w: nat, x: Worker)
    requires w < |ws|
    ensures WorkersRank(runs, ws[w := x]) == WorkersRank(runs, ws) - WorkerRank(runs, ws[w]) + WorkerRank(runs, x)
  {
    hide WorkerRank;
    var n := |ws| - 1;
    if w == n {
      assert ws[w := x][..n] == ws[..n];
    } else {
      assert ws[w := x][..n] == ws[..n][w := x];
      WorkersRankUpdate(runs, ws[..n], w, x);
    }
  }

  /** No run has more attempts left in b than in a. */
  ghost predicate NoMoreLeft(a: Runs, b: Runs) {
    forall r :: Left(b, r) <= Left(a, r)
  }

  lemma {:induction false} MessagesRankFalls(a: Runs, b: Runs, ms: seq<Message>, fetched: bool)
    requires NoMoreLeft(a, b)
    ensures MessagesRank(b, ms, fetched) <= MessagesRank(a, ms, fetched)
  {
    if ms != [] {
      MessagesRankFalls(a, b, ms[..|ms| - 1], fetched);
      assert Left(b, ms[|ms| - 1].runId) <= Left(a, ms[|ms| - 1].runId);
    }
  }

  lemma {:induction false} WorkersRankFalls(a: Runs, b: Runs, ws: seq<Worker>)
    requires NoMoreLeft(a, b)
    ensures WorkersRank(b, ws) <= WorkersRank(a, ws)
  {
    if ws != [] {
      var worker := ws[|ws| - 1];
      WorkersRankFalls(a, b, ws[..|ws| - 1]);
      MessagesRankFalls(a, b, worker.batch, true);
      assert !worker.phase.Idle? ==> Left(b, worker.phase.runId) <= Left(a, worker.phase.runId);
    }
  }

  /** With no more attempts left anywhere, the same queue and workers rank no higher. */
  lemma RankFalls(a: Runs, b: Runs, outbox: seq<Message>, ws: seq<Worker>)
    requires NoMoreLeft(a, b)
    ensures MessagesRank(b, outbox, false) + WorkersRank(b, ws) <= MessagesRank(a, outbox, false) + WorkersRank(a, ws)
  {
    MessagesRankFalls(a, b, outbox, false);
    WorkersRankFalls(a, b, ws);
  }

  // ---- moves ----

  /** Work and time; no new runs, no resumes, and nothing the discipline rules out. */
  predicate Working(a: Action) {
    a.Relay? || a.Process? || a.PutBack? || a.Effect? || a.Record? || a.Cancel? || a.Tick?
  }

  /** The action finds something to do. */
  predicate Moves(world: World, a: Action) {
    match a
    case Relay(w, k) => w < |world.workers| && k < |world.db.outbox| && world.db.outbox[k].availableAt <= world.db.now
    case Process(w) => HasHead(world, w)
    case PutBack(w) => w < |world.workers| && world.workers[w].phase.PuttingBack?
    case Effect(w) => w < |world.workers| && world.workers[w].phase.Executing? && !world.workers[w].phase.effectDone
    case Record(w, outcome, _) => CanRecord(world, w, outcome)
    case _ => false
  }

  lemma RelayDrops(world: World, w: WorkerId, k: nat)
    requires Moves(world, Relay(w, k))
    ensures Rank(ApplyRelay(world, w, k)) < Rank(world)
  {
    var m := world.db.outbox[k];
    var worker := world.workers[w];
    RankRemove(world.db.runs, world.db.outbox, k, false);
    RankSnoc(world.db.runs, worker.batch, m, true);
    WorkersRankUpdate(world.db.runs, world.workers, w, worker.(batch := worker.batch + [m]));
  }

  /** Worker w without its next message, the table as it was. */
  lemma UnbatchedRank(world: World, w: WorkerId)
    requires HasHead(world, w)
    ensures Rank(Unbatched(world, w)) == Rank(world) - MessageRank(world.db.runs, world.workers[w].batch[0], true)
  {
    hide MessageRank;
    RankTail(world.db.runs, world.workers[w].batch);
    WorkersRankUpdate(world.db.runs, world.workers, w, Worker(world.workers[w].batch[1..], Idle));
  }

  lemma ReleasedRank(world: World, w: WorkerId)
    requires w < |world.workers|
    ensures Rank(Released(world, w)) == Rank(world) - PhaseRank(world.db.runs, world.workers[w].phase)
  {
    WorkersRankUpdate(world.db.runs, world.workers, w, world.workers[w].(phase := Idle));
  }

  /** Idle worker w takes up a phase. */
  lemma HeldRank(runs: Runs, ws: seq<Worker>, w: WorkerId, p: Phase)
    requires w < |ws| && ws[w].phase.Idle?
    ensures WorkersRank(runs, ws[w := ws[w].(phase := p)]) == WorkersRank(runs, ws) + PhaseRank(runs, p)
  {
    WorkersRankUpdate(runs, ws, w, ws[w].(phase := p));
  }

  lemma RewroteLeft(a: World, b: World, r: RunId)
    requires RewroteRun(a, b, r) && SumBudget(b.db.runs[r].steps) <= SumBudget(a.db.runs[r].steps)
    ensures NoMoreLeft(a.db.runs, b.db.runs)
  {
    hide SumBudget;
  }

  lemma SameLeft(a: World, b: World)
    requires a.db == b.db
    ensures NoMoreLeft(a.db.runs, b.db.runs)
  {
    hide Left;
  }

  /** Sending a message adds its rank and nothing else. */
  lemma SentRank(u: World, next: World, m: Message)
    requires NoMoreLeft(u.db.runs, next.db.runs) && next.workers == u.workers
    requires Appended(u.db.outbox, next.db.outbox, m)
    ensures Rank(next) <= Rank(u) + MessageRank(next.db.runs, m, false)
  {
    RankSnoc(next.db.runs, u.db.outbox, m, false);
    RankFalls(u.db.runs, next.db.runs, u.db.outbox, u.workers);
    hide MessagesRank;
    hide WorkersRank;
    hide MessageRank;
    hide NoMoreLeft;
  }

  lemma UnsentRank(u: World, next: World)
    requires NoMoreLeft(u.db.runs, next.db.runs) && next.workers == u.workers && next.db.outbox == u.db.outbox
    ensures Rank(next) <= Rank(u)
  {
    RankFalls(u.db.runs, next.db.runs, u.db.outbox, u.workers);
    hide MessagesRank;
    hide WorkersRank;
    hide NoMoreLeft;
  }

  /** A worker taking up a phase adds its rank and nothing else. */
  lemma TakenUpRank(u: World, next: World, w: WorkerId, p: Phase)
    requires NoMoreLeft(u.db.runs, next.db.runs) && next.db.outbox == u.db.outbox
    requires w < |u.workers| && u.workers[w].phase.Idle? && next.workers == u.workers[w := u.workers[w].(phase := p)]
    ensures Rank(next) <= Rank(u) + PhaseRank(next.db.runs, p)
  {
    HeldRank(next.db.runs, u.workers, w, p);
    RankFalls(u.db.runs, next.db.runs, u.db.outbox, u.workers);
    hide MessagesRank;
    hide WorkersRank;
    hide PhaseRank;
    hide NoMoreLeft;
  }

  lemma AdvanceRanks(a: Runs, b: Runs, m: Message, step: Message)
    requires NoMoreLeft(a, b) && m.topic.AdvanceRun? && step.topic.RunStep? && step.runId == m.runId
    ensures MessageRank(b, step, false) < MessageRank(a, m, true)
  {
    hide Left;
    assert Left(b, m.runId) <= Left(a, m.runId);
  }

  lemma AdvanceLeft(world: World, next: World, r: RunId)
    requires r !in world.db.runs ==> next.db == world.db
    requires r in world.db.runs ==> RewroteRun(world, next, r) && next.db.runs[r].steps == world.db.runs[r].steps
    ensures NoMoreLeft(world.db.runs, next.db.runs)
  {
    if r in world.db.runs {
      RewroteLeft(world, next, r);
    }
  }

  lemma AdvanceDrops(cfg: Config, world: World, w: WorkerId)
    requires HasHead(world, w) && world.workers[w].batch[0].topic.AdvanceRun?
    ensures Rank(ApplyProcess(cfg, world, w)) < Rank(world)
  {
    var m := world.workers[w].batch[0];
    var next := ApplyProcess(cfg, world, w);
    AdvanceShape(cfg, world, w);
    AdvanceLeft(world, next, m.runId);
    UnbatchedRank(world, w);
    var u := Unbatched(world, w);
    assert u.db == world.db && next.workers == u.workers;
    assert MessageRank(world.db.runs, m, true) > 0;
    hide *;
    AdvanceSends(world, u, next, m);
  }

  lemma AdvanceSends(world: World, u: World, next: World, m: Message)
    requires u.db == world.db && next.workers == u.workers && m.topic.AdvanceRun?
    requires NoMoreLeft(world.db.runs, next.db.runs) && MessageRank(world.db.runs, m, true) > 0
    requires AdvanceRests(world, next, m.runId) || exists i :: AdvanceDispatches(world, next, m.runId, i)
    ensures Rank(next) < Rank(u) + MessageRank(world.db.runs, m, true)
  {
    hide NoMoreLeft;
    hide Rank;
    hide MessageRank;
    hide AdvanceRow;
    if i :| AdvanceDispatches(world, next, m.runId, i) {
      var step := Message(RunStep(i), m.runId, world.db.now);
      SentRank(u, next, step);
      AdvanceRanks(world.db.runs, next.db.runs, m, step);
    } else {
      UnsentRank(u, next);
    }
  }

  lemma ClaimRanks(a: Runs, b: Runs, m: Message, p: Phase)
    requires NoMoreLeft(a, b) && m.topic.RunStep? && p.Executing? && p.runId == m.runId
    ensures PhaseRank(b, p) < MessageRank(a, m, true)
  {
    hide Left;
    assert Left(b, m.runId) <= Left(a, m.runId);
  }

  /** Claiming opens an attempt of the row's own budget. */
  lemma ClaimLeft(cfg: Config, world: World, next: World, w: WorkerId, r: RunId, i: nat)
    requires HasHead(world, w) && ClaimMade(cfg, world, next, w, r, i)
    ensures NoMoreLeft(world.db.runs, next.db.runs)
  {
    var s := world.db.runs[r].steps[i];
    BudgetUpdate(world.db.runs[r].steps, i, ClaimRow(s, w, world.db.now + cfg.leaseMs));
    hide SumBudget;
    hide SumCeiling;
  }

  lemma ClaimDrops(cfg: Config, world: World, w: WorkerId)
    requires HasHead(world, w) && world.workers[w].batch[0].topic.RunStep?
    requires world.workers[w].batch[0].runId in world.db.runs ==> Unblocked(cfg, world, world.workers[w].batch[0].runId)
    ensures Rank(ApplyProcess(cfg, world, w)) < Rank(world)
  {
    var m := world.workers[w].batch[0];
    var next := ApplyProcess(cfg, world, w);
    var u := Unbatched(world, w);
    ProcessShape(cfg, world, w);
    UnbatchedRank(world, w);
    assert MessageRank(world.db.runs, m, true) > 0;
    assert u.db == world.db;
    hide ApplyProcess;
    hide Rank;
    hide MessageRank;
    hide Claimable;
    hide OverLimit;
    if ClaimMade(cfg, world, next, w, m.runId, m.topic.step) {
      ClaimLeft(cfg, world, next, w, m.runId, m.topic.step);
      hide ClaimRow;
      hide PutStep;
      var p := next.workers[w].phase;
      assert next.workers == u.workers[w := u.workers[w].(phase := p)];
      TakenUpRank(u, next, w, p);
      ClaimRanks(world.db.runs, next.db.runs, m, p);
    } else {
      SameLeft(u, next);
      UnsentRank(u, next);
    }
  }

  lemma PutBackDrops(cfg: Config, world: World, w: WorkerId)
    requires Moves(world, PutBack(w))
    ensures Rank(ApplyPutBack(cfg, world, w)) < Rank(world)
  {
    var p := world.workers[w].phase;
    ReleasedRank(world, w);
    RankSnoc(world.db.runs, world.db.outbox, Message(RunStep(p.step), p.runId, world.db.now + cfg.blockedRetryMs),
      false);
    hide MessagesRank;
    hide WorkersRank;
    hide SumBudget;
  }

  lemma EffectDrops(world: World, w: WorkerId)
    requires Moves(world, Effect(w))
    ensures Rank(ApplyEffect(world, w)) < Rank(world)
  {
    var p := world.workers[w].phase;
    WorkersRankUpdate(world.db.runs, world.workers, w, world.workers[w].(phase := p.(effectDone := true)));
    hide MessagesRank;
    hide WorkersRank;
    hide SumBudget;
  }

  lemma RecordRanks(a: Runs, b: Runs, p: Phase, m: Message)
    requires p.Executing? && m.topic.AdvanceRun? && m.runId == p.runId && Left(b, m.runId) + 1 <= Left(a, m.runId)
    ensures MessageRank(b, m, false) < PhaseRank(a, p)
  {
    hide Left;
  }

  lemma RecordDrops(cfg: Config, world: World, w: WorkerId, outcome: Outcome, draw: Backoff.Draw)
    requires Inv(world) && CanRecord(world, w, outcome)
    ensures Rank(ApplyRecord(cfg, world, w, outcome, draw)) < Rank(world)
  {
    var p := world.workers[w].phase;
    var next := ApplyRecord(cfg, world, w, outcome, draw);
    RecordShape(cfg, world, w, outcome, draw);
    ReleasedRank(world, w);
    var u := Released(world, w);
    assert u.db == world.db && next.workers == u.workers && PhaseRank(world.db.runs, p) > 0;
    hide *;
    RecordSendsRank(world, u, next, w);
  }

  lemma RecordSendsRank(world: World, u: World, next: World, w: WorkerId)
    requires w < |world.workers| && world.workers[w].phase.Executing?
    requires u.db == world.db && next.workers == u.workers && PhaseRank(world.db.runs, world.workers[w].phase) > 0
    requires RecordStale(world, next, w) || exists m :: RecordWritten(world, next, w, m)
    ensures Rank(next) < Rank(u) + PhaseRank(world.db.runs, world.workers[w].phase)
  {
    hide Rank;
    hide MessageRank;
    hide PhaseRank;
    hide SumBudget;
    hide RowsRewritten;
    hide Lands;
    if m :| RecordWritten(world, next, w, m) {
      RewroteLeft(world, next, m.runId);
      SentRank(u, next, m);
      RecordRanks(world.db.runs, next.db.runs, world.workers[w].phase, m);
    } else {
      SameLeft(u, next);
      UnsentRank(u, next);
    }
  }

  /** Worker w, if it is about to claim a step, is not held back by a limit. */
  predicate Admitted(cfg: Config, world: World, a: Action) {
    a.Process? && HasHead(world, a.w) && world.workers[a.w].batch[0].topic.RunStep?
      && world.workers[a.w].batch[0].runId in world.db.runs ==>
      Unblocked(cfg, world, world.workers[a.w].batch[0].runId)
  }

  lemma MoveDrops(cfg: Config, world: World, a: Action)
    requires Inv(world) && Moves(world, a) && Admitted(cfg, world, a)
    ensures Rank(Apply(cfg, world, a)) < Rank(world)
  {
    hide Inv;
    hide Rank;
    hide Unblocked;
    hide ApplyProcess;
    hide ApplyRecord;
    match a {
      case Relay(w, k) => RelayDrops(world, w, k);
      case Process(w) =>
        if world.workers[w].batch[0].topic.AdvanceRun? {
          AdvanceDrops(cfg, world, w);
        } else {
          ClaimDrops(cfg, world, w);
        }
      case PutBack(w) => PutBackDrops(cfg, world, w);
      case Effect(w) => EffectDrops(world, w);
      case Record(w, outcome, draw) => RecordDrops(cfg, world, w, outcome, draw);
    }
  }

  lemma IdleKeepsRank(cfg: Config, world: World, a: Action)
    requires Working(a) && !Moves(world, a)
    ensures Rank(Apply(cfg, world, a)) <= Rank(world)
  {
    hide MessagesRank;
    hide WorkersRank;
    if a.Effect? {
      var w := a.w;
      if w < |world.workers| && world.workers[w].phase.Executing? {
        var p := world.workers[w].phase.(effectDone := true);
        assert world.workers[w := world.workers[w].(phase := p)] == world.workers;
      }
    } else if a.Cancel? {
      var next := Apply(cfg, world, a);
      assert NoMoreLeft(world.db.runs, next.db.runs) by { hide SumBudget; }
      RankFalls(world.db.runs, next.db.runs, world.db.outbox, world.workers);
    }
  }

  // ---- sweeps ----

  /** What a sweep adds: six, and six for each attempt left, per run it chooses. */
  function SweepRank(runs: Runs, chosen: seq<RunId>): nat {
    if chosen == [] then 0
    else SweepRank(runs, chosen[..|chosen| - 1]) + 6 + 6 * Left(runs, chosen[|chosen| - 1])
  }

  lemma {:induction false} AdvancesRank(runs: Runs, outbox: seq<Message>, chosen: seq<RunId>, now: int)
    ensures MessagesRank(runs, outbox + AdvanceMessages(chosen, now), false)
         == MessagesRank(runs, outbox, false) + SweepRank(runs, chosen)
  {
    if chosen == [] {
      assert outbox + AdvanceMessages(chosen, now) == outbox;
    } else {
      var n := |chosen| - 1;
      var m := Message(AdvanceRun, chosen[n], now);
      AdvancesRank(runs, outbox, chosen[..n], now);
      assert outbox + AdvanceMessages(chosen, now) == outbox + AdvanceMessages(chosen[..n], now) + [m];
      RankSnoc(runs, outbox + AdvanceMessages(chosen[..n], now), m, false);
    }
  }

  lemma SweepAdds(cfg: Config, world: World, chosen: seq<RunId>)
    ensures Rank(Apply(cfg, world, SweepRuns(chosen))) <= Rank(world) + SweepRank(world.db.runs, chosen)
  {
    AdvancesRank(world.db.runs, world.db.outbox, chosen, world.db.now);
    hide SweepChoice;
    hide MessagesRank;
    hide WorkersRank;
    hide SweepRank;
  }

  // ---- limits ----

  predicate NoLeases(db: Db) {
    forall r, i :: r in db.runs && 0 <= i < |db.runs[r].steps| ==> !LiveLease(db.runs[r].steps[i], db.now)
  }

  /** Each configured limit admits at least one step. */
  predicate LimitsAdmit(cfg: Config) {
    cfg.limits.Some? ==>
      && (cfg.limits.value.perTenant.Some? ==> cfg.limits.value.perTenant.value >= 1)
      && (cfg.limits.value.perFlow.Some? ==> cfg.limits.value.perFlow.value >= 1)
  }

  /** While nobody holds a lease, no limit is reached. */
  lemma NobodyBlocked(cfg: Config, world: World, r: RunId)
    requires LimitsAdmit(cfg) && NoLeases(world.db) && r in world.db.runs
    ensures Unblocked(cfg, world, r)
  {
    assert LiveInTenant(world.db, world.db.runs[r].tenantId) == {};
    assert LiveInFlow(world.db, world.db.runs[r].flowId) == {};
  }

  /** Worker w executes the row, which is still its own. */
  predicate Holder(world: World, w: WorkerId, r: RunId, i: nat) {
    && w < |world.workers| && Lands(world.db, w, world.workers[w].phase)
    && world.workers[w].phase.runId == r && world.workers[w].phase.step == i
  }

  predicate LiveStep(db: Db, r: RunId, i: nat) {
    IsStep(db, r, i) && LiveLease(db.runs[r].steps[i], db.now)
  }

  /** Every unexpired lease belongs to a worker executing its row. */
  ghost predicate LeasesHeld(world: World) {
    forall r, i: nat :: LiveStep(world.db, r, i) ==> exists w :: Holder(world, w, r, i)
  }

  /** No limits; or limits that admit a step, one worker, and no lease but its own. */
  ghost predicate Free(cfg: Config, world: World) {
    cfg.limits.None? || (LimitsAdmit(cfg) && |world.workers| == 1 && LeasesHeld(world))
  }

  lemma FreeAdmits(cfg: Config, world: World, a: Action)
    requires Free(cfg, world)
    ensures Admitted(cfg, world, a)
  {
    hide OverLimit;
    if cfg.limits.Some? && a.Process? && HasHead(world, a.w) {
      forall r, i | r in world.db.runs && 0 <= i < |world.db.runs[r].steps|
        ensures !LiveLease(world.db.runs[r].steps[i], world.db.now)
      {
        if LiveStep(world.db, r, i) {
          var w :| Holder(world, w, r, i);
          assert false;
        }
      }
      assert NoLeases(world.db);
      if world.workers[a.w].batch[0].runId in world.db.runs {
        NobodyBlocked(cfg, world, world.workers[a.w].batch[0].runId);
      }
    }
  }

  /** Each step with a live lease in b had one in a and the same holder, or is held in b. */
  lemma HeldFrom(a: World, b: World)
    requires LeasesHeld(a)
    requires forall r, i: nat :: LiveStep(b.db, r, i) ==>
      (exists w :: Holder(b, w, r, i))
        || (LiveStep(a.db, r, i) && forall w :: Holder(a, w, r, i) ==> Holder(b, w, r, i))
    ensures LeasesHeld(b)
  {
    hide LiveStep;
    hide Holder;
  }

  lemma AdvanceKeepsHeld(cfg: Config, world: World, w: WorkerId)
    requires LeasesHeld(world) && HasHead(world, w) && world.workers[w].batch[0].topic.AdvanceRun?
    ensures LeasesHeld(ApplyProcess(cfg, world, w))
  {
    AdvanceShape(cfg, world, w);
    hide ApplyProcess;
    hide AdvanceRests;
    hide AdvanceDispatches;
    hide LeasesHeld;
    HeldFrom(world, ApplyProcess(cfg, world, w));
  }

  lemma ClaimKeepsHeld(cfg: Config, world: World, w: WorkerId)
    requires LeasesHeld(world) && HasHead(world, w) && world.workers[w].batch[0].topic.RunStep?
    ensures LeasesHeld(ApplyProcess(cfg, world, w))
  {
    var m := world.workers[w].batch[0];
    var next := ApplyProcess(cfg, world, w);
    ProcessShape(cfg, world, w);
    hide ApplyProcess;
    hide Claimable;
    hide OverLimit;
    hide LeasesHeld;
    if ClaimMade(cfg, world, next, w, m.runId, m.topic.step) {
      assert Holder(next, w, m.runId, m.topic.step);
    }
    HeldFrom(world, next);
  }

  lemma RecordKeepsHeld(cfg: Config, world: World, w: WorkerId, outcome: Outcome, draw: Backoff.Draw)
    requires Inv(world) && LeasesHeld(world) && CanRecord(world, w, outcome)
    ensures LeasesHeld(ApplyRecord(cfg, world, w, outcome, draw))
  {
    hide Inv, ApplyRecord, LeasesHeld, SumBudget, RecordWritten;
    RecordShape(cfg, world, w, outcome, draw);
    var next := ApplyRecord(cfg, world, w, outcome, draw);
    if m :| RecordWritten(world, next, w, m) {
      WrittenKeepsHeld(world, next, w, m);
    }
    HeldFrom(world, next);
  }

  lemma WrittenKeepsHeld(world: World, next: World, w: WorkerId, m: Message)
    requires w < |world.workers| && next.workers == Released(world, w).workers && RecordWritten(world, next, w, m)
    ensures forall r, i: nat :: LiveStep(next.db, r, i) ==>
      LiveStep(world.db, r, i) && forall x :: Holder(world, x, r, i) ==> Holder(next, x, r, i)
  {
    hide SumBudget;
  }

  lemma StepKeepsHeld(cfg: Config, world: World, a: Action)
    requires Inv(world) && LeasesHeld(world) && Tends(a)
    ensures LeasesHeld(Apply(cfg, world, a))
  {
    hide Inv;
    hide ApplyProcess;
    hide RecordInto;
    match a {
      case Process(w) =>
        if HasHead(world, w) {
          if world.workers[w].batch[0].topic.AdvanceRun? {
            AdvanceKeepsHeld(cfg, world, w);
          } else {
            ClaimKeepsHeld(cfg, world, w);
          }
        } else {
          assert ApplyProcess(cfg, world, w) == world by { NoHeadNoProcess(cfg, world, w); }
        }
      case Record(w, outcome, draw) =>
        if CanRecord(world, w, outcome) {
          RecordKeepsHeld(cfg, world, w, outcome, draw);
        }
      case _ => PlainKeepsHeld(cfg, world, a);
    }
  }

  lemma NoHeadNoProcess(cfg: Config, world: World, w: WorkerId)
    requires !HasHead(world, w)
    ensures ApplyProcess(cfg, world, w) == world
  {
  }

  lemma PlainKeepsHeld(cfg: Config, world: World, a: Action)
    requires LeasesHeld(world) && Tends(a) && !a.Process? && !a.Record?
    ensures LeasesHeld(Apply(cfg, world, a))
  {
    hide LeasesHeld;
    hide SweepChoice;
    HeldFrom(world, Apply(cfg, world, a));
  }

  // ---- whole schedules ----

  /** Work, time and sweeps. */
  predicate Tends(a: Action) {
    Working(a) || a.SweepRuns?
  }

  /** How many actions of the schedule found something to do. */
  ghost function MovesIn(cfg: Config, world: World, actions: seq<Action>): nat
    decreases |actions|
  {
    if actions == [] then 0
    else
      var n := |actions| - 1;
      MovesIn(cfg, world, actions[..n]) + if Moves(Exec(cfg, world, actions[..n]), actions[n]) then 1 else 0
  }

  /** What the sweeps of the schedule add to the rank. */
  ghost function SweptIn(cfg: Config, world: World, actions: seq<Action>): nat
    decreases |actions|
  {
    if actions == [] then 0
    else
      var n := |actions| - 1;
      SweptIn(cfg, world, actions[..n]) +
      if actions[n].SweepRuns? then SweepRank(Exec(cfg, world, actions[..n]).db.runs, actions[n].chosen) else 0
  }

  lemma StepRanks(cfg: Config, world: World, a: Action)
    requires Inv(world) && Free(cfg, world) && Tends(a)
    ensures (if Moves(world, a) then 1 else 0) + Rank(Apply(cfg, world, a))
         <= Rank(world) + if a.SweepRuns? then SweepRank(world.db.runs, a.chosen) else 0
  {
    FreeAdmits(cfg, world, a);
    hide Inv;
    hide Free;
    hide Rank;
    hide Apply;
    hide Admitted;
    hide SweepRank;
    if a.SweepRuns? {
      SweepAdds(cfg, world, a.chosen);
    } else if Moves(world, a) {
      MoveDrops(cfg, world, a);
    } else {
      IdleKeepsRank(cfg, world, a);
    }
  }

  lemma StepKeepsFree(cfg: Config, world: World, a: Action)
    requires Inv(world) && Free(cfg, world) && Tends(a)
    ensures Free(cfg, Apply(cfg, world, a))
  {
    if cfg.limits.Some? {
      StepKeepsHeld(cfg, world, a);
      SameWorkerCount(cfg, world, a);
    }
    hide Apply;
    hide LeasesHeld;
    hide Inv;
  }

  lemma SameWorkerCount(cfg: Config, world: World, a: Action)
    requires Tends(a)
    ensures |Apply(cfg, world, a).workers| == |world.workers|
  {
    hide Advance;
    hide ClaimStep;
    hide RecordInto;
    hide SweepChoice;
  }

  lemma {:induction false} ExecKeepsFree(cfg: Config, world: World, actions: seq<Action>)
    requires Inv(world) && Free(cfg, world) && forall a :: a in actions ==> Tends(a)
    ensures Inv(Exec(cfg, world, actions)) && Free(cfg, Exec(cfg, world, actions))
    ensures |Exec(cfg, world, actions).workers| == |world.workers|
    decreases |actions|
  {
    hide Inv;
    hide Free;
    hide Apply;
    hide Tends;
    if actions != [] {
      var n := |actions| - 1;
      ExecKeepsFree(cfg, world, actions[..n]);
      StepKeepsFree(cfg, Exec(cfg, world, actions[..n]), actions[n]);
      StepKeepsInv(cfg, Exec(cfg, world, actions[..n]), actions[n]);
      SameWorkerCount(cfg, Exec(cfg, world, actions[..n]), actions[n]);
    }
  }

  /**
   * In every interleaving, duplicates, stale holders and further sweeps included:
   * whatever order the work is done in and whatever the handlers answer, no
   * schedule holds more moves than the rank and what its sweeps add to it.
   */
  lemma {:induction false} EveryScheduleEnds(cfg: Config, world: World, actions: seq<Action>)
    requires Inv(world) && Free(cfg, world) && forall a :: a in actions ==> Tends(a)
    ensures MovesIn(cfg, world, actions) + Rank(Exec(cfg, world, actions)) <= Rank(world) + SweptIn(cfg, world, actions)
    decreases |actions|
  {
    hide Inv;
    hide Free;
    hide Rank;
    hide Moves;
    hide Apply;
    hide Tends;
    hide SweepRank;
    if actions != [] {
      var n := |actions| - 1;
      EveryScheduleEnds(cfg, world, actions[..n]);
      ExecKeepsFree(cfg, world, actions[..n]);
      StepRanks(cfg, Exec(cfg, world, actions[..n]), actions[n]);
    }
  }

  // ---- there is always a move, until nothing is queued, fetched or held ----

  function Later(world: World, ms: nat): World {
    world.(db := world.db.(now := world.db.now + ms))
  }

  /** No move is left, now or later. */
  ghost predicate Exhausted(world: World) {
    forall ms: nat, a :: !Moves(Later(world, ms), a)
  }

  /** What the handlers answer, by run and claimed row. */
  type Oracle = (RunId, StepRow) -> (Outcome, Backoff.Draw)

  predicate Answers(world: World, a: Action, oracle: Oracle) {
    a.Record? ==>
      && a.w < |world.workers| && world.workers[a.w].phase.Executing?
      && (a.outcome, a.draw) == oracle(world.workers[a.w].phase.runId, world.workers[a.w].phase.row)
  }

  /** Unless all is quiet, some worker can move, after a wait at most, whatever its handler answers. */
  lemma SomeMove(world: World, oracle: Oracle) returns (ms: nat, a: Action)
    requires |world.workers| > 0 && !Quiescent(world)
    ensures Working(a) && Moves(Later(world, ms), a) && Answers(world, a, oracle)
  {
    if world.db.outbox != [] {
      ms, a := Max(0, world.db.outbox[0].availableAt - world.db.now), Relay(0, 0);
    } else {
      var w :| 0 <= w < |world.workers| && world.workers[w] != Worker([], Idle);
      ms := 0;
      match world.workers[w].phase {
        case Idle => a := Process(w);
        case PuttingBack(_, _) => a := PutBack(w);
        case Executing(r, _, row, effectDone) =>
          a := if effectDone then Record(w, oracle(r, row).0, oracle(r, row).1) else Effect(w);
      }
    }
  }

  /** No move is left exactly if nothing is queued, fetched or held. */
  lemma ExhaustedIsQuiet(world: World)
    requires |world.workers| > 0
    ensures Exhausted(world) <==> Quiescent(world)
  {
    if !Quiescent(world) {
      var ms, a := SomeMove(world, (r, row) => (Success(None), 0.0));
      assert Moves(Later(world, ms), a);
    }
  }

  ghost predicate AllAnswer(cfg: Config, world: World, actions: seq<Action>, oracle: Oracle)
    decreases |actions|
  {
    actions == [] ||
    (var n := |actions| - 1;
     AllAnswer(cfg, world, actions[..n], oracle) && Answers(Exec(cfg, world, actions[..n]), actions[n], oracle))
  }

  lemma AllAnswerSnoc(cfg: Config, world: World, actions: seq<Action>, a: Action, oracle: Oracle)
    requires AllAnswer(cfg, world, actions, oracle) && Answers(Exec(cfg, world, actions), a, oracle)
    ensures AllAnswer(cfg, world, actions + [a], oracle)
    ensures Exec(cfg, world, actions + [a]) == Apply(cfg, Exec(cfg, world, actions), a)
  {
    hide Apply;
    hide Answers;
    assert (actions + [a])[..|actions|] == actions;
  }

  /** Work leads to quiet, whatever the handlers answer. */
  lemma {:induction false} WorkToQuiet(cfg: Config, world: World, done: seq<Action>, oracle: Oracle)
    returns (actions: seq<Action>)
    requires Inv(world) && Free(cfg, world) && |world.workers| > 0
    requires (forall a :: a in done ==> Working(a)) && AllAnswer(cfg, world, done, oracle)
    ensures (forall a :: a in actions ==> Working(a)) && AllAnswer(cfg, world, actions, oracle)
    ensures Quiescent(Exec(cfg, world, actions))
    decreases Rank(Exec(cfg, world, done))
  {
    hide Inv;
    hide Free;
    hide Rank;
    hide Apply;
    hide Moves;
    hide Quiescent;
    var here := Exec(cfg, world, done);
    ExecKeepsFree(cfg, world, done);
    if Quiescent(here) {
      actions := done;
    } else {
      var ms, a := SomeMove(here, oracle);
      var tick := Tick(ms);
      var ticked := Apply(cfg, here, tick);
      TickIsLater(cfg, here, ms, a, oracle);
      StepRanks(cfg, here, tick);
      StepKeepsFree(cfg, here, tick);
      StepKeepsInv(cfg, here, tick);
      StepRanks(cfg, ticked, a);
      AllAnswerSnoc(cfg, world, done, tick, oracle);
      AllAnswerSnoc(cfg, world, done + [tick], a, oracle);
      actions := WorkToQuiet(cfg, world, done + [tick] + [a], oracle);
    }
  }

  lemma TickIsLater(cfg: Config, world: World, ms: nat, a: Action, oracle: Oracle)
    requires Answers(world, a, oracle)
    ensures Apply(cfg, world, Tick(ms)) == Later(world, ms) && Answers(Later(world, ms), a, oracle)
    ensures Answers(world, Tick(ms), oracle) && Working(Tick(ms))
  {
  }

  // ---- under token discipline ----

  lemma WorkingOrderly(world: World, actions: seq<Action>)
    requires forall a :: a in actions ==> Working(a)
    ensures Orderly(world, actions) && forall a :: a in actions ==> !a.Create?
  {
    hide StrayFree;
  }

  lemma {:induction false} MessageWith(ms: seq<Message>, r: RunId) returns (k: nat)
    requires CountMsgs(ms, r) > 0
    ensures k < |ms| && ms[k].runId == r
  {
    if ms[|ms| - 1].runId == r {
      k := |ms| - 1;
    } else {
      k := MessageWith(ms[..|ms| - 1], r);
    }
  }

  lemma {:induction false} WorkerWith(ws: seq<Worker>, r: RunId) returns (w: nat)
    requires SumWorkers(ws, r) > 0
    ensures w < |ws| && WorkerTokens(ws[w], r) > 0
  {
    hide WorkerTokens;
    if WorkerTokens(ws[|ws| - 1], r) > 0 {
      w := |ws| - 1;
    } else {
      w := WorkerWith(ws[..|ws| - 1], r);
    }
  }

  /** As long as a run has its token there is a move to make, after a wait at most. */
  lemma AlwaysAMove(world: World, r: RunId, outcome: Outcome, draw: Backoff.Draw) returns (ms: nat, a: Action)
    requires |world.workers| > 0 && Tokens(world, r) > 0
    ensures Working(a) && (a.Record? ==> a.outcome == outcome && a.draw == draw)
    ensures Moves(Later(world, ms), a)
  {
    if CountMsgs(world.db.outbox, r) > 0 {
      var k := MessageWith(world.db.outbox, r);
      ms, a := Max(0, world.db.outbox[k].availableAt - world.db.now), Relay(0, k);
    } else {
      var w := WorkerWith(world.workers, r);
      ms := 0;
      match world.workers[w].phase {
        case Idle => a := Process(w);
        case PuttingBack(_, _) => a := PutBack(w);
        case Executing(_, _, _, effectDone) => a := if effectDone then Record(w, outcome, draw) else Effect(w);
      }
    }
  }

  /** Where no move is left every scheduled run has stopped. */
  lemma ExhaustedMeansStopped(world: World, r: RunId)
    requires Sound(world) && Scheduled(world) && |world.workers| > 0 && Exhausted(world) && r in world.db.runs
    ensures Stopped(world.db.runs[r])
  {
    ExhaustedIsQuiet(world);
    QuietMeansStopped(world, r);
    hide *;
  }
}
