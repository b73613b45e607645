// The worker loop: take a batch of due messages, process them in order, repeat.
// Whatever the handlers answer, a drain is an execution of the machine, so the
// machine's theorems hold of it.
module Drain {
  import opened Options
  import opened ErrorClasses
  import opened EngineTypes
  import opened EngineRows
  import opened World
  import D = EngineDb
  import opened EngineStore
  import Backoff
  import Branching
  import Accounts
  import Budgets
  import TokenSteps

  /** The world after n actions of a trace, one more action. */
  lemma ExecSnoc(cfg: Config, start: World, actions: seq<Action>, a: Action)
    ensures Exec(cfg, start, actions + [a]) == Apply(cfg, Exec(cfg, start, actions), a)
  {
    hide Apply;
    var more := actions + [a];
    assert more[..|more| - 1] == actions;
  }

  ghost predicate Tracks(store: Store, cfg: Config, start: World, trace: seq<Action>, w: WorkerId, batch: seq<Message>)
    reads store
  {
    var world := Exec(cfg, start, trace);
    && world.db == store.View()
    && w < |world.workers| && world.workers[w] == Worker(batch, Idle)
  }

  /** What one worker does on its own. */
  predicate WorkerAction(a: Action) {
    a.Relay? || a.Process? || a.PutBack? || a.Effect? || a.Record?
  }

  predicate Extends(trace: seq<Action>, more: seq<Action>) {
    && |trace| <= |more| && (forall k :: 0 <= k < |trace| ==> more[k] == trace[k])
    && forall k :: |trace| <= k < |more| ==> WorkerAction(more[k])
  }

  /** Take one due row out of the outbox. */
  method TakeRow(store: Store, i: nat, cfg: Config, w: WorkerId, batch: seq<Message>, ghost start: World,
                 ghost trace: seq<Action>)
    returns (ghost more: seq<Action>)
    requires Tracks(store, cfg, start, trace, w, batch)
    requires i < |store.outbox| && store.outbox[i].availableAt <= store.now
    modifies store
    ensures store.outbox == RemoveAt(old(store.outbox), i) && store.now == old(store.now)
    ensures Tracks(store, cfg, start, more, w, batch + [old(store.outbox)[i]]) && Extends(trace, more)
  {
    hide Exec;
    hide Apply;
    ghost var world := Exec(cfg, start, trace);
    ExecSnoc(cfg, start, trace, Relay(w, i));
    Relayed(cfg, world, w, i);
    more := trace + [Relay(w, i)];
    store.outbox := RemoveAt(store.outbox, i);
  }

  lemma ExtendsFurther(a: seq<Action>, b: seq<Action>, c: seq<Action>)
    requires Extends(a, b) && Extends(b, c)
    ensures Extends(a, c)
  {
    hide WorkerAction;
  }

  lemma ExtendsSelf(a: seq<Action>)
    ensures Extends(a, a)
  {
  }

  /** Claim the first due rows in id order, and delete them. */
  method ClaimBatch(store: Store, limit: nat, cfg: Config, w: WorkerId, ghost start: World, ghost trace: seq<Action>)
    returns (batch: seq<Message>, ghost more: seq<Action>)
    requires Tracks(store, cfg, start, trace, w, [])
    modifies store
    ensures Tracks(store, cfg, start, more, w, batch) && Extends(trace, more)
    ensures |batch| <= limit
    ensures |batch| < limit ==> forall m :: m in store.outbox ==> m.availableAt > store.now
    ensures exists k: nat :: FirstDue(old(store.outbox), store.now, k, batch, store.outbox)
  {
    hide *;
    batch, more := [], trace;
    var i := 0;
    ghost var was, scanned := store.outbox, 0;
    NoneTaken(was, store.now);
    ExtendsSelf(trace);
    while i < |store.outbox| && |batch| < limit
      invariant i <= |store.outbox| && |batch| <= limit && store.now == old(store.now)
      invariant scanned <= |was|
      invariant FirstDue(was, store.now, scanned, batch, store.outbox) && i == |LateIn(was[..scanned], store.now)|
      invariant forall k :: 0 <= k < i ==> store.outbox[k].availableAt > store.now
      invariant Tracks(store, cfg, start, more, w, batch) && Extends(trace, more)
      decreases |store.outbox| - i
    {
      var m := store.outbox[i];
      NextTaken(was, store.now, scanned, batch, store.outbox);
      if m.availableAt <= store.now {
        OneDue(was, store.now, scanned, batch, store.outbox);
        RemovedAt(store.outbox, i);
        ghost var before := more;
        more := TakeRow(store, i, cfg, w, batch, start, more);
        ExtendsFurther(trace, before, more);
        batch := batch + [m];
      } else {
        OneLate(was, store.now, scanned, batch, store.outbox);
        i := i + 1;
      }
      scanned := scanned + 1;
    }
  }

  lemma RemovedAt(ms: seq<Message>, i: nat)
    requires i < |ms|
    ensures |RemoveAt(ms, i)| == |ms| - 1 && forall k :: 0 <= k < i ==> RemoveAt(ms, i)[k] == ms[k]
  {
  }

  function DueIn(ms: seq<Message>, now: int): (r: seq<Message>)
    ensures |r| <= |ms|
  {
    if ms == [] then []
    else DueIn(ms[..|ms| - 1], now) + if ms[|ms| - 1].availableAt <= now then [ms[|ms| - 1]] else []
  }

  function LateIn(ms: seq<Message>, now: int): (r: seq<Message>)
    ensures |r| + |DueIn(ms, now)| == |ms|
  {
    if ms == [] then []
    else LateIn(ms[..|ms| - 1], now) + if ms[|ms| - 1].availableAt > now then [ms[|ms| - 1]] else []
  }

  /** Of the first k messages the due ones are taken, in their order; all others stay, in theirs. */
  predicate FirstDue(was: seq<Message>, now: int, k: nat, batch: seq<Message>, left: seq<Message>) {
    k <= |was| && batch == DueIn(was[..k], now) && left == LateIn(was[..k], now) + was[k..]
  }

  lemma NoneTaken(was: seq<Message>, now: int)
    ensures FirstDue(was, now, 0, [], was) && LateIn(was[..0], now) == []
  {
  }

  /** Where the scan stands. */
  lemma NextTaken(was: seq<Message>, now: int, k: nat, batch: seq<Message>, left: seq<Message>)
    requires FirstDue(was, now, k, batch, left)
    ensures k <= |was| && (|LateIn(was[..k], now)| < |left| <==> k < |was|)
    ensures k < |was| ==> left[|LateIn(was[..k], now)|] == was[k]
  {
    hide DueIn, LateIn;
  }

  lemma OneDue(was: seq<Message>, now: int, k: nat, batch: seq<Message>, left: seq<Message>)
    requires FirstDue(was, now, k, batch, left) && k < |was| && was[k].availableAt <= now
    ensures |LateIn(was[..k], now)| < |left|
    ensures FirstDue(was, now, k + 1, batch + [was[k]], RemoveAt(left, |LateIn(was[..k], now)|))
    ensures LateIn(was[..k + 1], now) == LateIn(was[..k], now)
  {
    assert was[..k + 1][..k] == was[..k];
  }

  lemma OneLate(was: seq<Message>, now: int, k: nat, batch: seq<Message>, left: seq<Message>)
    requires FirstDue(was, now, k, batch, left) && k < |was| && was[k].availableAt > now
    ensures FirstDue(was, now, k + 1, batch, left)
    ensures |LateIn(was[..k + 1], now)| == |LateIn(was[..k], now)| + 1
  {
    assert was[..k + 1][..k] == was[..k];
    assert was[k..] == [was[k]] + was[k + 1..];
  }

  lemma Relayed(cfg: Config, world: World, w: WorkerId, k: nat)
    requires w < |world.workers| && k < |world.db.outbox| && world.db.outbox[k].availableAt <= world.db.now
    ensures var after := Apply(cfg, world, Relay(w, k));
      && after.db == world.db.(outbox := RemoveAt(world.db.outbox, k))
      && |after.workers| == |world.workers|
      && after.workers[w] == world.workers[w].(batch := world.workers[w].batch + [world.db.outbox[k]])
  {
  }

  // ---- one message ----

  method AdvanceMessage(store: Store, cfg: Config, w: WorkerId, batch: seq<Message>, ghost start: World,
                        ghost trace: seq<Action>)
    returns (outcome: AdvanceOutcome, ghost more: seq<Action>)
    requires batch != [] && batch[0].topic.AdvanceRun? && Tracks(store, cfg, start, trace, w, batch)
    modifies store
    ensures Tracks(store, cfg, start, more, w, batch[1..]) && Extends(trace, more)
  {
    ghost var world := Exec(cfg, start, trace);
    more := trace + [Process(w)];
    ExecSnoc(cfg, start, trace, Process(w));
    outcome := store.Advance(batch[0].runId);
    ProcessedAdvance(cfg, world, w, batch);
  }

  lemma ProcessedAdvance(cfg: Config, world: World, w: WorkerId, batch: seq<Message>)
    requires w < |world.workers| && world.workers[w] == Worker(batch, Idle) && batch != [] && batch[0].topic.AdvanceRun?
    ensures var after := Apply(cfg, world, Process(w));
      && after.db == D.Advance(world.db, batch[0].runId).0
      && |after.workers| == |world.workers| && after.workers[w] == Worker(batch[1..], Idle)
  {
    hide D.Advance;
  }

  lemma ProcessedClaim(cfg: Config, world: World, w: WorkerId, batch: seq<Message>)
    requires w < |world.workers| && world.workers[w] == Worker(batch, Idle) && batch != [] && batch[0].topic.RunStep?
    ensures var after := Apply(cfg, world, Process(w));
      var r, i := batch[0].runId, batch[0].topic.step;
      && |after.workers| == |world.workers| && after.workers[w].batch == batch[1..]
      && (r !in world.db.runs ==> after.db == world.db && after.workers[w].phase.Idle?)
      && (r in world.db.runs ==>
            var (db, result) := D.ClaimStep(world.db, r, i, w, cfg.leaseMs, cfg.limits);
            && after.db == db
            && after.workers[w].phase == (match result
                                          case Taken => Idle
                                          case Blocked => PuttingBack(r, i)
                                          case Claimed(row) => Executing(r, i, row, false)))
  {
    hide D.OverLimit;
    hide Claimable;
  }

  /** Claim, run the handler outside any transaction, record. The handler's answer is arbitrary. */
  method RunMessage(store: Store, cfg: Config, w: WorkerId, batch: seq<Message>, ghost start: World,
                    ghost trace: seq<Action>)
    returns (ghost more: seq<Action>)
    requires batch != [] && batch[0].topic.RunStep? && Tracks(store, cfg, start, trace, w, batch)
    modifies store
    ensures Tracks(store, cfg, start, more, w, batch[1..]) && Extends(trace, more)
  {
    hide Exec;
    hide Apply;
    var r, i := batch[0].runId, batch[0].topic.step;
    ghost var world := Exec(cfg, start, trace);
    ProcessedClaim(cfg, world, w, batch);
    ExecSnoc(cfg, start, trace, Process(w));
    more := trace + [Process(w)];
    if r !in store.runs {
      return;
    }
    var result := store.Claim(r, i, w, cfg.leaseMs, cfg.limits);
    match result {
      case Taken =>
      case Blocked =>
        PutBackShape(cfg, Exec(cfg, start, more), w);
        ExecSnoc(cfg, start, more, PutBack(w));
        more := more + [PutBack(w)];
        store.Enqueue(RunStep(i), r, cfg.blockedRetryMs);
      case Claimed(row) =>
        more := Execute(store, cfg, w, r, i, row, batch[1..], start, more);
    }
  }

  lemma PutBackShape(cfg: Config, world: World, w: WorkerId)
    requires w < |world.workers| && world.workers[w].phase.PuttingBack?
    ensures var after := Apply(cfg, world, PutBack(w));
      var p := world.workers[w].phase;
      && after.db == D.Enqueue(world.db, RunStep(p.step), p.runId, cfg.blockedRetryMs)
      && |after.workers| == |world.workers| && after.workers[w] == Worker(world.workers[w].batch, Idle)
  {
  }

  ghost predicate Holding(store: Store, cfg: Config, start: World, trace: seq<Action>, w: WorkerId, batch: seq<Message>,
                          p: Phase)
    reads store
  {
    var world := Exec(cfg, start, trace);
    && world.db == store.View()
    && w < |world.workers| && world.workers[w] == Worker(batch, p)
  }

  method Execute(store: Store, cfg: Config, w: WorkerId, r: RunId, i: nat, row: StepRow, batch: seq<Message>,
                 ghost start: World, ghost trace: seq<Action>)
    returns (ghost more: seq<Action>)
    requires Holding(store, cfg, start, trace, w, batch, Executing(r, i, row, false))
    modifies store
    ensures Tracks(store, cfg, start, more, w, batch) && Extends(trace, more)
  {
    hide Exec;
    hide Apply;
    hide RecordInto;
    var outcome: Outcome := *;
    var acted: bool := *;
    var draw: Backoff.Draw := *;
    more := trace;
    if acted || outcome.Success? {
      ExecSnoc(cfg, start, trace, Effect(w));
      EffectShape(cfg, Exec(cfg, start, trace), w);
      more := trace + [Effect(w)];
    }
    ghost var holding := Exec(cfg, start, more).workers[w].phase;
    ExecSnoc(cfg, start, more, Record(w, outcome, draw));
    RecordedShape(cfg, Exec(cfg, start, more), w, outcome, draw);
    more := more + [Record(w, outcome, draw)];
    RecordOutcome(store, cfg, w, r, i, row, outcome, draw, holding);
  }

  lemma EffectShape(cfg: Config, world: World, w: WorkerId)
    requires w < |world.workers| && world.workers[w].phase.Executing?
    ensures var after := Apply(cfg, world, Effect(w));
      && after.db == world.db && |after.workers| == |world.workers|
      && after.workers[w] == world.workers[w].(phase := world.workers[w].phase.(effectDone := true))
  {
  }

  lemma RecordedShape(cfg: Config, world: World, w: WorkerId, outcome: Outcome, draw: Backoff.Draw)
    requires w < |world.workers| && world.workers[w].phase.Executing?
    requires outcome.Success? ==> world.workers[w].phase.effectDone
    ensures var after := Apply(cfg, world, Record(w, outcome, draw));
      && after.db == RecordInto(cfg, world.db, w, world.workers[w].phase, outcome, draw)
      && |after.workers| == |world.workers| && after.workers[w] == Worker(world.workers[w].batch, Idle)
  {
    hide RecordInto;
  }

  /** The second transaction: what the executor writes for the handler's answer. */
  method RecordOutcome(store: Store, cfg: Config, w: WorkerId, r: RunId, i: nat, row: StepRow, outcome: Outcome,
                       draw: Backoff.Draw, ghost p: Phase)
    requires p.Executing? && p.runId == r && p.step == i && p.row == row
    modifies store
    ensures store.View() == RecordInto(cfg, old(store.View()), w, p, outcome, draw)
  {
    var version := if r in store.runs then store.runs[r].versionId else "";
    if version !in cfg.flows {
      var wrote := store.Fail(r, i, w, D.DecideFailure(row, Poison, false, None, draw, store.now, cfg.policy));
      return;
    }
    var flow := cfg.flows[version];
    match outcome {
      case Success(output) =>
        var abandoned := {};
        if output.Some? && output.value.Decision? {
          abandoned := Branching.ComputeStepsToSkip(flow.edges, row.nodeId, output.value.taken);
        }
        var wrote := store.Succeed(r, i, w, output, abandoned);
      case Failure(errorClass, retryAfterMs) =>
        var wrote := store.Fail(r, i, w, D.DecideFailure(row, errorClass, IdempotentIn(flow, row.nodeId), retryAfterMs,
                                                         draw, store.now, cfg.policy));
    }
  }

  // ---- the loop ----

  /**
   * Drains until nothing is due or maxJobs messages have been processed. The
   * trace is one worker's sequence of machine actions with exactly that effect.
   */
  method DrainQueue(store: Store, cfg: Config, w: WorkerId, maxJobs: nat, batchSize: nat, ghost start: World,
                    ghost trace: seq<Action>)
    returns (processed: nat, ghost more: seq<Action>)
    requires batchSize > 0 && Tracks(store, cfg, start, trace, w, [])
    modifies store
    ensures Tracks(store, cfg, start, more, w, []) && Extends(trace, more)
    ensures processed <= maxJobs
    ensures processed < maxJobs ==> forall m :: m in store.outbox ==> m.availableAt > store.now
  {
    processed, more := 0, trace;
    while processed < maxJobs
      invariant processed <= maxJobs && Tracks(store, cfg, start, more, w, []) && Extends(trace, more)
      decreases maxJobs - processed
    {
      var batch;
      batch, more := ClaimBatch(store, Min(batchSize, maxJobs - processed), cfg, w, start, more);
      if batch == [] {
        return;
      }
      var before := processed;
      while batch != []
        invariant before <= processed && processed + |batch| <= maxJobs && (batch == [] ==> before < processed)
        invariant Tracks(store, cfg, start, more, w, batch) && Extends(trace, more)
        decreases |batch|
      {
        processed := processed + 1;
        if batch[0].topic.AdvanceRun? {
          var outcome;
          outcome, more := AdvanceMessage(store, cfg, w, batch, start, more);
        } else {
          more := RunMessage(store, cfg, w, batch, start, more);
        }
        batch := batch[1..];
      }
    }
  }

  /** Draining is disciplined, so the message bound holds of every drain that follows a disciplined history. */
  lemma DrainStaysBounded(cfg: Config, now: int, n: nat, trace: seq<Action>, more: seq<Action>, r: RunId)
    requires cfg.limits.None? && (forall a :: a in trace ==> TokenSteps.Disciplined(a)) && Extends(trace, more)
    ensures var world := Exec(cfg, Start(now, n), more);
      r in world.db.runs && world.db.runs[r].attemptGroup == 0 ==>
        Accounts.Spent(world.log, r) <= 1 + 2 * Budgets.SumCeiling(world.db.runs[r].steps)
  {
    forall a | a in more
      ensures TokenSteps.Disciplined(a)
    {
      var k :| 0 <= k < |more| && more[k] == a;
      if k < |trace| {
        assert trace[k] in trace;
      }
    }
    Accounts.DrainBounded(cfg, now, n, more, r);
  }
}
