// The guarantees of every interleaving, read off the invariant.
module Interleavings {
  import opened Options
  import opened ErrorClasses
  import opened EngineTypes
  import opened EngineRows
  import opened EngineDb
  import opened World
  import opened RowInvariants
  import opened Safety
  import opened Digraph
  import Backoff
  import Idempotency

  ghost predicate Reachable(cfg: Config, world: World) {
    exists now, n, actions :: world == Exec(cfg, Start(now, n), actions)
  }

  lemma ReachableInv(cfg: Config, world: World)
    requires Reachable(cfg, world)
    ensures Inv(world)
  {
    hide Inv;
    var now, n, actions :| world == Exec(cfg, Start(now, n), actions);
    StartInv(now, n);
    ExecKeepsInv(cfg, Start(now, n), actions);
  }

  // ---- effects ----

  predicate SameStep(a: Idempotency.StepIdentity, b: Idempotency.StepIdentity) {
    a.runId == b.runId && a.nodeId == b.nodeId
  }

  ghost function EffectsOf(world: World, r: RunId, n: NodeId): set<Idempotency.StepIdentity> {
    set k | k in world.effects && k.runId == r && k.nodeId == n
  }

  ghost function Below(n: nat): (s: set<nat>)
    ensures |s| == n
    ensures forall x: nat :: x in s <==> x < n
  {
    if n == 0 then {} else Below(n - 1) + {n - 1}
  }

  lemma {:induction false} CountByGroup(ks: set<Idempotency.StepIdentity>, r: RunId, n: NodeId, groups: set<nat>)
    requires forall k :: k in ks ==> k == StepKey(r, n, k.attemptGroup) && k.attemptGroup in groups
    ensures |ks| <= |groups|
    decreases ks
  {
    if k :| k in ks {
      CountByGroup(ks - {k}, r, n, groups - {k.attemptGroup});
    }
  }

  /**
   * Exactly-once effects: the provider acted at most once per key, the keys it
   * saw are pairwise different even as hashed material, and a succeeded step has
   * its effect. Two effects of one node of a run belong to different attempt
   * groups, each a group the run has had: at most one per (run, node, group).
   */
  lemma ExactlyOnceEffects(cfg: Config, world: World)
    requires Reachable(cfg, world)
    ensures forall i, j :: 0 <= i < j < |world.effects| ==>
      Idempotency.Material(world.effects[i]) != Idempotency.Material(world.effects[j])
    ensures forall r, i: nat :: IsStep(world.db, r, i) && world.db.runs[r].steps[i].status.Succeeded? ==>
      world.db.runs[r].steps[i].key in world.effects
    ensures forall i, j :: 0 <= i < j < |world.effects| && SameStep(world.effects[i], world.effects[j]) ==>
      world.effects[i].attemptGroup != world.effects[j].attemptGroup
    ensures forall k :: k in world.effects ==> Legitimate(world.db, k)
    ensures forall r, n {:trigger EffectsOf(world, r, n)} :: r in world.db.runs ==>
      |EffectsOf(world, r, n)| <= world.db.runs[r].attemptGroup + 1
  {
    ReachableInv(cfg, world);
    forall i, j | 0 <= i < j < |world.effects|
      ensures Idempotency.Material(world.effects[i]) != Idempotency.Material(world.effects[j])
    {
      var a, b := world.effects[i], world.effects[j];
      assert Legitimate(world.db, a) && Legitimate(world.db, b);
      if Idempotency.Material(a) == Idempotency.Material(b) {
        Idempotency.KeysDiffer(a, b);
      }
    }
    forall i, j | 0 <= i < j < |world.effects| && SameStep(world.effects[i], world.effects[j])
      ensures world.effects[i].attemptGroup != world.effects[j].attemptGroup
    {
      assert Legitimate(world.db, world.effects[i]) && Legitimate(world.db, world.effects[j]);
    }
    forall r, n | r in world.db.runs
      ensures |EffectsOf(world, r, n)| <= world.db.runs[r].attemptGroup + 1
    {
      EffectsPerGroup(world, r, n);
    }
  }

  lemma EffectsPerGroup(world: World, r: RunId, n: NodeId)
    requires EffectsOk(world) && r in world.db.runs
    ensures |EffectsOf(world, r, n)| <= world.db.runs[r].attemptGroup + 1
  {
    var g := world.db.runs[r].attemptGroup;
    var groups := Below(g + 1);
    forall k | k in EffectsOf(world, r, n)
      ensures k == StepKey(r, n, k.attemptGroup) && k.attemptGroup in groups
    {
      assert Legitimate(world.db, k);
    }
    CountByGroup(EffectsOf(world, r, n), r, n, groups);
  }

  /** A result is written only over the row as it was claimed; any other write changes nothing. */
  lemma StaleWriteIsNoOp(cfg: Config, world: World, w: WorkerId, outcome: Outcome, draw: Backoff.Draw)
    requires Reachable(cfg, world)
    requires w < |world.workers| && world.workers[w].phase.Executing?
    ensures var p := world.workers[w].phase;
      && IsStep(world.db, p.runId, p.step)
      && (world.db.runs[p.runId].steps[p.step] != p.row ==> ApplyRecord(cfg, world, w, outcome, draw).db == world.db)
  {
    ReachableInv(cfg, world);
    var p := world.workers[w].phase;
    assert Fenced(world.db, w, p);
  }

  /** Same runs, same delivery keys, and every row still carries its idempotency key. */
  predicate SameKeys(a: Db, b: Db) {
    && a.idempotency == b.idempotency
    && a.runs.Keys == b.runs.Keys
    && forall r :: r in a.runs ==>
         |a.runs[r].steps| == |b.runs[r].steps|
         && forall i :: 0 <= i < |a.runs[r].steps| ==> b.runs[r].steps[i].key == a.runs[r].steps[i].key
  }

  lemma AdvanceKeepsKeys(db: Db, r: RunId)
    ensures SameKeys(db, Advance(db, r).0)
  {
    if r in db.runs {
      AdvanceKeepsSteps(db.runs[r], db.now);
    }
    hide AdvanceRow;
  }

  lemma ClaimKeepsKeys(db: Db, r: RunId, i: nat, w: WorkerId, leaseMs: nat, limits: Option<ConcurrencyLimits>)
    requires r in db.runs
    ensures SameKeys(db, ClaimStep(db, r, i, w, leaseMs, limits).0)
  {
    hide OverLimit;
  }

  lemma ProcessKeepsKeys(cfg: Config, world: World, w: WorkerId)
    ensures var world' := ApplyProcess(cfg, world, w);
      && SameKeys(world.db, world'.db)
      && |world.log| <= |world'.log| && world'.log[..|world.log|] == world.log
      && forall i :: |world.log| <= i < |world'.log| ==> !world'.log[i].CreatedRun?
  {
    hide Advance;
    hide ClaimStep;
    if w < |world.workers| && world.workers[w].batch != [] {
      var m := world.workers[w].batch[0];
      AdvanceKeepsKeys(world.db, m.runId);
      if m.topic.RunStep? && m.runId in world.db.runs {
        ClaimKeepsKeys(world.db, m.runId, m.topic.step, w, cfg.leaseMs, cfg.limits);
      }
    }
  }

  lemma RecordKeepsKeys(cfg: Config, world: World, w: WorkerId, outcome: Outcome, draw: Backoff.Draw)
    ensures SameKeys(world.db, ApplyRecord(cfg, world, w, outcome, draw).db)
    ensures ApplyRecord(cfg, world, w, outcome, draw).log == world.log
  {
    if w < |world.workers| && world.workers[w].phase.Executing? {
      RecordIntoKeepsKeys(cfg, world.db, w, world.workers[w].phase, outcome, draw);
    }
    hide RecordInto;
  }

  lemma RecordIntoKeepsKeys(cfg: Config, db: Db, w: WorkerId, p: Phase, outcome: Outcome, draw: Backoff.Draw)
    requires p.Executing?
    ensures SameKeys(db, RecordInto(cfg, db, w, p, outcome, draw))
  {
    hide AbandonedBy, DecideFailure, SameKeys, RecordSuccess, RecordFailure;
    forall output, abandoned
      ensures SameKeys(db, RecordSuccess(db, p.runId, p.step, w, output, abandoned).0)
    {
      SuccessKeepsKeys(db, p.runId, p.step, w, output, abandoned);
    }
    forall rec
      ensures SameKeys(db, RecordFailure(db, p.runId, p.step, w, rec).0)
    {
      FailureKeepsKeys(db, p.runId, p.step, w, rec);
    }
  }

  lemma SuccessKeepsKeys(db: Db, r: RunId, i: nat, w: WorkerId, output: Option<Output>, abandoned: set<NodeId>)
    ensures SameKeys(db, RecordSuccess(db, r, i, w, output, abandoned).0)
  {
  }

  lemma FailureKeepsKeys(db: Db, r: RunId, i: nat, w: WorkerId, rec: FailureRecord)
    ensures SameKeys(db, RecordFailure(db, r, i, w, rec).0)
  {
  }

  /** Automatic retries present the same key: only an operator's resume or replay changes one. */
  lemma KeyConstantAcrossRetries(cfg: Config, world: World, a: Action, r: RunId, i: nat)
    requires !a.ResumeFrom? && !a.Replay?
    requires IsStep(world.db, r, i)
    ensures IsStep(Apply(cfg, world, a).db, r, i)
    ensures Apply(cfg, world, a).db.runs[r].steps[i].key == world.db.runs[r].steps[i].key
  {
    hide RecordInto;
    hide ApplyProcess;
    hide ApplyRecord;
    match a {
      case Process(w) => ProcessKeepsKeys(cfg, world, w);
      case Record(w, outcome, draw) => RecordKeepsKeys(cfg, world, w, outcome, draw);
      case _ =>
    }
  }

  lemma AdvanceKeepsSteps(run: Run, now: int)
    ensures AdvanceRow(run, now).0.steps == run.steps
  {
  }

  /** A resume gives every reset step a key no effect has carried. */
  lemma ResumeIsNewIntent(cfg: Config, world: World, r: RunId, n: NodeId, i: nat)
    requires Reachable(cfg, world)
    requires Resume(world.db, r, n).Ok? && IsStep(world.db, r, i)
    ensures var db' := Resume(world.db, r, n).value;
      && IsStep(db', r, i)
      && (db'.runs[r].steps[i].status.Pending? ==> db'.runs[r].steps[i].key !in world.effects)
      && (db'.runs[r].steps[i].status.SkippedResumed? ==>
            db'.runs[r].steps[i].output == world.db.runs[r].steps[i].output)
  {
    ReachableInv(cfg, world);
    var db' := Resume(world.db, r, n).value;
    var k := db'.runs[r].steps[i].key;
    assert k in world.effects ==> Legitimate(world.db, k);
  }

  // ---- verdicts and counters ----

  /** Counters count, verdicts are backed by rows, and nothing in a succeeded run can be claimed. */
  lemma VerdictsAndCounters(cfg: Config, world: World, r: RunId)
    requires Reachable(cfg, world) && r in world.db.runs
    ensures var run := world.db.runs[r];
      && run.stepsSucceeded == CountRows(run.steps, IsSucceeded)
      && run.stepsFailed == CountRows(run.steps, FinallyFailed)
      && run.stepsSucceeded + run.stepsFailed <= run.stepCount
      && (run.status.Failed? ==> exists s :: s in run.steps && FinallyFailed(s))
      && (run.status.Succeeded? ==> forall s, t :: s in run.steps ==> IsDone(s.status) && !Claimable(s, t))
  {
    ReachableInv(cfg, world);
    CountersBounded(r, world.db.runs[r]);
  }

  /** Success is final: no later action changes the verdict or a single row. */
  lemma {:induction false} SucceededForever(cfg: Config, world: World, actions: seq<Action>, r: RunId)
    requires Reachable(cfg, world)
    requires r in world.db.runs && world.db.runs[r].status.Succeeded?
    ensures var later := Exec(cfg, world, actions).db;
      r in later.runs && later.runs[r].status.Succeeded? && later.runs[r].steps == world.db.runs[r].steps
    decreases |actions|
  {
    ReachableInv(cfg, world);
    SucceededForeverFrom(cfg, world, actions, r);
  }

  lemma {:induction false} SucceededForeverFrom(cfg: Config, world: World, actions: seq<Action>, r: RunId)
    requires Inv(world)
    requires r in world.db.runs && world.db.runs[r].status.Succeeded?
    ensures var later := Exec(cfg, world, actions).db;
      r in later.runs && later.runs[r].status.Succeeded? && later.runs[r].steps == world.db.runs[r].steps
    decreases |actions|
  {
    hide Inv;
    hide Apply;
    if actions != [] {
      var n := |actions| - 1;
      var before := Exec(cfg, world, actions[..n]);
      SucceededForeverFrom(cfg, world, actions[..n], r);
      ExecKeepsInv(cfg, world, actions[..n]);
      StepKeepsInv(cfg, before, actions[n]);
      var after := Apply(cfg, before, actions[n]);
      assert RunEvolves(before.db.runs[r], after.db.runs[r], Actor(before, actions[n]), after.effects);
    }
  }

  // ---- one run per delivery key ----

  /** The run a delivery key names was created for it. */
  ghost predicate CreatedFor(world: World, k: DeliveryKey) {
    k in world.db.idempotency && CreatedRun(world.db.idempotency[k], Some(k)) in world.log
  }

  ghost predicate KeysOk(world: World) {
    && (forall k :: k in world.db.idempotency ==> world.db.idempotency[k] in world.db.runs && CreatedFor(world, k))
    && (forall i :: 0 <= i < |world.log| && world.log[i].CreatedRun? ==>
          && world.log[i].runId in world.db.runs
          && (world.log[i].key.Some? ==>
                world.log[i].key.value in world.db.idempotency
                && world.db.idempotency[world.log[i].key.value] == world.log[i].runId))
    && (forall i, j :: 0 <= i < j < |world.log| && world.log[i].CreatedRun? && world.log[j].CreatedRun? ==>
          world.log[i].runId != world.log[j].runId)
    && (forall r :: r in world.db.runs && world.db.runs[r].steps != [] ==>
          exists i :: 0 <= i < |world.log| && world.log[i].CreatedRun? && world.log[i].runId == r)
  }

  /** Steps are inserted by creation only, and no transaction drops a key or a run. */
  lemma KeysFrom(a: World, b: World)
    requires KeysOk(a)
    requires b.db.idempotency == a.db.idempotency
    requires forall r :: r in a.db.runs ==> r in b.db.runs && |b.db.runs[r].steps| == |a.db.runs[r].steps|
    requires forall r :: r in b.db.runs && r !in a.db.runs ==> b.db.runs[r].steps == []
    requires |b.log| >= |a.log| && b.log[..|a.log|] == a.log
    requires forall i :: |a.log| <= i < |b.log| ==> !b.log[i].CreatedRun?
    ensures KeysOk(b)
  {
    assert forall i :: 0 <= i < |a.log| ==> b.log[i] == a.log[i];
    forall r | r in b.db.runs && b.db.runs[r].steps != []
      ensures exists i :: 0 <= i < |b.log| && b.log[i].CreatedRun? && b.log[i].runId == r
    {
      assert |a.db.runs[r].steps| > 0;
      var i :| 0 <= i < |a.log| && a.log[i].CreatedRun? && a.log[i].runId == r;
      assert b.log[i].CreatedRun?;
    }
  }

  /** Nothing is logged or keyed; at most a row without steps is added. */
  predicate AtMostBare(a: World, b: World) {
    && b.db.idempotency == a.db.idempotency && b.log == a.log
    && (forall r :: r in a.db.runs ==> r in b.db.runs && b.db.runs[r] == a.db.runs[r])
    && (forall r :: r in b.db.runs && r !in a.db.runs ==> b.db.runs[r].steps == [])
  }

  /** One new run, under its key if it has one, and logged. */
  predicate CreatedNow(a: World, b: World, newId: RunId, key: Option<DeliveryKey>) {
    && newId !in a.db.runs && (key.Some? ==> key.value !in a.db.idempotency)
    && newId in b.db.runs && b.db.runs == a.db.runs[newId := b.db.runs[newId]]
    && b.db.idempotency == (if key.Some? then a.db.idempotency[key.value := newId] else a.db.idempotency)
    && b.log == a.log + [CreatedRun(newId, key)]
  }

  lemma CreateCases(world: World, input: CreateRunInput, newId: RunId, raced: bool)
    ensures var world' := ApplyCreate(world, input, newId, raced);
      AtMostBare(world, world') || CreatedNow(world, world', newId, KeyOf(input))
  {
    hide Insertable;
    hide FreshRows;
  }

  lemma CreatedKeepsKeys(a: World, b: World, newId: RunId, key: Option<DeliveryKey>)
    requires KeysOk(a) && CreatedNow(a, b, newId, key)
    ensures KeysOk(b)
  {
    assert forall i :: 0 <= i < |a.log| ==> b.log[i] == a.log[i];
    assert b.log[|a.log|] == CreatedRun(newId, key);
    forall r | r in b.db.runs && b.db.runs[r].steps != []
      ensures exists i :: 0 <= i < |b.log| && b.log[i].CreatedRun? && b.log[i].runId == r
    {
      if r in a.db.runs {
        var i :| 0 <= i < |a.log| && a.log[i].CreatedRun? && a.log[i].runId == r;
        assert b.log[i].CreatedRun?;
      }
    }
  }

  lemma CreateKeepsKeys(world: World, input: CreateRunInput, newId: RunId, raced: bool)
    requires KeysOk(world)
    ensures KeysOk(ApplyCreate(world, input, newId, raced))
  {
    var world' := ApplyCreate(world, input, newId, raced);
    CreateCases(world, input, newId, raced);
    hide ApplyCreate, KeysOk;
    if AtMostBare(world, world') {
      KeysFrom(world, world');
    } else {
      CreatedKeepsKeys(world, world', newId, KeyOf(input));
    }
  }

  lemma StepKeepsKeys(cfg: Config, world: World, a: Action)
    requires Inv(world) && KeysOk(world)
    ensures KeysOk(Apply(cfg, world, a))
  {
    if a.Create? {
      CreateKeepsKeys(world, a.input, a.newId, a.raced);
    } else {
      var world' := Apply(cfg, world, a);
      SameRunsAndKeys(cfg, world, a);
      StepKeepsInv(cfg, world, a);
      forall r | r in world.db.runs
        ensures |world'.db.runs[r].steps| == |world.db.runs[r].steps|
      {
        assert RunEvolves(world.db.runs[r], world'.db.runs[r], Actor(world, a), world'.effects);
      }
      KeysFrom(world, world');
    }
  }

  lemma ResumeKeepsTables(db: Db, r: RunId, n: NodeId)
    requires Resume(db, r, n).Ok?
    ensures Resume(db, r, n).value.idempotency == db.idempotency
    ensures Resume(db, r, n).value.runs.Keys == db.runs.Keys
  {
  }

  lemma SameRunsAndKeys(cfg: Config, world: World, a: Action)
    requires !a.Create?
    ensures var world' := Apply(cfg, world, a);
      && world'.db.idempotency == world.db.idempotency
      && (forall r :: r in world.db.runs <==> r in world'.db.runs)
      && |world'.log| >= |world.log| && world'.log[..|world.log|] == world.log
      && (forall i :: |world.log| <= i < |world'.log| ==> !world'.log[i].CreatedRun?)
  {
    hide RecordInto;
    hide ApplyProcess;
    hide ApplyRecord;
    hide Resume;
    match a {
      case Process(w) => ProcessKeepsKeys(cfg, world, w);
      case Record(w, outcome, draw) => RecordKeepsKeys(cfg, world, w, outcome, draw);
      case ResumeFrom(r, n) =>
        if Resume(world.db, r, n).Ok? {
          ResumeKeepsTables(world.db, r, n);
        }
      case Replay(e) =>
        if ReplayDlqEntry(world.db, e).Ok? {
          ResumeKeepsTables(world.db, world.db.dlq[e].runId, world.db.dlq[e].nodeId);
        }
      case _ =>
    }
  }

  lemma {:induction false} ExecKeepsKeys(cfg: Config, world: World, actions: seq<Action>)
    requires Inv(world) && KeysOk(world)
    ensures KeysOk(Exec(cfg, world, actions))
    decreases |actions|
  {
    hide Inv;
    hide KeysOk;
    hide Apply;
    if actions != [] {
      var n := |actions| - 1;
      ExecKeepsKeys(cfg, world, actions[..n]);
      ExecKeepsInv(cfg, world, actions[..n]);
      StepKeepsKeys(cfg, Exec(cfg, world, actions[..n]), actions[n]);
    }
  }

  /**
   * However deliveries race, at most one run is ever created for a delivery key,
   * and every run that owns steps was created that way. A racing loser's bare
   * row owns none.
   */
  lemma OneRunPerDeliveryKey(cfg: Config, world: World)
    requires Reachable(cfg, world)
    ensures forall i, j | 0 <= i < j < |world.log| && world.log[i].CreatedRun? && world.log[j].CreatedRun? ::
      world.log[i].key.Some? ==> world.log[i].key != world.log[j].key
    ensures forall r :: r in world.db.runs && world.db.runs[r].steps != [] ==>
      exists i :: 0 <= i < |world.log| && world.log[i].CreatedRun? && world.log[i].runId == r
  {
    var now, n, actions :| world == Exec(cfg, Start(now, n), actions);
    StartInv(now, n);
    ExecKeepsKeys(cfg, Start(now, n), actions);
  }

  /** A delivery key that is taken names a run that exists and was created for that delivery. */
  lemma KeyNamesItsRun(cfg: Config, world: World, k: DeliveryKey)
    requires Reachable(cfg, world) && k in world.db.idempotency
    ensures world.db.idempotency[k] in world.db.runs
    ensures CreatedRun(world.db.idempotency[k], Some(k)) in world.log
  {
    var now, n, actions :| world == Exec(cfg, Start(now, n), actions);
    StartInv(now, n);
    assert KeysOk(Start(now, n));
    hide Inv;
    ExecKeepsKeys(cfg, Start(now, n), actions);
    assert CreatedFor(world, k);
    hide Exec;
  }

  /** The loser of a race leaves a queued run that owns no steps and was never scheduled. */
  lemma RaceLeavesBareRun()
    ensures var flow := FlowDefinition("f", "v", [FlowNode("a", "noop", true, None)], []);
      var input := CreateRunInput("t", flow, Some("k"), None);
      var first := CreateRun(Db(0, map[], map[], [], []), input, "r1", false).0;
      var (second, outcome) := CreateRun(first, input, "r2", true);
      && outcome == Deduplicated("r1")
      && "r2" in second.runs && second.runs["r2"].status.Queued? && second.runs["r2"].steps == []
      && |second.outbox| == 1 && second.outbox[0].runId == "r1"
  {
    var n := FlowNode("a", "noop", true, None);
    assert "r1" != "r2" by { assert "r1"[1] != "r2"[1]; }
    assert Idempotency.ValidIdentity(Idempotency.StepIdentity("r1", n.id, 0, 0));
    assert Insertable("r1", [n]);
  }
}
