// Unexpired leases never exceed the limits.
module Ceilings {
  import opened Options
  import opened ErrorClasses
  import opened EngineTypes
  import opened EngineRows
  import opened EngineDb
  import opened World
  import opened Interleavings
  import Backoff

  ghost predicate WithinLimits(db: Db, limits: ConcurrencyLimits) {
    && (limits.perTenant.Some? ==> forall t :: |LiveInTenant(db, t)| <= limits.perTenant.value)
    && (limits.perFlow.Some? ==> forall f :: |LiveInFlow(db, f)| <= limits.perFlow.value)
  }

  predicate SameOwner(a: Run, b: Run) {
    a.tenantId == b.tenantId && a.flowId == b.flowId
  }

  /** Every running row of b was running just so in a. */
  ghost predicate NoNewLease(a: Db, b: Db) {
    && a.now <= b.now
    && forall r, i: nat :: IsStep(b, r, i) && b.runs[r].steps[i].status.Running? ==>
         IsStep(a, r, i) && a.runs[r].steps[i] == b.runs[r].steps[i] && SameOwner(a.runs[r], b.runs[r])
  }

  lemma {:induction false} SubsetCard<T>(a: set<T>, b: set<T>)
    requires a <= b
    ensures |a| <= |b|
  {
    if x :| x in a {
      SubsetCard(a - {x}, b - {x});
    }
  }

  lemma LimitsFromNoNewLease(a: Db, b: Db, limits: ConcurrencyLimits)
    requires WithinLimits(a, limits) && NoNewLease(a, b)
    ensures WithinLimits(b, limits)
  {
    forall t
      ensures |LiveInTenant(b, t)| <= |LiveInTenant(a, t)|
    {
      SubsetCard(LiveInTenant(b, t), LiveInTenant(a, t));
    }
    forall f
      ensures |LiveInFlow(b, f)| <= |LiveInFlow(a, f)|
    {
      SubsetCard(LiveInFlow(b, f), LiveInFlow(a, f));
    }
  }

  lemma AddOneCard<T>(a: set<T>, b: set<T>, x: T)
    requires b <= a + {x}
    ensures |b| <= |a| + 1
  {
    SubsetCard(b, a + {x});
  }

  lemma ClaimLeases(db: Db, r: RunId, i: nat, w: WorkerId, leaseMs: nat, limits: ConcurrencyLimits)
    requires r in db.runs && WithinLimits(db, limits)
    ensures WithinLimits(ClaimStep(db, r, i, w, leaseMs, Some(limits)).0, limits)
  {
    var (db', res) := ClaimStep(db, r, i, w, leaseMs, Some(limits));
    if res.Claimed? {
      var run := db.runs[r];
      assert !OverLimit(db, run, limits);
      forall t
        ensures LiveInTenant(db', t) <= LiveInTenant(db, t) + if t == run.tenantId then {(r, i)} else {}
      {
      }
      forall f
        ensures LiveInFlow(db', f) <= LiveInFlow(db, f) + if f == run.flowId then {(r, i)} else {}
      {
      }
      forall t
        ensures limits.perTenant.Some? ==> |LiveInTenant(db', t)| <= limits.perTenant.value
      {
        if t == run.tenantId {
          AddOneCard(LiveInTenant(db, t), LiveInTenant(db', t), (r, i));
        } else {
          SubsetCard(LiveInTenant(db', t), LiveInTenant(db, t));
        }
      }
      forall f
        ensures limits.perFlow.Some? ==> |LiveInFlow(db', f)| <= limits.perFlow.value
      {
        if f == run.flowId {
          AddOneCard(LiveInFlow(db, f), LiveInFlow(db', f), (r, i));
        } else {
          SubsetCard(LiveInFlow(db', f), LiveInFlow(db, f));
        }
      }
    }
  }

  lemma AdvanceLeases(db: Db, r: RunId)
    ensures NoNewLease(db, Advance(db, r).0)
  {
    if r in db.runs {
      AdvanceKeepsSteps(db.runs[r], db.now);
      assert SameOwner(db.runs[r], AdvanceRow(db.runs[r], db.now).0);
    }
    hide AdvanceRow;
  }

  lemma RecordLeases(cfg: Config, world: World, w: WorkerId, outcome: Outcome, draw: Backoff.Draw)
    ensures NoNewLease(world.db, ApplyRecord(cfg, world, w, outcome, draw).db)
  {
    if w < |world.workers| && world.workers[w].phase.Executing? {
      RecordedLeases(cfg, world.db, w, world.workers[w].phase, outcome, draw);
    }
    hide RecordInto;
  }

  lemma RecordedLeases(cfg: Config, db: Db, w: WorkerId, p: Phase, outcome: Outcome, draw: Backoff.Draw)
    requires p.Executing?
    ensures NoNewLease(db, RecordInto(cfg, db, w, p, outcome, draw))
  {
    DecidedStatus(p.row, draw, db.now, cfg.policy);
    hide AbandonedBy, DecideFailure, NoNewLease, RecordSuccess, RecordFailure;
    forall output, abandoned
      ensures NoNewLease(db, RecordSuccess(db, p.runId, p.step, w, output, abandoned).0)
    {
      SuccessLeases(db, p.runId, p.step, w, output, abandoned);
    }
    forall rec: FailureRecord | rec.status.Failed? || rec.status.WaitingConfirmation?
      ensures NoNewLease(db, RecordFailure(db, p.runId, p.step, w, rec).0)
    {
      FailureLeases(db, p.runId, p.step, w, rec);
    }
  }

  lemma SuccessLeases(db: Db, r: RunId, i: nat, w: WorkerId, output: Option<Output>, abandoned: set<NodeId>)
    ensures NoNewLease(db, RecordSuccess(db, r, i, w, output, abandoned).0)
  {
  }

  lemma FailureLeases(db: Db, r: RunId, i: nat, w: WorkerId, rec: FailureRecord)
    requires rec.status.Failed? || rec.status.WaitingConfirmation?
    ensures NoNewLease(db, RecordFailure(db, r, i, w, rec).0)
  {
  }

  /** A recorded failure never leaves the row running. */
  lemma DecidedStatus(row: StepRow, draw: Backoff.Draw, now: int, policy: Backoff.BackoffPolicy)
    ensures forall c, idem, asked ::
      var rec := DecideFailure(row, c, idem, asked, draw, now, policy);
      rec.status.Failed? || rec.status.WaitingConfirmation?
  {
  }

  lemma ResumeLeases(db: Db, r: RunId, n: NodeId)
    requires Resume(db, r, n).Ok?
    ensures NoNewLease(db, Resume(db, r, n).value)
  {
  }

  lemma CreateLeases(db: Db, input: CreateRunInput, newId: RunId, raced: bool)
    ensures NoNewLease(db, CreateRun(db, input, newId, raced).0)
  {
    hide Insertable;
  }

  lemma ProcessKeepsLimits(cfg: Config, world: World, w: WorkerId)
    requires cfg.limits.Some? && WithinLimits(world.db, cfg.limits.value)
    ensures WithinLimits(ApplyProcess(cfg, world, w).db, cfg.limits.value)
  {
    hide WithinLimits;
    hide Advance;
    hide ClaimStep;
    hide NoNewLease;
    if w < |world.workers| && world.workers[w].phase.Idle? && world.workers[w].batch != [] {
      var m := world.workers[w].batch[0];
      if m.topic.AdvanceRun? {
        AdvanceLeases(world.db, m.runId);
        LimitsFromNoNewLease(world.db, Advance(world.db, m.runId).0, cfg.limits.value);
      } else if m.runId in world.db.runs {
        ClaimLeases(world.db, m.runId, m.topic.step, w, cfg.leaseMs, cfg.limits.value);
      }
    }
  }

  lemma QuietNoNewLease(cfg: Config, world: World, a: Action)
    requires !a.Create? && !a.Process? && !a.Record? && !a.ResumeFrom? && !a.Replay?
    ensures NoNewLease(world.db, Apply(cfg, world, a).db)
  {
    hide SweepChoice;
  }

  lemma StepNoNewLease(cfg: Config, world: World, a: Action)
    requires !a.Process?
    ensures NoNewLease(world.db, Apply(cfg, world, a).db)
  {
    hide NoNewLease, ApplyRecord, Resume;
    match a {
      case Create(input, newId, raced) => CreateLeases(world.db, input, newId, raced);
      case Record(w, outcome, draw) => RecordLeases(cfg, world, w, outcome, draw);
      case ResumeFrom(r, n) =>
        if Resume(world.db, r, n).Ok? {
          ResumeLeases(world.db, r, n);
        } else {
          SameNoNewLease(world.db);
        }
      case Replay(e) => ReplayLeases(world.db, e);
      case _ => QuietNoNewLease(cfg, world, a);
    }
  }

  lemma SameNoNewLease(db: Db)
    ensures NoNewLease(db, db)
  {
  }

  lemma ReplayLeases(db: Db, e: nat)
    ensures NoNewLease(db, match ReplayDlqEntry(db, e) case Ok(db') => db' case Err(_) => db)
  {
    hide Resume;
    if ReplayDlqEntry(db, e).Ok? {
      ResumeLeases(db, db.dlq[e].runId, db.dlq[e].nodeId);
    }
  }

  lemma StepKeepsLimits(cfg: Config, world: World, a: Action)
    requires cfg.limits.Some? && WithinLimits(world.db, cfg.limits.value)
    ensures WithinLimits(Apply(cfg, world, a).db, cfg.limits.value)
  {
    if a.Process? {
      ProcessKeepsLimits(cfg, world, a.w);
      hide WithinLimits;
    } else {
      hide *;
      StepNoNewLease(cfg, world, a);
      LimitsFromNoNewLease(world.db, Apply(cfg, world, a).db, cfg.limits.value);
    }
  }

  /**
   * With the same limits on every worker, live leases stay within them in every
   * reachable state of serial transactions. The source's advisory lock is per
   * tenant while perFlow counts across tenants, so two tenants' claims of one
   * flow are serial only by that assumption.
   */
  lemma {:induction false} CeilingsHold(cfg: Config, now: int, n: nat, actions: seq<Action>)
    requires cfg.limits.Some?
    ensures WithinLimits(Exec(cfg, Start(now, n), actions).db, cfg.limits.value)
    decreases |actions|
  {
    var k := |actions| - 1;
    if actions == [] {
      assert forall t :: LiveInTenant(Start(now, n).db, t) == {};
      assert forall f :: LiveInFlow(Start(now, n).db, f) == {};
    } else {
      hide WithinLimits;
      hide Apply;
      CeilingsHold(cfg, now, n, actions[..k]);
      StepKeepsLimits(cfg, Exec(cfg, Start(now, n), actions[..k]), actions[k]);
    }
  }
}
