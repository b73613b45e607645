// A claim under limits: blocked, taken or claimed, by what the tables hold.
module Claims {
  import opened Options
  import opened EngineTypes
  import opened EngineRows
  import opened EngineDb
  import opened World
  import opened Advancing

  /** The steps of the tenant that a worker holds under an unexpired lease. */
  ghost function HeldInTenant(db: Db, tenantId: string): set<(RunId, nat)> {
    set r, i: nat | r in db.runs && i < |db.runs[r].steps| && db.runs[r].tenantId == tenantId
      && db.runs[r].steps[i].status == StepStatus.Running && db.runs[r].steps[i].leaseExpiresAt.Some?
      && db.now < db.runs[r].steps[i].leaseExpiresAt.value :: (r, i)
  }

  ghost function HeldInFlow(db: Db, flowId: string): set<(RunId, nat)> {
    set r, i: nat | r in db.runs && i < |db.runs[r].steps| && db.runs[r].flowId == flowId
      && db.runs[r].steps[i].status == StepStatus.Running && db.runs[r].steps[i].leaseExpiresAt.Some?
      && db.now < db.runs[r].steps[i].leaseExpiresAt.value :: (r, i)
  }

  /** As many steps in flight as the limits allow, of the tenant or of the flow. */
  ghost predicate Full(cfg: Config, db: Db, run: Run) {
    && cfg.limits.Some?
    && (|| (cfg.limits.value.perTenant.Some? && |HeldInTenant(db, run.tenantId)| >= cfg.limits.value.perTenant.value)
        || (cfg.limits.value.perFlow.Some? && |HeldInFlow(db, run.flowId)| >= cfg.limits.value.perFlow.value))
  }

  predicate HeadClaims(world: World, w: WorkerId, r: RunId, i: nat) {
    && w < |world.workers| && world.workers[w].phase.Idle? && world.workers[w].batch != []
    && world.workers[w].batch[0].topic == RunStep(i) && world.workers[w].batch[0].runId == r
    && r in world.db.runs
  }

  lemma SameHeld(db: Db)
    ensures forall t :: LiveInTenant(db, t) == HeldInTenant(db, t)
    ensures forall f :: LiveInFlow(db, f) == HeldInFlow(db, f)
  {
  }

  lemma FullExactly(cfg: Config, db: Db, run: Run)
    ensures Full(cfg, db, run) <==> cfg.limits.Some? && OverLimit(db, run, cfg.limits.value)
  {
    SameHeld(db);
    hide LiveInTenant, LiveInFlow, HeldInTenant, HeldInFlow;
  }

  /**
   * A delivered run_step. At a ceiling the step is held back, whatever its row;
   * below both, a due row is claimed for leaseMs, and any other is left alone.
   */
  lemma ClaimExactly(cfg: Config, world: World, w: WorkerId, r: RunId, i: nat)
    requires HeadClaims(world, w, r, i)
    ensures var next, db, run := Apply(cfg, world, Process(w)), world.db, world.db.runs[r];
      var rest := world.workers[w].batch[1..];
      && next.effects == world.effects
      && (Full(cfg, db, run) ==>
            && next.db == db && next.log == world.log + [Consumed(r)]
            && next.workers == world.workers[w := Worker(rest, PuttingBack(r, i))])
      && (!Full(cfg, db, run) && i < |run.steps| && DueRow(run.steps[i], db.now) ==>
            var t := run.steps[i].(status := StepStatus.Running, workerId := Some(w),
                                   leaseExpiresAt := Some(db.now + cfg.leaseMs),
                                   attemptsStarted := run.steps[i].attemptsStarted + 1);
            && next.db == db.(runs := db.runs[r := run.(steps := run.steps[i := t])])
            && next.workers == world.workers[w := Worker(rest, Executing(r, i, t, false))]
            && next.log == world.log + [Consumed(r), ClaimedStep(r, i)])
      && (!Full(cfg, db, run) && !(i < |run.steps| && DueRow(run.steps[i], db.now)) ==>
            && next.db == db && next.log == world.log + [Consumed(r)]
            && next.workers == world.workers[w := Worker(rest, Idle)])
  {
    FullExactly(cfg, world.db, world.db.runs[r]);
    assert i < |world.db.runs[r].steps| ==>
      (Claimable(world.db.runs[r].steps[i], world.db.now) <==> DueRow(world.db.runs[r].steps[i], world.db.now));
    hide Full, OverLimit, Claimable, DueRow;
  }

  /** A step held back comes again, blockedRetryMs later, and nothing else has changed. */
  lemma BlockedComesAgain(cfg: Config, world: World, w: WorkerId, r: RunId, i: nat)
    requires HeadClaims(world, w, r, i) && Full(cfg, world.db, world.db.runs[r])
    ensures var back := Apply(cfg, Apply(cfg, world, Process(w)), PutBack(w));
      && back.db == world.db.(outbox := world.db.outbox + [Message(RunStep(i), r, world.db.now + cfg.blockedRetryMs)])
      && back.workers == world.workers[w := Worker(world.workers[w].batch[1..], Idle)]
  {
    ClaimExactly(cfg, world, w, r, i);
    hide Full, ApplyProcess;
  }
}
