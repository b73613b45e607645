// A requested cancel and a passed deadline end a run, whatever happens meanwhile.
module Stopping {
  import opened Options
  import opened ErrorClasses
  import opened EngineTypes
  import opened EngineRows
  import opened EngineDb
  import opened World
  import opened Advancing
  import Backoff

  /** Somebody resumes the run, from a step or from one of its dead letters. */
  predicate Revives(world: World, a: Action, r: RunId) {
    || (a.ResumeFrom? && a.runId == r)
    || (a.Replay? && a.entry < |world.db.dlq| && world.db.dlq[a.entry].runId == r)
  }

  ghost predicate NeverRevived(cfg: Config, world: World, actions: seq<Action>, r: RunId)
    decreases |actions|
  {
    actions == [] ||
    (var n := |actions| - 1;
     NeverRevived(cfg, world, actions[..n], r) && !Revives(Exec(cfg, world, actions[..n]), actions[n], r))
  }

  predicate HeadAdvances(world: World, w: WorkerId, r: RunId) {
    && w < |world.workers| && world.workers[w].phase.Idle? && world.workers[w].batch != []
    && world.workers[w].batch[0].topic.AdvanceRun? && world.workers[w].batch[0].runId == r
  }

  // ---- what one action does to one run's columns ----

  /** The columns an advance reads before it looks at the rows. */
  predicate SameColumns(a: Db, b: Db, r: RunId) {
    && r in a.runs && r in b.runs
    && b.runs[r].status == a.runs[r].status && b.runs[r].cancelRequestedAt == a.runs[r].cancelRequestedAt
    && b.runs[r].deadlineAt == a.runs[r].deadlineAt && b.runs[r].errorClass == a.runs[r].errorClass
    && a.now <= b.now
  }

  /** Messages that start a step of run r are old. */
  predicate NoNewStart(a: Db, b: Db, r: RunId) {
    forall m :: m in b.outbox && m.runId == r && m.topic.RunStep? ==> m in a.outbox
  }

  lemma RecordKeepsColumns(cfg: Config, world: World, w: WorkerId, outcome: Outcome, draw: Backoff.Draw, r: RunId)
    requires r in world.db.runs
    ensures SameColumns(world.db, ApplyRecord(cfg, world, w, outcome, draw).db, r)
    ensures NoNewStart(world.db, ApplyRecord(cfg, world, w, outcome, draw).db, r)
  {
    hide AbandonedBy, DecideFailure, MarkSkipped, OwnedBy;
  }

  lemma OtherAdvance(db: Db, q: RunId, r: RunId)
    requires r in db.runs && q != r
    ensures SameColumns(db, Advance(db, q).0, r) && NoNewStart(db, Advance(db, q).0, r)
  {
    hide AdvanceRow;
  }

  lemma ClaimKeepsColumns(cfg: Config, world: World, w: WorkerId, q: RunId, i: nat, r: RunId)
    requires w < |world.workers| && r in world.db.runs
    ensures SameColumns(world.db, ApplyClaim(cfg, world, w, q, i).db, r)
    ensures NoNewStart(world.db, ApplyClaim(cfg, world, w, q, i).db, r)
  {
    hide OverLimit, Claimable;
  }

  lemma ProcessKeepsColumns(cfg: Config, world: World, w: WorkerId, r: RunId)
    requires r in world.db.runs && !HeadAdvances(world, w, r)
    ensures SameColumns(world.db, ApplyProcess(cfg, world, w).db, r)
    ensures NoNewStart(world.db, ApplyProcess(cfg, world, w).db, r)
  {
    hide Advance, ApplyClaim, SameColumns, NoNewStart;
    SameDb(world.db, r);
    if w < |world.workers| && world.workers[w].phase.Idle? && world.workers[w].batch != [] {
      var m := world.workers[w].batch[0];
      var taken := PutWorker(world, w, Worker(world.workers[w].batch[1..], Idle))
        .(log := world.log + [Consumed(m.runId)]);
      match m.topic {
        case AdvanceRun => OtherAdvance(world.db, m.runId, r);
        case RunStep(i) => ClaimKeepsColumns(cfg, taken, w, m.runId, i, r);
      }
    }
  }

  lemma SameDb(db: Db, r: RunId)
    requires r in db.runs
    ensures SameColumns(db, db, r) && NoNewStart(db, db, r)
  {
  }

  lemma CreateKeepsColumns(world: World, input: CreateRunInput, newId: RunId, raced: bool, r: RunId)
    requires r in world.db.runs
    ensures SameColumns(world.db, ApplyCreate(world, input, newId, raced).db, r)
    ensures NoNewStart(world.db, ApplyCreate(world, input, newId, raced).db, r)
  {
    hide Insertable, FreshRows;
  }

  lemma SweepKeepsColumns(db: Db, chosen: seq<RunId>, r: RunId)
    requires r in db.runs
    ensures SameColumns(db, Sweep(db, chosen), r) && NoNewStart(db, Sweep(db, chosen), r)
  {
  }

  lemma ResumeKeepsColumns(db: Db, q: RunId, n: NodeId, r: RunId)
    requires r in db.runs && q != r && Resume(db, q, n).Ok?
    ensures SameColumns(db, Resume(db, q, n).value, r) && NoNewStart(db, Resume(db, q, n).value, r)
  {
  }

  lemma ReplayKeepsColumns(db: Db, e: nat, r: RunId)
    requires r in db.runs && ReplayDlqEntry(db, e).Ok? && db.dlq[e].runId != r
    ensures SameColumns(db, ReplayDlqEntry(db, e).value, r) && NoNewStart(db, ReplayDlqEntry(db, e).value, r)
  {
    ResumeKeepsColumns(db, db.dlq[e].runId, db.dlq[e].nodeId, r);
    hide Resume;
  }

  lemma QueueKeepsColumns(cfg: Config, world: World, a: Action, r: RunId)
    requires r in world.db.runs && (a.Relay? || a.LoseMessage? || a.DuplicateMessage? || a.PutBack?)
    ensures SameColumns(world.db, Apply(cfg, world, a).db, r)
    ensures !a.PutBack? ==> NoNewStart(world.db, Apply(cfg, world, a).db, r)
  {
  }

  /** Everything but an advance, a cancel or a revival of the run itself. */
  lemma OthersKeepColumns(cfg: Config, world: World, a: Action, r: RunId)
    requires r in world.db.runs && !Revives(world, a, r) && !(a.Cancel? && a.runId == r)
    requires !(a.Process? && HeadAdvances(world, a.w, r))
    ensures SameColumns(world.db, Apply(cfg, world, a).db, r)
    ensures !a.PutBack? ==> NoNewStart(world.db, Apply(cfg, world, a).db, r)
  {
    hide ApplyProcess, ApplyRecord, ApplyCreate, SweepChoice, Sweep, Resume, ReplayDlqEntry, SameColumns, NoNewStart;
    SameDb(world.db, r);
    match a {
      case Create(input, newId, raced) => CreateKeepsColumns(world, input, newId, raced, r);
      case Relay(_, _) => QueueKeepsColumns(cfg, world, a, r);
      case Process(w) => ProcessKeepsColumns(cfg, world, w, r);
      case PutBack(_) => QueueKeepsColumns(cfg, world, a, r);
      case Effect(_) =>
      case Record(w, outcome, draw) => RecordKeepsColumns(cfg, world, w, outcome, draw, r);
      case Crash(_) =>
      case SweepRuns(chosen) => SweepKeepsColumns(world.db, chosen, r);
      case LoseMessage(_) => QueueKeepsColumns(cfg, world, a, r);
      case DuplicateMessage(_) => QueueKeepsColumns(cfg, world, a, r);
      case Cancel(q) => CancelKeepsColumns(world.db, q, r);
      case ResumeFrom(q, n) =>
        if Resume(world.db, q, n).Ok? {
          ResumeKeepsColumns(world.db, q, n, r);
        }
      case Replay(e) =>
        if ReplayDlqEntry(world.db, e).Ok? {
          EntryKnown(world.db, e);
          ReplayKeepsColumns(world.db, e, r);
        }
      case Tick(ms) => TickKeepsColumns(world.db, ms, r);
    }
  }

  lemma CancelKeepsColumns(db: Db, q: RunId, r: RunId)
    requires r in db.runs && q != r
    ensures SameColumns(db, RequestCancel(db, q).0, r) && NoNewStart(db, RequestCancel(db, q).0, r)
  {
  }

  lemma TickKeepsColumns(db: Db, ms: nat, r: RunId)
    requires r in db.runs
    ensures SameColumns(db, db.(now := db.now + ms), r) && NoNewStart(db, db.(now := db.now + ms), r)
  {
  }

  lemma EntryKnown(db: Db, e: nat)
    requires ReplayDlqEntry(db, e).Ok?
    ensures e < |db.dlq|
  {
  }

  // ---- a requested cancel ----

  /** Asked to stop and not yet stopped, or stopped for it. */
  predicate Cancelling(db: Db, r: RunId) {
    r in db.runs
    && (db.runs[r].status.Cancelled? || (!IsTerminal(db.runs[r].status) && db.runs[r].cancelRequestedAt.Some?))
  }

  lemma CancelledAdvance(db: Db, r: RunId)
    requires Cancelling(db, r)
    ensures var db' := Advance(db, r).0;
      r in db'.runs && db'.runs[r].status.Cancelled? && db'.outbox == db.outbox
  {
    if IsTerminal(db.runs[r].status) {
      StoppedRunStays(db, r);
    } else {
      AdvanceCancels(db, r);
    }
    hide Advance;
  }

  lemma ProcessCancels(cfg: Config, world: World, w: WorkerId, r: RunId)
    requires Cancelling(world.db, r) && HeadAdvances(world, w, r)
    ensures var next := Apply(cfg, world, Process(w));
      && r in next.db.runs && next.db.runs[r].status.Cancelled? && next.db.outbox == world.db.outbox
  {
    CancelledAdvance(world.db, r);
    hide Advance;
  }

  /** Asking again, late or early, changes nothing of this. */
  lemma StepKeepsCancelling(cfg: Config, world: World, a: Action, r: RunId)
    requires Cancelling(world.db, r) && !Revives(world, a, r)
    ensures Cancelling(Apply(cfg, world, a).db, r)
    ensures !a.PutBack? ==> NoNewStart(world.db, Apply(cfg, world, a).db, r)
  {
    if a.Process? && HeadAdvances(world, a.w, r) {
      ProcessCancels(cfg, world, a.w, r);
      hide Apply;
    } else if !(a.Cancel? && a.runId == r) {
      OthersKeepColumns(cfg, world, a, r);
      hide Apply;
    }
  }

  lemma {:induction false} ExecKeepsCancelling(cfg: Config, world: World, actions: seq<Action>, r: RunId)
    requires Cancelling(world.db, r) && NeverRevived(cfg, world, actions, r)
    ensures Cancelling(Exec(cfg, world, actions).db, r)
    decreases |actions|
  {
    hide Apply;
    if actions != [] {
      var n := |actions| - 1;
      ExecKeepsCancelling(cfg, world, actions[..n], r);
      StepKeepsCancelling(cfg, Exec(cfg, world, actions[..n]), actions[n], r);
    }
  }

  /**
   * Once a cancel was asked of a run that had not ended: whatever crashes, is
   * lost, repeated, swept or recorded before, the first advance of it that is
   * processed leaves it cancelled and sends nothing, and it stays cancelled.
   */
  lemma CancelStops(cfg: Config, world: World, r: RunId, before: seq<Action>, w: WorkerId, after: seq<Action>)
    requires r in world.db.runs && !IsTerminal(world.db.runs[r].status)
    requires NeverRevived(cfg, Apply(cfg, world, Cancel(r)), before, r)
    requires HeadAdvances(Exec(cfg, Apply(cfg, world, Cancel(r)), before), w, r)
    ensures var reached := Exec(cfg, Apply(cfg, world, Cancel(r)), before);
      var next := Apply(cfg, reached, Process(w));
      && r in next.db.runs && next.db.runs[r].status.Cancelled? && next.db.outbox == reached.db.outbox
      && (NeverRevived(cfg, next, after, r) ==>
            r in Exec(cfg, next, after).db.runs && Exec(cfg, next, after).db.runs[r].status.Cancelled?)
  {
    var asked := Apply(cfg, world, Cancel(r));
    assert Cancelling(asked.db, r);
    hide Apply, Exec, NeverRevived;
    ExecKeepsCancelling(cfg, asked, before, r);
    var reached := Exec(cfg, asked, before);
    ProcessCancels(cfg, reached, w, r);
    var next := Apply(cfg, reached, Process(w));
    if NeverRevived(cfg, next, after, r) {
      ExecKeepsCancelled(cfg, next, after, r);
    }
  }

  lemma {:induction false} ExecKeepsCancelled(cfg: Config, world: World, actions: seq<Action>, r: RunId)
    requires r in world.db.runs && world.db.runs[r].status.Cancelled? && NeverRevived(cfg, world, actions, r)
    ensures var last := Exec(cfg, world, actions); r in last.db.runs && last.db.runs[r].status.Cancelled?
    decreases |actions|
  {
    hide Apply;
    if actions != [] {
      var n := |actions| - 1;
      ExecKeepsCancelled(cfg, world, actions[..n], r);
      StepKeepsStatus(cfg, Exec(cfg, world, actions[..n]), actions[n], r);
    }
  }

  /** An ended run keeps its status until it is revived. */
  lemma StepKeepsStatus(cfg: Config, world: World, a: Action, r: RunId)
    requires r in world.db.runs && IsTerminal(world.db.runs[r].status) && !Revives(world, a, r)
    ensures var next := Apply(cfg, world, a);
      && r in next.db.runs && next.db.runs[r].status == world.db.runs[r].status
      && next.db.runs[r].errorClass == world.db.runs[r].errorClass
  {
    if a.Process? && HeadAdvances(world, a.w, r) {
      StoppedRunStays(world.db, r);
      hide Advance;
    } else if !(a.Cancel? && a.runId == r) {
      OthersKeepColumns(cfg, world, a, r);
      hide Apply;
    }
  }

  // ---- a passed deadline ----

  predicate Expiring(db: Db, r: RunId) {
    && r in db.runs
    && var run := db.runs[r];
    || (run.status.TimedOut? && run.errorClass == Some(Timeout))
    || (!IsTerminal(run.status) && run.cancelRequestedAt.None? && Advancing.Overdue(run, db.now))
  }

  predicate AsksCancel(actions: seq<Action>, r: RunId) {
    exists a :: a in actions && a.Cancel? && a.runId == r
  }

  lemma ProcessTimesOut(cfg: Config, world: World, w: WorkerId, r: RunId)
    requires Expiring(world.db, r) && HeadAdvances(world, w, r)
    ensures var next := Apply(cfg, world, Process(w));
      && r in next.db.runs && next.db.runs[r].status.TimedOut? && next.db.runs[r].errorClass == Some(Timeout)
      && next.db.outbox == world.db.outbox
  {
    if IsTerminal(world.db.runs[r].status) {
      StoppedRunStays(world.db, r);
    } else {
      AdvanceTimesOut(world.db, r);
    }
    hide Advance;
  }

  lemma StepKeepsExpiring(cfg: Config, world: World, a: Action, r: RunId)
    requires Expiring(world.db, r) && !Revives(world, a, r) && !(a.Cancel? && a.runId == r)
    ensures Expiring(Apply(cfg, world, a).db, r)
  {
    if a.Process? && HeadAdvances(world, a.w, r) {
      ProcessTimesOut(cfg, world, a.w, r);
    } else {
      OthersKeepColumns(cfg, world, a, r);
    }
    hide Apply;
  }

  lemma {:induction false} ExecKeepsExpiring(cfg: Config, world: World, actions: seq<Action>, r: RunId)
    requires Expiring(world.db, r) && NeverRevived(cfg, world, actions, r) && !AsksCancel(actions, r)
    ensures Expiring(Exec(cfg, world, actions).db, r)
    decreases |actions|
  {
    hide Apply;
    if actions != [] {
      var n := |actions| - 1;
      assert forall a :: a in actions[..n] ==> a in actions;
      ExecKeepsExpiring(cfg, world, actions[..n], r);
      assert actions[n] in actions;
      StepKeepsExpiring(cfg, Exec(cfg, world, actions[..n]), actions[n], r);
    }
  }

  /** A run whose deadline has passed, and nobody cancels: its next advance, whenever it comes, times it out. */
  lemma DeadlineStops(cfg: Config, world: World, r: RunId, before: seq<Action>, w: WorkerId)
    requires r in world.db.runs && !IsTerminal(world.db.runs[r].status)
    requires world.db.runs[r].cancelRequestedAt.None? && Advancing.Overdue(world.db.runs[r], world.db.now)
    requires NeverRevived(cfg, world, before, r) && !AsksCancel(before, r)
    requires HeadAdvances(Exec(cfg, world, before), w, r)
    ensures var next := Apply(cfg, Exec(cfg, world, before), Process(w));
      && r in next.db.runs && next.db.runs[r].status.TimedOut? && next.db.runs[r].errorClass == Some(Timeout)
      && next.db.outbox == Exec(cfg, world, before).db.outbox
  {
    hide Apply, Exec, NeverRevived, AsksCancel;
    ExecKeepsExpiring(cfg, world, before, r);
    ProcessTimesOut(cfg, Exec(cfg, world, before), w, r);
  }
}
