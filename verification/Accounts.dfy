// How many messages a run can consume: two per attempt that is left, and one.
module Accounts {
  import opened Options
  import opened ErrorClasses
  import opened EngineTypes
  import opened EngineRows
  import opened EngineDb
  import opened World
  import opened RowInvariants
  import opened Safety
  import opened TokenDiscipline
  import opened TokenSteps
  import opened TokenGuarantees
  import opened Budgets
  import opened TokenMoves
  import Backoff

  function Spent(log: seq<Event>, r: RunId): nat {
    if log == [] then 0
    else Spent(log[..|log| - 1], r) + if log[|log| - 1] == Consumed(r) then 1 else 0
  }

  lemma SpentSnoc(log: seq<Event>, e: Event, r: RunId)
    ensures Spent(log + [e], r) == Spent(log, r) + if e == Consumed(r) then 1 else 0
  {
    assert (log + [e])[..|log|] == log;
  }

  lemma SpentProcess(cfg: Config, world: World, w: WorkerId, q: RunId)
    requires w < |world.workers| && world.workers[w].phase.Idle? && world.workers[w].batch != []
    ensures Spent(ApplyProcess(cfg, world, w).log, q)
         == Spent(world.log, q) + if q == world.workers[w].batch[0].runId then 1 else 0
  {
    var m := world.workers[w].batch[0];
    hide Advance;
    hide ClaimStep;
    SpentSnoc(world.log, Consumed(m.runId), q);
    if m.topic.RunStep? {
      SpentSnoc(world.log + [Consumed(m.runId)], ClaimedStep(m.runId, m.topic.step), q);
    }
  }

  // ---- what a message or a holder may still cost its run ----

  /** Consumed so far, plus `ahead`, plus two per remaining attempt, within the cap. */
  predicate Paid(world: World, r: RunId, ahead: int, cap: int) {
    r in world.db.runs && Spent(world.log, r) + ahead + 2 * SumBudget(world.db.runs[r].steps) <= cap
  }

  function Ahead(m: Message): int {
    if m.topic.AdvanceRun? then 1 else 0
  }

  predicate PhasePaid(world: World, r: RunId, p: Phase, cap: int) {
    Holds(p, r) ==> Paid(world, r, if p.Executing? then -1 else 0, cap)
  }

  ghost predicate TokensPaid(world: World, r: RunId, cap: int) {
    && (forall m :: m in world.db.outbox && m.runId == r ==> Paid(world, r, Ahead(m), cap))
    && (forall w, m {:trigger m in world.workers[w].batch} ::
          0 <= w < |world.workers| && m in world.workers[w].batch && m.runId == r ==> Paid(world, r, Ahead(m), cap))
    && (forall w :: 0 <= w < |world.workers| ==> PhasePaid(world, r, world.workers[w].phase, cap))
  }

  /** In attempt group g the ceilings add up to c and the messages stay within the cap. */
  datatype Account = Account(group: nat, c: nat, cap: int)

  /** A resume of r opens the next group, and with it leaves the account behind. */
  ghost predicate AccountOk(world: World, r: RunId, acc: Account) {
    && r in world.db.runs
    && world.db.runs[r].attemptGroup >= acc.group
    && (world.db.runs[r].attemptGroup == acc.group ==>
          && SumCeiling(world.db.runs[r].steps) == acc.c
          && Spent(world.log, r) <= acc.cap && TokensPaid(world, r, acc.cap))
  }

  // ---- what other runs do ----

  predicate SameRun(a: World, b: World, r: RunId) {
    && r in a.db.runs && r in b.db.runs
    && b.db.runs[r].steps == a.db.runs[r].steps && b.db.runs[r].attemptGroup == a.db.runs[r].attemptGroup
    && Spent(b.log, r) == Spent(a.log, r)
  }

  predicate SameHolds(p: Phase, q: Phase, r: RunId) {
    Holds(q, r) ==> Holds(p, r) && (p.Executing? <==> q.Executing?)
  }

  /** Run r as before, and no token of it that was not there. */
  ghost predicate Unmoved(a: World, b: World, r: RunId) {
    && SameRun(a, b, r)
    && |a.workers| == |b.workers|
    && (forall m :: m in b.db.outbox && m.runId == r ==> m in a.db.outbox)
    && (forall w, m {:trigger m in b.workers[w].batch} ::
          0 <= w < |b.workers| && m in b.workers[w].batch && m.runId == r ==>
            m in a.workers[w].batch || m in a.db.outbox)
    && (forall w :: 0 <= w < |b.workers| ==> SameHolds(a.workers[w].phase, b.workers[w].phase, r))
  }

  lemma UnmovedAccount(a: World, b: World, r: RunId, acc: Account)
    requires AccountOk(a, r, acc) && Unmoved(a, b, r)
    ensures AccountOk(b, r, acc)
  {
    hide SumBudget;
    hide SumCeiling;
    hide Spent;
    if b.db.runs[r].attemptGroup == acc.group {
      assert forall ahead: int :: Paid(a, r, ahead, acc.cap) ==> Paid(b, r, ahead, acc.cap);
      forall w | 0 <= w < |b.workers|
        ensures PhasePaid(b, r, b.workers[w].phase, acc.cap)
      {
        assert PhasePaid(a, r, a.workers[w].phase, acc.cap) && SameHolds(a.workers[w].phase, b.workers[w].phase, r);
      }
    }
  }

  /** The outbox as before, or with one more message of run q. */
  predicate OutboxOf(a: seq<Message>, b: seq<Message>, q: RunId) {
    b == a || (|b| == |a| + 1 && b[..|a|] == a && b[|a|].runId == q)
  }

  /** Worker w works on run q: its phase is q's or nothing, its batch has nothing new. */
  predicate WorkedOn(a: seq<Worker>, b: seq<Worker>, w: WorkerId, q: RunId) {
    && w < |a| && |b| == |a| && b == a[w := b[w]]
    && (b[w].phase.Idle? || b[w].phase.runId == q)
    && (forall m :: m in b[w].batch ==> m in a[w].batch)
  }

  lemma OtherMoves(a: World, b: World, w: WorkerId, q: RunId, r: RunId)
    requires q != r && r in a.db.runs && RewroteRun(a, b, q) && Spent(b.log, r) == Spent(a.log, r)
    requires OutboxOf(a.db.outbox, b.db.outbox, q) && WorkedOn(a.workers, b.workers, w, q)
    ensures Unmoved(a, b, r)
  {
    hide Spent;
  }

  // ---- the moves of run r's own token ----

  /** The token of r went from world `taken` into one message of b. */
  lemma MessageAccount(taken: World, b: World, r: RunId, m: Message, acc: Account)
    requires NoneFor(taken, r) && b.workers == taken.workers && Appended(taken.db.outbox, b.db.outbox, m)
      && m.runId == r
    requires r in b.db.runs && b.db.runs[r].attemptGroup >= acc.group
    requires b.db.runs[r].attemptGroup == acc.group ==>
      SumCeiling(b.db.runs[r].steps) == acc.c && Spent(b.log, r) <= acc.cap && Paid(b, r, Ahead(m), acc.cap)
    ensures AccountOk(b, r, acc)
  {
    hide SumBudget;
    hide SumCeiling;
    hide Spent;
    hide Paid;
  }

  /** The token of r is gone. */
  lemma GoneAccount(taken: World, b: World, r: RunId, acc: Account)
    requires NoneFor(taken, r) && b.workers == taken.workers && b.db.outbox == taken.db.outbox
    requires r in b.db.runs && b.db.runs[r].attemptGroup >= acc.group
    requires b.db.runs[r].attemptGroup == acc.group ==>
      SumCeiling(b.db.runs[r].steps) == acc.c && Spent(b.log, r) <= acc.cap
    ensures AccountOk(b, r, acc)
  {
    hide SumBudget;
    hide SumCeiling;
    hide Spent;
  }

  /** Idle worker w now executes run r. */
  lemma HeldAccount(taken: World, b: World, r: RunId, w: WorkerId, p: Phase, acc: Account)
    requires NoneFor(taken, r) && b.db.outbox == taken.db.outbox
    requires w < |taken.workers| && b.workers == taken.workers[w := taken.workers[w].(phase := p)]
    requires p.Executing? && p.runId == r
    requires r in b.db.runs && b.db.runs[r].attemptGroup >= acc.group
    requires b.db.runs[r].attemptGroup == acc.group ==>
      SumCeiling(b.db.runs[r].steps) == acc.c && Spent(b.log, r) <= acc.cap && Paid(b, r, -1, acc.cap)
    ensures AccountOk(b, r, acc)
  {
    hide SumBudget;
    hide SumCeiling;
    hide Spent;
    hide Paid;
    if b.db.runs[r].attemptGroup == acc.group {
      forall x | 0 <= x < |b.workers|
        ensures PhasePaid(b, r, b.workers[x].phase, acc.cap)
      {
        assert x != w ==> b.workers[x] == taken.workers[x] && !Holds(taken.workers[x].phase, r);
      }
      forall x, m | 0 <= x < |b.workers| && m in b.workers[x].batch
        ensures m.runId != r
      {
        assert m in taken.workers[x].batch;
      }
    }
  }

  /** What worker w is about to process, or holds, is paid for. */
  lemma HeadPaid(world: World, w: WorkerId, acc: Account)
    requires HasHead(world, w) && AccountOk(world, world.workers[w].batch[0].runId, acc)
    ensures var m := world.workers[w].batch[0];
      world.db.runs[m.runId].attemptGroup == acc.group ==> Paid(world, m.runId, Ahead(m), acc.cap)
  {
    hide Paid;
    assert world.workers[w].batch[0] in world.workers[w].batch;
  }

  lemma HolderPaid(world: World, w: WorkerId, acc: Account)
    requires w < |world.workers| && !world.workers[w].phase.Idle? && AccountOk(world, world.workers[w].phase.runId, acc)
    ensures var p := world.workers[w].phase;
      world.db.runs[p.runId].attemptGroup == acc.group ==> Paid(world, p.runId, if p.Executing? then -1 else 0, acc.cap)
  {
    hide Paid;
    var p := world.workers[w].phase;
    if world.db.runs[p.runId].attemptGroup == acc.group {
      assert PhasePaid(world, p.runId, p, acc.cap);
    }
  }

  ghost predicate AccountBasics(world: World, r: RunId, acc: Account) {
    && r in world.db.runs && world.db.runs[r].attemptGroup >= acc.group
    && (world.db.runs[r].attemptGroup == acc.group ==>
          SumCeiling(world.db.runs[r].steps) == acc.c && Spent(world.log, r) <= acc.cap)
  }

  lemma Basics(world: World, r: RunId, acc: Account)
    requires AccountOk(world, r, acc)
    ensures AccountBasics(world, r, acc)
  {
  }

  /** The facts of an advance of run r are enough. */
  lemma OwnAdvance(world: World, w: WorkerId, next: World, acc: Account)
    requires HasHead(world, w)
    requires var m := world.workers[w].batch[0];
      var r := m.runId;
      && m.topic.AdvanceRun? && NoneFor(Unbatched(world, w), r)
      && next.workers == Unbatched(world, w).workers
      && RewroteRun(world, next, r) && next.db.runs[r].steps == world.db.runs[r].steps
      && AdvanceSent(world, next, r)
      && Spent(next.log, r) == Spent(world.log, r) + 1
      && AccountOk(world, r, acc)
    ensures AccountOk(next, world.workers[w].batch[0].runId, acc)
  {
    var r := world.workers[w].batch[0].runId;
    HeadPaid(world, w, acc);
    Basics(world, r, acc);
    hide AccountOk;
    hide NoneFor;
    hide SumBudget;
    hide SumCeiling;
    hide Spent;
    if i :| Appended(world.db.outbox, next.db.outbox, Message(RunStep(i), r, world.db.now)) {
      MessageAccount(Unbatched(world, w), next, r, Message(RunStep(i), r, world.db.now), acc);
    } else {
      GoneAccount(Unbatched(world, w), next, r, acc);
    }
  }

  lemma AdvanceAccount(cfg: Config, world: World, w: WorkerId, r: RunId, acc: Account)
    requires Sound(world) && AccountOk(world, r, acc)
    requires HasHead(world, w) && world.workers[w].batch[0].topic.AdvanceRun?
    ensures AccountOk(ApplyProcess(cfg, world, w), r, acc)
  {
    var m := world.workers[w].batch[0];
    var next := ApplyProcess(cfg, world, w);
    HeadFacts(world, w);
    AdvanceMove(cfg, world, w);
    SpentProcess(cfg, world, w, r);
    Basics(world, r, acc);
    hide *;
    if m.runId != r {
      AdvanceElsewhere(world, w, next);
      OtherMoves(world, next, w, m.runId, r);
      UnmovedAccount(world, next, r, acc);
    } else {
      OwnAdvance(world, w, next, acc);
    }
  }

  lemma AdvanceElsewhere(world: World, w: WorkerId, next: World)
    requires HasHead(world, w)
    requires var r := world.workers[w].batch[0].runId;
      && next.workers == Unbatched(world, w).workers
      && AdvanceSent(world, next, r)
    ensures OutboxOf(world.db.outbox, next.db.outbox, world.workers[w].batch[0].runId)
    ensures WorkedOn(world.workers, next.workers, w, world.workers[w].batch[0].runId)
  {
  }

  lemma OwnClaim(world: World, w: WorkerId, next: World, acc: Account)
    requires HasHead(world, w)
    requires var m := world.workers[w].batch[0];
      var r := m.runId;
      && m.topic.RunStep? && NoneFor(Unbatched(world, w), r)
      && w < |next.workers| && next.workers[w].phase.Executing? && next.workers[w].phase.runId == r
      && next.workers == world.workers[w := Worker(world.workers[w].batch[1..], next.workers[w].phase)]
      && RewroteRun(world, next, r) && next.db.outbox == world.db.outbox
      && SumBudget(next.db.runs[r].steps) == SumBudget(world.db.runs[r].steps) >= 1
      && SumCeiling(next.db.runs[r].steps) == SumCeiling(world.db.runs[r].steps)
      && Spent(next.log, r) == Spent(world.log, r) + 1
      && AccountOk(world, r, acc)
    ensures AccountOk(next, world.workers[w].batch[0].runId, acc)
  {
    var r := world.workers[w].batch[0].runId;
    HeadPaid(world, w, acc);
    Basics(world, r, acc);
    hide AccountOk;
    hide NoneFor;
    hide SumBudget;
    hide SumCeiling;
    hide Spent;
    HeldAccount(Unbatched(world, w), next, r, w, next.workers[w].phase, acc);
  }

  lemma ClaimElsewhere(world: World, w: WorkerId, next: World)
    requires HasHead(world, w)
    requires && w < |next.workers| && next.workers[w].phase.Executing?
      && next.workers[w].phase.runId == world.workers[w].batch[0].runId
      && next.workers == world.workers[w := Worker(world.workers[w].batch[1..], next.workers[w].phase)]
      && next.db.outbox == world.db.outbox
    ensures OutboxOf(world.db.outbox, next.db.outbox, world.workers[w].batch[0].runId)
    ensures WorkedOn(world.workers, next.workers, w, world.workers[w].batch[0].runId)
  {
  }

  lemma ClaimAccount(cfg: Config, world: World, w: WorkerId, r: RunId, acc: Account)
    requires cfg.limits.None? && Sound(world) && AccountOk(world, r, acc)
    requires HasHead(world, w) && world.workers[w].batch[0].topic.RunStep?
    ensures AccountOk(ApplyProcess(cfg, world, w), r, acc)
  {
    var m := world.workers[w].batch[0];
    var next := ApplyProcess(cfg, world, w);
    HeadFacts(world, w);
    ClaimMove(cfg, world, w);
    SpentProcess(cfg, world, w, r);
    Basics(world, r, acc);
    hide *;
    if m.runId != r {
      ClaimElsewhere(world, w, next);
      OtherMoves(world, next, w, m.runId, r);
      UnmovedAccount(world, next, r, acc);
    } else {
      OwnClaim(world, w, next, acc);
    }
  }

  /** Worker w let go of its step, and a message of its run was sent. */
  lemma OwnRelease(world: World, w: WorkerId, next: World, m: Message, acc: Account)
    requires w < |world.workers| && !world.workers[w].phase.Idle?
    requires var p := world.workers[w].phase;
      var r := p.runId;
      && NoneFor(Released(world, w), r) && next.workers == Released(world, w).workers
      && RewroteRun(world, next, r) && Appended(world.db.outbox, next.db.outbox, m) && m.runId == r
      && SumCeiling(next.db.runs[r].steps) == SumCeiling(world.db.runs[r].steps)
      && SumBudget(next.db.runs[r].steps) + (if p.Executing? then 1 else 0) <= SumBudget(world.db.runs[r].steps)
      && m.topic.AdvanceRun? == p.Executing?
      && Spent(next.log, r) == Spent(world.log, r)
      && AccountOk(world, r, acc)
    ensures AccountOk(next, world.workers[w].phase.runId, acc)
  {
    var r := world.workers[w].phase.runId;
    HolderPaid(world, w, acc);
    Basics(world, r, acc);
    hide AccountOk;
    hide NoneFor;
    hide SumBudget;
    hide SumCeiling;
    hide Spent;
    MessageAccount(Released(world, w), next, r, m, acc);
  }

  lemma ReleaseElsewhere(world: World, w: WorkerId, next: World, m: Message)
    requires w < |world.workers| && !world.workers[w].phase.Idle?
    requires next.workers == Released(world, w).workers
    requires Appended(world.db.outbox, next.db.outbox, m) && m.runId == world.workers[w].phase.runId
    ensures OutboxOf(world.db.outbox, next.db.outbox, world.workers[w].phase.runId)
    ensures WorkedOn(world.workers, next.workers, w, world.workers[w].phase.runId)
  {
  }

  lemma RecordLogs(cfg: Config, world: World, w: WorkerId, outcome: Outcome, draw: Backoff.Draw)
    ensures ApplyRecord(cfg, world, w, outcome, draw).log == world.log
  {
    hide RecordInto;
  }

  lemma RecordAccount(cfg: Config, world: World, w: WorkerId, outcome: Outcome, draw: Backoff.Draw, r: RunId,
                      acc: Account)
    requires Sound(world) && CanRecord(world, w, outcome) && AccountOk(world, r, acc)
    ensures AccountOk(ApplyRecord(cfg, world, w, outcome, draw), r, acc)
  {
    var q := world.workers[w].phase.runId;
    var next := ApplyRecord(cfg, world, w, outcome, draw);
    HolderFacts(world, w);
    RecordMove(cfg, world, w, outcome, draw);
    RecordLogs(cfg, world, w, outcome, draw);
    Basics(world, r, acc);
    hide *;
    var at :| Appended(world.db.outbox, next.db.outbox, Message(AdvanceRun, q, at));
    var m := Message(AdvanceRun, q, at);
    if q != r {
      ReleaseElsewhere(world, w, next, m);
      OtherMoves(world, next, w, q, r);
      UnmovedAccount(world, next, r, acc);
    } else {
      OwnRelease(world, w, next, m, acc);
    }
  }

  lemma PutBackShape(cfg: Config, world: World, w: WorkerId)
    requires w < |world.workers| && world.workers[w].phase.PuttingBack? && world.workers[w].phase.runId in world.db.runs
    ensures var p := world.workers[w].phase;
      var next := ApplyPutBack(cfg, world, w);
      && next.workers == Released(world, w).workers && next.log == world.log
      && RewroteRun(world, next, p.runId) && next.db.runs == world.db.runs
      && Appended(world.db.outbox, next.db.outbox, Message(RunStep(p.step), p.runId, world.db.now + cfg.blockedRetryMs))
  {
  }

  lemma PutBackAccount(cfg: Config, world: World, w: WorkerId, r: RunId, acc: Account)
    requires Sound(world) && AccountOk(world, r, acc)
    requires w < |world.workers| && world.workers[w].phase.PuttingBack?
    ensures AccountOk(ApplyPutBack(cfg, world, w), r, acc)
  {
    var p := world.workers[w].phase;
    var next := ApplyPutBack(cfg, world, w);
    HolderFacts(world, w);
    PutBackShape(cfg, world, w);
    Basics(world, r, acc);
    hide *;
    var m := Message(RunStep(p.step), p.runId, world.db.now + cfg.blockedRetryMs);
    if p.runId != r {
      ReleaseElsewhere(world, w, next, m);
      OtherMoves(world, next, w, p.runId, r);
      UnmovedAccount(world, next, r, acc);
    } else {
      OwnRelease(world, w, next, m, acc);
    }
  }

  // ---- everything else that can happen ----

  lemma CreateLogs(world: World, input: CreateRunInput, newId: RunId, raced: bool, r: RunId)
    ensures Spent(ApplyCreate(world, input, newId, raced).log, r) == Spent(world.log, r)
  {
    SpentSnoc(world.log, CreatedRun(newId, KeyOf(input)), r);
    hide CreateRun;
  }

  lemma CreateUnmoved(world: World, input: CreateRunInput, newId: RunId, raced: bool, r: RunId)
    requires r in world.db.runs
    ensures Unmoved(world, ApplyCreate(world, input, newId, raced), r)
  {
    CreateLogs(world, input, newId, raced, r);
    hide Spent;
  }

  lemma CancelUnmoved(world: World, q: RunId, r: RunId)
    requires r in world.db.runs
    ensures Unmoved(world, world.(db := RequestCancel(world.db, q).0), r)
  {
    hide Spent;
  }

  lemma RelayUnmoved(world: World, w: WorkerId, k: nat, r: RunId)
    requires r in world.db.runs
    ensures Unmoved(world, ApplyRelay(world, w, k), r)
  {
    hide Spent;
  }

  lemma EffectUnmoved(world: World, w: WorkerId, r: RunId)
    requires r in world.db.runs
    ensures Unmoved(world, ApplyEffect(world, w), r)
  {
    hide Spent;
  }

  lemma ResumeAccount(world: World, q: RunId, n: NodeId, next: World, r: RunId, acc: Account)
    requires AccountOk(world, r, acc) && Resume(world.db, q, n).Ok?
    requires next == world.(db := next.db)
    requires next.db.(dlq := []) == Resume(world.db, q, n).value.(dlq := [])
    ensures AccountOk(next, r, acc)
  {
    hide SumBudget;
    hide SumCeiling;
    hide Spent;
    assert next.db.runs == Resume(world.db, q, n).value.runs && next.db.outbox == Resume(world.db, q, n).value.outbox;
    if q != r {
      UnmovedAccount(world, next, r, acc);
    }
  }

  lemma ProcessAccount(cfg: Config, world: World, w: WorkerId, r: RunId, acc: Account)
    requires cfg.limits.None? && Sound(world) && AccountOk(world, r, acc)
    ensures AccountOk(ApplyProcess(cfg, world, w), r, acc)
  {
    hide Sound;
    hide AccountOk;
    hide Advance;
    hide ApplyClaim;
    if HasHead(world, w) {
      if world.workers[w].batch[0].topic.AdvanceRun? {
        AdvanceAccount(cfg, world, w, r, acc);
      } else {
        ClaimAccount(cfg, world, w, r, acc);
      }
    }
  }

  /** Actions that move no token from worker to queue or back. */
  predicate Outside(a: Action) {
    a.Create? || a.Relay? || a.Effect? || a.Cancel? || a.Tick?
  }

  lemma OutsideUnmoved(cfg: Config, world: World, a: Action, r: RunId)
    requires Outside(a) && r in world.db.runs
    ensures Unmoved(world, Apply(cfg, world, a), r)
  {
    hide Unmoved;
    hide ApplyCreate;
    hide ApplyRelay;
    hide ApplyEffect;
    hide RequestCancel;
    match a {
      case Create(input, newId, raced) => CreateUnmoved(world, input, newId, raced, r);
      case Relay(w, k) => RelayUnmoved(world, w, k, r);
      case Effect(w) => EffectUnmoved(world, w, r);
      case Cancel(q) => CancelUnmoved(world, q, r);
      case Tick(ms) => TickUnmoved(world, ms, r);
    }
  }

  lemma StepAccount(cfg: Config, world: World, a: Action, r: RunId, acc: Account)
    requires cfg.limits.None? && Disciplined(a) && Sound(world) && AccountOk(world, r, acc)
    ensures AccountOk(Apply(cfg, world, a), r, acc)
  {
    var next := Apply(cfg, world, a);
    hide Sound;
    if Outside(a) {
      OutsideUnmoved(cfg, world, a, r);
      UnmovedAccount(world, next, r, acc);
    } else {
      InsideAccount(cfg, world, a, r, acc);
    }
  }

  lemma InsideAccount(cfg: Config, world: World, a: Action, r: RunId, acc: Account)
    requires cfg.limits.None? && Disciplined(a) && !Outside(a) && Sound(world) && AccountOk(world, r, acc)
    ensures AccountOk(Apply(cfg, world, a), r, acc)
  {
    hide Sound;
    hide AccountOk;
    hide RecordInto;
    hide ApplyProcess;
    var next := Apply(cfg, world, a);
    match a {
      case Process(w) => ProcessAccount(cfg, world, w, r, acc);
      case PutBack(w) =>
        if w < |world.workers| && world.workers[w].phase.PuttingBack? {
          PutBackAccount(cfg, world, w, r, acc);
        }
      case Record(w, outcome, draw) =>
        if CanRecord(world, w, outcome) {
          RecordAccount(cfg, world, w, outcome, draw, r, acc);
        }
      case ResumeFrom(q, n) =>
        if Resume(world.db, q, n).Ok? {
          ResumeAccount(world, q, n, next, r, acc);
        }
      case Replay(e) =>
        if ReplayDlqEntry(world.db, e).Ok? {
          ResumeAccount(world, world.db.dlq[e].runId, world.db.dlq[e].nodeId, next, r, acc);
        }
    }
  }

  lemma TickUnmoved(world: World, ms: nat, r: RunId)
    requires r in world.db.runs
    ensures Unmoved(world, world.(db := world.db.(now := world.db.now + ms)), r)
  {
    hide Spent;
  }

  lemma {:induction false} ExecAccount(cfg: Config, world: World, actions: seq<Action>, r: RunId, acc: Account)
    requires cfg.limits.None? && Orderly(world, actions) && Sound(world) && AccountOk(world, r, acc)
    ensures AccountOk(Exec(cfg, world, actions), r, acc)
    decreases |actions|
  {
    hide *;
    if actions != [] {
      var n := |actions| - 1;
      OrderlyPrefix(world, actions);
      ExecAccount(cfg, world, actions[..n], r, acc);
      ExecKeepsSound(cfg, world, actions[..n]);
      StepAccount(cfg, Exec(cfg, world, actions[..n]), actions[n], r, acc);
    }
    ExecLast(cfg, world, actions);
  }

  lemma ExecLast(cfg: Config, world: World, actions: seq<Action>)
    ensures Exec(cfg, world, actions) ==
      if actions == [] then world
      else Apply(cfg, Exec(cfg, world, actions[..|actions| - 1]), actions[|actions| - 1])
  {
    hide Apply;
  }

  // ---- the bounds ----

  /** The account a run opens in any disciplined state. */
  function Opening(world: World, r: RunId): Account
    requires r in world.db.runs
  {
    var run := world.db.runs[r];
    Account(run.attemptGroup, SumCeiling(run.steps), Spent(world.log, r) + 1 + 2 * SumBudget(run.steps))
  }

  lemma OpenAccount(world: World, r: RunId)
    requires r in world.db.runs
    ensures AccountOk(world, r, Opening(world, r))
  {
    hide Spent;
    hide SumBudget;
    hide SumCeiling;
  }

  /**
   * From any state with the discipline, whatever the handlers return and however
   * its work interleaves with other runs', a run that is not resumed meanwhile
   * consumes at most one message and two more for each attempt it has left.
   */
  lemma FurtherMessagesBounded(cfg: Config, world: World, actions: seq<Action>, r: RunId)
    requires cfg.limits.None? && Sound(world) && Orderly(world, actions)
    requires r in world.db.runs
    ensures var later := Exec(cfg, world, actions);
      && r in later.db.runs
      && (later.db.runs[r].attemptGroup == world.db.runs[r].attemptGroup ==>
            Spent(later.log, r) - Spent(world.log, r) <= 1 + 2 * SumBudget(world.db.runs[r].steps))
  {
    OpenAccount(world, r);
    ExecAccount(cfg, world, actions, r, Opening(world, r));
    Basics(Exec(cfg, world, actions), r, Opening(world, r));
    hide Exec;
    hide Sound;
    hide AccountOk;
  }

  /** Before a run is created nothing of it is consumed; from then on it has an account of its ceilings. */
  ghost predicate HasAccount(world: World, r: RunId) {
    if r in world.db.runs then exists c: nat :: AccountOk(world, r, Account(0, c, 1 + 2 * c))
    else Spent(world.log, r) == 0
  }

  lemma CreatedAccount(world: World, input: CreateRunInput, newId: RunId, raced: bool)
    requires Sound(world) && newId !in world.db.runs && Spent(world.log, newId) == 0
    ensures HasAccount(ApplyCreate(world, input, newId, raced), newId)
  {
    var next := ApplyCreate(world, input, newId, raced);
    var m := Message(AdvanceRun, newId, world.db.now);
    CreateLogs(world, input, newId, raced, newId);
    CreatedShape(world, input, newId, raced);
    NobodyFor(world, newId);
    hide Sound, ApplyCreate, Spent, AccountOk, NoneFor, SumCeiling, SumBudget;
    if newId in next.db.runs {
      var c := SumCeiling(next.db.runs[newId].steps);
      var acc := Account(0, c, 1 + 2 * c);
      FreshBudget(next.db.runs[newId].steps);
      if Appended(world.db.outbox, next.db.outbox, m) {
        MessageAccount(world, next, newId, m, acc);
      } else {
        GoneAccount(world, next, newId, acc);
      }
      assert AccountOk(next, newId, acc);
    }
  }

  /** A created run is fresh, and its advance is all that is sent. */
  lemma CreatedShape(world: World, input: CreateRunInput, newId: RunId, raced: bool)
    requires newId !in world.db.runs
    ensures var next := ApplyCreate(world, input, newId, raced);
      && next.workers == world.workers
      && (Appended(world.db.outbox, next.db.outbox, Message(AdvanceRun, newId, world.db.now))
          || next.db.outbox == world.db.outbox)
      && (newId in next.db.runs ==>
            && next.db.runs[newId].attemptGroup == 0
            && forall s :: s in next.db.runs[newId].steps ==>
                 s.status.Pending? && s.attemptsConsumed == 0 && s.deferrals == 0)
  {
  }

  lemma NobodyFor(world: World, r: RunId)
    requires Sound(world) && r !in world.db.runs
    ensures NoneFor(world, r)
  {
    hide Inv;
    assert RunTokenOk(world, r);
    ButFromZero(world, r);
  }

  lemma UnknownProcess(cfg: Config, world: World, w: WorkerId, r: RunId)
    requires Sound(world) && r !in world.db.runs
    ensures var next := ApplyProcess(cfg, world, w); r !in next.db.runs && Spent(next.log, r) == Spent(world.log, r)
  {
    hide Spent;
    if HasHead(world, w) {
      HeadFacts(world, w);
      SpentProcess(cfg, world, w, r);
      hide Sound;
      hide RunOk;
      hide NoneFor;
      hide AdvanceRow;
      hide OverLimit;
    }
  }

  lemma UnknownRecord(cfg: Config, world: World, w: WorkerId, outcome: Outcome, draw: Backoff.Draw, r: RunId)
    requires Sound(world) && r !in world.db.runs
    ensures var next := ApplyRecord(cfg, world, w, outcome, draw); r !in next.db.runs && next.log == world.log
  {
    RecordLogs(cfg, world, w, outcome, draw);
    if CanRecord(world, w, outcome) {
      RecordMove(cfg, world, w, outcome, draw);
      hide Sound;
      hide ApplyRecord;
    }
  }

  /** Nothing but its creation brings a run into the table, and nothing is consumed of one that is not there. */
  lemma UnknownStays(cfg: Config, world: World, a: Action, r: RunId)
    requires Sound(world) && Disciplined(a) && r !in world.db.runs && (a.Create? ==> a.newId != r)
    ensures var next := Apply(cfg, world, a); r !in next.db.runs && Spent(next.log, r) == Spent(world.log, r)
  {
    hide Spent;
    hide Sound;
    hide ApplyProcess;
    hide ApplyRecord;
    match a {
      case Create(input, newId, raced) => CreateLogs(world, input, newId, raced, r);
      case Process(w) => UnknownProcess(cfg, world, w, r);
      case Record(w, outcome, draw) => UnknownRecord(cfg, world, w, outcome, draw, r);
      case _ =>
    }
  }

  lemma {:induction false} ExecHasAccount(cfg: Config, now: int, n: nat, actions: seq<Action>, r: RunId)
    requires cfg.limits.None? && forall a :: a in actions ==> Disciplined(a)
    ensures HasAccount(Exec(cfg, Start(now, n), actions), r)
    decreases |actions|
  {
    hide Sound;
    hide AccountOk;
    hide Apply;
    if actions != [] {
      var k := |actions| - 1;
      var world, a := Exec(cfg, Start(now, n), actions[..k]), actions[k];
      ExecHasAccount(cfg, now, n, actions[..k], r);
      assert DisciplinedReach(cfg, world);
      DisciplinedIsSound(cfg, world);
      hide DisciplinedReach;
      StepHasAccount(cfg, world, a, r);
    }
  }

  lemma StepHasAccount(cfg: Config, world: World, a: Action, r: RunId)
    requires cfg.limits.None? && Disciplined(a) && Sound(world) && HasAccount(world, r)
    ensures HasAccount(Apply(cfg, world, a), r)
  {
    hide Sound;
    hide AccountOk;
    hide Spent;
    if r in world.db.runs {
      var c: nat :| AccountOk(world, r, Account(0, c, 1 + 2 * c));
      StepAccount(cfg, world, a, r, Account(0, c, 1 + 2 * c));
      Basics(Apply(cfg, world, a), r, Account(0, c, 1 + 2 * c));
      hide Apply;
    } else if a.Create? && a.newId == r {
      CreatedAccount(world, a.input, r, a.raced);
      hide ApplyCreate;
    } else {
      UnknownStays(cfg, world, a, r);
      hide Apply;
    }
  }

  /**
   * Without limits, a run that was never resumed consumes at most
   * 1 + 2 * sum(maxAttempts + maxDeferrals - 1) messages in any disciplined
   * history, whatever happens to other runs.
   */
  lemma DrainBounded(cfg: Config, now: int, n: nat, actions: seq<Action>, r: RunId)
    requires cfg.limits.None? && forall a :: a in actions ==> Disciplined(a)
    ensures var world := Exec(cfg, Start(now, n), actions);
      r in world.db.runs && world.db.runs[r].attemptGroup == 0 ==>
        Spent(world.log, r) <= 1 + 2 * SumCeiling(world.db.runs[r].steps)
  {
    ExecHasAccount(cfg, now, n, actions, r);
    var world := Exec(cfg, Start(now, n), actions);
    hide Exec;
    if r in world.db.runs {
      var c: nat :| AccountOk(world, r, Account(0, c, 1 + 2 * c));
      Basics(world, r, Account(0, c, 1 + 2 * c));
    }
  }
}
