// The engine as a transition system: one database, its workers' memory, and a
// provider that refuses a key it has already honoured. Every interleaving of the
// engine is a sequence of actions.
module World {
  import opened Options
  import opened ErrorClasses
  import opened EngineTypes
  import opened EngineRows
  import opened EngineDb
  import Backoff
  import Idempotency

  /** What every worker is deployed with. */
  datatype Config = Config(
    flows: map<string, FlowDefinition>,
    limits: Option<ConcurrencyLimits>,
    leaseMs: nat,
    blockedRetryMs: nat,
    policy: Backoff.BackoffPolicy)

  /** A sequential worker is idle, about to put a blocked step back, or running a claimed row. */
  datatype Phase =
    | Idle
    | PuttingBack(runId: RunId, step: nat)
    | Executing(runId: RunId, step: nat, row: StepRow, effectDone: bool)

  /** `batch` holds messages already deleted from the outbox and not yet processed. */
  datatype Worker = Worker(batch: seq<Message>, phase: Phase)

  datatype Event =
    | Consumed(runId: RunId)
    | ClaimedStep(runId: RunId, step: nat)
    | CreatedRun(runId: RunId, key: Option<DeliveryKey>)

  datatype World = World(
    db: Db,
    workers: seq<Worker>,
    effects: seq<Idempotency.StepIdentity>,
    log: seq<Event>)

  /** What the handler of a claimed step came back with. */
  datatype Outcome =
    | Success(output: Option<Output>)
    | Failure(errorClass: ErrorClass, retryAfterMs: Option<int>)

  datatype Action =
    | Create(input: CreateRunInput, newId: RunId, raced: bool)
    | Relay(w: WorkerId, k: nat)
    | Process(w: WorkerId)
    | PutBack(w: WorkerId)
    | Effect(w: WorkerId)
    | Record(w: WorkerId, outcome: Outcome, draw: Backoff.Draw)
    | Crash(w: WorkerId)
    | SweepRuns(chosen: seq<RunId>)
    | LoseMessage(k: nat)
    | DuplicateMessage(k: nat)
    | Cancel(runId: RunId)
    | ResumeFrom(runId: RunId, fromNode: NodeId)
    | Replay(entry: nat)
    | Tick(ms: nat)

  function RemoveAt<T>(s: seq<T>, k: nat): seq<T>
    requires k < |s|
  {
    s[..k] + s[k + 1..]
  }

  function PutWorker(world: World, w: WorkerId, worker: Worker): World
    requires w < |world.workers|
  {
    world.(workers := world.workers[w := worker])
  }

  function ApplyCreate(world: World, input: CreateRunInput, newId: RunId, raced: bool): World {
    var (db, outcome) := CreateRun(world.db, input, newId, raced);
    world.(db := db, log := if outcome.Created? then world.log + [CreatedRun(newId, KeyOf(input))] else world.log)
  }

  /** Each worker takes one due row at a time; a batch is consecutive relays. */
  function ApplyRelay(world: World, w: WorkerId, k: nat): World {
    if w < |world.workers| && k < |world.db.outbox| && world.db.outbox[k].availableAt <= world.db.now then
      var m := world.db.outbox[k];
      var worker := world.workers[w];
      PutWorker(world, w, worker.(batch := worker.batch + [m]))
        .(db := world.db.(outbox := RemoveAt(world.db.outbox, k)))
    else world
  }

  /** Take the next message of the batch: advance its run, or claim its step. */
  function ApplyProcess(cfg: Config, world: World, w: WorkerId): World {
    if w < |world.workers| && world.workers[w].phase.Idle? && world.workers[w].batch != [] then
      var m := world.workers[w].batch[0];
      var taken := PutWorker(world, w, Worker(world.workers[w].batch[1..], Idle))
        .(log := world.log + [Consumed(m.runId)]);
      match m.topic
      case AdvanceRun => taken.(db := Advance(world.db, m.runId).0)
      case RunStep(i) => ApplyClaim(cfg, taken, w, m.runId, i)
    else world
  }

  function ApplyClaim(cfg: Config, world: World, w: WorkerId, r: RunId, i: nat): World
    requires w < |world.workers|
  {
    if r !in world.db.runs then world
    else
      var (db, result) := ClaimStep(world.db, r, i, w, cfg.leaseMs, cfg.limits);
      match result
      case Taken => world
      case Blocked => PutWorker(world, w, world.workers[w].(phase := PuttingBack(r, i)))
      case Claimed(row) =>
        PutWorker(world, w, world.workers[w].(phase := Executing(r, i, row, false)))
          .(db := db, log := world.log + [ClaimedStep(r, i)])
  }

  function ApplyPutBack(cfg: Config, world: World, w: WorkerId): World {
    if w < |world.workers| && world.workers[w].phase.PuttingBack? then
      var p := world.workers[w].phase;
      PutWorker(world, w, world.workers[w].(phase := Idle))
        .(db := Enqueue(world.db, RunStep(p.step), p.runId, cfg.blockedRetryMs))
    else world
  }

  /** A provider that deduplicates by key. */
  function Perform(effects: seq<Idempotency.StepIdentity>,
                   key: Idempotency.StepIdentity): seq<Idempotency.StepIdentity> {
    if key in effects then effects else effects + [key]
  }

  function ApplyEffect(world: World, w: WorkerId): World {
    if w < |world.workers| && world.workers[w].phase.Executing? then
      var p := world.workers[w].phase;
      PutWorker(world, w, world.workers[w].(phase := p.(effectDone := true)))
        .(effects := Perform(world.effects, p.row.key))
    else world
  }

  function IdempotentIn(flow: FlowDefinition, nodeId: NodeId): bool {
    match FirstNode(flow.nodes, nodeId)
    case Some(i) => flow.nodes[i].idempotent
    case None => false
  }

  function FirstNode(nodes: seq<FlowNode>, id: NodeId): (r: Option<nat>)
    ensures r.Some? ==> r.value < |nodes| && nodes[r.value].id == id
    ensures r.None? ==> forall n :: n in nodes ==> n.id != id
  {
    if nodes == [] then None
    else if nodes[0].id == id then Some(0)
    else match FirstNode(nodes[1..], id)
      case Some(i) => Some(i + 1)
      case None => None
  }

  /** A missing flow version is poison; a success needs the effect to have happened. */
  ghost function RecordInto(cfg: Config, db: Db, w: WorkerId, p: Phase, outcome: Outcome, draw: Backoff.Draw): Db
    requires p.Executing?
  {
    var version := if p.runId in db.runs then db.runs[p.runId].versionId else "";
    if version !in cfg.flows then
      RecordFailure(db, p.runId, p.step, w, DecideFailure(p.row, Poison, false, None, draw, db.now, cfg.policy)).0
    else
      var flow := cfg.flows[version];
      match outcome
      case Success(output) =>
        RecordSuccess(db, p.runId, p.step, w, output, AbandonedBy(flow, p.row.nodeId, output)).0
      case Failure(errorClass, retryAfterMs) =>
        var rec := DecideFailure(p.row, errorClass, IdempotentIn(flow, p.row.nodeId), retryAfterMs, draw, db.now,
                                 cfg.policy);
        RecordFailure(db, p.runId, p.step, w, rec).0
  }

  ghost function ApplyRecord(cfg: Config, world: World, w: WorkerId, outcome: Outcome, draw: Backoff.Draw): World {
    if && w < |world.workers| && world.workers[w].phase.Executing?
       && (outcome.Success? ==> world.workers[w].phase.effectDone)
    then
      PutWorker(world, w, world.workers[w].(phase := Idle))
        .(db := RecordInto(cfg, world.db, w, world.workers[w].phase, outcome, draw))
    else world
  }

  ghost function Apply(cfg: Config, world: World, a: Action): World {
    match a
    case Create(input, newId, raced) => ApplyCreate(world, input, newId, raced)
    case Relay(w, k) => ApplyRelay(world, w, k)
    case Process(w) => ApplyProcess(cfg, world, w)
    case PutBack(w) => ApplyPutBack(cfg, world, w)
    case Effect(w) => ApplyEffect(world, w)
    case Record(w, outcome, draw) => ApplyRecord(cfg, world, w, outcome, draw)
    case Crash(w) => if w < |world.workers| then PutWorker(world, w, Worker([], Idle)) else world
    case SweepRuns(chosen) =>
      if SweepChoice(world.db, chosen) then world.(db := Sweep(world.db, chosen)) else world
    case LoseMessage(k) =>
      if k < |world.db.outbox| then world.(db := world.db.(outbox := RemoveAt(world.db.outbox, k))) else world
    case DuplicateMessage(k) =>
      if k < |world.db.outbox|
      then world.(db := world.db.(outbox := world.db.outbox + [world.db.outbox[k]])) else world
    case Cancel(r) => world.(db := RequestCancel(world.db, r).0)
    case ResumeFrom(r, n) => (match Resume(world.db, r, n) case Ok(db) => world.(db := db) case Err(_) => world)
    case Replay(e) => (match ReplayDlqEntry(world.db, e) case Ok(db) => world.(db := db) case Err(_) => world)
    case Tick(ms) => world.(db := world.db.(now := world.db.now + ms))
  }

  ghost function Exec(cfg: Config, world: World, actions: seq<Action>): World
    decreases |actions|
  {
    if actions == [] then world
    else
      var n := |actions| - 1;
      Apply(cfg, Exec(cfg, world, actions[..n]), actions[n])
  }

  function IdleWorkers(n: nat): (ws: seq<Worker>)
    ensures |ws| == n && forall i :: 0 <= i < n ==> ws[i] == Worker([], Idle)
  {
    seq(n, _ => Worker([], Idle))
  }

  /** Nothing stored, nobody working. */
  function Start(now: int, workers: nat): World {
    World(Db(now, map[], map[], [], []), IdleWorkers(workers), [], [])
  }
}
