// From a verified webhook to a run: record, hand over, release.
module Delivery {
  import opened Options
  import opened EngineTypes
  import opened EngineRows
  import opened EngineDb
  import opened World
  import Safety
  import Interleavings
  import Guard = ReplayGuard
  import Idempotency

  /** Who an endpoint delivers to. */
  datatype Owner = Owner(tenantId: string, flowId: string)

  datatype Setup = Setup(config: Config, owners: map<string, Owner>)

  /** A delivery accepted and not yet a run; `failed` until its record is released. */
  datatype Handoff = Handoff(endpointId: string, dedupKey: string, failed: bool)

  datatype State = State(seen: Guard.Seen, handoffs: seq<Handoff>, world: World)

  datatype Event =
    | Arrive(endpointId: string, dedupKey: string, at: int)
    | HandOver(k: nat, flow: FlowDefinition, newId: RunId, raced: bool)
    | Throw(k: nat)
    | Release(k: nat, lost: bool)
    | Crash(k: nat)
    | Prune(olderThan: int)
    | Engine(action: Action)

  function InputFor(owner: Owner, flow: FlowDefinition, dedupKey: string): CreateRunInput {
    CreateRunInput(owner.tenantId, flow.(id := owner.flowId), Some(dedupKey), None)
  }

  function Without<T>(xs: seq<T>, k: nat): seq<T>
    requires k < |xs|
  {
    xs[..k] + xs[k + 1..]
  }

  predicate Pending(s: State, k: nat) {
    k < |s.handoffs| && !s.handoffs[k].failed
  }

  /** The route: record first, then hand over in one transaction, release if that throws. */
  ghost function Next(setup: Setup, s: State, e: Event): State {
    match e
    case Arrive(endpointId, dedupKey, at) =>
      if endpointId !in setup.owners then s
      else
        var (seen, r) := Guard.Recorded(s.seen, Guard.DeliveryRecord(endpointId, dedupKey, Guard.Accepted, at));
        if r.first then s.(seen := seen, handoffs := s.handoffs + [Handoff(endpointId, dedupKey, false)]) else s
    case HandOver(k, flow, newId, raced) =>
      if !Pending(s, k) || s.handoffs[k].endpointId !in setup.owners then s
      else
        var input := InputFor(setup.owners[s.handoffs[k].endpointId], flow, s.handoffs[k].dedupKey);
        if CreateRun(s.world.db, input, newId, raced).1.Rejected?
        then s.(handoffs := s.handoffs[k := s.handoffs[k].(failed := true)])
        else s.(handoffs := Without(s.handoffs, k), world := Apply(setup.config, s.world, Create(input, newId, raced)))
    case Throw(k) =>
      if Pending(s, k) then s.(handoffs := s.handoffs[k := s.handoffs[k].(failed := true)]) else s
    case Release(k, lost) =>
      if k < |s.handoffs| && s.handoffs[k].failed then
        s.(handoffs := Without(s.handoffs, k),
           seen := if lost then s.seen else Guard.Released(s.seen, s.handoffs[k].endpointId, s.handoffs[k].dedupKey))
      else s
    case Crash(k) => if k < |s.handoffs| then s.(handoffs := Without(s.handoffs, k)) else s
    case Prune(olderThan) => s.(seen := Guard.Pruned(s.seen, olderThan))
    case Engine(action) => s.(world := Apply(setup.config, s.world, action))
  }

  ghost function After(setup: Setup, start: World, events: seq<Event>): State {
    if events == [] then State(map[], [], start)
    else Next(setup, After(setup, start, events[..|events| - 1]), events[|events| - 1])
  }

  // ---- at most one run, whatever happens ----

  lemma WorldSteps(setup: Setup, s: State, e: Event)
    ensures var world := Next(setup, s, e).world;
      world == s.world || exists a :: world == Apply(setup.config, s.world, a)
  {
    hide Apply;
    hide CreateRun;
  }

  lemma ReachableStep(cfg: Config, world: World, a: Action)
    requires Interleavings.Reachable(cfg, world)
    ensures Interleavings.Reachable(cfg, Apply(cfg, world, a))
  {
    hide Apply;
    var now, n, actions :| world == Exec(cfg, Start(now, n), actions);
    var more := actions + [a];
    assert more[..|more| - 1] == actions;
    assert Apply(cfg, world, a) == Exec(cfg, Start(now, n), more);
  }

  lemma {:induction false} WorldReachable(setup: Setup, now: int, n: nat, events: seq<Event>)
    ensures Interleavings.Reachable(setup.config, After(setup, Start(now, n), events).world)
  {
    hide Next;
    hide Apply;
    if events == [] {
      assert Start(now, n) == Exec(setup.config, Start(now, n), []);
    } else {
      var before := After(setup, Start(now, n), events[..|events| - 1]);
      WorldReachable(setup, now, n, events[..|events| - 1]);
      WorldSteps(setup, before, events[|events| - 1]);
      var after := Next(setup, before, events[|events| - 1]).world;
      if after != before.world {
        var a :| after == Apply(setup.config, before.world, a);
        hide Interleavings.Reachable;
        ReachableStep(setup.config, before.world, a);
      }
    }
  }

  /**
   * Concurrent copies, failed hand-offs, releases lost or not, crashes, prunes
   * and every engine interleaving: two runs are never created for one delivery
   * key, and a run that owns steps was created once.
   */
  lemma AtMostOneRun(setup: Setup, now: int, n: nat, events: seq<Event>)
    ensures var log := After(setup, Start(now, n), events).world.log;
      forall i, j :: 0 <= i < j < |log| && log[i].CreatedRun? && log[j].CreatedRun? && log[i].key.Some? ==>
        log[i].key != log[j].key
    ensures var world := After(setup, Start(now, n), events).world;
      forall r :: r in world.db.runs && world.db.runs[r].steps != [] ==>
        exists i :: 0 <= i < |world.log| && world.log[i].CreatedRun? && world.log[i].runId == r
  {
    hide *;
    WorldReachable(setup, now, n, events);
    Interleavings.OneRunPerDeliveryKey(setup.config, After(setup, Start(now, n), events).world);
  }

  // ---- nothing accepted is lost ----

  predicate Same(h: Handoff, endpointId: string, dedupKey: string) {
    h.endpointId == endpointId && h.dedupKey == dedupKey
  }

  /** Exactly one hand-off of the delivery is under way. */
  ghost predicate OneUnderWay(s: State, endpointId: string, dedupKey: string) {
    exists k :: 0 <= k < |s.handoffs| && Same(s.handoffs[k], endpointId, dedupKey)
      && (forall j :: 0 <= j < |s.handoffs| && Same(s.handoffs[j], endpointId, dedupKey) ==> j == k)
  }

  function KeyFor(setup: Setup, endpointId: string, dedupKey: string): DeliveryKey
    requires endpointId in setup.owners
  {
    DeliveryKey(setup.owners[endpointId].tenantId, setup.owners[endpointId].flowId, dedupKey)
  }

  /** The delivery's key is taken. */
  predicate KeyTaken(setup: Setup, s: State, endpointId: string, dedupKey: string) {
    endpointId in setup.owners
    && KeyFor(setup, endpointId, dedupKey) in s.world.db.idempotency
  }

  predicate UnderWay(handoffs: seq<Handoff>, endpointId: string, dedupKey: string) {
    exists k :: 0 <= k < |handoffs| && Same(handoffs[k], endpointId, dedupKey)
  }

  /** No delivery is handed over twice at once. */
  predicate Apart(handoffs: seq<Handoff>) {
    forall i, j :: 0 <= i < j < |handoffs| ==> !Same(handoffs[i], handoffs[j].endpointId, handoffs[j].dedupKey)
  }

  predicate AllRecorded(setup: Setup, s: State) {
    forall i :: 0 <= i < |s.handoffs| ==>
      s.handoffs[i].endpointId in setup.owners
        && Guard.KeyOf(s.handoffs[i].endpointId, s.handoffs[i].dedupKey) in s.seen
  }

  ghost predicate Accounted(setup: Setup, s: State) {
    && (forall e, k {:trigger KeyTaken(setup, s, e, k)} {:trigger UnderWay(s.handoffs, e, k)} ::
          e in setup.owners && Guard.KeyOf(e, k) in s.seen ==> KeyTaken(setup, s, e, k) || UnderWay(s.handoffs, e, k))
    && AllRecorded(setup, s)
    && Apart(s.handoffs)
  }

  /** No process dies mid-delivery, nothing is pruned, and a release reaches the store. */
  predicate Orderly(e: Event) {
    !e.Crash? && !e.Prune? && (e.Release? ==> !e.lost)
  }

  ghost predicate SoundSetup(setup: Setup) {
    forall e :: e in setup.owners ==> Idempotency.SEPARATOR !in e
  }

  /** Keys are never forgotten by the engine. */
  predicate KeysGrow(a: World, b: World) {
    forall k :: k in a.db.idempotency ==> k in b.db.idempotency
  }

  lemma EngineKeepsKeys(cfg: Config, world: World, a: Action)
    ensures KeysGrow(world, Apply(cfg, world, a))
  {
    if a.Create? {
      CreateGrows(world, a.input, a.newId, a.raced);
    } else {
      Interleavings.SameRunsAndKeys(cfg, world, a);
      hide Apply;
    }
  }

  lemma CreateGrows(world: World, input: CreateRunInput, newId: RunId, raced: bool)
    ensures KeysGrow(world, ApplyCreate(world, input, newId, raced))
    ensures input.idempotencyKey.Some? && !CreateRun(world.db, input, newId, raced).1.Rejected? ==>
      KeyOf(input).value in ApplyCreate(world, input, newId, raced).db.idempotency
  {
    hide Insertable;
    hide FreshRows;
  }

  /** The records and hand-offs stay, the engine moves. */
  lemma EngineAccounts(setup: Setup, s: State, world: World)
    requires Accounted(setup, s) && KeysGrow(s.world, world)
    ensures Accounted(setup, s.(world := world))
  {
    var s' := s.(world := world);
    forall e, k | e in setup.owners && Guard.KeyOf(e, k) in s'.seen
      ensures KeyTaken(setup, s', e, k) || UnderWay(s'.handoffs, e, k)
    {
      assert KeyTaken(setup, s, e, k) || UnderWay(s.handoffs, e, k);
    }
    hide UnderWay;
  }

  lemma FailAccounts(setup: Setup, s: State, k: nat)
    requires Accounted(setup, s) && k < |s.handoffs|
    ensures Accounted(setup, s.(handoffs := s.handoffs[k := s.handoffs[k].(failed := true)]))
  {
    var s' := s.(handoffs := s.handoffs[k := s.handoffs[k].(failed := true)]);
    forall e, d | e in setup.owners && Guard.KeyOf(e, d) in s'.seen
      ensures KeyTaken(setup, s', e, d) || UnderWay(s'.handoffs, e, d)
    {
      assert KeyTaken(setup, s, e, d) || UnderWay(s.handoffs, e, d);
      if UnderWay(s.handoffs, e, d) {
        var i :| 0 <= i < |s.handoffs| && Same(s.handoffs[i], e, d);
        assert Same(s'.handoffs[i], e, d);
      }
    }
  }

  lemma WithoutApart(handoffs: seq<Handoff>, k: nat)
    requires k < |handoffs| && Apart(handoffs)
    ensures Apart(Without(handoffs, k))
    ensures forall e, d :: UnderWay(Without(handoffs, k), e, d) <==>
      UnderWay(handoffs, e, d) && !Same(handoffs[k], e, d)
  {
    var rest := Without(handoffs, k);
    assert forall i :: 0 <= i < |rest| ==> rest[i] == if i < k then handoffs[i] else handoffs[i + 1];
    forall e, d
      ensures UnderWay(rest, e, d) <==> UnderWay(handoffs, e, d) && !Same(handoffs[k], e, d)
    {
      StillUnderWay(handoffs, k, e, d);
    }
    hide UnderWay;
    hide Without;
  }

  lemma StillUnderWay(handoffs: seq<Handoff>, k: nat, e: string, d: string)
    requires k < |handoffs| && Apart(handoffs)
    ensures UnderWay(Without(handoffs, k), e, d) <==> UnderWay(handoffs, e, d) && !Same(handoffs[k], e, d)
  {
    var rest := Without(handoffs, k);
    if UnderWay(handoffs, e, d) && !Same(handoffs[k], e, d) {
      var i :| 0 <= i < |handoffs| && Same(handoffs[i], e, d);
      assert rest[if i < k then i else i - 1] == handoffs[i];
    }
    if UnderWay(rest, e, d) {
      var i :| 0 <= i < |rest| && Same(rest[i], e, d);
      var j := if i < k then i else i + 1;
      assert rest[i] == handoffs[j] && Same(handoffs[j], e, d);
    }
  }

  lemma WithoutRecorded(setup: Setup, s: State, k: nat)
    requires AllRecorded(setup, s) && k < |s.handoffs|
    ensures AllRecorded(setup, s.(handoffs := Without(s.handoffs, k)))
  {
  }

  lemma HandOverAccounts(setup: Setup, s: State, k: nat, flow: FlowDefinition, newId: RunId, raced: bool)
    requires Accounted(setup, s) && Pending(s, k)
    requires var input := InputFor(setup.owners[s.handoffs[k].endpointId], flow, s.handoffs[k].dedupKey);
      !CreateRun(s.world.db, input, newId, raced).1.Rejected?
    ensures Accounted(setup, Next(setup, s, HandOver(k, flow, newId, raced)))
  {
    var h := s.handoffs[k];
    var input := InputFor(setup.owners[h.endpointId], flow, h.dedupKey);
    var world := ApplyCreate(s.world, input, newId, raced);
    CreateGrows(s.world, input, newId, raced);
    EngineAccounts(setup, s, world);
    WithoutApart(s.handoffs, k);
    WithoutRecorded(setup, s, k);
    var s' := s.(handoffs := Without(s.handoffs, k), world := world);
    assert s' == Next(setup, s, HandOver(k, flow, newId, raced));
    hide CreateRun;
    hide ApplyCreate;
    hide Without;
    hide UnderWay;
    hide Apart;
    forall e, d | e in setup.owners && Guard.KeyOf(e, d) in s'.seen
      ensures KeyTaken(setup, s', e, d) || UnderWay(s'.handoffs, e, d)
    {
      assert KeyTaken(setup, s.(world := world), e, d) || UnderWay(s.handoffs, e, d);
    }
  }

  lemma ReleaseAccounts(setup: Setup, s: State, k: nat)
    requires Accounted(setup, s) && SoundSetup(setup) && k < |s.handoffs|
    ensures Accounted(setup, s.(handoffs := Without(s.handoffs, k),
                                seen := Guard.Released(s.seen, s.handoffs[k].endpointId, s.handoffs[k].dedupKey)))
  {
    var h := s.handoffs[k];
    var s' := s.(handoffs := Without(s.handoffs, k), seen := Guard.Released(s.seen, h.endpointId, h.dedupKey));
    WithoutApart(s.handoffs, k);
    forall e, d | e in setup.owners && Guard.KeyOf(e, d) in s'.seen
      ensures KeyTaken(setup, s', e, d) || UnderWay(s'.handoffs, e, d)
    {
      assert KeyTaken(setup, s, e, d) || UnderWay(s.handoffs, e, d);
    }
    forall i | 0 <= i < |s'.handoffs|
      ensures s'.handoffs[i].endpointId in setup.owners
        && Guard.KeyOf(s'.handoffs[i].endpointId, s'.handoffs[i].dedupKey) in s'.seen
    {
      StillRecorded(setup, s, k, i);
    }
    hide UnderWay;
    hide Without;
  }

  lemma StillRecorded(setup: Setup, s: State, k: nat, i: nat)
    requires AllRecorded(setup, s) && Apart(s.handoffs) && SoundSetup(setup)
    requires k < |s.handoffs| && i < |s.handoffs| - 1
    ensures var h, g := Without(s.handoffs, k)[i], s.handoffs[k];
      h.endpointId in setup.owners
      && Guard.KeyOf(h.endpointId, h.dedupKey) in Guard.Released(s.seen, g.endpointId, g.dedupKey)
  {
    var j := if i < k then i else i + 1;
    var h, g := s.handoffs[j], s.handoffs[k];
    assert h == Without(s.handoffs, k)[i];
    if Guard.KeyOf(h.endpointId, h.dedupKey) == Guard.KeyOf(g.endpointId, g.dedupKey) {
      Guard.KeysApart(h.endpointId, h.dedupKey, g.endpointId, g.dedupKey);
      assert false;
    }
  }

  lemma ArriveAccounts(setup: Setup, s: State, e: string, k: string, at: int)
    requires Accounted(setup, s) && SoundSetup(setup) && e in setup.owners && Guard.KeyOf(e, k) !in s.seen
    ensures Accounted(setup,
      s.(seen := s.seen[Guard.KeyOf(e, k) := at], handoffs := s.handoffs + [Handoff(e, k, false)]))
  {
    var s' := s.(seen := s.seen[Guard.KeyOf(e, k) := at], handoffs := s.handoffs + [Handoff(e, k, false)]);
    assert Same(s'.handoffs[|s.handoffs|], e, k);
    forall f, d | f in setup.owners && Guard.KeyOf(f, d) in s'.seen
      ensures KeyTaken(setup, s', f, d) || UnderWay(s'.handoffs, f, d)
    {
      if Guard.KeyOf(f, d) == Guard.KeyOf(e, k) {
        Guard.KeysApart(f, d, e, k);
      } else {
        assert KeyTaken(setup, s, f, d) || UnderWay(s.handoffs, f, d);
        if UnderWay(s.handoffs, f, d) {
          var i :| 0 <= i < |s.handoffs| && Same(s.handoffs[i], f, d);
          assert Same(s'.handoffs[i], f, d);
        }
      }
    }
  }

  lemma StepAccounts(setup: Setup, s: State, e: Event)
    requires Accounted(setup, s) && SoundSetup(setup) && Orderly(e)
    ensures Accounted(setup, Next(setup, s, e))
  {
    hide Accounted;
    hide Apply;
    hide CreateRun;
    match e {
      case Arrive(endpointId, dedupKey, at) =>
        if endpointId in setup.owners && Guard.KeyOf(endpointId, dedupKey) !in s.seen {
          ArriveAccounts(setup, s, endpointId, dedupKey, at);
        }
      case HandOver(k, flow, newId, raced) =>
        if Pending(s, k) && s.handoffs[k].endpointId in setup.owners {
          var input := InputFor(setup.owners[s.handoffs[k].endpointId], flow, s.handoffs[k].dedupKey);
          if CreateRun(s.world.db, input, newId, raced).1.Rejected? {
            FailAccounts(setup, s, k);
          } else {
            HandOverFromAny(setup, s, k, flow, newId, raced);
          }
        }
      case Throw(k) =>
        if Pending(s, k) {
          FailAccounts(setup, s, k);
        }
      case Release(k, lost) =>
        if k < |s.handoffs| && s.handoffs[k].failed {
          ReleaseAccounts(setup, s, k);
        }
      case Engine(action) =>
        EngineKeepsKeys(setup.config, s.world, action);
        EngineAccounts(setup, s, Apply(setup.config, s.world, action));
    }
  }

  lemma HandOverFromAny(setup: Setup, s: State, k: nat, flow: FlowDefinition, newId: RunId, raced: bool)
    requires Accounted(setup, s) && Pending(s, k) && s.handoffs[k].endpointId in setup.owners
    requires var input := InputFor(setup.owners[s.handoffs[k].endpointId], flow, s.handoffs[k].dedupKey);
      !CreateRun(s.world.db, input, newId, raced).1.Rejected?
    ensures Accounted(setup, Next(setup, s, HandOver(k, flow, newId, raced)))
  {
    hide CreateRun;
    HandOverAccounts(setup, s, k, flow, newId, raced);
  }

  lemma {:induction false} AccountedAfter(setup: Setup, start: World, events: seq<Event>)
    requires SoundSetup(setup) && forall e :: e in events ==> Orderly(e)
    ensures Accounted(setup, After(setup, start, events))
  {
    hide Next;
    if events != [] {
      var n := |events| - 1;
      assert forall e :: e in events[..n] ==> e in events;
      AccountedAfter(setup, start, events[..n]);
      hide Accounted;
      hide Orderly;
      assert events[n] in events;
      StepAccounts(setup, After(setup, start, events[..n]), events[n]);
    }
  }

  /** There is a run, and it was created for this delivery. */
  ghost predicate RunCreated(setup: Setup, s: State, endpointId: string, dedupKey: string)
    requires endpointId in setup.owners
  {
    var key := KeyFor(setup, endpointId, dedupKey);
    && key in s.world.db.idempotency && s.world.db.idempotency[key] in s.world.db.runs
    && CreatedRun(s.world.db.idempotency[key], Some(key)) in s.world.log
  }

  /**
   * Without a crash, a prune or a lost release: every recorded delivery has a
   * run that was created for it, or exactly one hand-off of it is under way, so
   * none is answered "duplicate" while nothing is going to happen.
   */
  lemma RecordedIsDelivered(setup: Setup, now: int, n: nat, events: seq<Event>, endpointId: string, dedupKey: string)
    requires SoundSetup(setup) && (forall e :: e in events ==> Orderly(e)) && endpointId in setup.owners
    requires Guard.KeyOf(endpointId, dedupKey) in After(setup, Start(now, n), events).seen
    ensures var s := After(setup, Start(now, n), events);
      RunCreated(setup, s, endpointId, dedupKey) || OneUnderWay(s, endpointId, dedupKey)
  {
    AccountedAfter(setup, Start(now, n), events);
    WorldReachable(setup, now, n, events);
    var s := After(setup, Start(now, n), events);
    hide After;
    hide Interleavings.Reachable;
    if UnderWay(s.handoffs, endpointId, dedupKey) {
      var k :| 0 <= k < |s.handoffs| && Same(s.handoffs[k], endpointId, dedupKey);
    } else {
      assert KeyTaken(setup, s, endpointId, dedupKey);
      Interleavings.KeyNamesItsRun(setup.config, s.world, KeyFor(setup, endpointId, dedupKey));
    }
  }

  /**
   * Whatever else is under way, releasing a failed hand-off lets the sender's
   * retry through, and a release that is lost turns it away.
   */
  lemma ReleaseDecidesRetry(setup: Setup, s: State, k: nat, at: int, lost: bool)
    requires Accounted(setup, s) && k < |s.handoffs| && s.handoffs[k].failed
    ensures var h := s.handoffs[k];
      var retried := Next(setup, Next(setup, s, Release(k, lost)), Arrive(h.endpointId, h.dedupKey, at));
      && (UnderWay(retried.handoffs, h.endpointId, h.dedupKey) <==> !lost)
      && retried.handoffs == Without(s.handoffs, k) + if lost then [] else [Handoff(h.endpointId, h.dedupKey, false)]
  {
    var h := s.handoffs[k];
    var released := Next(setup, s, Release(k, lost));
    var retried := Next(setup, released, Arrive(h.endpointId, h.dedupKey, at));
    WithoutApart(s.handoffs, k);
    hide Without, Apart;
    if lost {
      assert !UnderWay(released.handoffs, h.endpointId, h.dedupKey);
      assert retried.handoffs == released.handoffs + [];
    } else {
      assert Same(retried.handoffs[|released.handoffs|], h.endpointId, h.dedupKey);
    }
  }
}
