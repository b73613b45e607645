// Debounced autosave against the last acknowledged draft. A save is a message
// under way: it lands or fails later, whole. The saver and the server are played
// against each other, and what each believes of the other is followed.
module Autosave {
  import opened Options
  import opened Digraph
  import opened Canvas
  import opened Patch
  import opened PatchFidelity

  datatype SaveState = Saved | Saving | Unsaved

  /** A patch sent and not yet answered. */
  datatype Flight = Flight(target: Graph, ops: seq<PatchOp>, byFlush: bool)

  /** `promised` is whether the source still holds a send's promise. */
  datatype Saver = Saver(
    acknowledged: Graph, pending: Option<Graph>, timerArmed: bool, promised: bool,
    flights: seq<Flight>, state: SaveState)

  const FRESH := Saver(EMPTY_GRAPH, None, false, false, [], Saved)

  // ---- what each call makes of the saver ----

  function Scheduled(s: Saver, g: Graph): Saver {
    var noted := s.(pending := Some(g));
    if Diff(s.acknowledged, g) == [] then noted.(state := if s.promised then Saving else Saved)
    else noted.(state := Unsaved, timerArmed := true)
  }

  /** The part of send that runs before its await. */
  function Sent(s: Saver, byFlush: bool): Saver {
    match s.pending
    case None => s
    case Some(target) =>
      var ops := Diff(s.acknowledged, target);
      if ops == [] then s.(pending := None, state := Saved)
      else s.(pending := None, state := Saving, flights := s.flights + [Flight(target, ops, byFlush)])
  }

  function Fired(s: Saver): Saver {
    if s.timerArmed then Sent(s.(timerArmed := false), false).(promised := true) else s
  }

  /** A flush with nothing to send is over at once. */
  function Flushed(s: Saver): Saver {
    var after := Sent(s.(timerArmed := false), true);
    after.(promised := |after.flights| > |s.flights|)
  }

  function Without<T>(xs: seq<T>, k: nat): seq<T>
    requires k < |xs|
  {
    xs[..k] + xs[k + 1..]
  }

  function Landed(s: Saver, k: nat): Saver
    requires k < |s.flights|
  {
    var f := s.flights[k];
    s.(flights := Without(s.flights, k), acknowledged := f.target,
       state := if s.pending.None? then Saved else Unsaved,
       promised := if f.byFlush then false else s.promised)
  }

  function Failed(s: Saver, k: nat): Saver
    requires k < |s.flights|
  {
    s.(flights := Without(s.flights, k), state := Unsaved,
       pending := if s.pending.None? then Some(s.flights[k].target) else s.pending)
  }

  function Cancelled(s: Saver): Saver {
    s.(timerArmed := false, pending := None, state := Saved)
  }

  function Reset(s: Saver, g: Graph): Saver {
    s.(acknowledged := g, pending := None, state := Saved)
  }

  class Autosaver {
    var acknowledged: Graph
    var pending: Option<Graph>
    var timerArmed: bool
    var promised: bool
    var flights: seq<Flight>
    var state: SaveState

    ghost function View(): Saver
      reads this
    {
      Saver(acknowledged, pending, timerArmed, promised, flights, state)
    }

    constructor ()
      ensures View() == FRESH
    {
      acknowledged, pending, timerArmed, promised, flights, state := EMPTY_GRAPH, None, false, false, [], Saved;
    }

    method Schedule(g: Graph)
      modifies this
      ensures View() == Scheduled(old(View()), g)
    {
      hide Diff;
      pending := Some(g);
      var ops := DiffGraph(acknowledged, g);
      if ops == [] {
        state := if promised then Saving else Saved;
        return;
      }
      state := Unsaved;
      timerArmed := true;
    }

    method Send(byFlush: bool)
      modifies this
      ensures View() == Sent(old(View()), byFlush)
    {
      hide Diff;
      if pending.None? {
        return;
      }
      var target := pending.value;
      pending := None;
      var ops := DiffGraph(acknowledged, target);
      if ops == [] {
        state := Saved;
        return;
      }
      state := Saving;
      flights := flights + [Flight(target, ops, byFlush)];
    }

    method TimerFires()
      modifies this
      ensures View() == Fired(old(View()))
    {
      if timerArmed {
        timerArmed := false;
        Send(false);
        promised := true;
      }
    }

    method Flush()
      modifies this
      ensures View() == Flushed(old(View()))
    {
      timerArmed := false;
      var before := |flights|;
      Send(true);
      promised := |flights| > before;
    }

    method SaveLands(k: nat)
      requires k < |flights|
      modifies this
      ensures View() == Landed(old(View()), k)
    {
      var f := flights[k];
      flights := Without(flights, k);
      acknowledged := f.target;
      state := if pending.None? then Saved else Unsaved;
      if f.byFlush {
        promised := false;
      }
    }

    method SaveFails(k: nat)
      requires k < |flights|
      modifies this
      ensures View() == Failed(old(View()), k)
    {
      if pending.None? {
        pending := Some(flights[k].target);
      }
      flights := Without(flights, k);
      state := Unsaved;
    }

    method Cancel()
      modifies this
      ensures View() == Cancelled(old(View()))
    {
      timerArmed, pending, state := false, None, Saved;
    }

    method Seed(g: Graph)
      modifies this
      ensures View() == Reset(old(View()), g)
    {
      acknowledged, pending, state := g, None, Saved;
    }
  }

  // ---- a session: the saver, the server it saves to, and what the saver was told ----

  /** `latest` is the last graph told of this document, `told` those since the last send. */
  datatype Session = Session(saver: Saver, server: Graph, latest: Option<Graph>, told: seq<Graph>)

  datatype Happening =
    | Edited(g: Graph)
    | Timer
    | Flush
    | Lands(k: nat)
    | Fails(k: nat)
    | Cancel
    | Load(g: Graph)

  /** A save that lands is applied whole; one that fails is not applied at all. */
  function Next(s: Session, h: Happening): Session {
    match h
    case Edited(g) => s.(saver := Scheduled(s.saver, g), latest := Some(g), told := s.told + [g])
    case Timer => s.(saver := Fired(s.saver), told := [])
    case Flush => s.(saver := Flushed(s.saver), told := [])
    case Lands(k) =>
      if k < |s.saver.flights|
      then s.(saver := Landed(s.saver, k), server := Patched(s.server, s.saver.flights[k].ops))
      else s
    case Fails(k) => if k < |s.saver.flights| then s.(saver := Failed(s.saver, k)) else s
    case Cancel => s.(saver := Cancelled(s.saver), latest := None, told := [])
    case Load(g) => Session(Reset(s.saver, g), g, None, [])
  }

  /** Saves do not overlap, and a document is not switched under one. */
  ghost predicate Orderly(s: Session, h: Happening) {
    && (h.Timer? || h.Flush? || h.Load? ==> s.saver.flights == [])
    && (h.Edited? || h.Load? ==> Unique(h.g))
  }

  function Played(hs: seq<Happening>): Session {
    if hs == [] then Session(FRESH, EMPTY_GRAPH, None, []) else Next(Played(hs[..|hs| - 1]), hs[|hs| - 1])
  }

  ghost predicate AllOrderly(hs: seq<Happening>) {
    hs == [] || (AllOrderly(hs[..|hs| - 1]) && Orderly(Played(hs[..|hs| - 1]), hs[|hs| - 1]))
  }

  ghost predicate InStep(s: Session) {
    && Unique(s.server) && Unique(s.saver.acknowledged) && SameContent(s.server, s.saver.acknowledged)
    && (s.saver.pending.Some? ==> Unique(s.saver.pending.value))
    && |s.saver.flights| <= 1
    && (s.saver.flights != [] ==>
          (var f := s.saver.flights[0];
           s.saver.promised && Unique(f.target) && f.ops == Diff(s.saver.acknowledged, f.target)))
  }

  /** Where the last graph told of is: pending, under way, or acknowledged. */
  ghost predicate NotLost(s: Session) {
    s.latest.Some? ==>
      (|| s.saver.pending == s.latest
       || (s.saver.pending.None? && s.saver.flights != [] && s.saver.flights[0].target == s.latest.value)
       || (s.saver.pending.None? && s.saver.flights == [] && SameContent(s.saver.acknowledged, s.latest.value)))
  }

  /** The indicator says saved only of what the server has. */
  ghost predicate HonestIndicator(s: Session) {
    s.saver.state == Saved && s.latest.Some? ==> SameContent(s.saver.acknowledged, s.latest.value)
  }

  lemma SendStep(s: Session, byFlush: bool)
    requires InStep(s) && NotLost(s) && HonestIndicator(s) && s.saver.flights == []
    ensures var s' := s.(saver := Sent(s.saver, byFlush).(promised := true));
      InStep(s') && NotLost(s') && HonestIndicator(s')
  {
    hide Diff;
    hide SameContent;
    hide Unique;
    if s.saver.pending.Some? {
      assert Unique(s.saver.pending.value);
      EmptyIffSame(s.saver.acknowledged, s.saver.pending.value);
    }
  }

  lemma LandStep(s: Session, k: nat)
    requires InStep(s) && NotLost(s) && k < |s.saver.flights|
    ensures InStep(Next(s, Lands(k))) && NotLost(Next(s, Lands(k))) && HonestIndicator(Next(s, Lands(k)))
  {
    hide Diff;
    hide Patched;
    hide SameContent;
    hide Unique;
    PatchFaithful(s.server, s.saver.acknowledged, s.saver.flights[0].target);
    SameSelf(s.saver.flights[0].target);
    assert Without(s.saver.flights, k) == [];
  }

  lemma SameSelf(g: Graph)
    ensures SameContent(g, g)
  {
  }

  lemma StepInStep(s: Session, h: Happening)
    requires InStep(s) && NotLost(s) && HonestIndicator(s) && Orderly(s, h)
    ensures InStep(Next(s, h)) && NotLost(Next(s, h)) && HonestIndicator(Next(s, h))
  {
    hide Unique;
    match h {
      case Edited(g) =>
        EmptyIffSame(s.saver.acknowledged, g);
        hide Diff;
        hide SameContent;
      case Timer =>
        if s.saver.timerArmed {
          SendStep(s.(saver := s.saver.(timerArmed := false)), false);
        }
        hide Sent;
        hide SameContent;
        hide Diff;
      case Flush =>
        SendStep(s.(saver := s.saver.(timerArmed := false)), true);
        hide Diff;
        hide SameContent;
      case Lands(k) =>
        if k < |s.saver.flights| {
          LandStep(s, k);
        }
        hide Diff;
        hide Patched;
        hide SameContent;
      case Fails(k) =>
        hide SameContent;
        hide Diff;
      case Cancel =>
        hide SameContent;
        hide Diff;
      case Load(g) =>
        SameSelf(g);
        hide SameContent;
        hide Diff;
    }
  }

  /**
   * Through every orderly session: the server holds what the saver believes
   * acknowledged, the last graph told of is never dropped, and "saved" is only
   * shown of a graph the server has.
   */
  lemma {:induction false} ServerMatches(hs: seq<Happening>)
    requires AllOrderly(hs)
    ensures InStep(Played(hs)) && NotLost(Played(hs)) && HonestIndicator(Played(hs))
  {
    hide InStep;
    hide NotLost;
    hide HonestIndicator;
    hide Next;
    hide Orderly;
    if hs == [] {
      EmptySession();
    } else {
      ServerMatches(hs[..|hs| - 1]);
      StepInStep(Played(hs[..|hs| - 1]), hs[|hs| - 1]);
    }
  }

  lemma EmptySession()
    ensures var s := Session(FRESH, EMPTY_GRAPH, None, []);
      InStep(s) && NotLost(s) && HonestIndicator(s)
  {
  }

  // ---- when a pending change is sent, and when it waits ----

  /**
   * While a save is under way: what was told since is pending, and armed if any of it
   * differs from the acknowledged.
   */
  ghost predicate News(s: Session) {
    s.saver.flights != [] ==>
      && (forall f :: f in s.saver.flights ==> !SameContent(s.saver.acknowledged, f.target))
      && (s.saver.pending == if s.told == [] then None else Some(s.told[|s.told| - 1]))
      && (s.saver.timerArmed <==> exists g :: g in s.told && !SameContent(s.saver.acknowledged, g))
  }

  lemma EditNews(s: Session, g: Graph)
    requires InStep(s) && News(s) && Unique(g)
    ensures News(Next(s, Edited(g)))
  {
    EmptyIffSame(s.saver.acknowledged, g);
    hide *;
    EditNewsFrom(s, g);
  }

  lemma EditNewsFrom(s: Session, g: Graph)
    requires News(s) && (Diff(s.saver.acknowledged, g) == [] <==> SameContent(s.saver.acknowledged, g))
    ensures News(Next(s, Edited(g)))
  {
    hide Diff;
    hide SameContent;
    assert forall x :: x in s.told + [g] <==> x in s.told || x == g;
  }

  lemma SendNews(s: Session, h: Happening)
    requires InStep(s) && (h.Timer? || h.Flush?) && s.saver.flights == []
    ensures News(Next(s, h))
  {
    if s.saver.pending.Some? {
      EmptyIffSame(s.saver.acknowledged, s.saver.pending.value);
    }
    hide *;
    SendNewsFrom(s, h);
  }

  lemma SendNewsFrom(s: Session, h: Happening)
    requires (h.Timer? || h.Flush?) && s.saver.flights == []
    requires s.saver.pending.Some? ==>
      (Diff(s.saver.acknowledged, s.saver.pending.value) == [] <==>
        SameContent(s.saver.acknowledged, s.saver.pending.value))
    ensures News(Next(s, h))
  {
    hide Diff;
    hide SameContent;
  }

  lemma StepNews(s: Session, h: Happening)
    requires InStep(s) && News(s) && Orderly(s, h)
    ensures News(Next(s, h))
  {
    hide Unique;
    hide Diff;
    hide SameContent;
    hide Patched;
    match h {
      case Edited(g) => EditNews(s, g);
      case Timer => SendNews(s, h);
      case Flush => SendNews(s, h);
      case Lands(k) =>
        if k < |s.saver.flights| {
          assert Without(s.saver.flights, k) == [];
        }
      case Fails(k) =>
        if k < |s.saver.flights| {
          assert Without(s.saver.flights, k) == [];
        }
      case Cancel =>
      case Load(g) =>
    }
  }

  lemma {:induction false} AlwaysNews(hs: seq<Happening>)
    requires AllOrderly(hs)
    ensures News(Played(hs))
  {
    hide InStep;
    hide Next;
    hide Orderly;
    if hs != [] {
      AlwaysNews(hs[..|hs| - 1]);
      ServerMatches(hs[..|hs| - 1]);
      hide News;
      StepNews(Played(hs[..|hs| - 1]), hs[|hs| - 1]);
    }
  }

  /** Pending work that nothing is going to send. */
  ghost predicate Stalled(s: Saver) {
    s.pending.Some? && !SameContent(s.acknowledged, s.pending.value) && !s.timerArmed && s.flights == []
  }

  /** One save is under way, and the news since is in order. */
  ghost predicate OneUnderWay(s: Session) {
    && |s.saver.flights| == 1 && News(s)
    && forall g :: SameContent(s.saver.acknowledged, g) ==> !SameContent(s.saver.flights[0].target, g)
  }

  lemma SessionUnderWay(hs: seq<Happening>)
    requires AllOrderly(hs) && Played(hs).saver.flights != []
    ensures OneUnderWay(Played(hs))
  {
    ServerMatches(hs);
    AlwaysNews(hs);
    UnderWayFrom(Played(hs));
    hide *;
  }

  lemma UnderWayFrom(s: Session)
    requires InStep(s) && News(s) && s.saver.flights != []
    ensures OneUnderWay(s)
  {
    var ack, f := s.saver.acknowledged, s.saver.flights[0];
    assert f in s.saver.flights;
    hide Diff;
    hide Unique;
    hide SameContent;
    forall g | SameContent(ack, g)
      ensures !SameContent(f.target, g)
    {
      Distinguish(ack, f.target, g);
    }
  }

  lemma Distinguish(a: Graph, b: Graph, c: Graph)
    requires SameContent(a, c) && !SameContent(a, b)
    ensures !SameContent(b, c)
  {
    hide Alike;
    if SameContent(b, c) {
      AlikeTurns(a.nodes, b.nodes, c.nodes);
      AlikeTurns(a.edges, b.edges, c.edges);
    }
  }

  lemma AlikeTurns<T(!new)>(a: seq<T>, b: seq<T>, c: seq<T>)
    requires Alike(a, c) && Alike(b, c)
    ensures Alike(a, b)
  {
  }

  lemma LandingFrom(s: Session)
    requires OneUnderWay(s)
    ensures Stalled(Next(s, Lands(0)).saver) <==>
      s.told != [] && forall g :: g in s.told ==> SameContent(s.saver.acknowledged, g)
    ensures Stalled(Next(s, Fails(0)).saver) <==> s.told == []
  {
    hide Diff;
    hide Patched;
    hide SameContent;
    assert Without(s.saver.flights, 0) == [];
    assert s.saver.flights[0] in s.saver.flights;
    if s.told != [] {
      assert s.told[|s.told| - 1] in s.told;
    }
  }

  /**
   * In every orderly session a save that lands leaves pending work unsent and
   * unarmed if and only if something was told while it was under way, and all of
   * that had the content acknowledged before the save.
   */
  lemma LandingStalls(hs: seq<Happening>)
    requires AllOrderly(hs) && Played(hs).saver.flights != []
    ensures var s := Played(hs);
      Stalled(Next(s, Lands(0)).saver) <==>
        s.told != [] && forall g :: g in s.told ==> SameContent(s.saver.acknowledged, g)
  {
    hide *;
    SessionUnderWay(hs);
    LandingFrom(Played(hs));
  }

  /** A save that fails waits for the next edit or flush if and only if nothing was told while it was under way. */
  lemma FailureWaits(hs: seq<Happening>)
    requires AllOrderly(hs) && Played(hs).saver.flights != []
    ensures Stalled(Next(Played(hs), Fails(0)).saver) <==> Played(hs).told == []
  {
    hide *;
    SessionUnderWay(hs);
    LandingFrom(Played(hs));
  }

  /**
   * In every orderly session, being told a graph shows "saving" with nothing
   * under way if and only if the graph has the acknowledged content and a send's
   * promise is still held though no save is under way.
   */
  lemma SavingShownExactly(hs: seq<Happening>, g: Graph)
    requires AllOrderly(hs) && Unique(g)
    ensures var s := Played(hs);
      var told := Next(s, Edited(g)).saver;
      told.state == Saving && told.flights == [] <==>
        SameContent(s.saver.acknowledged, g) && s.saver.promised && s.saver.flights == []
  {
    ServerMatches(hs);
    var s := Played(hs);
    EmptyIffSame(s.saver.acknowledged, g);
    hide Played;
    hide Diff;
    hide SameContent;
    hide Unique;
  }

  // ---- saves that overlap ----

  /** Two flushes of a document: the second is sent before the first is answered. */
  function Overlapping(base: Graph, older: Graph, newer: Graph): Session {
    var loaded := Session(FRESH.(acknowledged := base), base, None, []);
    Next(Next(Next(Next(loaded, Edited(older)), Flush), Edited(newer)), Flush)
  }

  lemma OverlappingShape(base: Graph, older: Graph, newer: Graph)
    requires Diff(base, older) != [] && Diff(base, newer) != []
    ensures var s := Overlapping(base, older, newer).saver;
      && s.flights == [Flight(older, Diff(base, older), true), Flight(newer, Diff(base, newer), true)]
      && s.acknowledged == base && s.pending.None?
  {
    hide Diff;
    assert [] + [Flight(older, Diff(base, older), true)] == [Flight(older, Diff(base, older), true)];
  }

  lemma BothLand(s: Session, older: Flight, newer: Flight, olderFirst: bool)
    requires s.saver.flights == [older, newer] && s.saver.pending.None?
    ensures var both := Next(Next(s, Lands(if olderFirst then 0 else 1)), Lands(0));
      && both.saver.flights == [] && both.saver.state == Saved
      && both.saver.acknowledged == if olderFirst then newer.target else older.target
  {
    hide Patched;
    assert Without(s.saver.flights, 0) == [newer] && Without(s.saver.flights, 1) == [older];
    assert Without([older], 0) == [] && Without([newer], 0) == [];
  }

  /**
   * Of two overlapping flushes, the draft that counts as acknowledged in the end
   * is the newer one if and only if the older landed first, or they are alike.
   */
  lemma OverlapAcknowledges(base: Graph, older: Graph, newer: Graph, olderFirst: bool)
    requires Unique(base) && Unique(older) && Unique(newer) && !SameContent(base, older) && !SameContent(base, newer)
    ensures var s := Overlapping(base, older, newer);
      var both := Next(Next(s, Lands(if olderFirst then 0 else 1)), Lands(0));
      && both.saver.flights == [] && both.saver.state == Saved
      && (SameContent(both.saver.acknowledged, newer) <==> olderFirst || SameContent(older, newer))
  {
    EmptyIffSame(base, older);
    EmptyIffSame(base, newer);
    SameSelf(newer);
    hide *;
    OverlappingShape(base, older, newer);
    var first, second := Flight(older, Diff(base, older), true), Flight(newer, Diff(base, newer), true);
    BothLand(Overlapping(base, older, newer), first, second, olderFirst);
  }

  // ---- where the source falls short ----

  /** A loaded document, edited, with the edit's save under way. */
  function SendingEdit(before: Graph, after: Graph): Session {
    Next(Next(Session(FRESH.(acknowledged := before), before, None, []), Edited(after)), Timer)
  }

  lemma SendingShape(before: Graph, after: Graph)
    requires Unique(before) && Unique(after) && !SameContent(before, after)
    ensures var s := SendingEdit(before, after).saver;
      && s.flights == [Flight(after, Diff(before, after), false)]
      && s.acknowledged == before && s.promised && !s.timerArmed
  {
    EmptyIffSame(before, after);
    hide *;
    SendingFrom(before, after);
  }

  lemma SendingFrom(before: Graph, after: Graph)
    requires Diff(before, after) != []
    ensures var s := SendingEdit(before, after).saver;
      && s.flights == [Flight(after, Diff(before, after), false)]
      && s.acknowledged == before && s.promised && !s.timerArmed
  {
    hide Diff;
  }

  /** Undoing a change while its save is under way: the undo is noted, but nothing is armed to send it. */
  lemma UndoDuringSaveStalls(before: Graph, after: Graph)
    requires Unique(before) && Unique(after) && !SameContent(before, after)
    ensures var s := Next(Next(SendingEdit(before, after), Edited(before)), Lands(0)).saver;
      && s.state == Unsaved && s.pending == Some(before) && s.acknowledged == after
      && !s.timerArmed && s.flights == []
  {
    hide *;
    SendingShape(before, after);
    SameSelf(before);
    EmptyIffSame(before, before);
    UndoneFrom(SendingEdit(before, after), before, after);
  }

  lemma UndoneFrom(s: Session, before: Graph, after: Graph)
    requires |s.saver.flights| == 1 && s.saver.flights[0].target == after && !s.saver.timerArmed && s.saver.promised
    requires s.saver.acknowledged == before && Diff(before, before) == []
    ensures var r := Next(Next(s, Edited(before)), Lands(0)).saver;
      && r.state == Unsaved && r.pending == Some(before) && r.acknowledged == after
      && !r.timerArmed && r.flights == []
  {
    hide Diff;
    hide Patched;
  }

  /** After one debounced save, scheduling an unchanged graph shows "saving" with nothing under way. */
  lemma SavingSticks(before: Graph, after: Graph)
    requires Unique(before) && Unique(after) && !SameContent(before, after)
    ensures var s := Next(Next(SendingEdit(before, after), Lands(0)), Edited(after)).saver;
      s.state == Saving && s.flights == [] && !s.timerArmed && s.acknowledged == after
  {
    hide *;
    SendingShape(before, after);
    SameSelf(after);
    EmptyIffSame(after, after);
    RescheduledFrom(SendingEdit(before, after), before, after);
  }

  lemma RescheduledFrom(s: Session, before: Graph, after: Graph)
    requires |s.saver.flights| == 1 && s.saver.flights[0] == Flight(after, Diff(before, after), false)
    requires !s.saver.timerArmed && s.saver.promised && Diff(after, after) == []
    ensures var r := Next(Next(s, Lands(0)), Edited(after)).saver;
      r.state == Saving && r.flights == [] && !r.timerArmed && r.acknowledged == after
  {
    hide Diff;
    hide Patched;
  }

  // ---- what the calls promise ----

  lemma TimerSends(s: Session, g: Graph)
    requires Diff(s.saver.acknowledged, g) != []
    ensures var told := Next(s, Edited(g));
      && told.saver.flights == s.saver.flights && told.saver.timerArmed && told.saver.state == Unsaved
      && var sent := Next(told, Timer);
         && sent.saver.flights == s.saver.flights + [Flight(g, Diff(s.saver.acknowledged, g), false)]
         && sent.saver.pending.None? && !sent.saver.timerArmed && sent.saver.state == Saving
         && Next(sent, Timer) == sent
  {
    hide Diff;
  }

  /** A flush does not wait for the timer, and leaves it nothing to do. */
  lemma FlushSends(s: Session, g: Graph)
    requires s.saver.pending == Some(g) && Diff(s.saver.acknowledged, g) != []
    ensures var sent := Next(s, Flush);
      && sent.saver.flights == s.saver.flights + [Flight(g, Diff(s.saver.acknowledged, g), true)]
      && sent.saver.pending.None? && !sent.saver.timerArmed && sent.saver.state == Saving
      && Next(sent, Timer) == sent
  {
    hide Diff;
  }

  /** A graph that was loaded is what the saver starts from: nothing drawn before it is sent any more. */
  lemma LoadStartsOver(s: Session, g: Graph)
    ensures var loaded := Next(s, Load(g));
      && loaded.server == g && loaded.saver.acknowledged == g && loaded.saver.state == Saved
      && Next(loaded, Timer).saver.flights == s.saver.flights && Next(loaded, Flush).saver.flights == s.saver.flights
  {
    hide Diff;
  }

  /** What was cancelled is never sent. */
  lemma CancelSilences(s: Session)
    ensures var quiet := Next(s, Cancel);
      && quiet.saver.flights == s.saver.flights && quiet.saver.state == Saved
      && Next(quiet, Timer).saver.flights == s.saver.flights && Next(quiet, Flush).saver.flights == s.saver.flights
  {
    hide Diff;
  }
}
