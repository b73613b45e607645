// What a drawn edge means once the drawing runs.
module DrawnRuns {
  import opened Options
  import opened Digraph
  import opened Canvas
  import opened Compiler
  import opened CompileFlow
  import opened Conditions
  import opened GraphMeaning
  import opened EngineTypes
  import opened EngineRows
  import opened EngineDb
  import opened World
  import B = Branching
  import ErrorClasses
  import Backoff
  import Failures
  import Safety
  import Meaning
  import Publishing
  import TokenGuarantees

  /** The edge a finished step leads along: the decided arm of a branch, or the plain edge of anything else. */
  predicate LeadsAlong(e: CanvasEdge, output: Option<Output>) {
    if e.sourceHandle == Some("yes") then output == Some(Decision(B.YesArm))
    else if e.sourceHandle == Some("no") then output == Some(Decision(B.NoArm))
    else true
  }

  /** A drawn arm that was not decided for. */
  predicate Declined(e: CanvasEdge, output: Option<Output>) {
    (e.sourceHandle == Some("yes") || e.sourceHandle == Some("no")) && !LeadsAlong(e, output)
  }

  lemma DrawnHandsOver(g: Graph, flow: FlowDefinition, e: CanvasEdge, output: Option<Output>)
    requires EdgesDrawn(g.edges, flow.edges) && e in g.edges && LeadsAlong(e, output)
    ensures HandsOver(flow.edges, e.source, output, e.target)
  {
    var f := Publishing.CompiledTo(g.edges, flow.edges, e);
  }

  /** A succeeded row that still leads somewhere has the next node of the walk behind it. */
  lemma NextOnWalk(flow: FlowDefinition, steps: seq<StepRow>, path: seq<nat>, i: nat, u: Node) returns (k: nat)
    requires WellShaped(flow) && OnWalk(flow, steps, path)
    requires i < |steps| && steps[i].status.Succeeded?
    requires HandsOver(flow.edges, flow.nodes[i].id, steps[i].output, u)
    ensures k + 1 < |path| && path[k] == i && flow.nodes[path[k + 1]].id == u
  {
    SucceededOnPath(flow, steps, path, i);
    k :| 0 <= k < |path| && path[k] == i;
    hide *;
    GoesOn(flow, steps, path, k, u);
    ShapeAt(flow, i);
    HandsOverUnique(flow.edges, flow.nodes[i].id, steps[i].output, flow.nodes[path[k + 1]].id, u);
  }

  lemma SucceededOnPath(flow: FlowDefinition, steps: seq<StepRow>, path: seq<nat>, i: nat)
    requires OnWalk(flow, steps, path) && i < |steps| && steps[i].status.Succeeded?
    ensures i in path && |steps| == |flow.nodes|
  {
    hide IsEnd, HandsOver, RowsFollow;
  }

  lemma GoesOn(flow: FlowDefinition, steps: seq<StepRow>, path: seq<nat>, k: nat, u: Node)
    requires OnWalk(flow, steps, path) && k < |path| && path[k] < |steps| == |flow.nodes|
    requires steps[path[k]].status.Succeeded?
    requires HandsOver(flow.edges, flow.nodes[path[k]].id, steps[path[k]].output, u)
    ensures k + 1 < |path| && path[k + 1] < |steps|
    ensures HandsOver(flow.edges, flow.nodes[path[k]].id, steps[path[k]].output, flow.nodes[path[k + 1]].id)
  {
    NotAnEnd(flow.edges, flow.nodes[path[k]].id, steps[path[k]].output, u);
    hide IsEnd, HandsOver, RowsFollow, OffPath;
  }

  lemma NotAnEnd(edges: seq<B.FlowEdge>, v: Node, output: Option<Output>, u: Node)
    requires HandsOver(edges, v, output, u)
    ensures !IsEnd(edges, v)
  {
  }

  lemma ShapeAt(flow: FlowDefinition, i: nat)
    requires WellShaped(flow) && i < |flow.nodes|
    ensures NodeShape(flow.edges, flow.nodes[i].id)
  {
    var ids := NodeIds(flow.nodes);
    hide NodeShape;
    assert ids[i] in ids;
  }

  /**
   * Once a step of a compiled drawing has succeeded, the step its drawn edge
   * leads to is the next one of the run's walk: behind a branch that decided yes
   * the target of the edge drawn from its "yes" handle, behind one that decided
   * no that of the "no" handle, behind any other step that of its only edge.
   */
  lemma DrawnEdgeIsFollowed(cfg: Config, world: World, r: RunId, g: Graph, i: nat, e: CanvasEdge)
    returns (path: seq<nat>, k: nat)
    requires TokenGuarantees.DisciplinedReach(cfg, world)
    requires r in world.db.runs && Meaning.Straight(cfg, world.db.runs[r])
    requires Faithful(g, cfg.flows[world.db.runs[r].versionId])
    requires var steps := world.db.runs[r].steps;
      && i < |steps| && steps[i].status.Succeeded?
      && e in g.edges && e.source == steps[i].nodeId && LeadsAlong(e, steps[i].output)
    ensures var flow, steps := cfg.flows[world.db.runs[r].versionId], world.db.runs[r].steps;
      && OnWalk(flow, steps, path) && Meaning.ClaimedAlong(steps, path, Meaning.DistinctClaims(world.log, r))
      && k + 1 < |path| && path[k] == i && steps[path[k + 1]].nodeId == e.target
  {
    var flow, steps := cfg.flows[world.db.runs[r].versionId], world.db.runs[r].steps;
    StraightParts(cfg, world.db.runs[r]);
    FaithfulEdges(g, flow);
    path := Meaning.ClaimsWalkTheGraph(cfg, world, r);
    WalkRows(flow, steps, path);
    hide *;
    DrawnHandsOver(g, flow, e, steps[i].output);
    k := NextOnWalk(flow, steps, path, i, e.target);
  }

  lemma StraightParts(cfg: Config, run: Run)
    requires Meaning.Straight(cfg, run)
    ensures run.versionId in cfg.flows && WellShaped(cfg.flows[run.versionId])
  {
  }

  lemma FaithfulEdges(g: Graph, flow: FlowDefinition)
    requires Faithful(g, flow)
    ensures EdgesDrawn(g.edges, flow.edges) && B.ArrowsOf(flow.edges) == Wires(g.edges)
  {
    Publishing.SameArrows(g.edges, flow.edges);
  }

  lemma WalkRows(flow: FlowDefinition, steps: seq<StepRow>, path: seq<nat>)
    requires OnWalk(flow, steps, path)
    ensures |steps| == |flow.nodes| && path != []
    ensures forall i :: 0 <= i < |steps| ==> steps[i].nodeId == flow.nodes[i].id
    ensures forall k :: 0 <= k < |path| ==> path[k] < |steps|
  {
  }

  // ---- the arm not taken ----

  lemma {:induction false} WalkReaches(flow: FlowDefinition, steps: seq<StepRow>, path: seq<nat>, k: nat, m: nat)
    requires IsWalk(flow, steps, path) && k <= m < |path|
    ensures Reaches(B.ArrowsOf(flow.edges), flow.nodes[path[k]].id, flow.nodes[path[m]].id)
    decreases m - k
  {
    var es := B.ArrowsOf(flow.edges);
    if k == m {
      ReachesSelf(es, flow.nodes[path[k]].id);
    } else {
      WalkReaches(flow, steps, path, k, m - 1);
      assert path[m] == path[m - 1 + 1];
      var a, b := flow.nodes[path[m - 1]].id, flow.nodes[path[m]].id;
      var f :| f in flow.edges && f.src == a && f.dst == b;
      assert (f.src, f.dst) in es;
      ReachesArrow(es, a, b);
      ReachesTrans(es, flow.nodes[path[k]].id, a, b);
    }
  }

  /** A row behind row i in the graph that the walk's next node does not reach is off the walk for good. */
  lemma OffTheWalk(flow: FlowDefinition, steps: seq<StepRow>, path: seq<nat>, k: nat, j: nat)
    requires WellShaped(flow) && OnWalk(flow, steps, path) && k + 1 < |path| && path[k] < j < |steps|
    requires !Reaches(B.ArrowsOf(flow.edges), flow.nodes[path[k + 1]].id, flow.nodes[j].id)
    ensures steps[j].status.Skipped?
  {
    var es, c := B.ArrowsOf(flow.edges), path[|path| - 1];
    WalkIncreases(flow, steps, path);
    if j in path {
      var m :| 0 <= m < |path| && path[m] == j;
      assert m > k;
      WalkReaches(flow, steps, path, k + 1, m);
    }
    WalkReaches(flow, steps, path, k + 1, |path| - 1);
    if flow.nodes[j].id in Ahead(flow, c) {
      ReachFromMember(es, {flow.nodes[c].id}, flow.nodes[j].id);
      ReachesTrans(es, flow.nodes[path[k + 1]].id, flow.nodes[c].id, flow.nodes[j].id);
    }
    hide IsEnd, IsWalk, WellShaped, Reaches;
  }

  /** The head of an arm that was declined is skipped, unless the step decided for leads to it as well. */
  lemma DeclinedArmIsSkipped(cfg: Config, world: World, r: RunId, g: Graph, i: nat, e: CanvasEdge, d: CanvasEdge,
                             j: nat)
    requires TokenGuarantees.DisciplinedReach(cfg, world)
    requires r in world.db.runs && Meaning.Straight(cfg, world.db.runs[r])
    requires Faithful(g, cfg.flows[world.db.runs[r].versionId])
    requires var steps := world.db.runs[r].steps;
      && i < |steps| && steps[i].status.Succeeded?
      && e in g.edges && e.source == steps[i].nodeId && LeadsAlong(e, steps[i].output)
      && d in g.edges && d.source == steps[i].nodeId && Declined(d, steps[i].output)
      && j < |steps| && steps[j].nodeId == d.target && !Reaches(Wires(g.edges), e.target, d.target)
    ensures world.db.runs[r].steps[j].status.Skipped?
  {
    var flow, steps := cfg.flows[world.db.runs[r].versionId], world.db.runs[r].steps;
    var path, k := DrawnEdgeIsFollowed(cfg, world, r, g, i, e);
    StraightParts(cfg, world.db.runs[r]);
    FaithfulEdges(g, flow);
    WalkRows(flow, steps, path);
    hide *;
    DrawnLater(g, flow, d, i, j);
    OffTheWalk(flow, steps, path, k, j);
  }

  lemma DrawnLater(g: Graph, flow: FlowDefinition, d: CanvasEdge, i: nat, j: nat)
    requires WellShaped(flow) && B.ArrowsOf(flow.edges) == Wires(g.edges)
    requires d in g.edges && i < |flow.nodes| && j < |flow.nodes|
    requires flow.nodes[i].id == d.source && flow.nodes[j].id == d.target
    ensures i < j
  {
    var ids := NodeIds(flow.nodes);
    assert (d.source, d.target) in B.ArrowsOf(flow.edges);
    assert ids[i] == d.source && ids[j] == d.target;
  }

  // ---- the branch step ----

  /** What the branch handler makes of its condition: the arm, or a step that is broken for good. */
  function BranchOutcome(result: ConditionResult): Outcome {
    match result
    case Value(holds) => Success(Some(Decision(if holds then B.YesArm else B.NoArm)))
    case Unreadable(_) => Failure(ErrorClasses.Poison, None)
    case Diverges => Failure(ErrorClasses.Internal, None)
  }

  /** The edge drawn from "yes" is followed exactly if the condition held, the one drawn from "no" if it did not. */
  lemma ConditionChoosesEdge(cfg: Config, world: World, r: RunId, g: Graph, i: nat, e: CanvasEdge, holds: bool)
    returns (path: seq<nat>, k: nat)
    requires TokenGuarantees.DisciplinedReach(cfg, world)
    requires r in world.db.runs && Meaning.Straight(cfg, world.db.runs[r])
    requires Faithful(g, cfg.flows[world.db.runs[r].versionId])
    requires var steps := world.db.runs[r].steps;
      && i < |steps| && steps[i].status.Succeeded? && BranchOutcome(Value(holds)) == Success(steps[i].output)
      && e in g.edges && e.source == steps[i].nodeId && e.sourceHandle == Some(if holds then "yes" else "no")
    ensures var flow, steps := cfg.flows[world.db.runs[r].versionId], world.db.runs[r].steps;
      && OnWalk(flow, steps, path) && Meaning.ClaimedAlong(steps, path, Meaning.DistinctClaims(world.log, r))
      && k + 1 < |path| && path[k] == i && steps[path[k + 1]].nodeId == e.target
  {
    path, k := DrawnEdgeIsFollowed(cfg, world, r, g, i, e);
    hide *;
  }

  /** A condition that cannot be read fails its step for good, once, with one dead letter. */
  lemma UnreadableIsDeadLettered(cfg: Config, world: World, w: WorkerId, reason: Reason, draw: Backoff.Draw)
    requires Safety.Inv(world) && Failures.OwnsItsRow(world, w)
    requires world.db.runs[world.workers[w].phase.runId].versionId in cfg.flows
    ensures var p, db := world.workers[w].phase, world.db;
      var s := db.runs[p.runId].steps[p.step];
      var next := Apply(cfg, world, Record(w, BranchOutcome(Unreadable(reason)), draw));
      && IsStep(next.db, p.runId, p.step) && FinallyFailed(next.db.runs[p.runId].steps[p.step])
      && next.db.dlq == db.dlq + [DlqEntry(p.runId, s.nodeId, PoisonInput, ErrorClasses.Poison, s.key, false)]
  {
    Failures.FailureRecorded(cfg, world, w, ErrorClasses.Poison, None, draw);
    var p := world.workers[w].phase;
    var flow := cfg.flows[world.db.runs[p.runId].versionId];
    var next := Apply(cfg, world, Record(w, Failure(ErrorClasses.Poison, None), draw));
    hide Safety.Inv, Apply, Failures.FailureLanded;
    PoisonLanded(world.db, next.db, p.runId, p.step, Failures.SafeToRepeat(flow, p.row.nodeId), draw, cfg.policy);
  }

  lemma PoisonLanded(a: Db, b: Db, r: RunId, i: nat, idempotent: bool, draw: Backoff.Draw,
                     policy: Backoff.BackoffPolicy)
    requires IsStep(a, r, i) && IsStep(b, r, i)
    requires Failures.FailureLanded(a, b, r, i, ErrorClasses.Poison, idempotent, None, draw, policy)
    ensures FinallyFailed(b.runs[r].steps[i])
    ensures var s := a.runs[r].steps[i];
      b.dlq == a.dlq + [DlqEntry(r, s.nodeId, PoisonInput, ErrorClasses.Poison, s.key, false)]
  {
  }
}
