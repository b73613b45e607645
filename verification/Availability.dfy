// A reference the validator lets through has a value when its step runs.
module Availability {
  import opened Options
  import opened Digraph
  import opened Canvas
  import opened GraphAlgebra
  import opened GraphEditing
  import opened References
  import opened Validation
  import opened Publishing
  import opened Compiler
  import opened CompileFlow
  import opened EngineTypes
  import opened EngineRows
  import opened GraphMeaning
  import B = Branching
  import World
  import TokenGuarantees
  import Meaning

  // ---- the context a step is given ----

  lemma {:induction false} UpstreamOutside(steps: seq<StepRow>, id: NodeId)
    requires forall i :: 0 <= i < |steps| && InUpstream(steps[i]) ==> steps[i].nodeId != id
    ensures id !in Upstream(steps)
  {
    if steps != [] {
      UpstreamOutside(steps[..|steps| - 1], id);
    }
  }

  /** With one row per node, the context maps every finished step to its own output and nothing else. */
  lemma {:induction false} UpstreamExact(steps: seq<StepRow>, i: nat)
    requires i < |steps| && forall j, k :: 0 <= j < k < |steps| ==> steps[j].nodeId != steps[k].nodeId
    ensures steps[i].nodeId in Upstream(steps) <==> steps[i].status.Succeeded? || steps[i].status.SkippedResumed?
    ensures steps[i].nodeId in Upstream(steps) ==> Upstream(steps)[steps[i].nodeId] == steps[i].output
    decreases |steps|
  {
    var n := |steps| - 1;
    if i < n {
      UpstreamExact(steps[..n], i);
      assert steps[i].nodeId != steps[n].nodeId;
    } else {
      UpstreamOutside(steps[..n], steps[n].nodeId);
    }
  }

  // ---- one way in: ancestors lie on the walk ----

  ghost predicate SingleEntry(es: Arrows) {
    forall a, b, v :: (a, v) in es && (b, v) in es ==> a == b
  }

  lemma DrawnSingleEntry(g: Graph)
    requires OnePerInput(g.edges) && NoTargetHandles(g.edges)
    ensures SingleEntry(Wires(g.edges))
  {
    forall a, b, v | (a, v) in Wires(g.edges) && (b, v) in Wires(g.edges)
      ensures a == b
    {
      var e :| e in g.edges && (e.source, e.target) == (a, v);
      var f :| f in g.edges && (f.source, f.target) == (b, v);
      OneWayIn(g, e, f);
    }
  }

  lemma WalkArrow(flow: FlowDefinition, steps: seq<StepRow>, path: seq<nat>, k: nat)
    requires IsWalk(flow, steps, path) && k + 1 < |path|
    ensures (flow.nodes[path[k]].id, flow.nodes[path[k + 1]].id) in B.ArrowsOf(flow.edges)
    ensures steps[path[k]].status.Succeeded?
  {
    assert HandsOver(flow.edges, flow.nodes[path[k]].id, steps[path[k]].output, flow.nodes[path[k + 1]].id);
    var e :| e in flow.edges && e.src == flow.nodes[path[k]].id && e.dst == flow.nodes[path[k + 1]].id;
    assert (e.src, e.dst) in B.ArrowsOf(flow.edges);
  }

  lemma NothingBeforeFirst(es: Arrows, ids: seq<Node>, x: (Node, Node))
    requires ids != [] && Distinct(ids) && Topological(es, ids) && x in es && x.0 in ids
    ensures x.1 != ids[0]
  {
    var i :| 0 <= i < |ids| && ids[i] == x.0;
    var j :| i < j < |ids| && ids[j] == x.1;
  }

  lemma ArrowsStayListed(flow: FlowDefinition, x: (Node, Node))
    requires WellShaped(flow) && x in B.ArrowsOf(flow.edges)
    ensures x.0 in NodeIds(flow.nodes) && x.1 in NodeIds(flow.nodes)
  {
    var e :| e in flow.edges && (e.src, e.dst) == x;
  }

  /** When nothing joins, whatever reaches a node of the walk is an earlier node of the walk. */
  lemma {:induction false} AncestorOnWalk(flow: FlowDefinition, steps: seq<StepRow>, path: seq<nat>, k: nat, a: Node)
    returns (m: nat)
    requires WellShaped(flow) && IsWalk(flow, steps, path) && SingleEntry(B.ArrowsOf(flow.edges))
    requires k < |path| && ReachesByArrow(B.ArrowsOf(flow.edges), a, flow.nodes[path[k]].id)
    ensures m < k && flow.nodes[path[m]].id == a
    decreases k
  {
    var es, ids := B.ArrowsOf(flow.edges), NodeIds(flow.nodes);
    var c := ReachesLast(es, a, flow.nodes[path[k]].id);
    ArrowsStayListed(flow, (c, flow.nodes[path[k]].id));
    NothingBeforeFirst(es, ids, (c, flow.nodes[path[k]].id));
    assert flow.nodes[path[k]].id != ids[path[0]];
    WalkArrow(flow, steps, path, k - 1);
    assert c == flow.nodes[path[k - 1]].id;
    ReachesFirst(es, a, c);
    if a == c {
      m := k - 1;
    } else {
      m := AncestorOnWalk(flow, steps, path, k - 1, a);
    }
  }

  /** Every ancestor of the node the walk stands at has succeeded and is in the context. */
  lemma AncestorsDone(flow: FlowDefinition, steps: seq<StepRow>, path: seq<nat>, a: Node) returns (j: nat)
    requires WellShaped(flow) && OnWalk(flow, steps, path) && SingleEntry(B.ArrowsOf(flow.edges))
    requires ReachesByArrow(B.ArrowsOf(flow.edges), a, flow.nodes[path[|path| - 1]].id)
    ensures j < path[|path| - 1] < |steps|
    ensures steps[j].nodeId == a && steps[j].status.Succeeded?
    ensures a in Upstream(steps) && Upstream(steps)[a] == steps[j].output
  {
    var m := AncestorOnWalk(flow, steps, path, |path| - 1, a);
    WalkArrow(flow, steps, path, m);
    WalkIncreases(flow, steps, path);
    j := path[m];
    forall x, y | 0 <= x < y < |steps|
      ensures steps[x].nodeId != steps[y].nodeId
    {
      assert NodeIds(flow.nodes)[x] != NodeIds(flow.nodes)[y];
    }
    UpstreamExact(steps, j);
  }

  // ---- the theorem ----

  /** What the editor built, the validator passed and the compiler accepted. */
  ghost predicate Published(edits: seq<Edit>, required: map<string, seq<string>>, flow: FlowDefinition) {
    var g := Edited(edits);
    && FreshAdds(edits) && Unhandled(edits)
    && Publishable(g, required) && Tidy(g)
    && Accepted(g) && Faithful(g, flow)
  }

  lemma PublishedShape(edits: seq<Edit>, required: map<string, seq<string>>, flow: FlowDefinition)
    requires Published(edits, required, flow)
    ensures WellShaped(flow)
    ensures B.ArrowsOf(flow.edges) == Wires(Edited(edits).edges)
    ensures SingleEntry(B.ArrowsOf(flow.edges))
  {
    var g := Edited(edits);
    EditedSound(edits);
    EditedNoHandles(edits);
    DrawnSingleEntry(g);
    TidyWellShaped(g, flow);
    FaithfulFacts(g, flow);
    SameArrows(g.edges, flow.edges);
    hide *;
  }

  /** A mentioned step of a publishable graph is an ancestor. */
  lemma MentionedReaches(g: Graph, required: map<string, seq<string>>, n: CanvasNode, id: Node)
    requires Publishable(g, required) && n in g.nodes && NodeMentions(n, id)
    ensures ReachesByArrow(Wires(g.edges), id, n.id)
  {
    assert ReferencesRunBefore(g, n);
  }

  /** A run of the flow's own rows, never resumed, nothing paused, its branches answered. */
  ghost predicate Unbent(flow: FlowDefinition, run: Run) {
    && run.attemptGroup == 0 && (forall s :: s in run.steps ==> !Paused(s))
    && RowsFollow(flow, run.steps) && Meaning.Answered(flow, run.steps)
  }

  lemma PublishedStraight(cfg: World.Config, run: Run, edits: seq<Edit>, required: map<string, seq<string>>)
    requires run.versionId in cfg.flows && Published(edits, required, cfg.flows[run.versionId])
    requires Unbent(cfg.flows[run.versionId], run)
    ensures Meaning.Straight(cfg, run)
  {
    PublishedShape(edits, required, cfg.flows[run.versionId]);
    hide WellShaped;
    hide Published;
  }

  lemma MentionedDone(flow: FlowDefinition, steps: seq<StepRow>, path: seq<nat>, i: nat,
                      edits: seq<Edit>, required: map<string, seq<string>>, n: CanvasNode, id: Node)
    returns (j: nat)
    requires Published(edits, required, flow) && OnWalk(flow, steps, path)
    requires i < |steps| && steps[i].status.Running?
    requires n in Edited(edits).nodes && n.id == steps[i].nodeId && NodeMentions(n, id)
    ensures j < i && steps[j].nodeId == id && steps[j].status.Succeeded?
    ensures id in Upstream(steps) && Upstream(steps)[id] == steps[j].output
  {
    PublishedShape(edits, required, flow);
    MentionedReaches(Edited(edits), required, n, id);
    OnlyLastIsBusy(flow, steps, path, i);
    hide Published;
    hide WellShaped;
    hide NodeMentions;
    hide ReachesByArrow;
    hide Upstream;
    j := AncestorsDone(flow, steps, path, id);
  }

  /**
   * While a step executes in a run that was never resumed, has nothing paused
   * and whose branches answered, every step its config refers to has succeeded before it and its
   * output is in the context the handler is given.
   */
  lemma ReferencesAvailable(cfg: World.Config, world: World.World, r: RunId, i: nat,
                            edits: seq<Edit>, required: map<string, seq<string>>, n: CanvasNode, id: Node)
    returns (j: nat)
    requires TokenGuarantees.DisciplinedReach(cfg, world)
    requires r in world.db.runs && world.db.runs[r].versionId in cfg.flows
    requires Published(edits, required, cfg.flows[world.db.runs[r].versionId])
    requires Unbent(cfg.flows[world.db.runs[r].versionId], world.db.runs[r])
    requires i < |world.db.runs[r].steps| && world.db.runs[r].steps[i].status.Running?
    requires n in Edited(edits).nodes && n.id == world.db.runs[r].steps[i].nodeId && NodeMentions(n, id)
    ensures var steps := world.db.runs[r].steps;
      && j < i && steps[j].nodeId == id && steps[j].status.Succeeded?
      && id in Upstream(steps) && Upstream(steps)[id] == steps[j].output
  {
    hide *;
    PublishedStraight(cfg, world.db.runs[r], edits, required);
    var path := Meaning.ClaimsWalkTheGraph(cfg, world, r);
    j := MentionedDone(cfg.flows[world.db.runs[r].versionId], world.db.runs[r].steps, path, i, edits, required, n, id);
  }
}
