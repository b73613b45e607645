// From a publishable drawing to a flow the engine can run.
module Publishing {
  import opened Options
  import opened Digraph
  import opened Canvas
  import opened GraphAlgebra
  import opened Kahn
  import opened Validation
  import opened Compiler
  import opened CompileFlow
  import opened GraphMeaning
  import B = Branching
  import EngineTypes
  import NodeDefects

  // ---- a publishable graph has no orphans ----

  lemma EntryOrTargeted(g: Graph, n: CanvasNode)
    requires n in g.nodes && |EntryPoints(g)| == 1
    ensures n == EntryPoints(g)[0] || exists e :: e in g.edges && e.target == n.id
  {
    if !Targeted(g, n.id) {
      assert n in EntryPoints(g);
    }
  }

  /** In an acyclic graph with one root, the root reaches every node. */
  lemma PublishableReachesAll(g: Graph, required: map<string, seq<string>>)
    requires Publishable(g, required)
    ensures forall n :: n in g.nodes ==> Reaches(Wires(g.edges), EntryPoints(g)[0].id, n.id)
  {
    var es, entry := Wires(g.edges), EntryPoints(g)[0].id;
    var lost := set n | n in g.nodes && !Reaches(es, entry, n.id) :: n.id;
    forall v | v in lost
      ensures HasPredecessor(es, lost, v)
    {
      LostPredecessor(g, v, lost);
    }
    if lost != {} {
      NoSourceMeansCycle(es, lost);
    }
    forall n | n in g.nodes
      ensures Reaches(es, entry, n.id)
    {
      assert n.id !in lost;
    }
  }

  lemma LostPredecessor(g: Graph, v: Node, lost: set<Node>)
    requires NoDangling(g) && |EntryPoints(g)| == 1
    requires lost == set n | n in g.nodes && !Reaches(Wires(g.edges), EntryPoints(g)[0].id, n.id) :: n.id
    requires v in lost
    ensures HasPredecessor(Wires(g.edges), lost, v)
  {
    var es, entry := Wires(g.edges), EntryPoints(g)[0].id;
    var n :| n in g.nodes && !Reaches(es, entry, n.id) && n.id == v;
    EntryOrTargeted(g, n);
    ReachesSelf(es, entry);
    var e :| e in g.edges && e.target == v;
    assert (e.source, v) in es;
    assert !Dangling(g, e);
    var m :| m in g.nodes && m.id == e.source;
    if Reaches(es, entry, m.id) {
      ReachesArrow(es, m.id, v);
      ReachesTrans(es, entry, m.id, v);
    }
    hide Reaches;
    hide EntryPoints;
    assert m.id in lost;
  }

  /** Of a publishable graph the compiler asks only for a trigger at the entry and well-formed steps. */
  lemma PublishableCompiles(g: Graph, required: map<string, seq<string>>)
    requires Publishable(g, required)
    ensures Accepted(g) <==>
      && EntryPoints(g)[0].kind == "trigger"
      && forall n :: n in g.nodes ==> Fit(g.edges, n)
  {
    PublishableReachesAll(g, required);
    assert !CycleBelow(g, EntryPoints(g)[0].id);
    hide Reaches;
    hide CycleBelow;
    hide EntryPoints;
    hide Fit;
  }

  // ---- tidy drawings compile to well-shaped flows ----

  predicate Labelled(e: CanvasEdge) {
    IsArm(e, "yes") || IsArm(e, "no")
  }

  /** Exactly the edges out of a branch carry an arm. */
  predicate Tidy(g: Graph) {
    forall e, n :: e in g.edges && n in g.nodes && n.id == e.source ==> (n.kind == "branch" <==> Labelled(e))
  }

  lemma {:induction false} OnlyArm(edges: seq<CanvasEdge>, handle: string) returns (e: CanvasEdge)
    requires ArmCount(edges, handle) == 1
    ensures e in edges && IsArm(e, handle)
    ensures forall f :: f in edges && IsArm(f, handle) ==> f == e
  {
    if IsArm(edges[0], handle) {
      e := edges[0];
      NoArm(edges[1..], handle);
    } else {
      e := OnlyArm(edges[1..], handle);
    }
    assert edges == [edges[0]] + edges[1..];
  }

  lemma {:induction false} NoArm(edges: seq<CanvasEdge>, handle: string)
    requires ArmCount(edges, handle) == 0
    ensures forall f :: f in edges ==> !IsArm(f, handle)
  {
    if edges != [] {
      NoArm(edges[1..], handle);
      assert edges == [edges[0]] + edges[1..];
    }
  }

  lemma DrawnAs(edges: seq<CanvasEdge>, flowEdges: seq<B.FlowEdge>, f: B.FlowEdge) returns (e: CanvasEdge)
    requires EdgesDrawn(edges, flowEdges) && f in flowEdges
    ensures e in edges && EdgeDrawn(e, f)
  {
    var i :| 0 <= i < |flowEdges| && flowEdges[i] == f;
    e := edges[i];
  }

  lemma CompiledTo(edges: seq<CanvasEdge>, flowEdges: seq<B.FlowEdge>, e: CanvasEdge) returns (f: B.FlowEdge)
    requires EdgesDrawn(edges, flowEdges) && e in edges
    ensures f in flowEdges && EdgeDrawn(e, f)
  {
    var i :| 0 <= i < |edges| && edges[i] == e;
    f := flowEdges[i];
  }

  lemma BranchArms(g: Graph, n: CanvasNode)
    requires n.kind == "branch" && ShapeProblems(g.edges, n) == []
    ensures ArmCount(OutEdges(g.edges, n.id), "yes") == 1 && ArmCount(OutEdges(g.edges, n.id), "no") == 1
  {
  }

  lemma BranchShape(g: Graph, n: CanvasNode, flowEdges: seq<B.FlowEdge>)
    requires EdgesDrawn(g.edges, flowEdges) && Tidy(g)
    requires n in g.nodes && n.kind == "branch" && ShapeProblems(g.edges, n) == []
    ensures IsFork(flowEdges, n.id)
  {
    BranchArms(g, n);
    var out := OutEdges(g.edges, n.id);
    hide EdgesDrawn;
    hide ShapeProblems;
    hide ArmCount;
    var yes := OnlyArm(out, "yes");
    var no := OnlyArm(out, "no");
    var y := CompiledTo(g.edges, flowEdges, yes);
    var o := CompiledTo(g.edges, flowEdges, no);
    forall f | f in flowEdges && f.src == n.id
      ensures f == y || f == o
    {
      var e := DrawnAs(g.edges, flowEdges, f);
      assert e in out && Labelled(e);
      hide OutEdges;
      DrawnArm(e, f, yes, y, no, o);
    }
    hide *;
    DrawnFork(flowEdges, yes, y, no, o);
  }

  /** An edge with one of two arms, drawn from the only edge with that arm, is that edge. */
  lemma DrawnArm(e: CanvasEdge, f: B.FlowEdge, yes: CanvasEdge, y: B.FlowEdge, no: CanvasEdge, o: B.FlowEdge)
    requires Labelled(e) && (IsArm(e, "yes") ==> e == yes) && (IsArm(e, "no") ==> e == no)
    requires EdgeDrawn(e, f) && EdgeDrawn(yes, y) && EdgeDrawn(no, o) && IsArm(yes, "yes") && IsArm(no, "no")
    ensures f == y || f == o
  {
  }

  lemma DrawnFork(flowEdges: seq<B.FlowEdge>, yes: CanvasEdge, y: B.FlowEdge, no: CanvasEdge, o: B.FlowEdge)
    requires EdgeDrawn(yes, y) && EdgeDrawn(no, o) && IsArm(yes, "yes") && IsArm(no, "no")
    requires yes.source == no.source && y in flowEdges && o in flowEdges
    requires forall f :: f in flowEdges && f.src == yes.source ==> f == y || f == o
    ensures IsFork(flowEdges, yes.source)
  {
    assert B.TwoArmed(flowEdges, yes.source, yes.target, no.target);
  }

  lemma PlainShape(g: Graph, n: CanvasNode, flowEdges: seq<B.FlowEdge>)
    requires EdgesDrawn(g.edges, flowEdges) && Tidy(g)
    requires n in g.nodes && n.kind != "branch" && ShapeProblems(g.edges, n) == []
    ensures NodeShape(flowEdges, n.id)
  {
    var out := OutEdges(g.edges, n.id);
    assert |out| <= 1;
    hide ShapeProblems;
    hide EdgesDrawn;
    if out == [] {
      forall f | f in flowEdges
        ensures f.src != n.id
      {
        var e := DrawnAs(g.edges, flowEdges, f);
        assert e !in out;
      }
      assert IsEnd(flowEdges, n.id);
    } else {
      var e0 := out[0];
      assert e0 in out && !Labelled(e0);
      forall f | f in flowEdges && f.src == n.id
        ensures f == B.FlowEdge(n.id, e0.target, None)
      {
        var e := DrawnAs(g.edges, flowEdges, f);
        assert e in out && e == e0;
      }
      var f0 := CompiledTo(g.edges, flowEdges, e0);
      assert IsThen(flowEdges, n.id, e0.target);
    }
  }

  lemma SameArrows(edges: seq<CanvasEdge>, flowEdges: seq<B.FlowEdge>)
    requires EdgesDrawn(edges, flowEdges)
    ensures B.ArrowsOf(flowEdges) == Wires(edges)
  {
    forall x | x in Wires(edges)
      ensures x in B.ArrowsOf(flowEdges)
    {
      var e :| e in edges && (e.source, e.target) == x;
      var f := CompiledTo(edges, flowEdges, e);
    }
    forall x | x in B.ArrowsOf(flowEdges)
      ensures x in Wires(edges)
    {
      var f :| f in flowEdges && (f.src, f.dst) == x;
      var e := DrawnAs(edges, flowEdges, f);
    }
  }

  lemma FlowEdgeEnds(g: Graph, flow: EngineTypes.FlowDefinition)
    requires NoDangling(g) && EdgesDrawn(g.edges, flow.edges)
    requires forall c :: c in g.nodes ==> c.id in NodeIds(flow.nodes)
    ensures forall f :: f in flow.edges ==> f.src in NodeIds(flow.nodes) && f.dst in NodeIds(flow.nodes)
  {
    EverySourceListed(g, NodeIds(flow.nodes));
    hide EdgesDrawn;
    forall f | f in flow.edges
      ensures f.src in NodeIds(flow.nodes) && f.dst in NodeIds(flow.nodes)
    {
      var e := DrawnAs(g.edges, flow.edges, f);
    }
  }

  lemma FaithfulFacts(g: Graph, flow: EngineTypes.FlowDefinition)
    requires Faithful(g, flow)
    ensures var ids := NodeIds(flow.nodes);
      && ids != [] && Distinct(ids) && Topological(Wires(g.edges), ids)
      && (forall v :: v in ids ==> Reaches(Wires(g.edges), ids[0], v))
      && (forall c :: c in g.nodes ==> c.id in ids)
    ensures EdgesDrawn(g.edges, flow.edges)
  {
    assert NodeIds(flow.nodes) == seq(|flow.nodes|, i requires 0 <= i < |flow.nodes| => flow.nodes[i].id);
    hide Topological;
    hide Reaches;
    hide Distinct;
    hide Wires;
    hide EntryPoints;
    hide Acyclic;
    hide EdgesDrawn;
    hide NodeDrawn;
  }

  lemma AllShapes(g: Graph, flow: EngineTypes.FlowDefinition)
    requires Accepted(g) && Tidy(g) && Faithful(g, flow)
    ensures forall v :: v in NodeIds(flow.nodes) ==> NodeShape(flow.edges, v)
  {
    hide *;
    forall v | v in NodeIds(flow.nodes)
      ensures NodeShape(flow.edges, v)
    {
      CompiledShape(g, flow, v);
    }
  }

  lemma AcceptedNoDangling(g: Graph)
    requires Accepted(g)
    ensures NoDangling(g)
  {
  }

  /** The compiled form of an accepted tidy drawing is one the engine's flat scheme runs faithfully. */
  lemma TidyWellShaped(g: Graph, flow: EngineTypes.FlowDefinition)
    requires Accepted(g) && Tidy(g) && Faithful(g, flow)
    ensures WellShaped(flow)
  {
    hide *;
    AllShapes(g, flow);
    AcceptedNoDangling(g);
    FaithfulFacts(g, flow);
    SameArrows(g.edges, flow.edges);
    FlowEdgeEnds(g, flow);
    ShapedWhole(flow);
  }

  lemma ShapedWhole(flow: EngineTypes.FlowDefinition)
    requires var ids, es := NodeIds(flow.nodes), B.ArrowsOf(flow.edges);
      && ids != [] && Distinct(ids) && Topological(es, ids)
      && (forall v :: v in ids ==> Reaches(es, ids[0], v))
    requires forall f :: f in flow.edges ==> f.src in NodeIds(flow.nodes) && f.dst in NodeIds(flow.nodes)
    requires forall v :: v in NodeIds(flow.nodes) ==> NodeShape(flow.edges, v)
    ensures WellShaped(flow)
  {
    hide Distinct;
    hide Topological;
    hide Reaches;
    hide NodeShape;
  }

  lemma CompiledShape(g: Graph, flow: EngineTypes.FlowDefinition, v: Node)
    requires Accepted(g) && Tidy(g) && Faithful(g, flow) && v in NodeIds(flow.nodes)
    ensures NodeShape(flow.edges, v)
  {
    var i :| 0 <= i < |flow.nodes| && flow.nodes[i].id == v;
    assert flow.nodes[i] in flow.nodes;
    var n :| n in g.nodes && NodeDrawn(n, flow.nodes[i]);
    assert EdgesDrawn(g.edges, flow.edges);
    assert Fit(g.edges, n);
    NodeDefects.FitExactly(g.edges, n);
    hide Faithful;
    hide Fit;
    hide Accepted;
    if n.kind == "branch" {
      BranchShape(g, n, flow.edges);
    } else {
      PlainShape(g, n, flow.edges);
    }
  }

  // ---- and only tidy ones do ----

  /** A node with a plain and a labelled edge has none of the three shapes. */
  lemma MixedNoShape(flowEdges: seq<B.FlowEdge>, plain: B.FlowEdge, labelled: B.FlowEdge)
    requires plain in flowEdges && labelled in flowEdges && plain.src == labelled.src
    requires plain.arm.None? && labelled.arm.Some?
    ensures !NodeShape(flowEdges, plain.src)
  {
  }

  /** Nor has a node whose only edge is labelled. */
  lemma LoneArmNoShape(flowEdges: seq<B.FlowEdge>, e: B.FlowEdge)
    requires e in flowEdges && e.arm.Some?
    requires forall f :: f in flowEdges && f.src == e.src ==> f == e
    ensures !NodeShape(flowEdges, e.src)
  {
  }

  /** An unlabelled edge out of a branch stands beside the arms. */
  lemma UntidyBranch(g: Graph, n: CanvasNode, e: CanvasEdge, flowEdges: seq<B.FlowEdge>)
    requires EdgesDrawn(g.edges, flowEdges) && ShapeProblems(g.edges, n) == []
    requires e in g.edges && e.source == n.id && n.kind == "branch" && !Labelled(e)
    ensures !NodeShape(flowEdges, n.id)
  {
    hide NodeShape;
    BranchArms(g, n);
    hide ShapeProblems;
    hide ArmCount;
    var plain := CompiledTo(g.edges, flowEdges, e);
    var yes := OnlyArm(OutEdges(g.edges, n.id), "yes");
    var labelled := CompiledTo(g.edges, flowEdges, yes);
    MixedNoShape(flowEdges, plain, labelled);
  }

  /** An arm out of anything else is the node's only edge. */
  lemma UntidyPlain(g: Graph, n: CanvasNode, e: CanvasEdge, flowEdges: seq<B.FlowEdge>)
    requires EdgesDrawn(g.edges, flowEdges) && ShapeProblems(g.edges, n) == []
    requires e in g.edges && e.source == n.id && n.kind != "branch" && Labelled(e)
    ensures !NodeShape(flowEdges, n.id)
  {
    hide NodeShape;
    var out := OutEdges(g.edges, n.id);
    assert |out| <= 1 && e in out;
    hide ShapeProblems;
    var lone := CompiledTo(g.edges, flowEdges, e);
    forall f | f in flowEdges && f.src == n.id
      ensures f == lone
    {
      var d := DrawnAs(g.edges, flowEdges, f);
      assert d in out;
    }
    LoneArmNoShape(flowEdges, lone);
  }

  /** Of the accepted drawings, exactly the tidy ones compile to a flow the flat scheme runs faithfully. */
  lemma WellShapedIffTidy(g: Graph, flow: EngineTypes.FlowDefinition)
    requires Accepted(g) && Faithful(g, flow)
    ensures WellShaped(flow) <==> Tidy(g)
  {
    FaithfulFacts(g, flow);
    if Tidy(g) {
      TidyWellShaped(g, flow);
    } else {
      var e, n :| e in g.edges && n in g.nodes && n.id == e.source && !(n.kind == "branch" <==> Labelled(e));
      hide Faithful;
      assert Fit(g.edges, n);
      NodeDefects.FitExactly(g.edges, n);
      hide Fit;
      hide Accepted;
      if n.kind == "branch" {
        UntidyBranch(g, n, e, flow.edges);
      } else {
        UntidyPlain(g, n, e, flow.edges);
      }
    }
  }
}
