// compileFlow itself, in the order the source runs its checks.
module CompileFlow {
  import opened Options
  import opened Digraph
  import opened Canvas
  import opened Compiler
  import opened CompilerWalk
  import Branching
  import EngineTypes
  import NodeDefects
  import Texts

  predicate HasLoop(ps: seq<Problem>) {
    exists p :: p in ps && p.LoopsBack?
  }

  lemma HasLoopConcat(a: seq<Problem>, b: seq<Problem>)
    ensures HasLoop(a + b) <==> HasLoop(a) || HasLoop(b)
  {
    if p :| p in a && p.LoopsBack? {
      assert p in a + b;
    }
    if p :| p in b && p.LoopsBack? {
      assert p in a + b;
    }
  }

  /** What one check contributes: nothing, or the one problem it names. */
  lemma OneNoLoop(c: bool, p: Problem)
    requires !p.LoopsBack?
    ensures !HasLoop(if c then [p] else [])
  {
  }

  lemma ShapeNoLoop(edges: seq<CanvasEdge>, n: CanvasNode)
    ensures !HasLoop(ShapeProblems(edges, n))
  {
    hide HasLoop, ArmCount, OutEdges, DataText, Texts.Trim;
    var out := OutEdges(edges, n.id);
    var yes, no := ArmCount(out, "yes"), ArmCount(out, "no");
    var blank := Texts.Trim(DataText(n, "condition")) == "";
    OneNoLoop(|out| > 1, TooManyNext(n.id));
    OneNoLoop(yes != 1 || no != 1, BadArms(n.id, yes, no));
    OneNoLoop(blank, NoCondition(n.id));
    HasLoopConcat(
      if yes != 1 || no != 1 then [BadArms(n.id, yes, no)] else [],
      if blank then [NoCondition(n.id)] else []);
  }

  lemma ConfigNoLoop(n: CanvasNode)
    ensures !HasLoop(ConfigProblems(n))
  {
    hide HasLoop, DataText, TemplateText, Texts.Trim;
    OneNoLoop(true, NoExecutor(n.id));
    var noTo := n.kind == "email" && DataText(n, "to") == "";
    var noBody := n.kind == "email" && Texts.Trim(DataText(n, "body")) == "";
    var noTemplate := n.kind == "transform" && Texts.Trim(TemplateText(n)) == "";
    var noUrl := n.kind == "http" && DataText(n, "url") == "";
    OneNoLoop(noTo, NoRecipient(n.id));
    OneNoLoop(noBody, NoBody(n.id));
    OneNoLoop(noTemplate, NoTemplate(n.id));
    OneNoLoop(noUrl, NoUrl(n.id));
    var a := if noTo then [NoRecipient(n.id)] else [];
    var b := if noBody then [NoBody(n.id)] else [];
    var c := if noTemplate then [NoTemplate(n.id)] else [];
    var d := if noUrl then [NoUrl(n.id)] else [];
    HasLoopConcat(a, b);
    HasLoopConcat(a + b, c);
    HasLoopConcat(a + b + c, d);
  }

  // ---- the checks, in loops ----

  predicate Known(nodes: seq<CanvasNode>, id: Node) {
    exists n :: n in nodes && n.id == id
  }

  lemma KnownIds(nodes: seq<CanvasNode>)
    ensures forall id :: id in IdSet(nodes) <==> Known(nodes, id)
  {
  }

  /** One of the first i edges has this loose end. */
  predicate LooseBefore(g: Graph, i: nat, p: Problem)
    requires i <= |g.edges|
  {
    match p
    case StartsNowhere(id) => exists k :: 0 <= k < i && g.edges[k].id == id && !Known(g.nodes, g.edges[k].source)
    case EndsNowhere(id) => exists k :: 0 <= k < i && g.edges[k].id == id && !Known(g.nodes, g.edges[k].target)
    case _ => false
  }

  lemma LooseEndExactly(g: Graph, p: Problem)
    ensures LooseBefore(g, |g.edges|, p) <==> LooseEnd(g, p)
  {
    assert forall k :: 0 <= k < |g.edges| ==> g.edges[k] in g.edges;
  }

  method DanglingProblems(g: Graph) returns (problems: seq<Problem>)
    ensures problems == [] <==> forall e :: e in g.edges ==> !Dangling(g, e)
    ensures forall p :: p in problems <==> LooseEnd(g, p)
  {
    problems := [];
    KnownIds(g.nodes);
    hide Known;
    for i := 0 to |g.edges|
      invariant problems == [] <==> forall k :: 0 <= k < i ==> !Dangling(g, g.edges[k])
      invariant forall p :: p in problems <==> LooseBefore(g, i, p)
    {
      var e := g.edges[i];
      if e.source !in IdSet(g.nodes) {
        problems := problems + [StartsNowhere(e.id)];
      }
      if e.target !in IdSet(g.nodes) {
        problems := problems + [EndsNowhere(e.id)];
      }
    }
    forall p
      ensures p in problems <==> LooseEnd(g, p)
    {
      LooseEndExactly(g, p);
    }
  }

  /** A further beginning among the first i, or a first one that is no trigger. */
  predicate EntryDefect(entries: seq<CanvasNode>, i: nat, p: Problem)
    requires 1 <= i <= |entries|
  {
    match p
    case NotConnected(id) => exists k :: 1 <= k < i && entries[k].id == id
    case NotATrigger(id) => id == entries[0].id && entries[0].kind != "trigger"
    case _ => false
  }

  method EntryProblems(entries: seq<CanvasNode>) returns (problems: seq<Problem>)
    requires entries != []
    ensures problems == [] <==> |entries| == 1 && entries[0].kind == "trigger"
    ensures !HasLoop(problems)
    ensures forall p :: p in problems <==> EntryDefect(entries, |entries|, p)
  {
    problems := [];
    for i := 1 to |entries|
      invariant |problems| == i - 1
      invariant !HasLoop(problems)
      invariant forall p :: p in problems <==> p.NotConnected? && EntryDefect(entries, i, p)
    {
      HasLoopConcat(problems, [NotConnected(entries[i].id)]);
      problems := problems + [NotConnected(entries[i].id)];
    }
    if entries[0].kind != "trigger" {
      HasLoopConcat(problems, [NotATrigger(entries[0].id)]);
      problems := problems + [NotATrigger(entries[0].id)];
    }
  }

  method CheckShapes(edges: seq<CanvasEdge>, chain: seq<CanvasNode>, before: seq<Problem>)
    returns (problems: seq<Problem>)
    ensures problems == [] <==> before == [] && forall n :: n in chain ==> ShapeProblems(edges, n) == []
    ensures HasLoop(problems) <==> HasLoop(before)
    ensures forall p :: p in problems <==> p in before || exists n :: n in chain && p in ShapeProblems(edges, n)
  {
    hide ShapeProblems;
    hide HasLoop;
    problems := before;
    for i := 0 to |chain|
      invariant forall p :: p in problems <==>
        p in before || exists k :: 0 <= k < i && p in ShapeProblems(edges, chain[k])
      invariant problems == [] <==> before == [] && forall k :: 0 <= k < i ==> ShapeProblems(edges, chain[k]) == []
      invariant HasLoop(problems) <==> HasLoop(before)
    {
      HasLoopConcat(problems, ShapeProblems(edges, chain[i]));
      ShapeNoLoop(edges, chain[i]);
      problems := problems + ShapeProblems(edges, chain[i]);
    }
  }

  predicate Blamed(ps: seq<Problem>, id: Node) {
    exists p :: p in ps && NodeOf(p) == Some(id)
  }

  /** One of the first i nodes was not reached, and nothing was said of it before. */
  predicate Missed(nodes: seq<CanvasNode>, seen: set<Node>, before: seq<Problem>, i: nat, p: Problem)
    requires i <= |nodes|
  {
    && p.Unreachable? && p.nodeId !in seen && !Blamed(before, p.nodeId)
    && exists k :: 0 <= k < i && nodes[k].id == p.nodeId
  }

  lemma BlamedSoFar(nodes: seq<CanvasNode>, seen: set<Node>, before: seq<Problem>, i: nat, problems: seq<Problem>,
                    id: Node)
    requires i <= |nodes| && forall p :: p in problems <==> p in before || Missed(nodes, seen, before, i, p)
    ensures Blamed(problems, id) <==> Blamed(before, id) || Missed(nodes, seen, before, i, Unreachable(id))
  {
    if Missed(nodes, seen, before, i, Unreachable(id)) {
      assert Unreachable(id) in problems;
    }
    hide Missed;
    forall p | p in problems && p !in before && NodeOf(p) == Some(id)
      ensures p == Unreachable(id)
    {
      MissedIsUnreachable(nodes, seen, before, i, p);
    }
  }

  lemma MissedIsUnreachable(nodes: seq<CanvasNode>, seen: set<Node>, before: seq<Problem>, i: nat, p: Problem)
    requires i <= |nodes| && Missed(nodes, seen, before, i, p)
    ensures p.Unreachable? && NodeOf(p) == Some(p.nodeId)
  {
  }

  method CheckReached(nodes: seq<CanvasNode>, seen: set<Node>, before: seq<Problem>) returns (problems: seq<Problem>)
    ensures problems == [] <==> before == [] && forall n :: n in nodes ==> n.id in seen
    ensures HasLoop(problems) <==> HasLoop(before)
    ensures forall p :: p in problems <==> p in before || Missed(nodes, seen, before, |nodes|, p)
  {
    hide HasLoop;
    problems := before;
    for i := 0 to |nodes|
      invariant forall p :: p in problems <==> p in before || Missed(nodes, seen, before, i, p)
      invariant problems == [] <==> before == [] && forall k :: 0 <= k < i ==> nodes[k].id in seen
      invariant HasLoop(problems) <==> HasLoop(before)
    {
      BlamedSoFar(nodes, seen, before, i, problems, nodes[i].id);
      if nodes[i].id !in seen && !Blamed(problems, nodes[i].id) {
        HasLoopConcat(problems, [Unreachable(nodes[i].id)]);
        assert !HasLoop([Unreachable(nodes[i].id)]) by { OneNoLoop(true, Unreachable(nodes[i].id)); }
        problems := problems + [Unreachable(nodes[i].id)];
      }
    }
  }

  method CheckConfigs(edges: seq<CanvasEdge>, chain: seq<CanvasNode>, before: seq<Problem>)
    returns (problems: seq<Problem>)
    ensures problems == [] <==> before == [] && forall n :: n in chain ==> ConfigProblems(n) == []
    ensures HasLoop(problems) <==> HasLoop(before)
    ensures forall p :: p in problems <==> p in before || exists n :: n in chain && p in ConfigProblems(n)
  {
    hide ConfigProblems;
    hide HasLoop;
    problems := before;
    for i := 0 to |chain|
      invariant forall p :: p in problems <==> p in before || exists k :: 0 <= k < i && p in ConfigProblems(chain[k])
      invariant problems == [] <==> before == [] && forall k :: 0 <= k < i ==> ConfigProblems(chain[k]) == []
      invariant HasLoop(problems) <==> HasLoop(before)
    {
      HasLoopConcat(problems, ConfigProblems(chain[i]));
      ConfigNoLoop(chain[i]);
      problems := problems + ConfigProblems(chain[i]);
    }
  }

  // ---- what the finished walk means ----

  /** The walk from the entry saw exactly what the entry reaches, and met a loop iff there is one. */
  lemma WalkComplete(es: Arrows, nodes: seq<CanvasNode>, entry: Node, t: Trail)
    requires TrailOk(es, nodes, entry, t) && t.onPath == {} && entry in t.seen
    ensures forall v :: v in t.seen <==> Reaches(es, entry, v)
    ensures t.cyclic <==> LoopBelow(es, entry)
  {
    assert Closed(es, t.seen);
    forall v | Reaches(es, entry, v)
      ensures v in t.seen
    {
      ReachStaysClosed(es, t.seen, entry, v);
    }
    if LoopBelow(es, entry) && !t.cyclic {
      var v :| Reaches(es, entry, v) && ReachesByArrow(es, v, v);
      var n :| n in t.chain && n.id == v;
      var i :| 0 <= i < |t.chain| && t.chain[i] == n;
      assert Ids(t.chain)[i] == v;
      var a, b := CycleOnOrder(es, Ids(t.chain), v);
    }
  }

  /** What a successful compilation is: the graph's own nodes, each once, entry first, everything in order. */
  ghost predicate Faithful(g: Graph, flow: EngineTypes.FlowDefinition) {
    var order := seq(|flow.nodes|, i requires 0 <= i < |flow.nodes| => flow.nodes[i].id);
    && flow.nodes != [] && |EntryPoints(g)| == 1
    && flow.nodes[0].id == EntryPoints(g)[0].id
    && Distinct(order)
    && (forall n :: n in flow.nodes ==> exists c :: c in g.nodes && NodeDrawn(c, n))
    && (forall c :: c in g.nodes ==> c.id in order)
    && Topological(Wires(g.edges), order)
    && Acyclic(Wires(g.edges))
    && (forall v :: v in order ==> Reaches(Wires(g.edges), order[0], v))
    && EdgesDrawn(g.edges, flow.edges)
  }

  lemma {:induction false} FlowEdgesAll(edges: seq<CanvasEdge>, included: set<Node>)
    requires forall e :: e in edges ==> e.source in included && e.target in included
    ensures |FlowEdges(edges, included)| == |edges|
    ensures forall i :: 0 <= i < |edges| ==> FlowEdges(edges, included)[i] == ToFlowEdge(edges[i])
  {
    if edges != [] {
      FlowEdgesAll(edges[1..], included);
    }
  }

  lemma EdgesKept(g: Graph, included: set<Node>, flowEdges: seq<Branching.FlowEdge>)
    requires forall e :: e in g.edges ==> e.source in included && e.target in included
    requires flowEdges == FlowEdges(g.edges, included)
    ensures EdgesDrawn(g.edges, flowEdges)
  {
    FlowEdgesAll(g.edges, included);
    hide EdgeDrawn;
    forall i | 0 <= i < |g.edges|
      ensures EdgeDrawn(g.edges[i], flowEdges[i])
    {
      CompiledEdgeDrawn(g.edges[i]);
    }
  }

  lemma NodesKept(nodes: seq<CanvasNode>, chain: seq<CanvasNode>)
    requires forall n :: n in chain ==> n in nodes
    ensures forall n :: n in FlowNodes(chain) ==> exists c :: c in nodes && NodeDrawn(c, n)
  {
    hide NodeDrawn;
    forall n | n in FlowNodes(chain)
      ensures exists c :: c in nodes && NodeDrawn(c, n)
    {
      var i :| 0 <= i < |chain| && FlowNodes(chain)[i] == n;
      assert chain[i] in chain;
      CompiledNodeDrawn(chain[i]);
    }
  }

  lemma EverySourceListed(g: Graph, order: seq<Node>)
    requires forall e :: e in g.edges ==> !Dangling(g, e)
    requires forall c :: c in g.nodes ==> c.id in order
    ensures forall e :: e in Wires(g.edges) ==> e.0 in order
    ensures forall e :: e in g.edges ==> e.source in order && e.target in order
  {
    forall e | e in g.edges
      ensures e.source in order && e.target in order
    {
      assert !Dangling(g, e);
      var a :| a in g.nodes && a.id == e.source;
      var b :| b in g.nodes && b.id == e.target;
    }
    forall e | e in Wires(g.edges)
      ensures e.0 in order
    {
      var f :| f in g.edges && (f.source, f.target) == e;
    }
  }

  lemma CompiledFaithful(g: Graph, t: Trail, flow: EngineTypes.FlowDefinition)
    requires forall e :: e in g.edges ==> !Dangling(g, e)
    requires |EntryPoints(g)| == 1
    requires TrailOk(Wires(g.edges), g.nodes, EntryPoints(g)[0].id, t) && t.onPath == {} && !t.cyclic
    requires t.chain != [] && t.chain[0].id == EntryPoints(g)[0].id
    requires forall n :: n in g.nodes ==> n.id in t.seen
    requires flow.nodes == FlowNodes(t.chain) && flow.edges == FlowEdges(g.edges, IdSet(t.chain))
    ensures Faithful(g, flow)
  {
    var es := Wires(g.edges);
    var order := seq(|flow.nodes|, i requires 0 <= i < |flow.nodes| => flow.nodes[i].id);
    assert order == Ids(t.chain);
    ListedIds(t.chain);
    EverySourceListed(g, order);
    TopologicalAcyclic(es, order);
    NodesKept(g.nodes, t.chain);
    EdgesKept(g, IdSet(t.chain), flow.edges);
    hide Acyclic;
    hide Topological;
    hide FlowEdges;
    hide EntryPoints;
    hide EdgesDrawn;
    hide NodeDrawn;
    hide Wires;
  }

  lemma ListedIds(chain: seq<CanvasNode>)
    ensures forall id :: id in Ids(chain) <==> id in IdSet(chain)
  {
    if chain != [] {
      IdsPrepend(chain[0], chain);
    }
  }

  lemma SameIdSameNode(g: Graph, m: CanvasNode, n: CanvasNode)
    requires DistinctIds(g) && m in g.nodes && n in g.nodes && m.id == n.id
    ensures m == n
  {
    var i :| 0 <= i < |g.nodes| && g.nodes[i] == m;
    var j :| 0 <= j < |g.nodes| && g.nodes[j] == n;
    assert Ids(g.nodes)[i] == Ids(g.nodes)[j];
  }

  /** With distinct ids the walk's nodes are the graph's nodes, so the per-node checks covered them all. */
  lemma ChainCoversGraph(g: Graph, t: Trail, entry: Node)
    requires DistinctIds(g) && TrailOk(Wires(g.edges), g.nodes, entry, t) && t.onPath == {}
    requires forall n :: n in g.nodes ==> n.id in t.seen
    ensures forall n :: n in t.chain <==> n in g.nodes
  {
    forall n | n in g.nodes
      ensures n in t.chain
    {
      var m :| m in t.chain && m.id == n.id;
      SameIdSameNode(g, m, n);
    }
  }

  lemma AcceptedMeans(g: Graph)
    requires g.nodes != [] && EntryPoints(g) != [] && forall e :: e in g.edges ==> !Dangling(g, e)
    ensures Accepted(g) <==>
      && |EntryPoints(g)| == 1 && EntryPoints(g)[0].kind == "trigger" && !CycleBelow(g, EntryPoints(g)[0].id)
      && (forall n :: n in g.nodes ==> Reaches(Wires(g.edges), EntryPoints(g)[0].id, n.id))
      && (forall n :: n in g.nodes ==> Fit(g.edges, n))
  {
    hide Reaches;
    hide CycleBelow;
    hide Wires;
    hide EntryPoints;
    hide Fit;
  }

  /** The checks, read off a finished walk, say what Accepted says. */
  lemma AcceptedIff(g: Graph, t: Trail)
    requires DistinctIds(g) && g.nodes != [] && EntryPoints(g) != [] && forall e :: e in g.edges ==> !Dangling(g, e)
    requires var entry := EntryPoints(g)[0].id;
      TrailOk(Wires(g.edges), g.nodes, entry, t) && t.onPath == {} && entry in t.seen
    ensures Accepted(g) <==>
      && |EntryPoints(g)| == 1 && EntryPoints(g)[0].kind == "trigger" && !t.cyclic
      && (forall n :: n in t.chain ==> ShapeProblems(g.edges, n) == [])
      && (forall n :: n in g.nodes ==> n.id in t.seen)
      && (forall n :: n in t.chain ==> ConfigProblems(n) == [])
  {
    AcceptedMeans(g);
    forall n
      ensures ShapeProblems(g.edges, n) == [] && ConfigProblems(n) == [] <==> Fit(g.edges, n)
    {
      NodeDefects.FitExactly(g.edges, n);
    }
    hide ShapeProblems, ConfigProblems, Fit;
    WalkComplete(Wires(g.edges), g.nodes, EntryPoints(g)[0].id, t);
    if forall n :: n in g.nodes ==> n.id in t.seen {
      ChainCoversGraph(g, t, EntryPoints(g)[0].id);
    }
    assert CycleBelow(g, EntryPoints(g)[0].id) <==> t.cyclic;
    hide *;
  }

  // ---- every problem is reported, and nothing else ----

  lemma ChainIsReached(g: Graph, t: Trail, entry: Node)
    requires DistinctIds(g) && TrailOk(Wires(g.edges), g.nodes, entry, t) && t.onPath == {} && entry in t.seen
    ensures forall n :: n in t.chain <==> n in g.nodes && n.id in t.seen
  {
    forall n | n in g.nodes && n.id in t.seen
      ensures n in t.chain
    {
      var m :| m in t.chain && m.id == n.id;
      SameIdSameNode(g, m, n);
    }
  }

  /** The node problems of what the walk listed. */
  predicate ChainReports(g: Graph, chain: seq<CanvasNode>, p: Problem) {
    exists n :: n in chain && (p in ShapeProblems(g.edges, n) || p in ConfigProblems(n))
  }

  lemma ChainReportsDefects(g: Graph, chain: seq<CanvasNode>, seen: set<Node>, p: Problem)
    requires forall n :: n in chain <==> n in g.nodes && n.id in seen
    ensures ChainReports(g, chain, p) <==> exists n :: n in g.nodes && n.id in seen && NodeDefect(g.edges, n, p)
  {
    forall n
      ensures p in ShapeProblems(g.edges, n) || p in ConfigProblems(n) <==> NodeDefect(g.edges, n, p)
    {
      NodeDefects.ShapeReported(g.edges, n, p);
      NodeDefects.ConfigReported(g.edges, n, p);
      hide ShapeProblems, ConfigProblems, Leaving, LeavingBy, BlankText, TemplateBlank, DataText;
    }
    hide ShapeProblems, ConfigProblems, NodeDefect;
  }

  /** Nobody but a further beginning is blamed without being reached. */
  lemma BlamedEntries(g: Graph, shapes: seq<Problem>, chain: seq<CanvasNode>, seen: set<Node>, cyclic: bool, id: Node)
    requires DistinctIds(g) && EntryPoints(g) != [] && EntryPoints(g)[0].id in seen && id !in seen
    requires forall n :: n in chain ==> n.id in seen
    requires forall p :: p in shapes && NodeOf(p) == Some(id) ==>
      EntryDefect(EntryPoints(g), |EntryPoints(g)|, p) || exists n :: n in chain && p in ShapeProblems(g.edges, n)
    requires forall p :: EntryDefect(EntryPoints(g), |EntryPoints(g)|, p) ==> p in shapes
    requires exists n :: n in g.nodes && n.id == id
    ensures Blamed(shapes, id) <==> !Targeted(g, id)
  {
    hide ShapeProblems, DistinctIds;
    KnownEntries(g);
    hide EntryPoints, Targeted;
    var entries := EntryPoints(g);
    if !Targeted(g, id) {
      var n :| n in g.nodes && n.id == id;
      assert n in entries;
      var k :| 0 <= k < |entries| && entries[k] == n;
      assert EntryDefect(entries, |entries|, NotConnected(id));
      assert NotConnected(id) in shapes && NodeOf(NotConnected(id)) == Some(id);
    }
    if Blamed(shapes, id) {
      var p :| p in shapes && NodeOf(p) == Some(id);
      if EntryDefect(entries, |entries|, p) {
        assert forall k :: 0 <= k < |entries| ==> entries[k] in entries;
      } else {
        var n :| n in chain && p in ShapeProblems(g.edges, n);
        ShapeNames(g.edges, n, p);
      }
    }
  }

  lemma KnownEntries(g: Graph)
    ensures forall n :: n in EntryPoints(g) <==> n in g.nodes && !Targeted(g, n.id)
  {
  }

  lemma ShapeNames(edges: seq<CanvasEdge>, n: CanvasNode, p: Problem)
    requires p in ShapeProblems(edges, n)
    ensures NodeOf(p) == Some(n.id)
  {
    hide OutEdges, ArmCount, Texts.Trim, DataText;
  }

  /** The three sorts of defects, apart. */
  lemma DefectCases(g: Graph, p: Problem)
    requires EntryPoints(g) != []
    ensures FlowDefect(g, p) <==>
      || EntryDefect(EntryPoints(g), |EntryPoints(g)|, p)
      || (p.Unreachable? && (exists n :: n in g.nodes && n.id == p.nodeId) && Targeted(g, p.nodeId)
          && !Reaches(Wires(g.edges), EntryPoints(g)[0].id, p.nodeId))
      || (exists n :: n in g.nodes && Reaches(Wires(g.edges), EntryPoints(g)[0].id, n.id) && NodeDefect(g.edges, n, p))
  {
    assert forall n :: NodeDefect(g.edges, n, p) ==> !p.NotConnected? && !p.NotATrigger? && !p.Unreachable?;
    hide NodeDefect, Reaches, Wires, EntryPoints;
  }

  lemma ReportsExactly(g: Graph, t: Trail, shapes: seq<Problem>, final: seq<Problem>, p: Problem)
    requires DistinctIds(g) && EntryPoints(g) != [] && !p.LoopsBack?
    requires var entry := EntryPoints(g)[0].id;
      TrailOk(Wires(g.edges), g.nodes, entry, t) && t.onPath == {} && entry in t.seen
    requires forall q: Problem :: !q.LoopsBack? ==>
      (q in shapes <==> EntryDefect(EntryPoints(g), |EntryPoints(g)|, q)
                        || exists n :: n in t.chain && q in ShapeProblems(g.edges, n))
    requires forall q: Problem :: q in shapes && q.LoopsBack? ==> NodeOf(q).value in t.seen
    requires p in final <==>
      p in shapes || Missed(g.nodes, t.seen, shapes, |g.nodes|, p) || exists n :: n in t.chain && p in ConfigProblems(n)
    ensures p in final <==> FlowDefect(g, p)
  {
    hide TrailOk, Reaches, Wires, ShapeProblems, ConfigProblems, Blamed, Missed, EntryPoints, DistinctIds;
    hide NodeDefect, FlowDefect, Targeted, LoopBelow;
    var entry := EntryPoints(g)[0].id;
    WalkComplete(Wires(g.edges), g.nodes, entry, t);
    ChainIsReached(g, t, entry);
    ChainReportsDefects(g, t.chain, t.seen, p);
    assert forall n :: n in t.chain ==> n.id in t.seen;
    if p.Unreachable? && p.nodeId !in t.seen && exists n :: n in g.nodes && n.id == p.nodeId {
      BlamedEntries(g, shapes, t.chain, t.seen, t.cyclic, p.nodeId);
    }
    MissedExactly(g, t.seen, shapes, p);
    DefectCases(g, p);
  }

  lemma MissedExactly(g: Graph, seen: set<Node>, shapes: seq<Problem>, p: Problem)
    ensures Missed(g.nodes, seen, shapes, |g.nodes|, p) <==>
      && p.Unreachable? && p.nodeId !in seen && !Blamed(shapes, p.nodeId)
      && exists n :: n in g.nodes && n.id == p.nodeId
  {
    hide Blamed;
    assert forall k :: 0 <= k < |g.nodes| ==> g.nodes[k] in g.nodes;
  }

  lemma AllReported(g: Graph, t: Trail, walked: seq<Problem>, shapes: seq<Problem>, final: seq<Problem>)
    requires EntryPoints(g) != []
    requires var entry := EntryPoints(g)[0].id;
      && TrailOk(Wires(g.edges), g.nodes, entry, t) && t.onPath == {} && entry in t.seen
      && (forall p :: p in walked && p.LoopsBack? ==> OnLoop(Wires(g.edges), entry, p.nodeId))
    requires forall p: Problem :: !p.LoopsBack? ==>
      (p in walked <==> EntryDefect(EntryPoints(g), |EntryPoints(g)|, p))
    requires forall p :: p in shapes <==> p in walked || exists n :: n in t.chain && p in ShapeProblems(g.edges, n)
    requires forall p :: p in final <==>
      (p in shapes || Missed(g.nodes, t.seen, shapes, |g.nodes|, p)) || exists n ::
        n in t.chain && p in ConfigProblems(n)
    ensures ReportsDefects(g, final)
  {
    var entry := EntryPoints(g)[0].id;
    WalkComplete(Wires(g.edges), g.nodes, entry, t);
    LoopsOnlyWalked(g, t, walked, shapes, final);
    hide EntryPoints, TrailOk, ShapeProblems, ConfigProblems, Missed, EntryDefect, Reaches, FlowDefect, DistinctIds;
    forall p: Problem | p in shapes && p.LoopsBack?
      ensures NodeOf(p).value in t.seen
    {
      assert p in walked;
    }
    forall p: Problem | !p.LoopsBack?
      ensures DistinctIds(g) ==> (p in final <==> FlowDefect(g, p))
    {
      if DistinctIds(g) {
        ReportsExactly(g, t, shapes, final, p);
      }
    }
  }

  lemma LoopsOnlyWalked(g: Graph, t: Trail, walked: seq<Problem>, shapes: seq<Problem>, final: seq<Problem>)
    requires forall p :: p in shapes <==> p in walked || exists n :: n in t.chain && p in ShapeProblems(g.edges, n)
    requires forall p :: p in final <==>
      (p in shapes || Missed(g.nodes, t.seen, shapes, |g.nodes|, p)) || exists n ::
        n in t.chain && p in ConfigProblems(n)
    ensures forall p :: p in final && p.LoopsBack? ==> p in walked
    ensures forall p :: p in shapes && p.LoopsBack? ==> p in walked
  {
    forall n, p: Problem | p.LoopsBack?
      ensures p !in ShapeProblems(g.edges, n) && p !in ConfigProblems(n)
    {
      ShapeNoLoop(g.edges, n);
      ConfigNoLoop(n);
      hide ShapeProblems, ConfigProblems;
    }
    hide ShapeProblems, ConfigProblems;
  }

  /** A loop is named by a step on it; of everything else, exactly what is wrong. */
  ghost predicate ReportsDefects(g: Graph, error: seq<Problem>)
    requires EntryPoints(g) != []
  {
    && (forall p :: p in error && p.LoopsBack? ==> OnLoop(Wires(g.edges), EntryPoints(g)[0].id, p.nodeId))
    && (DistinctIds(g) ==> forall p: Problem :: !p.LoopsBack? ==> (p in error <==> FlowDefect(g, p)))
  }

  /** The first stage that finds something says all it found. */
  ghost predicate Reports(g: Graph, error: seq<Problem>) {
    if g.nodes == [] then error == [EmptyFlow]
    else if exists e :: e in g.edges && Dangling(g, e) then forall p :: p in error <==> LooseEnd(g, p)
    else if EntryPoints(g) == [] then error == [NoBeginning]
    else ReportsDefects(g, error)
  }

  method Compile(g: Graph, options: CompileOptions) returns (r: Compilation)
    ensures r.Ok? ==> Faithful(g, r.value) && r.value.id == options.flowId && r.value.versionId == options.versionId
    ensures DistinctIds(g) ==> (r.Ok? <==> Accepted(g))
    ensures r.Err? ==> r.error != [] && Reports(g, r.error)
    ensures r.Err? && g.nodes != [] && (forall e :: e in g.edges ==> !Dangling(g, e)) && EntryPoints(g) != [] ==>
      (HasLoop(r.error) <==> CycleBelow(g, EntryPoints(g)[0].id))
  {
    if g.nodes == [] {
      return Err([EmptyFlow]);
    }
    var problems := DanglingProblems(g);
    if problems != [] {
      return Err(problems);
    }
    var entries := EntryPoints(g);
    if entries == [] {
      return Err([NoBeginning]);
    }
    problems := EntryProblems(entries);
    r := CompileFrom(g, options, entries[0], problems);
  }

  /** From the chosen entry on: walk, then check what was walked. */
  method CompileFrom(g: Graph, options: CompileOptions, entry: CanvasNode, before: seq<Problem>)
    returns (r: Compilation)
    requires g.nodes != [] && forall e :: e in g.edges ==> !Dangling(g, e)
    requires EntryPoints(g) != [] && entry == EntryPoints(g)[0] && !HasLoop(before)
    requires before == [] <==> |EntryPoints(g)| == 1 && entry.kind == "trigger"
    requires forall p :: p in before <==> EntryDefect(EntryPoints(g), |EntryPoints(g)|, p)
    ensures r.Err? ==> ReportsDefects(g, r.error)
    ensures r.Ok? ==> Faithful(g, r.value) && r.value.id == options.flowId && r.value.versionId == options.versionId
    ensures DistinctIds(g) ==> (r.Ok? <==> Accepted(g))
    ensures r.Err? ==> r.error != [] && (HasLoop(r.error) <==> CycleBelow(g, entry.id))
  {
    var byId := IndexById(g.nodes);
    var outgoing := GroupBySource(g.edges);
    EdgeEnds(g);
    var walk := new Walk(g.edges, byId, outgoing, before, g.nodes, entry.id);
    ReachesSelf(Wires(g.edges), entry.id);
    walk.Visit(entry);
    ghost var t := walk.Now();
    WalkComplete(Wires(g.edges), g.nodes, entry.id, t);
    LoopReported(Wires(g.edges), entry.id, before, walk.problems, walk.cyclic);
    var problems := CheckShapes(g.edges, walk.chain, walk.problems);
    ghost var shapes := problems;
    problems := CheckReached(g.nodes, walk.seen, problems);
    problems := CheckConfigs(g.edges, walk.chain, problems);
    AllReported(g, t, walk.problems, shapes, problems);
    if DistinctIds(g) {
      AcceptedIff(g, t);
    }
    hide ReportsDefects;
    hide Accepted;
    hide DistinctIds;
    hide HasLoop;
    if problems != [] {
      return Err(problems);
    }
    r := Ok(EngineTypes.FlowDefinition(options.flowId, options.versionId, FlowNodes(walk.chain),
                                       FlowEdges(g.edges, IdSet(walk.chain))));
    CompiledFaithful(g, t, r.value);
    hide *;
  }

  lemma EdgeEnds(g: Graph)
    requires forall e :: e in g.edges ==> !Dangling(g, e)
    ensures forall e :: e in g.edges ==> e.source in IndexById(g.nodes) && e.target in IndexById(g.nodes)
  {
  }

  lemma LoopReported(es: Arrows, entry: Node, before: seq<Problem>, after: seq<Problem>, cyclic: bool)
    requires !HasLoop(before) && Reported(es, entry, false, before, cyclic, after)
    ensures HasLoop(after) <==> cyclic
    ensures after == [] <==> before == [] && !cyclic
    ensures forall p: Problem :: !p.LoopsBack? ==> (p in after <==> p in before)
    ensures forall p :: p in after && p.LoopsBack? ==> OnLoop(es, entry, p.nodeId)
  {
    hide OnLoop;
    if cyclic {
      var v :| OnLoop(es, entry, v) && after == before + [LoopsBack(v)];
      assert LoopsBack(v) in after;
    }
  }
}
