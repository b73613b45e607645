// The editor's graph store: its mutators, and what every sequence of them keeps.
module GraphEditing {
  import opened Options
  import opened Digraph
  import opened Canvas
  import opened GraphAlgebra
  import opened Sieves

  // ---- what each mutator makes of the graph ----

  function KeepNodes(nodes: seq<CanvasNode>, id: Node): (r: seq<CanvasNode>)
    ensures forall n :: n in r <==> n in nodes && n.id != id
  {
    if nodes == [] then []
    else
      var n := nodes[|nodes| - 1];
      assert nodes == nodes[..|nodes| - 1] + [n];
      KeepNodes(nodes[..|nodes| - 1], id) + if n.id != id then [n] else []
  }

  function KeepEdges(edges: seq<CanvasEdge>, keep: CanvasEdge -> bool): (r: seq<CanvasEdge>)
    ensures forall e :: e in r <==> e in edges && keep(e)
  {
    if edges == [] then []
    else
      var e := edges[|edges| - 1];
      assert edges == edges[..|edges| - 1] + [e];
      KeepEdges(edges[..|edges| - 1], keep) + if keep(e) then [e] else []
  }

  function Apart(id: Node): CanvasEdge -> bool {
    (e: CanvasEdge) => e.source != id && e.target != id
  }

  function OtherThan(id: string): CanvasEdge -> bool {
    (e: CanvasEdge) => e.id != id
  }

  function At(position: Position): CanvasNode -> CanvasNode {
    (n: CanvasNode) => n.(position := position)
  }

  /** The given fields win over the stored ones; the others stay. */
  function With(data: map<string, Value>): CanvasNode -> CanvasNode {
    (n: CanvasNode) => n.(data := n.data + data)
  }

  function NodeAdded(g: Graph, node: CanvasNode): Graph {
    Graph(g.nodes + [node], g.edges)
  }

  function NodeRemoved(g: Graph, id: Node): Graph {
    Graph(KeepNodes(g.nodes, id), KeepEdges(g.edges, Apart(id)))
  }

  function Rewrite(nodes: seq<CanvasNode>, id: Node, f: CanvasNode -> CanvasNode): (r: seq<CanvasNode>)
    ensures |r| == |nodes|
    ensures forall i :: 0 <= i < |nodes| ==> r[i] == if nodes[i].id == id then f(nodes[i]) else nodes[i]
  {
    seq(|nodes|, i requires 0 <= i < |nodes| => if nodes[i].id == id then f(nodes[i]) else nodes[i])
  }

  function NodeMoved(g: Graph, id: Node, position: Position): Graph {
    Graph(Rewrite(g.nodes, id, At(position)), g.edges)
  }

  function DataUpdated(g: Graph, id: Node, data: map<string, Value>): Graph {
    Graph(Rewrite(g.nodes, id, With(data)), g.edges)
  }

  ghost function Connected(g: Graph, c: Connection): Graph {
    if RefusalOf(g, c).None? then Graph(g.nodes, g.edges + [ConnectionEdge(c)]) else g
  }

  function EdgeRemoved(g: Graph, id: string): Graph {
    Graph(g.nodes, KeepEdges(g.edges, OtherThan(id)))
  }

  class GraphStore {
    var nodes: seq<CanvasNode>
    var edges: seq<CanvasEdge>

    ghost function Contents(): Graph
      reads this
    {
      Graph(nodes, edges)
    }

    constructor (initial: Graph)
      ensures Contents() == initial
    {
      nodes, edges := initial.nodes, initial.edges;
    }

    method Snapshot() returns (g: Graph)
      ensures g == Contents()
    {
      g := Graph(nodes, edges);
    }

    method AddNode(node: CanvasNode)
      modifies this
      ensures Contents() == NodeAdded(old(Contents()), node)
    {
      nodes := nodes + [node];
    }

    /** Edges touching the node go with it. */
    method RemoveNode(id: Node)
      modifies this
      ensures Contents() == NodeRemoved(old(Contents()), id)
    {
      nodes := KeepNodes(nodes, id);
      edges := KeepEdges(edges, Apart(id));
    }

    method MoveNode(id: Node, position: Position)
      modifies this
      ensures Contents() == NodeMoved(old(Contents()), id, position)
    {
      nodes := Rewrite(nodes, id, At(position));
    }

    method UpdateNodeData(id: Node, data: map<string, Value>)
      modifies this
      ensures Contents() == DataUpdated(old(Contents()), id, data)
    {
      nodes := Rewrite(nodes, id, With(data));
    }

    method Connect(c: Connection) returns (refusal: Option<Refusal>)
      modifies this
      ensures refusal == RefusalOf(old(Contents()), c)
      ensures Contents() == Connected(old(Contents()), c)
    {
      var snapshot := Snapshot();
      refusal := CanConnect(snapshot, c);
      if refusal.None? {
        edges := edges + [ConnectionEdge(c)];
      }
    }

    method RemoveEdge(id: string)
      modifies this
      ensures Contents() == EdgeRemoved(old(Contents()), id)
    {
      edges := KeepEdges(edges, OtherThan(id));
    }

    method ReplaceGraph(g: Graph)
      modifies this
      ensures Contents() == g
    {
      nodes, edges := g.nodes, g.edges;
    }
  }

  // ---- the invariant ----

  /** At most one edge per input of a step. */
  predicate OnePerInput(edges: seq<CanvasEdge>) {
    forall i, j :: 0 <= i < j < |edges| ==> !Occupies(edges[i], edges[j].target, edges[j].targetHandle)
  }

  ghost predicate Sound(g: Graph) {
    NoDangling(g) && Acyclic(Wires(g.edges)) && OnePerInput(g.edges)
  }

  /** Without target handles, one edge per input is one edge per step. */
  predicate NoTargetHandles(edges: seq<CanvasEdge>) {
    forall e :: e in edges ==> e.targetHandle.None?
  }

  lemma OneWayIn(g: Graph, e: CanvasEdge, f: CanvasEdge)
    requires OnePerInput(g.edges) && NoTargetHandles(g.edges)
    requires e in g.edges && f in g.edges && e.target == f.target
    ensures e == f
  {
    var i :| 0 <= i < |g.edges| && g.edges[i] == e;
    var j :| 0 <= j < |g.edges| && g.edges[j] == f;
    assert i < j ==> !Occupies(g.edges[i], g.edges[j].target, g.edges[j].targetHandle);
    assert j < i ==> !Occupies(g.edges[j], g.edges[i].target, g.edges[i].targetHandle);
  }

  lemma AcyclicFewer(fewer: Arrows, es: Arrows)
    requires fewer <= es && Acyclic(es)
    ensures Acyclic(fewer)
  {
    forall v | ReachesByArrow(fewer, v, v)
      ensures ReachesByArrow(es, v, v)
    {
      var c :| (v, c) in fewer && Reaches(fewer, c, v);
      ReachesMore(fewer, es, c, v);
    }
  }

  lemma {:induction false} KeepOnePerInput(edges: seq<CanvasEdge>, keep: CanvasEdge -> bool)
    requires OnePerInput(edges)
    ensures OnePerInput(KeepEdges(edges, keep))
  {
    if edges != [] {
      var n := |edges| - 1;
      KeepOnePerInput(edges[..n], keep);
      var rest := KeepEdges(edges[..n], keep);
      forall i | 0 <= i < |rest|
        ensures !Occupies(rest[i], edges[n].target, edges[n].targetHandle)
      {
        assert rest[i] in edges[..n];
        var k :| 0 <= k < n && edges[k] == rest[i];
      }
    }
  }

  /** Taking edges away, together with the nodes nothing touches any more, keeps the graph sound. */
  lemma FewerSound(g: Graph, fewer: Graph, keep: CanvasEdge -> bool)
    requires Sound(g) && fewer.edges == KeepEdges(g.edges, keep) && NoDangling(fewer)
    ensures Sound(fewer)
  {
    KeepOnePerInput(g.edges, keep);
    assert Wires(fewer.edges) <= Wires(g.edges);
    AcyclicFewer(Wires(fewer.edges), Wires(g.edges));
  }

  lemma RemoveNodeSound(g: Graph, id: Node)
    requires Sound(g)
    ensures Sound(NodeRemoved(g, id))
  {
    var fewer := NodeRemoved(g, id);
    forall e | e in fewer.edges
      ensures !Dangling(fewer, e)
    {
      assert e in g.edges && !Dangling(g, e);
      var a :| a in g.nodes && a.id == e.source;
      var b :| b in g.nodes && b.id == e.target;
      assert a in fewer.nodes && b in fewer.nodes;
    }
    FewerSound(g, fewer, Apart(id));
  }

  lemma SameIdsSound(g: Graph, nodes: seq<CanvasNode>)
    requires Sound(g) && IdSet(g.nodes) <= IdSet(nodes)
    ensures Sound(Graph(nodes, g.edges))
  {
    forall e | e in g.edges
      ensures !Dangling(Graph(nodes, g.edges), e)
    {
      assert !Dangling(g, e);
    }
  }

  lemma RewriteIds(nodes: seq<CanvasNode>, id: Node, f: CanvasNode -> CanvasNode)
    requires forall n :: f(n).id == n.id
    ensures Ids(Rewrite(nodes, id, f)) == Ids(nodes)
    ensures IdSet(Rewrite(nodes, id, f)) == IdSet(nodes)
  {
    var r := Rewrite(nodes, id, f);
    forall v | v in IdSet(nodes)
      ensures v in IdSet(r)
    {
      var n :| n in nodes && n.id == v;
      var i :| 0 <= i < |nodes| && nodes[i] == n;
      assert r[i] in r && r[i].id == v;
    }
    forall v | v in IdSet(r)
      ensures v in IdSet(nodes)
    {
      var n :| n in r && n.id == v;
      var i :| 0 <= i < |r| && r[i] == n;
      assert nodes[i] in nodes;
    }
  }

  lemma ConnectSound(g: Graph, c: Connection)
    requires Sound(g)
    ensures Sound(Connected(g, c))
  {
    if RefusalOf(g, c).None? {
      var edge := ConnectionEdge(c);
      var more := Connected(g, c);
      WouldCreateCycleExact(g, c);
      forall e | e in more.edges
        ensures !Dangling(more, e)
      {
        assert e == edge || e in g.edges;
        assert e in g.edges ==> !Dangling(g, e);
      }
      forall i, j | 0 <= i < j < |more.edges|
        ensures !Occupies(more.edges[i], more.edges[j].target, more.edges[j].targetHandle)
      {
        assert more.edges[i] == g.edges[i] && g.edges[i] in g.edges;
        if j < |g.edges| {
          assert !Occupies(g.edges[i], g.edges[j].target, g.edges[j].targetHandle);
        }
      }
    }
  }

  // ---- every sequence of edits ----

  datatype Edit =
    | Add(node: CanvasNode)
    | Remove(id: Node)
    | Move(id: Node, position: Position)
    | Update(id: Node, data: map<string, Value>)
    | Link(connection: Connection)
    | Unlink(edgeId: string)

  ghost function ApplyEdit(g: Graph, edit: Edit): Graph {
    match edit
    case Add(node) => NodeAdded(g, node)
    case Remove(id) => NodeRemoved(g, id)
    case Move(id, position) => NodeMoved(g, id, position)
    case Update(id, data) => DataUpdated(g, id, data)
    case Link(c) => Connected(g, c)
    case Unlink(id) => EdgeRemoved(g, id)
  }

  ghost function Edited(edits: seq<Edit>): Graph {
    if edits == [] then EMPTY_GRAPH else ApplyEdit(Edited(edits[..|edits| - 1]), edits[|edits| - 1])
  }

  // ---- what an edit leaves, item by item ----

  lemma {:induction false} KeptEdges(edges: seq<CanvasEdge>, keep: CanvasEdge -> bool) returns (at: seq<nat>)
    ensures Sieved(edges, KeepEdges(edges, keep), keep, at)
  {
    if edges == [] {
      at := [];
    } else {
      hide Sieved;
      var n := |edges| - 1;
      var front := KeptEdges(edges[..n], keep);
      SievedSnoc(edges[..n], KeepEdges(edges[..n], keep), keep, front, edges[n]);
      assert edges == edges[..n] + [edges[n]];
      at := front + if keep(edges[n]) then [|edges[..n]|] else [];
    }
  }

  lemma KeepNodesLast(front: seq<CanvasNode>, n: CanvasNode, id: Node)
    ensures KeepNodes(front + [n], id) == KeepNodes(front, id) + if NotNamed(id)(n) then [n] else []
  {
    assert (front + [n])[..|front|] == front;
  }

  lemma {:induction false} KeptNodes(nodes: seq<CanvasNode>, id: Node) returns (at: seq<nat>)
    ensures Sieved(nodes, KeepNodes(nodes, id), NotNamed(id), at)
  {
    hide *;
    if nodes == [] {
      at := [];
      NothingSieved(id);
    } else {
      var n := |nodes| - 1;
      var front := KeptNodes(nodes[..n], id);
      assert nodes == nodes[..n] + [nodes[n]];
      KeepNodesLast(nodes[..n], nodes[n], id);
      SievedSnoc(nodes[..n], KeepNodes(nodes[..n], id), NotNamed(id), front, nodes[n]);
      at := front + if NotNamed(id)(nodes[n]) then [|nodes[..n]|] else [];
    }
  }

  lemma NothingSieved(id: Node)
    ensures Sieved([], KeepNodes([], id), NotNamed(id), [])
  {
  }

  function NotNamed(id: Node): CanvasNode -> bool {
    (n: CanvasNode) => n.id != id
  }

  function NotTouching(id: Node): CanvasEdge -> bool {
    (e: CanvasEdge) => !(e.source == id || e.target == id)
  }

  function NotLabelled(id: string): CanvasEdge -> bool {
    (e: CanvasEdge) => !(e.id == id)
  }

  /** Every node but those with this id, changed or not, stands where it stood. */
  predicate RestStays(a: seq<CanvasNode>, b: seq<CanvasNode>, id: Node) {
    |b| == |a| && forall i :: 0 <= i < |a| && a[i].id != id ==> b[i] == a[i]
  }

  /** Some fields of the data are given, the others stay. */
  predicate DataGiven(a: CanvasNode, b: CanvasNode, data: map<string, Value>) {
    && b.id == a.id && b.kind == a.kind && b.position == a.position && b.parentId == a.parentId
    && b.data.Keys == a.data.Keys + data.Keys
    && (forall f :: f in data ==> b.data[f] == data[f])
    && (forall f :: f in a.data && f !in data ==> b.data[f] == a.data[f])
  }

  ghost predicate EditDone(g: Graph, edit: Edit, h: Graph) {
    match edit
    case Add(node) => h.nodes == g.nodes + [node] && h.edges == g.edges
    case Remove(id) =>
      && (exists at :: Sieved(g.nodes, h.nodes, NotNamed(id), at))
      && (exists at :: Sieved(g.edges, h.edges, NotTouching(id), at))
    case Move(id, position) =>
      && h.edges == g.edges && RestStays(g.nodes, h.nodes, id)
      && forall i :: 0 <= i < |g.nodes| && g.nodes[i].id == id ==>
           h.nodes[i] == CanvasNode(id, g.nodes[i].kind, position, g.nodes[i].data, g.nodes[i].parentId)
    case Update(id, data) =>
      && h.edges == g.edges && RestStays(g.nodes, h.nodes, id)
      && forall i :: 0 <= i < |g.nodes| && g.nodes[i].id == id ==> DataGiven(g.nodes[i], h.nodes[i], data)
    case Link(c) =>
      && h.nodes == g.nodes
      && (RefusalOf(g, c).Some? ==> h.edges == g.edges)
      && (RefusalOf(g, c).None? ==>
            && |h.edges| == |g.edges| + 1 && h.edges[..|g.edges|] == g.edges
            && var e := h.edges[|g.edges|];
               e == CanvasEdge(e.id, c.source, c.target, c.sourceHandle, c.targetHandle)
               && e.id == c.source + "->" + c.target + if c.sourceHandle.Some? then ":" + c.sourceHandle.value else "")
    case Unlink(id) => h.nodes == g.nodes && exists at :: Sieved(g.edges, h.edges, NotLabelled(id), at)
  }

  /** Each edit does what it is asked for to the items it names, and leaves the others as and where they are. */
  lemma EditMeans(g: Graph, edit: Edit)
    ensures EditDone(g, edit, ApplyEdit(g, edit))
  {
    match edit {
      case Remove(id) =>
        var nodesAt := KeptNodes(g.nodes, id);
        var edgesAt := KeptEdges(g.edges, Apart(id));
        SamePass(g.edges, KeepEdges(g.edges, Apart(id)), Apart(id), NotTouching(id), edgesAt);
        hide Sieved, KeepNodes, KeepEdges;
      case Unlink(id) =>
        var at := KeptEdges(g.edges, OtherThan(id));
        SamePass(g.edges, KeepEdges(g.edges, OtherThan(id)), OtherThan(id), NotLabelled(id), at);
        hide Sieved, KeepEdges;
      case _ => hide RefusalOf;
    }
  }

  lemma EditKeepsSound(g: Graph, edit: Edit)
    requires Sound(g)
    ensures Sound(ApplyEdit(g, edit))
  {
    match edit {
      case Add(node) =>
        assert forall n :: n in g.nodes ==> n in g.nodes + [node];
        SameIdsSound(g, g.nodes + [node]);
      case Remove(id) => RemoveNodeSound(g, id);
      case Move(id, position) =>
        var f := At(position);
        RewriteIds(g.nodes, id, f);
        SameIdsSound(g, Rewrite(g.nodes, id, f));
      case Update(id, data) =>
        var f := With(data);
        RewriteIds(g.nodes, id, f);
        SameIdsSound(g, Rewrite(g.nodes, id, f));
      case Link(c) => ConnectSound(g, c);
      case Unlink(id) =>
        var keep := OtherThan(id);
        forall e | e in EdgeRemoved(g, id).edges
          ensures !Dangling(EdgeRemoved(g, id), e)
        {
          assert e in g.edges && !Dangling(g, e);
        }
        FewerSound(g, EdgeRemoved(g, id), keep);
    }
  }

  /** Whatever is drawn from an empty canvas is acyclic, free of dangling edges and single-input. */
  lemma {:induction false} EditedSound(edits: seq<Edit>)
    ensures Sound(Edited(edits))
  {
    if edits != [] {
      EditedSound(edits[..|edits| - 1]);
      EditKeepsSound(Edited(edits[..|edits| - 1]), edits[|edits| - 1]);
    } else {
      assert Wires(EMPTY_GRAPH.edges) == {};
    }
  }

  /** Every node is added under an id the graph does not hold yet. */
  ghost predicate FreshAdds(edits: seq<Edit>) {
    edits == [] ||
    (var last := edits[|edits| - 1];
     FreshAdds(edits[..|edits| - 1])
     && (last.Add? ==> last.node.id !in IdSet(Edited(edits[..|edits| - 1]).nodes)))
  }

  lemma IdsSnoc(nodes: seq<CanvasNode>, n: CanvasNode)
    requires Distinct(Ids(nodes)) && forall m :: m in nodes ==> m.id != n.id
    ensures Distinct(Ids(nodes + [n]))
  {
    assert Ids(nodes + [n]) == Ids(nodes) + [n.id];
    forall i | 0 <= i < |nodes|
      ensures Ids(nodes)[i] != n.id
    {
      assert nodes[i] in nodes;
    }
  }

  lemma DistinctFront(nodes: seq<CanvasNode>)
    requires nodes != [] && Distinct(Ids(nodes))
    ensures Distinct(Ids(nodes[..|nodes| - 1]))
    ensures forall m :: m in nodes[..|nodes| - 1] ==> m.id != nodes[|nodes| - 1].id
  {
    var n := |nodes| - 1;
    assert Ids(nodes[..n]) == Ids(nodes)[..n];
    forall m | m in nodes[..n]
      ensures m.id != nodes[n].id
    {
      var k :| 0 <= k < n && nodes[k] == m;
      assert Ids(nodes)[k] != Ids(nodes)[n];
    }
  }

  lemma {:induction false} KeepDistinct(nodes: seq<CanvasNode>, id: Node)
    requires Distinct(Ids(nodes))
    ensures Distinct(Ids(KeepNodes(nodes, id)))
  {
    if nodes != [] {
      var n := |nodes| - 1;
      DistinctFront(nodes);
      hide Ids;
      hide Distinct;
      KeepDistinct(nodes[..n], id);
      var rest := KeepNodes(nodes[..n], id);
      if nodes[n].id != id {
        assert KeepNodes(nodes, id) == rest + [nodes[n]];
        hide KeepNodes;
        IdsSnoc(rest, nodes[n]);
      } else {
        assert KeepNodes(nodes, id) == rest;
      }
    }
  }

  lemma EditKeepsDistinct(g: Graph, edit: Edit)
    requires DistinctIds(g) && (edit.Add? ==> edit.node.id !in IdSet(g.nodes))
    ensures DistinctIds(ApplyEdit(g, edit))
  {
    match edit {
      case Add(node) =>
        IdsSnoc(g.nodes, node);
      case Remove(id) => KeepDistinct(g.nodes, id);
      case Move(id, position) => RewriteIds(g.nodes, id, At(position));
      case Update(id, data) => RewriteIds(g.nodes, id, With(data));
      case Link(_) =>
      case Unlink(_) =>
    }
  }

  lemma {:induction false} EditedDistinct(edits: seq<Edit>)
    requires FreshAdds(edits)
    ensures DistinctIds(Edited(edits))
  {
    if edits != [] {
      EditedDistinct(edits[..|edits| - 1]);
      EditKeepsDistinct(Edited(edits[..|edits| - 1]), edits[|edits| - 1]);
    }
  }

  predicate Unhandled(edits: seq<Edit>) {
    forall e :: e in edits && e.Link? ==> e.connection.targetHandle.None?
  }

  lemma {:induction false} EditedNoHandles(edits: seq<Edit>)
    requires Unhandled(edits)
    ensures NoTargetHandles(Edited(edits).edges)
  {
    if edits != [] {
      var n := |edits| - 1;
      assert forall e :: e in edits[..n] ==> e in edits;
      EditedNoHandles(edits[..n]);
      assert edits[n] in edits;
    }
  }
}
