// Graph queries of the editor: reachability and connection checks.
module GraphAlgebra {
  import opened Options
  import opened Digraph
  import opened Exploration
  import opened Canvas

  // ---- adjacency ----

  function TargetsFrom(edges: seq<CanvasEdge>, v: Node): seq<Node> {
    if edges == [] then []
    else
      var e := edges[|edges| - 1];
      TargetsFrom(edges[..|edges| - 1], v) + if e.source == v then [e.target] else []
  }

  function SourcesTo(edges: seq<CanvasEdge>, v: Node): seq<Node> {
    if edges == [] then []
    else
      var e := edges[|edges| - 1];
      SourcesTo(edges[..|edges| - 1], v) + if e.target == v then [e.source] else []
  }

  lemma {:induction false} TargetsFromMember(edges: seq<CanvasEdge>, v: Node, w: Node)
    ensures w in TargetsFrom(edges, v) <==> exists e :: e in edges && e.source == v && e.target == w
  {
    if edges != [] {
      var n := |edges| - 1;
      TargetsFromMember(edges[..n], v, w);
      assert edges == edges[..n] + [edges[n]];
    }
  }

  lemma {:induction false} SourcesToMember(edges: seq<CanvasEdge>, v: Node, w: Node)
    ensures w in SourcesTo(edges, v) <==> exists e :: e in edges && e.target == v && e.source == w
  {
    if edges != [] {
      var n := |edges| - 1;
      SourcesToMember(edges[..n], v, w);
      assert edges == edges[..n] + [edges[n]];
    }
  }

  /** The arrows a forward walk follows: those that start at a known node. */
  ghost function Forward(g: Graph): Arrows {
    set e | e in g.edges && e.source in IdSet(g.nodes) :: (e.source, e.target)
  }

  /** The arrows a backward walk follows, turned around: those that end at a known node. */
  ghost function Backward(g: Graph): Arrows {
    set e | e in g.edges && e.target in IdSet(g.nodes) :: (e.target, e.source)
  }

  method EmptyLists(nodes: seq<CanvasNode>) returns (lists: Adjacency)
    ensures lists.Keys == IdSet(nodes) && forall v :: v in lists ==> lists[v] == []
  {
    lists := map[];
    for i := 0 to |nodes|
      invariant lists.Keys == IdSet(nodes[..i]) && forall v :: v in lists ==> lists[v] == []
    {
      IdSetSnoc(nodes, i);
      lists := lists[nodes[i].id := []];
    }
    assert nodes[..|nodes|] == nodes;
  }

  lemma IdSetSnoc(nodes: seq<CanvasNode>, i: nat)
    requires i < |nodes|
    ensures IdSet(nodes[..i + 1]) == IdSet(nodes[..i]) + {nodes[i].id}
  {
    assert nodes[..i + 1] == nodes[..i] + [nodes[i]];
    assert nodes[i] in nodes[..i + 1];
    assert forall n :: n in nodes[..i] ==> n in nodes[..i + 1];
  }

  method Outgoing(g: Graph) returns (lists: Adjacency)
    ensures lists.Keys == IdSet(g.nodes)
    ensures forall v :: v in lists ==> lists[v] == TargetsFrom(g.edges, v)
    ensures Links(lists) == Forward(g)
  {
    lists := EmptyLists(g.nodes);
    for i := 0 to |g.edges|
      invariant lists.Keys == IdSet(g.nodes)
      invariant forall v :: v in lists ==> lists[v] == TargetsFrom(g.edges[..i], v)
    {
      var e := g.edges[i];
      assert g.edges[..i + 1][..i] == g.edges[..i];
      if e.source in lists {
        lists := lists[e.source := lists[e.source] + [e.target]];
      }
    }
    assert g.edges[..|g.edges|] == g.edges;
    forall v, w
      ensures (v, w) in Links(lists) <==> (v, w) in Forward(g)
    {
      TargetsFromMember(g.edges, v, w);
    }
  }

  method Incoming(g: Graph) returns (lists: Adjacency)
    ensures Links(lists) == Backward(g)
  {
    lists := EmptyLists(g.nodes);
    for i := 0 to |g.edges|
      invariant lists.Keys == IdSet(g.nodes)
      invariant forall v :: v in lists ==> lists[v] == SourcesTo(g.edges[..i], v)
    {
      var e := g.edges[i];
      assert g.edges[..i + 1][..i] == g.edges[..i];
      if e.target in lists {
        lists := lists[e.target := lists[e.target] + [e.source]];
      }
    }
    assert g.edges[..|g.edges|] == g.edges;
    forall v, w
      ensures (v, w) in Links(lists) <==> (v, w) in Backward(g)
    {
      SourcesToMember(g.edges, v, w);
    }
  }

  // ---- walks ----

  method WalkFrom(adjacency: Adjacency, start: Node) returns (seen: set<Node>)
    ensures forall v :: v in seen <==> ReachesByArrow(Links(adjacency), start, v)
  {
    seen := Explore(adjacency, NextOf(adjacency, start));
    ghost var init := set v | v in NextOf(adjacency, start);
    forall v
      ensures v in seen <==> ReachesByArrow(Links(adjacency), start, v)
    {
      ReachFromMember(Links(adjacency), init, v);
      assert forall a :: a in init <==> (start, a) in Links(adjacency);
    }
  }

  /** Every node reachable from start by following edges, start only if it lies on a cycle. */
  method Descendants(g: Graph, start: Node) returns (seen: set<Node>)
    ensures forall v :: v in seen <==> ReachesByArrow(Forward(g), start, v)
  {
    var lists := Outgoing(g);
    seen := WalkFrom(lists, start);
  }

  method Ancestors(g: Graph, start: Node) returns (seen: set<Node>)
    ensures forall v :: v in seen <==> ReachesByArrow(Backward(g), start, v)
  {
    var lists := Incoming(g);
    seen := WalkFrom(lists, start);
  }

  predicate NoDangling(g: Graph) {
    forall e :: e in g.edges ==> !Dangling(g, e)
  }

  lemma SoundWires(g: Graph)
    requires NoDangling(g)
    ensures Forward(g) == Wires(g.edges) && Backward(g) == Reversed(Wires(g.edges))
  {
    var ids := IdSet(g.nodes);
    assert forall e :: e in g.edges ==> e.source in ids && e.target in ids;
    forall x | x in Reversed(Wires(g.edges))
      ensures x in Backward(g)
    {
      var y :| y in Wires(g.edges) && x == (y.1, y.0);
      var e :| e in g.edges && (e.source, e.target) == y;
    }
    forall x | x in Backward(g)
      ensures x in Reversed(Wires(g.edges))
    {
      var e :| e in g.edges && (e.target, e.source) == x;
      assert (e.source, e.target) in Wires(g.edges);
    }
  }

  /** Without dangling edges, an ancestor is what can reach the node along the edges. */
  lemma AncestorMeaning(g: Graph, v: Node, a: Node)
    requires NoDangling(g)
    ensures ReachesByArrow(Backward(g), v, a) <==> ReachesByArrow(Wires(g.edges), a, v)
  {
    SoundWires(g);
    var es := Wires(g.edges);
    if ReachesByArrow(Reversed(es), v, a) {
      var c :| (v, c) in Reversed(es) && Reaches(Reversed(es), c, a);
      ReversedReaches(es, c, a);
      assert (c, v) in es;
      assert ReachesByArrow(es, c, v) by {
        ReachesSelf(es, v);
      }
      ByArrowTrans(es, a, c, v);
    }
    if ReachesByArrow(es, a, v) {
      var c := ReachesLast(es, a, v);
      ReversedReaches(es, c, a);
      assert (v, c) in Reversed(es);
    }
  }

  // ---- connecting ----

  datatype Refusal = SelfLoop | WouldCreateCycle | DuplicateEdge | UnknownNode | HandleAlreadyUsed

  datatype Connection = Connection(
    source: Node, target: Node, sourceHandle: Option<string>, targetHandle: Option<string>)

  predicate IsDuplicate(e: CanvasEdge, c: Connection) {
    e.source == c.source && e.target == c.target && e.sourceHandle == c.sourceHandle
  }

  predicate Occupies(e: CanvasEdge, target: Node, handle: Option<string>) {
    e.target == target && e.targetHandle == handle
  }

  /** The first objection, in the order that explains most. */
  ghost function RefusalOf(g: Graph, c: Connection): Option<Refusal> {
    if c.source == c.target then Some(SelfLoop)
    else if c.source !in IdSet(g.nodes) || c.target !in IdSet(g.nodes) then Some(UnknownNode)
    else if ReachesByArrow(Forward(g), c.target, c.source) then Some(WouldCreateCycle)
    else if exists e :: e in g.edges && IsDuplicate(e, c) then Some(DuplicateEdge)
    else if exists e :: e in g.edges && Occupies(e, c.target, c.targetHandle) then Some(HandleAlreadyUsed)
    else None
  }

  method CanConnect(g: Graph, c: Connection) returns (r: Option<Refusal>)
    ensures r == RefusalOf(g, c)
  {
    if c.source == c.target {
      return Some(SelfLoop);
    }
    var known := IdSet(g.nodes);
    if c.source !in known || c.target !in known {
      return Some(UnknownNode);
    }
    var below := Descendants(g, c.target);
    if c.source in below {
      return Some(WouldCreateCycle);
    }
    if exists e :: e in g.edges && IsDuplicate(e, c) {
      return Some(DuplicateEdge);
    }
    if exists e :: e in g.edges && Occupies(e, c.target, c.targetHandle) {
      return Some(HandleAlreadyUsed);
    }
    r := None;
  }

  /** The new arrow closes a loop exactly if its target already reached its source. */
  lemma CycleNeedsReach(es: Arrows, s: Node, t: Node)
    requires Acyclic(es)
    ensures Acyclic(es + {(s, t)}) <==> !Reaches(es, t, s)
  {
    var more := es + {(s, t)};
    if Reaches(es, t, s) {
      ReachesMore(es, more, t, s);
      assert (s, t) in more && ReachesByArrow(more, s, s);
    } else {
      forall v
        ensures !ReachesByArrow(more, v, v)
      {
        if ReachesByArrow(more, v, v) {
          var c :| (v, c) in more && Reaches(more, c, v);
          var p :| PathFromTo(more, p, c, v);
          var q := [v] + p;
          assert forall i :: 0 <= i < |q| - 1 ==> (q[i], q[i + 1]) in more;
          OldOrThrough(es, s, t, q);
          assert !ReachesByArrow(es, v, v);
          ReachesTrans(es, t, v, s);
        }
      }
    }
  }

  lemma ReachesMore(es: Arrows, more: Arrows, a: Node, b: Node)
    requires es <= more && Reaches(es, a, b)
    ensures Reaches(more, a, b)
  {
    var p :| PathFromTo(es, p, a, b);
    assert PathFromTo(more, p, a, b);
  }

  /** A path that may use the new arrow either does not need it, or passes through it. */
  lemma {:induction false} OldOrThrough(es: Arrows, s: Node, t: Node, q: seq<Node>)
    requires IsPath(es + {(s, t)}, q) && |q| > 1
    ensures ReachesByArrow(es, q[0], q[|q| - 1]) || (Reaches(es, q[0], s) && Reaches(es, t, q[|q| - 1]))
    decreases |q|
  {
    var a, b, z := q[0], q[1], q[|q| - 1];
    var rest := q[1..];
    assert (q[0], q[0 + 1]) in es + {(s, t)};
    if |q| > 2 {
      assert IsPath(es + {(s, t)}, rest) by {
        forall i | 0 <= i < |rest| - 1
          ensures (rest[i], rest[i + 1]) in es + {(s, t)}
        {
          assert (q[i + 1], q[i + 1 + 1]) in es + {(s, t)};
        }
      }
      OldOrThrough(es, s, t, rest);
    } else {
      ReachesSelf(es, z);
    }
    if (a, b) in es {
      ReachesArrow(es, a, b);
      if Reaches(es, b, z) || ReachesByArrow(es, b, z) {
        OneMore(es, a, b, z);
      } else {
        ReachesTrans(es, a, b, s);
      }
    } else {
      ReachesSelf(es, s);
      if ReachesByArrow(es, b, z) {
        ByArrowReaches(es, b, z);
      }
    }
  }

  lemma ByArrowReaches(es: Arrows, a: Node, b: Node)
    requires ReachesByArrow(es, a, b)
    ensures Reaches(es, a, b)
  {
    var c :| (a, c) in es && Reaches(es, c, b);
    ReachesArrow(es, a, c);
    ReachesTrans(es, a, c, b);
  }

  lemma OneMore(es: Arrows, a: Node, b: Node, z: Node)
    requires (a, b) in es && (Reaches(es, b, z) || ReachesByArrow(es, b, z))
    ensures ReachesByArrow(es, a, z)
  {
    if ReachesByArrow(es, b, z) {
      ByArrowReaches(es, b, z);
    }
  }

  function ConnectionEdge(c: Connection): CanvasEdge {
    CanvasEdge(c.source + "->" + c.target + (if c.sourceHandle.Some? then ":" + c.sourceHandle.value else ""),
               c.source, c.target, c.sourceHandle, c.targetHandle)
  }

  /** would_create_cycle is said exactly of the connections that would create one. */
  lemma WouldCreateCycleExact(g: Graph, c: Connection)
    requires NoDangling(g) && Acyclic(Wires(g.edges))
    requires c.source != c.target && c.source in IdSet(g.nodes) && c.target in IdSet(g.nodes)
    ensures RefusalOf(g, c) == Some(WouldCreateCycle) <==> !Acyclic(Wires(g.edges + [ConnectionEdge(c)]))
  {
    var es := Wires(g.edges);
    SoundWires(g);
    WiresSnoc(g.edges, ConnectionEdge(c));
    CycleNeedsReach(es, c.source, c.target);
    if Reaches(es, c.target, c.source) {
      ReachesFirst(es, c.target, c.source);
    }
    if ReachesByArrow(es, c.target, c.source) {
      ByArrowReaches(es, c.target, c.source);
    }
  }

  lemma WiresSnoc(edges: seq<CanvasEdge>, e: CanvasEdge)
    ensures Wires(edges + [e]) == Wires(edges) + {(e.source, e.target)}
  {
    var whole := edges + [e];
    assert e in whole;
    assert forall f :: f in edges ==> f in whole;
    assert forall f :: f in whole ==> f in edges || f == e;
  }

  // ---- what may be connected ----

  /** Both steps are there and differ, the target does not lead back, and neither these ends nor this input is taken. */
  ghost predicate Connectable(g: Graph, c: Connection) {
    && c.source != c.target
    && (exists n :: n in g.nodes && n.id == c.source) && (exists n :: n in g.nodes && n.id == c.target)
    && !ReachesByArrow(Forward(g), c.target, c.source)
    && (forall e :: e in g.edges && e.source == c.source && e.target == c.target ==> e.sourceHandle != c.sourceHandle)
    && (forall e :: e in g.edges && e.target == c.target ==> e.targetHandle != c.targetHandle)
  }

  /** A connection is refused exactly if something stands against it, and the reason given does. */
  lemma RefusalMeans(g: Graph, c: Connection)
    ensures RefusalOf(g, c).None? <==> Connectable(g, c)
    ensures RefusalOf(g, c) == Some(SelfLoop) <==> c.source == c.target
    ensures RefusalOf(g, c) == Some(UnknownNode) ==> c.source !in IdSet(g.nodes) || c.target !in IdSet(g.nodes)
    ensures RefusalOf(g, c) == Some(WouldCreateCycle) ==> ReachesByArrow(Forward(g), c.target, c.source)
    ensures RefusalOf(g, c) == Some(DuplicateEdge) ==>
      exists e :: e in g.edges && e.source == c.source && e.target == c.target && e.sourceHandle == c.sourceHandle
    ensures RefusalOf(g, c) == Some(HandleAlreadyUsed) ==>
      exists e :: e in g.edges && e.target == c.target && e.targetHandle == c.targetHandle
  {
    hide ReachesByArrow, Forward;
  }
}
