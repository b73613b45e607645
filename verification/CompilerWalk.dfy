// The compiler's depth-first walk: nodes enter a path, and leave it listed in
// front of everything they lead to. A node met again on the path is a loop.
module CompilerWalk {
  import opened Options
  import opened Digraph
  import opened Canvas
  import opened Compiler
  import Branching
  import EngineTypes

  // ---- lookup tables ----

  lemma {:induction false} OutEdgesSnoc(edges: seq<CanvasEdge>, e: CanvasEdge, id: Node)
    ensures OutEdges(edges + [e], id) == OutEdges(edges, id) + if e.source == id then [e] else []
  {
    if edges == [] {
      assert edges + [e] == [e];
      assert [e][1..] == [];
    } else {
      assert (edges + [e])[1..] == edges[1..] + [e];
      OutEdgesSnoc(edges[1..], e, id);
    }
  }

  function ListFor(outgoing: map<Node, seq<CanvasEdge>>, id: Node): seq<CanvasEdge> {
    if id in outgoing then outgoing[id] else []
  }

  method GroupBySource(edges: seq<CanvasEdge>) returns (outgoing: map<Node, seq<CanvasEdge>>)
    ensures forall id :: ListFor(outgoing, id) == OutEdges(edges, id)
  {
    outgoing := map[];
    for i := 0 to |edges|
      invariant forall id :: ListFor(outgoing, id) == OutEdges(edges[..i], id)
    {
      var e := edges[i];
      ghost var before := outgoing;
      assert edges[..i + 1] == edges[..i] + [e];
      outgoing := outgoing[e.source := ListFor(outgoing, e.source) + [e]];
      forall id
        ensures ListFor(outgoing, id) == OutEdges(edges[..i + 1], id)
      {
        OutEdgesSnoc(edges[..i], e, id);
        assert ListFor(before, id) == OutEdges(edges[..i], id);
      }
    }
    assert edges[..|edges|] == edges;
  }

  // ---- the walk ----

  lemma TopologicalPrepend(es: Arrows, order: seq<Node>, v: Node)
    requires Topological(es, order)
    requires v !in order
    requires forall e :: e in es && e.0 == v ==> e.1 in order
    ensures Topological(es, [v] + order)
  {
    var longer := [v] + order;
    forall e, i | e in es && 0 <= i < |longer| && longer[i] == e.0
      ensures exists j :: i < j < |longer| && longer[j] == e.1
    {
      if i == 0 {
        var j :| 0 <= j < |order| && order[j] == e.1;
        assert longer[j + 1] == e.1;
      } else {
        assert order[i - 1] == e.0;
        var j :| i - 1 < j < |order| && order[j] == e.1;
        assert longer[j + 1] == e.1;
      }
    }
  }

  /** What the walk has so far: finished nodes, seen ids, the ids on the current path. */
  datatype Trail = Trail(chain: seq<CanvasNode>, seen: set<Node>, onPath: set<Node>, cyclic: bool)

  ghost predicate LoopBelow(es: Arrows, entry: Node) {
    exists v :: Reaches(es, entry, v) && ReachesByArrow(es, v, v)
  }

  /** Finished nodes are listed before everything they lead to, unless a loop was met. */
  ghost predicate TrailOk(es: Arrows, nodes: seq<CanvasNode>, entry: Node, t: Trail) {
    && t.seen == IdSet(t.chain) + t.onPath && IdSet(t.chain) !! t.onPath
    && Distinct(Ids(t.chain))
    && (forall n :: n in t.chain ==> n in nodes)
    && (forall v :: v in t.seen ==> v in IdSet(nodes) && Reaches(es, entry, v))
    && (forall e :: e in es && e.0 in IdSet(t.chain) ==> e.1 in t.seen)
    && (!t.cyclic ==> Topological(es, Ids(t.chain)))
    && (t.cyclic ==> LoopBelow(es, entry))
  }

  /** Every node on the path leads to id; meeting id there is a loop. */
  ghost predicate Follows(es: Arrows, entry: Node, onPath: set<Node>, id: Node) {
    && Reaches(es, entry, id)
    && (forall v :: v in onPath ==> Reaches(es, v, id))
    && (id in onPath ==> ReachesByArrow(es, id, id))
  }

  predicate Settled(t: Trail, id: Node) {
    id in t.seen && (!t.cyclic ==> id in IdSet(t.chain))
  }

  predicate Grown(a: Trail, b: Trail) {
    && a.seen <= b.seen
    && IdSet(a.chain) <= IdSet(b.chain)
    && (a.cyclic ==> b.cyclic)
  }

  /** What visiting id adds. */
  predicate Visited(a: Trail, b: Trail, id: Node) {
    b.onPath == a.onPath && Grown(a, b) && Settled(b, id)
  }

  lemma GrownSelf(a: Trail)
    ensures Grown(a, a)
  {
  }

  lemma VisitedStays(a: Trail, b: Trail, id: Node)
    requires Visited(a, b, id)
    ensures b.onPath == a.onPath && a.seen <= b.seen && (a.cyclic ==> b.cyclic)
  {
  }

  /** Coming back to a node on the path, to a finished one, and to the end of a new one. */
  lemma VisitedOnPath(t: Trail, id: Node)
    requires id in t.seen && id in t.onPath
    ensures Visited(t, t.(cyclic := true), id)
  {
  }

  lemma VisitedSeen(t: Trail, id: Node)
    requires id in t.seen && id in IdSet(t.chain)
    ensures Visited(t, t, id)
  {
  }

  lemma VisitedFresh(a: Trail, b: Trail, n: CanvasNode)
    requires n.id !in a.onPath
    requires b.onPath == a.onPath + {n.id}
    requires Grown(a.(seen := a.seen + {n.id}, onPath := a.onPath + {n.id}), b)
    ensures Visited(a, b.(onPath := b.onPath - {n.id}, chain := [n] + b.chain), n.id)
  {
    IdsPrepend(n, b.chain);
  }

  lemma LoopOnce(es: Arrows, entry: Node, problems: seq<Problem>, id: Node)
    requires OnLoop(es, entry, id)
    ensures Reported(es, entry, false, problems, true, problems + [LoopsBack(id)])
  {
    hide OnLoop;
  }

  lemma SelfReported(es: Arrows, entry: Node, cyclic: bool, problems: seq<Problem>)
    ensures Reported(es, entry, cyclic, problems, cyclic, problems)
  {
  }

  lemma SettledGrows(a: Trail, b: Trail, c: Trail, next: seq<CanvasEdge>, i: nat)
    requires i < |next| && Grown(a, b) && Visited(b, c, next[i].target)
    requires forall k :: 0 <= k < i ==> Settled(b, next[k].target)
    ensures Grown(a, c) && forall k :: 0 <= k < i + 1 ==> Settled(c, next[k].target)
  {
  }

  lemma FollowsEdge(es: Arrows, entry: Node, onPath: set<Node>, a: Node, b: Node)
    requires (a, b) in es && Follows(es, entry, onPath - {a}, a)
    ensures Follows(es, entry, onPath, b)
  {
    ReachesArrow(es, a, b);
    ReachesTrans(es, entry, a, b);
    ReachesSelf(es, b);
    assert ReachesByArrow(es, a, b);
    forall v | v in onPath
      ensures Reaches(es, v, b) && (v == b ==> ReachesByArrow(es, b, b))
    {
      if v != a {
        ReachesTrans(es, v, a, b);
        ByArrowTrans(es, v, a, b);
      }
    }
  }

  lemma EnterNode(es: Arrows, nodes: seq<CanvasNode>, entry: Node, t: Trail, id: Node)
    requires TrailOk(es, nodes, entry, t) && id in IdSet(nodes) && id !in t.seen && Reaches(es, entry, id)
    ensures TrailOk(es, nodes, entry, t.(seen := t.seen + {id}, onPath := t.onPath + {id}))
  {
  }

  lemma MeetLoop(es: Arrows, nodes: seq<CanvasNode>, entry: Node, t: Trail, id: Node)
    requires TrailOk(es, nodes, entry, t) && id in t.onPath && Follows(es, entry, t.onPath, id)
    ensures TrailOk(es, nodes, entry, t.(cyclic := true)) && OnLoop(es, entry, id)
  {
    assert LoopBelow(es, entry);
  }

  lemma IdsPrepend(n: CanvasNode, chain: seq<CanvasNode>)
    ensures Ids([n] + chain) == [n.id] + Ids(chain)
    ensures IdSet([n] + chain) == IdSet(chain) + {n.id}
    ensures forall id :: id in Ids(chain) <==> id in IdSet(chain)
  {
    var l, r := IdSet([n] + chain), IdSet(chain) + {n.id};
    assert [n] + chain == [n] + chain;
    forall id | id in r
      ensures id in l
    {
      if id in IdSet(chain) {
        var m :| m in chain && m.id == id;
        assert m in [n] + chain;
      } else {
        assert n in [n] + chain;
      }
    }
    forall id | id in IdSet(chain)
      ensures id in Ids(chain)
    {
      var m :| m in chain && m.id == id;
      var i :| 0 <= i < |chain| && chain[i] == m;
      assert Ids(chain)[i] == id;
    }
    forall id | id in Ids(chain)
      ensures id in IdSet(chain)
    {
      var i :| 0 <= i < |chain| && Ids(chain)[i] == id;
      assert chain[i] in chain;
    }
  }

  lemma DistinctPrepend(v: Node, order: seq<Node>)
    requires Distinct(order) && v !in order
    ensures Distinct([v] + order)
  {
  }

  /** Every successor is seen, and listed unless a loop was met: the node goes in front. */
  lemma LeaveNode(es: Arrows, nodes: seq<CanvasNode>, entry: Node, t: Trail, n: CanvasNode)
    requires TrailOk(es, nodes, entry, t) && n.id in t.onPath && n in nodes
    requires forall e :: e in es && e.0 == n.id ==> Settled(t, e.1)
    ensures TrailOk(es, nodes, entry, t.(chain := [n] + t.chain, onPath := t.onPath - {n.id}))
  {
    IdsPrepend(n, t.chain);
    DistinctPrepend(n.id, Ids(t.chain));
    if !t.cyclic {
      TopologicalPrepend(es, Ids(t.chain), n.id);
    }
  }

  ghost predicate OnLoop(es: Arrows, entry: Node, v: Node) {
    Reaches(es, entry, v) && ReachesByArrow(es, v, v)
  }

  /** The loop is reported once, when it is first met, at a node that lies on it. */
  ghost predicate Reported(es: Arrows, entry: Node, wasCyclic: bool, before: seq<Problem>, cyclic: bool,
                           after: seq<Problem>)
  {
    if cyclic == wasCyclic then after == before
    else exists v :: OnLoop(es, entry, v) && after == before + [LoopsBack(v)]
  }

  lemma ReportedThrough(es: Arrows, entry: Node, c0: bool, p0: seq<Problem>, c1: bool, p1: seq<Problem>, c2: bool,
                        p2: seq<Problem>)
    requires Reported(es, entry, c0, p0, c1, p1) && Reported(es, entry, c1, p1, c2, p2) && (c0 ==> c1) && (c1 ==> c2)
    ensures Reported(es, entry, c0, p0, c2, p2)
  {
  }

  class Walk {
    const edges: seq<CanvasEdge>
    const byId: map<Node, CanvasNode>
    const outgoing: map<Node, seq<CanvasEdge>>
    ghost const nodes: seq<CanvasNode>
    ghost const entry: Node
    var problems: seq<Problem>
    var chain: seq<CanvasNode>
    var seen: set<Node>
    var onPath: set<Node>
    var cyclic: bool

    ghost predicate Tables() {
      && (forall id :: ListFor(outgoing, id) == OutEdges(edges, id))
      && byId.Keys == IdSet(nodes)
      && (forall id :: id in byId ==> byId[id].id == id && byId[id] in nodes)
      && (forall e :: e in edges ==> e.source in byId && e.target in byId)
    }

    ghost function Now(): Trail
      reads this
    {
      Trail(chain, seen, onPath, cyclic)
    }

    ghost predicate Valid()
      reads this
    {
      Tables() && TrailOk(Wires(edges), nodes, entry, Now())
    }

    constructor (edges: seq<CanvasEdge>, byId: map<Node, CanvasNode>, outgoing: map<Node, seq<CanvasEdge>>,
                 problems: seq<Problem>, ghost nodes: seq<CanvasNode>, ghost entry: Node)
      requires forall id :: ListFor(outgoing, id) == OutEdges(edges, id)
      requires byId.Keys == IdSet(nodes) && forall id :: id in byId ==> byId[id].id == id && byId[id] in nodes
      requires forall e :: e in edges ==> e.source in byId && e.target in byId
      ensures Valid() && this.edges == edges && this.nodes == nodes && this.entry == entry && this.problems == problems
      ensures Now() == Trail([], {}, {}, false)
    {
      this.edges, this.byId, this.outgoing, this.nodes, this.entry := edges, byId, outgoing, nodes, entry;
      this.problems, chain, seen, onPath, cyclic := problems, [], {}, {}, false;
    }

    method Visit(node: CanvasNode)
      requires Valid()
      requires node in nodes
      requires Follows(Wires(edges), entry, onPath, node.id)
      modifies this
      ensures Valid() && Visited(old(Now()), Now(), node.id)
      ensures Reported(Wires(edges), entry, old(cyclic), old(problems), cyclic, problems)
      ensures node.id !in old(seen) ==> chain != [] && chain[0] == node
      decreases byId.Keys - seen, 0
    {
      ghost var es, was := Wires(edges), Now();
      SelfReported(es, entry, cyclic, problems);
      hide TrailOk, Follows, Reported, OnLoop, Visited, Wires;
      if node.id in onPath {
        OnPathSeen(Now(), node.id);
        if !cyclic {
          MeetLoop(es, nodes, entry, Now(), node.id);
          LoopOnce(es, entry, problems, node.id);
          cyclic := true;
          problems := problems + [LoopsBack(node.id)];
        }
        VisitedOnPath(was, node.id);
        return;
      }
      if node.id in seen {
        SeenListed(Now(), node.id);
        VisitedSeen(was, node.id);
        return;
      }
      EnterFresh(node.id);
      seen := seen + {node.id};
      onPath := onPath + {node.id};
      VisitNext(node.id);
      LeaveNode(es, nodes, entry, Now(), node);
      VisitedFresh(was, Now(), node);
      onPath := onPath - {node.id};
      // Prepended, so a node always lands before everything it leads to.
      chain := [node] + chain;
    }

    /** Follow one edge from the node at the end of the path. */
    method VisitTarget(id: Node, target: Node)
      requires Valid()
      requires id in onPath && Follows(Wires(edges), entry, onPath - {id}, id)
      requires (id, target) in Wires(edges) && target in byId && byId[target].id == target && byId[target] in nodes
      modifies this
      ensures Valid() && Visited(old(Now()), Now(), target)
      ensures Reported(Wires(edges), entry, old(cyclic), old(problems), cyclic, problems)
      decreases byId.Keys - seen, 1
    {
      FollowsEdge(Wires(edges), entry, onPath, id, target);
      hide *;
      Visit(byId[target]);
    }

    /** The loop over the edges leaving the node at the end of the path. */
    method VisitNext(id: Node)
      requires Valid()
      requires id in onPath && Follows(Wires(edges), entry, onPath - {id}, id)
      modifies this
      ensures Valid() && onPath == old(onPath) && Grown(old(Now()), Now())
      ensures Reported(Wires(edges), entry, old(cyclic), old(problems), cyclic, problems)
      ensures forall e :: e in Wires(edges) && e.0 == id ==> Settled(Now(), e.1)
      decreases byId.Keys - seen, 2
    {
      var next := ListFor(outgoing, id);
      NextEdges(id, next);
      ghost var first, noted := Now(), problems;
      GrownSelf(first);
      SelfReported(Wires(edges), entry, cyclic, problems);
      hide Valid;
      hide Wires;
      hide Follows;
      hide Grown;
      hide Settled;
      hide Reported;
      hide Visited;
      for i := 0 to |next|
        invariant Valid()
        invariant onPath == first.onPath
        invariant Grown(first, Now())
        invariant first.seen <= seen && (first.cyclic ==> cyclic)
        invariant forall k :: 0 <= k < i ==> Settled(Now(), next[k].target)
        invariant Reported(Wires(edges), entry, first.cyclic, noted, cyclic, problems)
      {
        ghost var before, known := Now(), problems;
        VisitTarget(id, next[i].target);
        VisitedStays(before, Now(), next[i].target);
        SettledGrows(first, before, Now(), next, i);
        ReportedThrough(Wires(edges), entry, first.cyclic, noted, before.cyclic, known, cyclic, problems);
      }
    }

    lemma NextEdges(id: Node, next: seq<CanvasEdge>)
      requires Tables() && next == ListFor(outgoing, id)
      ensures forall k :: 0 <= k < |next| ==>
        ((id, next[k].target) in Wires(edges) && next[k].target in byId && byId[next[k].target].id == next[k].target
         && byId[next[k].target] in nodes)
      ensures forall e :: e in Wires(edges) && e.0 == id ==> exists k :: 0 <= k < |next| && next[k].target == e.1
    {
      forall k | 0 <= k < |next|
        ensures (id, next[k].target) in Wires(edges) && next[k].target in byId
      {
        assert next[k] in OutEdges(edges, id);
      }
      forall e | e in Wires(edges) && e.0 == id
        ensures exists k :: 0 <= k < |next| && next[k].target == e.1
      {
        var f :| f in edges && (f.source, f.target) == e;
        assert f in OutEdges(edges, id);
        var k :| 0 <= k < |next| && next[k] == f;
      }
    }

    lemma OnPathSeen(t: Trail, id: Node)
      requires TrailOk(Wires(edges), nodes, entry, t) && id in t.onPath
      ensures id in t.seen
    {
    }

    lemma SeenListed(t: Trail, id: Node)
      requires TrailOk(Wires(edges), nodes, entry, t) && id in t.seen && id !in t.onPath
      ensures id in IdSet(t.chain)
    {
    }

    lemma EnterFresh(id: Node)
      requires Valid() && id in IdSet(nodes) && id !in seen && Follows(Wires(edges), entry, onPath, id)
      ensures TrailOk(Wires(edges), nodes, entry, Now().(seen := seen + {id}, onPath := onPath + {id}))
    {
      EnterNode(Wires(edges), nodes, entry, Now(), id);
    }
  }
}
