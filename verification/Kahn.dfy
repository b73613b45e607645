// topologicalOrder: Kahn's algorithm over an edge list, and exactly when it finds an order.
module Kahn {
  import opened Options
  import opened Digraph
  import opened Canvas
  import opened GraphAlgebra

  // ---- a finite set in which everything has a predecessor holds a cycle ----

  ghost predicate EachHasPredecessor(es: Arrows, s: set<Node>) {
    forall v {:trigger HasPredecessor(es, s, v)} :: v in s ==> HasPredecessor(es, s, v)
  }

  ghost predicate HasPredecessor(es: Arrows, s: set<Node>, v: Node) {
    exists u :: u in s && (u, v) in es
  }

  lemma PredecessorIn(es: Arrows, s: set<Node>, v: Node) returns (u: Node)
    requires EachHasPredecessor(es, s) && v in s
    ensures u in s && (u, v) in es
  {
    assert HasPredecessor(es, s, v);
    u :| u in s && (u, v) in es;
  }

  lemma {:induction false} BackwardPath(es: Arrows, s: set<Node>, v: Node, n: nat) returns (p: seq<Node>)
    requires EachHasPredecessor(es, s) && v in s
    ensures IsPath(es, p) && |p| == n + 1 && forall i :: 0 <= i < |p| ==> p[i] in s
  {
    hide EachHasPredecessor;
    if n == 0 {
      p := [v];
    } else {
      var q := BackwardPath(es, s, v, n - 1);
      var u := PredecessorIn(es, s, q[0]);
      p := [u] + q;
    }
  }

  lemma {:induction false} DistinctFits(p: seq<Node>, s: set<Node>)
    requires Distinct(p) && forall i :: 0 <= i < |p| ==> p[i] in s
    ensures |p| <= |s|
    ensures |p| == |s| ==> forall v :: v in s ==> v in p
  {
    if p != [] {
      var n := |p| - 1;
      DistinctFits(p[..n], s - {p[n]});
      if |p| == |s| {
        forall v | v in s
          ensures v in p
        {
          if v != p[n] {
            assert v in p[..n];
          }
        }
      }
    }
  }

  lemma NoSourceMeansCycle(es: Arrows, s: set<Node>)
    requires s != {} && EachHasPredecessor(es, s)
    ensures !Acyclic(es)
  {
    hide EachHasPredecessor;
    var v :| v in s;
    var p := BackwardPath(es, s, v, |s|);
    if Distinct(p) {
      DistinctFits(p, s);
    } else {
      var i, j :| 0 <= i < j < |p| && p[i] == p[j];
      var q := p[i + 1..j + 1];
      forall k | 0 <= k < |q| - 1
        ensures (q[k], q[k + 1]) in es
      {
        assert (p[i + 1 + k], p[i + 1 + k + 1]) in es;
      }
      assert (p[i], p[i + 1]) in es;
      assert PathFromTo(es, q, p[i + 1], p[j]);
      assert ReachesByArrow(es, p[i], p[i]);
    }
  }

  // ---- counting edges ----

  function EdgesInto(edges: seq<CanvasEdge>, v: Node, done: set<Node>): nat {
    if edges == [] then 0
    else
      var e := edges[|edges| - 1];
      EdgesInto(edges[..|edges| - 1], v, done) + if e.target == v && e.source !in done then 1 else 0
  }

  function Occurrences(vs: seq<Node>, v: Node): nat {
    if vs == [] then 0 else Occurrences(vs[..|vs| - 1], v) + if vs[|vs| - 1] == v then 1 else 0
  }

  lemma OccurrencesSnoc(vs: seq<Node>, w: Node, v: Node)
    ensures Occurrences(vs + [w], v) == Occurrences(vs, v) + if w == v then 1 else 0
  {
    assert (vs + [w])[..|vs|] == vs;
  }

  /** Finishing a node takes its own edges out of every count. */
  lemma {:induction false} FinishNode(edges: seq<CanvasEdge>, v: Node, done: set<Node>, u: Node)
    requires u !in done
    ensures EdgesInto(edges, v, done + {u}) == EdgesInto(edges, v, done) - Occurrences(TargetsFrom(edges, u), v)
  {
    if edges != [] {
      var n := |edges| - 1;
      FinishNode(edges[..n], v, done, u);
      if edges[n].source == u {
        OccurrencesSnoc(TargetsFrom(edges[..n], u), edges[n].target, v);
      } else {
        assert TargetsFrom(edges, u) == TargetsFrom(edges[..n], u);
      }
    }
  }

  lemma {:induction false} NoneInto(edges: seq<CanvasEdge>, v: Node, done: set<Node>)
    ensures EdgesInto(edges, v, done) == 0 <==> forall e :: e in edges && e.target == v ==> e.source in done
  {
    if edges != [] {
      var n := |edges| - 1;
      NoneInto(edges[..n], v, done);
      assert edges == edges[..n] + [edges[n]];
    }
  }

  // ---- the loop's state ----

  function Waiting(indegree: map<Node, int>): set<Node> {
    set v | v in indegree && indegree[v] > 0
  }

  lemma WaitingDrops(indegree: map<Node, int>, v: Node, n: int)
    requires v in indegree && n < indegree[v]
    ensures |Waiting(indegree[v := n])| <= |Waiting(indegree)|
    ensures n == 0 ==> |Waiting(indegree[v := n])| == |Waiting(indegree)| - 1
  {
    if n > 0 {
      assert Waiting(indegree[v := n]) == Waiting(indegree);
    } else {
      assert Waiting(indegree[v := n]) == Waiting(indegree) - {v};
    }
  }

  ghost predicate Indegrees(g: Graph, indegree: map<Node, int>, done: set<Node>) {
    && indegree.Keys == IdSet(g.nodes)
    && forall v :: v in indegree ==> indegree[v] == EdgesInto(g.edges, v, done)
  }

  /** The listed ids are exactly the known ones with nothing left before them. */
  ghost predicate Listed(indegree: map<Node, int>, ordered: seq<Node>, ready: seq<Node>) {
    && Distinct(ordered + ready)
    && forall v :: v in ordered + ready <==> v in indegree && indegree[v] == 0
  }

  ghost function DoneSet(ordered: seq<Node>): set<Node> {
    set v | v in ordered
  }

  /** Everything an edge brings into an ordered node was ordered before it. */
  ghost predicate SourcesFirst(edges: seq<CanvasEdge>, ordered: seq<Node>) {
    forall e, j :: e in edges && 0 <= j < |ordered| && ordered[j] == e.target ==>
      exists i :: 0 <= i < j && ordered[i] == e.source
  }

  ghost predicate KahnState(g: Graph, indegree: map<Node, int>, ordered: seq<Node>, ready: seq<Node>) {
    && Indegrees(g, indegree, DoneSet(ordered))
    && Listed(indegree, ordered, ready)
    && SourcesFirst(g.edges, ordered)
  }

  /** While u's edges are being crossed off: the counts lag by those already crossed. */
  ghost predicate Crossing(g: Graph, indegree: map<Node, int>, ordered: seq<Node>, ready: seq<Node>, u: Node, k: nat) {
    && k <= |TargetsFrom(g.edges, u)|
    && indegree.Keys == IdSet(g.nodes)
    && (forall v :: v in indegree ==>
          indegree[v] == EdgesInto(g.edges, v, DoneSet(ordered)) - Occurrences(TargetsFrom(g.edges, u)[..k], v))
    && Listed(indegree, ordered + [u], ready)
  }

  lemma StartCrossing(g: Graph, indegree: map<Node, int>, ordered: seq<Node>, ready: seq<Node>)
    requires KahnState(g, indegree, ordered, ready) && ready != []
    ensures Crossing(g, indegree, ordered, ready[1..], ready[0], 0)
    ensures ready[0] !in ordered && forall e :: e in g.edges && e.target == ready[0] ==> e.source in ordered
    ensures SourcesFirst(g.edges, ordered)
  {
    var whole := ordered + ready;
    assert whole == ordered + [ready[0]] + ready[1..];
    assert whole[|ordered|] == ready[0] && ready[0] in whole;
    forall i | 0 <= i < |ordered|
      ensures ordered[i] != ready[0]
    {
      assert whole[i] == ordered[i];
    }
    NoneInto(g.edges, ready[0], DoneSet(ordered));
    hide EdgesInto;
    hide TargetsFrom;
  }

  /** The count of a known target can only be crossed off while it is still positive. */
  lemma {:induction false} CrossedWithin(edges: seq<CanvasEdge>, u: Node, k: nat, v: Node, done: set<Node>)
    requires k < |TargetsFrom(edges, u)| && TargetsFrom(edges, u)[k] == v && u !in done
    ensures Occurrences(TargetsFrom(edges, u)[..k], v) < EdgesInto(edges, v, done)
  {
    FinishNode(edges, v, done, u);
    OccurrencesPrefix(TargetsFrom(edges, u), k, v);
    assert EdgesInto(edges, v, done + {u}) >= 0;
  }

  lemma {:induction false} OccurrencesPrefix(vs: seq<Node>, k: nat, v: Node)
    requires k < |vs| && vs[k] == v
    ensures Occurrences(vs[..k], v) < Occurrences(vs, v)
    decreases |vs|
  {
    var n := |vs| - 1;
    if k < n {
      OccurrencesPrefix(vs[..n], k, v);
      assert vs[..n][..k] == vs[..k];
    }
  }

  lemma CrossOff(g: Graph, indegree: map<Node, int>, ordered: seq<Node>, ready: seq<Node>, u: Node, k: nat)
    requires Crossing(g, indegree, ordered, ready, u, k) && k < |TargetsFrom(g.edges, u)| && u !in ordered
    ensures var v := TargetsFrom(g.edges, u)[k];
      if v in indegree then
        && indegree[v] > 0
        && Crossing(g, indegree[v := indegree[v] - 1], ordered,
                    if indegree[v] == 1 then ready + [v] else ready, u, k + 1)
      else Crossing(g, indegree, ordered, ready, u, k + 1)
  {
    var targets := TargetsFrom(g.edges, u);
    var v := targets[k];
    assert targets[..k + 1] == targets[..k] + [v];
    forall w
      ensures Occurrences(targets[..k + 1], w) == Occurrences(targets[..k], w) + if v == w then 1 else 0
    {
      OccurrencesSnoc(targets[..k], v, w);
    }
    if v in indegree {
      CrossedWithin(g.edges, u, k, v, DoneSet(ordered));
      ListedMore(indegree, ordered + [u], ready, v);
    }
    hide TargetsFrom;
    hide Occurrences;
    hide EdgesInto;
    hide Listed;
  }

  lemma ListedMore(indegree: map<Node, int>, ordered: seq<Node>, ready: seq<Node>, v: Node)
    requires Listed(indegree, ordered, ready) && v in indegree && indegree[v] > 0
    ensures Listed(indegree[v := indegree[v] - 1], ordered, if indegree[v] == 1 then ready + [v] else ready)
  {
    if indegree[v] == 1 {
      var a, b := ordered + ready, ordered + (ready + [v]);
      assert b == a + [v];
      assert forall w :: w in b <==> w in a || w == v;
    }
  }

  lemma EndCrossing(g: Graph, indegree: map<Node, int>, ordered: seq<Node>, ready: seq<Node>, u: Node)
    requires Crossing(g, indegree, ordered, ready, u, |TargetsFrom(g.edges, u)|) && u !in ordered
    requires SourcesFirst(g.edges, ordered)
    requires forall e :: e in g.edges && e.target == u ==> e.source in ordered
    ensures KahnState(g, indegree, ordered + [u], ready)
  {
    var targets := TargetsFrom(g.edges, u);
    assert targets[..|targets|] == targets;
    assert DoneSet(ordered + [u]) == DoneSet(ordered) + {u};
    forall v | v in indegree
      ensures indegree[v] == EdgesInto(g.edges, v, DoneSet(ordered + [u]))
    {
      FinishNode(g.edges, v, DoneSet(ordered), u);
    }
    var longer := ordered + [u];
    forall e, j | e in g.edges && 0 <= j < |longer| && longer[j] == e.target
      ensures exists i :: 0 <= i < j && longer[i] == e.source
    {
      if j == |ordered| {
        var i :| 0 <= i < |ordered| && ordered[i] == e.source;
        assert longer[i] == e.source;
      } else {
        assert ordered[j] == e.target;
        var i :| 0 <= i < j && ordered[i] == e.source;
        assert longer[i] == e.source;
      }
    }
    hide TargetsFrom;
    hide EdgesInto;
    hide Occurrences;
  }

  // ---- the answer ----

  /** The edges between nodes of the graph. */
  ghost function Inner(g: Graph): Arrows {
    set e | e in g.edges && !Dangling(g, e) :: (e.source, e.target)
  }

  /** No edge out of nowhere holds a node back for good. */
  predicate NoPhantomSource(g: Graph) {
    forall e :: e in g.edges && e.target in IdSet(g.nodes) ==> e.source in IdSet(g.nodes)
  }

  ghost predicate IsOrderOf(g: Graph, order: seq<CanvasNode>) {
    && |order| == |g.nodes| && Distinct(Ids(order))
    && (forall n :: n in order <==> n in g.nodes)
    && forall e, j :: e in g.edges && 0 <= j < |order| && order[j].id == e.target ==>
         exists i :: 0 <= i < j && order[i].id == e.source
  }

  lemma AllListedMeansOrder(g: Graph, indegree: map<Node, int>, ordered: seq<Node>)
    requires DistinctIds(g) && KahnState(g, indegree, ordered, []) && |ordered| == |g.nodes|
    ensures forall v :: v in IdSet(g.nodes) <==> v in ordered
    ensures NoPhantomSource(g) && Acyclic(Inner(g))
  {
    hide SourcesFirst;
    assert ordered + [] == ordered;
    IdsCard(g.nodes);
    DistinctFits(ordered, IdSet(g.nodes));
    forall e | e in g.edges && e.target in IdSet(g.nodes)
      ensures e.source in IdSet(g.nodes)
    {
      var j :| 0 <= j < |ordered| && ordered[j] == e.target;
      var i := SourceBefore(g.edges, ordered, e, j);
    }
    InnerForward(g, ordered);
    TopologicalAcyclic(Inner(g), ordered);
  }

  lemma InnerForward(g: Graph, ordered: seq<Node>)
    requires Distinct(ordered) && SourcesFirst(g.edges, ordered)
    requires forall v :: v in IdSet(g.nodes) <==> v in ordered
    ensures Topological(Inner(g), ordered) && forall x :: x in Inner(g) ==> x.0 in ordered
  {
    forall x, i | x in Inner(g) && 0 <= i < |ordered| && ordered[i] == x.0
      ensures exists j :: i < j < |ordered| && ordered[j] == x.1
    {
      var e :| e in g.edges && !Dangling(g, e) && (e.source, e.target) == x;
      var j :| 0 <= j < |ordered| && ordered[j] == e.target;
      var k := SourceBefore(g.edges, ordered, e, j);
      hide SourcesFirst;
    }
  }

  lemma SourceBefore(edges: seq<CanvasEdge>, ordered: seq<Node>, e: CanvasEdge, j: nat) returns (i: nat)
    requires SourcesFirst(edges, ordered) && e in edges && j < |ordered| && ordered[j] == e.target
    ensures i < j && ordered[i] == e.source
  {
    i :| 0 <= i < j && ordered[i] == e.source;
  }

  lemma {:induction false} IdsCard(nodes: seq<CanvasNode>)
    requires Distinct(Ids(nodes))
    ensures |IdSet(nodes)| == |nodes|
  {
    if nodes != [] {
      var n := |nodes| - 1;
      assert forall i :: 0 <= i < n ==> Ids(nodes[..n])[i] == Ids(nodes)[i];
      IdsCard(nodes[..n]);
      IdSetSnoc(nodes, n);
      assert nodes[..n + 1] == nodes;
      forall m | m in nodes[..n]
        ensures m.id != nodes[n].id
      {
        var i :| 0 <= i < n && nodes[i] == m;
        assert Ids(nodes)[i] != Ids(nodes)[n];
      }
    }
  }

  lemma StuckMeansCycle(g: Graph, indegree: map<Node, int>, ordered: seq<Node>)
    requires DistinctIds(g) && KahnState(g, indegree, ordered, []) && |ordered| != |g.nodes|
    requires NoPhantomSource(g)
    ensures !Acyclic(Inner(g))
  {
    hide SourcesFirst;
    hide EdgesInto;
    assert ordered + [] == ordered;
    IdsCard(g.nodes);
    var left := IdSet(g.nodes) - DoneSet(ordered);
    DistinctCard(ordered);
    forall v | v in DoneSet(ordered)
      ensures v in IdSet(g.nodes)
    {
      assert v in ordered + [];
    }
    assert IdSet(g.nodes) == DoneSet(ordered) + left;
    forall v | v in left
      ensures HasPredecessor(Inner(g), left, v)
    {
      NoneInto(g.edges, v, DoneSet(ordered));
      var e :| e in g.edges && e.target == v && e.source !in DoneSet(ordered);
      assert !Dangling(g, e);
      assert e.source in left && (e.source, e.target) in Inner(g);
    }
    NoSourceMeansCycle(Inner(g), left);
  }

  lemma {:induction false} DistinctCard(vs: seq<Node>)
    requires Distinct(vs)
    ensures |DoneSet(vs)| == |vs|
  {
    if vs != [] {
      var n := |vs| - 1;
      DistinctCard(vs[..n]);
      assert DoneSet(vs) == DoneSet(vs[..n]) + {vs[n]};
      assert vs[n] !in vs[..n];
    }
  }

  lemma Resolved(g: Graph, order: seq<CanvasNode>, ordered: seq<Node>)
    requires DistinctIds(g) && Ids(order) == ordered && (forall n :: n in order ==> n in g.nodes)
    requires |order| == |g.nodes| && Distinct(ordered) && SourcesFirst(g.edges, ordered)
    requires forall v :: v in IdSet(g.nodes) <==> v in ordered
    ensures IsOrderOf(g, order)
  {
    forall n | n in g.nodes
      ensures n in order
    {
      assert n.id in IdSet(g.nodes);
      var i :| 0 <= i < |ordered| && ordered[i] == n.id;
      assert order[i] in g.nodes && order[i].id == n.id;
      var a :| 0 <= a < |g.nodes| && g.nodes[a] == n;
      var b :| 0 <= b < |g.nodes| && g.nodes[b] == order[i];
      assert Ids(g.nodes)[a] == Ids(g.nodes)[b];
      assert order[i] in order;
    }
  }

  // ---- the algorithm ----

  method CountIncoming(g: Graph) returns (indegree: map<Node, int>)
    ensures Indegrees(g, indegree, {})
  {
    indegree := map v | v in IdSet(g.nodes) :: 0;
    for i := 0 to |g.edges|
      invariant indegree.Keys == IdSet(g.nodes)
      invariant forall v :: v in indegree ==> indegree[v] == EdgesInto(g.edges[..i], v, {})
    {
      var e := g.edges[i];
      assert g.edges[..i + 1][..i] == g.edges[..i];
      if e.target in indegree {
        indegree := indegree[e.target := indegree[e.target] + 1];
      }
    }
    assert g.edges[..|g.edges|] == g.edges;
  }

  /** The ids nothing points at, in node order. */
  function Sources(nodes: seq<CanvasNode>, indegree: map<Node, int>): (r: seq<Node>)
    requires forall n :: n in nodes ==> n.id in indegree
    ensures forall v :: v in r <==> v in IdSet(nodes) && indegree[v] == 0
    ensures |r| <= |nodes|
  {
    if nodes == [] then []
    else
      var n := nodes[|nodes| - 1];
      assert nodes == nodes[..|nodes| - 1] + [n];
      var rest := Sources(nodes[..|nodes| - 1], indegree);
      assert forall v :: v in IdSet(nodes) <==> v in IdSet(nodes[..|nodes| - 1]) || v == n.id by {
        IdSetSnoc(nodes, |nodes| - 1);
        assert nodes[..|nodes| - 1 + 1] == nodes;
      }
      if indegree[n.id] == 0 then rest + [n.id] else rest
  }

  lemma {:induction false} SourcesDistinct(nodes: seq<CanvasNode>, indegree: map<Node, int>)
    requires Distinct(Ids(nodes)) && forall n :: n in nodes ==> n.id in indegree
    ensures Distinct(Sources(nodes, indegree))
  {
    if nodes != [] {
      var n := |nodes| - 1;
      assert forall i :: 0 <= i < n ==> Ids(nodes[..n])[i] == Ids(nodes)[i];
      SourcesDistinct(nodes[..n], indegree);
      forall m | m in nodes[..n]
        ensures m.id != nodes[n].id
      {
        var i :| 0 <= i < n && nodes[i] == m;
        assert Ids(nodes)[i] != Ids(nodes)[n];
      }
    }
  }

  lemma StartState(g: Graph, indegree: map<Node, int>)
    requires DistinctIds(g) && Indegrees(g, indegree, {})
    ensures KahnState(g, indegree, [], Sources(g.nodes, indegree))
  {
    SourcesDistinct(g.nodes, indegree);
    assert [] + Sources(g.nodes, indegree) == Sources(g.nodes, indegree);
    assert DoneSet([]) == {};
  }

  /** Cross u's edges off the counts, readying what has nothing left before it. */
  method Release(g: Graph, before: map<Node, int>, waiting: seq<Node>, targets: seq<Node>,
                 ghost ordered: seq<Node>, ghost u: Node)
    returns (indegree: map<Node, int>, ready: seq<Node>)
    requires targets == TargetsFrom(g.edges, u) && (forall v :: v in waiting ==> v in before)
    requires DistinctIds(g) ==> Crossing(g, before, ordered, waiting, u, 0) && u !in ordered
    ensures indegree.Keys == before.Keys && forall v :: v in ready ==> v in indegree
    ensures |ready| + |Waiting(indegree)| <= |waiting| + |Waiting(before)|
    ensures DistinctIds(g) ==> Crossing(g, indegree, ordered, ready, u, |targets|)
  {
    indegree, ready := before, waiting;
    for k := 0 to |targets|
      invariant indegree.Keys == before.Keys && forall v :: v in ready ==> v in indegree
      invariant |ready| + |Waiting(indegree)| <= |waiting| + |Waiting(before)|
      invariant DistinctIds(g) ==> Crossing(g, indegree, ordered, ready, u, k)
    {
      var next := targets[k];
      if DistinctIds(g) {
        CrossOff(g, indegree, ordered, ready, u, k);
      }
      if next in indegree {
        var remaining := indegree[next] - 1;
        WaitingDrops(indegree, next, remaining);
        indegree := indegree[next := remaining];
        if remaining == 0 {
          ready := ready + [next];
        }
      }
    }
  }

  /**
   * Some order exactly if every edge into a known node comes from a known node
   * and the known nodes hold no cycle; the order then lists every node once,
   * each after everything that points at it.
   */
  method TopologicalOrder(g: Graph) returns (r: Option<seq<CanvasNode>>)
    ensures DistinctIds(g) ==> (r.Some? <==> NoPhantomSource(g) && Acyclic(Inner(g)))
    ensures DistinctIds(g) && r.Some? ==> IsOrderOf(g, r.value)
  {
    hide KahnState;
    hide SourcesFirst;
    hide Crossing;
    hide DistinctIds;
    hide IsOrderOf;
    hide NoPhantomSource;
    hide Inner;
    hide Acyclic;
    hide TargetsFrom;
    var outgoing := Outgoing(g);
    var indegree := CountIncoming(g);
    assert indegree.Keys == IdSet(g.nodes);
    hide Indegrees;
    var byId := IndexById(g.nodes);
    var ready := Sources(g.nodes, indegree);
    if DistinctIds(g) {
      StartState(g, indegree);
    }
    var ordered: seq<CanvasNode> := [];
    while ready != []
      invariant indegree.Keys == IdSet(g.nodes) && forall v :: v in ready ==> v in indegree
      invariant forall n :: n in ordered ==> n in g.nodes
      invariant DistinctIds(g) ==> KahnState(g, indegree, Ids(ordered), ready)
      decreases |ready| + |Waiting(indegree)|
    {
      var id := ready[0];
      ghost var done := Ids(ordered);
      if DistinctIds(g) {
        StartCrossing(g, indegree, done, ready);
      }
      assert forall v :: v in ready[1..] ==> v in ready;
      ordered := ordered + [byId[id]];
      assert Ids(ordered) == done + [id];
      indegree, ready := Release(g, indegree, ready[1..], outgoing[id], done, id);
      if DistinctIds(g) {
        EndCrossing(g, indegree, done, ready, id);
      }
    }
    r := if |ordered| == |g.nodes| then Some(ordered) else None;
    if DistinctIds(g) {
      Settle(g, indegree, ordered);
    }
  }

  lemma Settle(g: Graph, indegree: map<Node, int>, ordered: seq<CanvasNode>)
    requires DistinctIds(g) && KahnState(g, indegree, Ids(ordered), []) && forall n :: n in ordered ==> n in g.nodes
    ensures |ordered| == |g.nodes| <==> NoPhantomSource(g) && Acyclic(Inner(g))
    ensures |ordered| == |g.nodes| ==> IsOrderOf(g, ordered)
  {
    if |ordered| == |g.nodes| {
      AllListedMeansOrder(g, indegree, Ids(ordered));
      assert Ids(ordered) + [] == Ids(ordered);
      Resolved(g, ordered, Ids(ordered));
    } else if NoPhantomSource(g) {
      StuckMeansCycle(g, indegree, Ids(ordered));
    }
  }

  /** On a graph without dangling edges: null exactly if it is cyclic. */
  lemma NullMeansCyclic(g: Graph)
    requires NoDangling(g)
    ensures NoPhantomSource(g) && Inner(g) == Wires(g.edges)
  {
    assert forall e :: e in g.edges ==> !Dangling(g, e);
  }

  /** One edge from a deleted node is enough to make an acyclic graph unorderable. */
  lemma PhantomSourceBlocks()
    ensures var g := Graph([CanvasNode("b", "http", Position(0, 0), map[], None)],
                           [CanvasEdge("a->b", "a", "b", None, None)]);
      && DistinctIds(g) && Acyclic(Wires(g.edges)) && !NoPhantomSource(g)
  {
    var e := CanvasEdge("a->b", "a", "b", None, None);
    var es := Wires([e]);
    var order := ["a", "b"];
    forall x, i | x in es && 0 <= i < |order| && order[i] == x.0
      ensures exists j :: i < j < |order| && order[j] == x.1
    {
      assert x == ("a", "b");
      assert order[1] == x.1;
    }
    assert order[0] == "a";
    TopologicalAcyclic(es, order);
    assert e in [e];
  }
}
