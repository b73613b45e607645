// When a single remove takes out what it names, and what it takes out otherwise.
module PatchRemoval {
  import opened Options
  import opened Digraph
  import opened Canvas
  import opened Patch
  import JsonPointer
  import Texts
  import opened PatchFidelity

  lemma DropUnknown(t: Table, id: Id)
    requires Tabular(t) && id !in t.items && t.order != []
    ensures Drop(t, id) == Table(t.items, t.order[..|t.order| - 1])
  {
    IndexOfFinds(t.order, id);
    assert t.items - {id} == t.items;
  }

  lemma UnknownDropsLast(items: seq<Item>, id: Id)
    requires Distinct(ItemIds(items)) && items != [] && forall i :: 0 <= i < |items| ==> IdOf(items[i]) != id
    ensures Drop(TableOf(items), id) == Table(TableOf(items).items, TableOf(items).order[..|items| - 1])
  {
    TableOfTabular(items);
    hide Distinct;
    assert id !in ItemIds(items);
    DropUnknown(TableOf(items), id);
  }

  lemma Held(items: seq<Item>)
    requires Distinct(ItemIds(items))
    ensures forall i :: 0 <= i < |items| ==>
      IdOf(items[i]) in TableOf(items).items && TableOf(items).items[IdOf(items[i])] == items[i]
  {
    ByIdDistinct(items);
    assert forall i :: 0 <= i < |items| ==> items[i] in items;
    hide Distinct;
  }

  lemma TableParts(items: seq<Item>)
    ensures TableOf(items) == Table(TableOf(items).items, ItemIds(items))
  {
  }

  lemma ApplyNodeOp(g: Graph, id: Id)
    ensures Patched(g, [Remove(JsonPointer.Path("nodes", id))]).nodes == NodesIn(Drop(TableOf(NodeItems(g.nodes)), id))
  {
    var op := Remove(JsonPointer.Path("nodes", id));
    var ts := Tables(TableOf(NodeItems(g.nodes)), TableOf(EdgeItems(g.edges)));
    JsonPointer.PathParts("nodes", id);
    assert [op][..0] == [];
    assert ApplyOps(ts, [op]) == ApplyOp(ts, op);
    hide NodesIn;
    hide JsonPointer.Path;
    hide Drop;
  }

  /** A remove for an id the graph does not hold takes the last node instead. */
  lemma UnknownRemoveTakesLast(g: Graph, id: Id)
    requires Unique(g) && g.nodes != [] && forall n :: n in g.nodes ==> n.id != id
    ensures Patched(g, [Remove(JsonPointer.Path("nodes", id))]).nodes == g.nodes[..|g.nodes| - 1]
  {
    UnknownDropsLast(NodeItems(g.nodes), id);
    ApplyNodeOp(g, id);
    HeldNodes(g.nodes);
    hide *;
    TableParts(NodeItems(g.nodes));
    ReadBack(g.nodes, TableOf(NodeItems(g.nodes)).items, |g.nodes| - 1);
  }

  lemma HeldNodes(nodes: seq<CanvasNode>)
    requires Distinct(ItemIds(NodeItems(nodes)))
    ensures var items := TableOf(NodeItems(nodes)).items;
      forall i :: 0 <= i < |nodes| ==> nodes[i].id in items && items[nodes[i].id] == NodeItem(nodes[i])
  {
    hide Distinct;
    Held(NodeItems(nodes));
  }

  lemma {:induction false} ReadBack(nodes: seq<CanvasNode>, items: Store, k: nat)
    requires k <= |nodes|
    requires forall i :: 0 <= i < |nodes| ==> nodes[i].id in items && items[nodes[i].id] == NodeItem(nodes[i])
    ensures NodesIn(Table(items, ItemIds(NodeItems(nodes))[..k])) == nodes[..k]
  {
    if k > 0 {
      var order := ItemIds(NodeItems(nodes));
      ReadBack(nodes, items, k - 1);
      assert order[..k][..k - 1] == order[..k - 1];
      assert order[..k][k - 1] == nodes[k - 1].id;
    }
  }

  // ---- the edges ----

  lemma OneEdgeRemoved(ts: Tables, id: Id)
    ensures ApplyOps(ts, [Remove(JsonPointer.Path("edges", id))]) == ts.(edges := Drop(ts.edges, id))
  {
    var op := Remove(JsonPointer.Path("edges", id));
    JsonPointer.PathParts("edges", id);
    assert [op][..0] == [];
    assert ApplyOps(ts, [op]) == ApplyOp(ts, op);
    hide JsonPointer.Path;
    hide Drop;
  }

  lemma ApplyEdgeOp(g: Graph, id: Id)
    ensures var r := Patched(g, [Remove(JsonPointer.Path("edges", id))]);
      && r.edges == EdgesIn(Drop(TableOf(EdgeItems(g.edges)), id))
      && r.nodes == NodesIn(TableOf(NodeItems(g.nodes)))
  {
    hide ApplyOps;
    hide TableOf;
    hide NodesIn;
    hide EdgesIn;
    hide JsonPointer.Path;
    hide Drop;
    OneEdgeRemoved(Tables(TableOf(NodeItems(g.nodes)), TableOf(EdgeItems(g.edges))), id);
  }

  /** A remove for an id the graph does not hold takes the last edge instead. */
  lemma UnknownEdgeTakesLast(g: Graph, id: Id)
    requires Unique(g) && g.edges != [] && forall e :: e in g.edges ==> e.id != id
    ensures Patched(g, [Remove(JsonPointer.Path("edges", id))]).edges == g.edges[..|g.edges| - 1]
  {
    UnknownDropsLast(EdgeItems(g.edges), id);
    ApplyEdgeOp(g, id);
    HeldEdges(g.edges);
    hide *;
    TableParts(EdgeItems(g.edges));
    ReadEdgesBack(g.edges, TableOf(EdgeItems(g.edges)).items, |g.edges| - 1);
  }

  lemma HeldEdges(edges: seq<CanvasEdge>)
    requires Distinct(ItemIds(EdgeItems(edges)))
    ensures var items := TableOf(EdgeItems(edges)).items;
      forall i :: 0 <= i < |edges| ==> edges[i].id in items && items[edges[i].id] == EdgeItem(edges[i])
  {
    hide Distinct;
    Held(EdgeItems(edges));
  }

  lemma {:induction false} ReadEdgesBack(edges: seq<CanvasEdge>, items: Store, k: nat)
    requires k <= |edges|
    requires forall i :: 0 <= i < |edges| ==> edges[i].id in items && items[edges[i].id] == EdgeItem(edges[i])
    ensures EdgesIn(Table(items, ItemIds(EdgeItems(edges))[..k])) == edges[..k]
  {
    if k > 0 {
      var order := ItemIds(EdgeItems(edges));
      ReadEdgesBack(edges, items, k - 1);
      assert order[..k][..k - 1] == order[..k - 1];
      assert order[..k][k - 1] == edges[k - 1].id;
    }
  }

  // ---- exactly when a remove does what it says ----

  lemma DroppedNode(t: Table, d: Table, id: Id, n: CanvasNode)
    requires Tabular(t) && Tabular(d) && d.items == t.items - {id}
    ensures (exists k :: k in d.order && k in d.items && d.items[k] == NodeItem(n)) <==>
      n.id != id && n.id in t.items && t.items[n.id] == NodeItem(n)
  {
    if n.id != id && n.id in t.items && t.items[n.id] == NodeItem(n) {
      assert n.id in d.order && n.id in d.items;
    }
  }

  lemma StoredNode(g: Graph, n: CanvasNode)
    requires Unique(g)
    ensures var t := TableOf(NodeItems(g.nodes));
      Tabular(t) && (n in g.nodes <==> n.id in t.items && t.items[n.id] == NodeItem(n))
  {
    TableOfTabular(NodeItems(g.nodes));
    ByIdDistinct(NodeItems(g.nodes));
    NodeItemIn(g.nodes, NodeItem(n));
    hide Tabular;
    hide ItemIds;
    hide NodeItems;
  }

  lemma KnownNodeRemoved(g: Graph, id: Id)
    requires Unique(g) && exists n :: n in g.nodes && n.id == id
    ensures forall n :: n in Patched(g, [Remove(JsonPointer.Path("nodes", id))]).nodes <==> n in g.nodes && n.id != id
  {
    var t := TableOf(NodeItems(g.nodes));
    ApplyNodeOp(g, id);
    var m :| m in g.nodes && m.id == id;
    StoredNode(g, m);
    DropTabular(t, id);
    var d := Drop(t, id);
    assert Distinct(d.order);
    NodesBack(d);
    hide *;
    forall n
      ensures n in NodesIn(d) <==> n in g.nodes && n.id != id
    {
      StoredNode(g, n);
      DroppedNode(t, d, id, n);
    }
  }

  lemma DroppedEdge(t: Table, d: Table, id: Id, e: CanvasEdge)
    requires Tabular(t) && Tabular(d) && d.items == t.items - {id}
    ensures (exists k :: k in d.order && k in d.items && d.items[k] == EdgeItem(e)) <==>
      e.id != id && e.id in t.items && t.items[e.id] == EdgeItem(e)
  {
    if e.id != id && e.id in t.items && t.items[e.id] == EdgeItem(e) {
      assert e.id in d.order && e.id in d.items;
    }
  }

  lemma StoredEdge(g: Graph, e: CanvasEdge)
    requires Unique(g)
    ensures var t := TableOf(EdgeItems(g.edges));
      Tabular(t) && (e in g.edges <==> e.id in t.items && t.items[e.id] == EdgeItem(e))
  {
    TableOfTabular(EdgeItems(g.edges));
    ByIdDistinct(EdgeItems(g.edges));
    EdgeItemIn(g.edges, EdgeItem(e));
    hide Tabular;
    hide ItemIds;
    hide EdgeItems;
  }

  lemma KnownEdgeRemoved(g: Graph, id: Id)
    requires Unique(g) && exists e :: e in g.edges && e.id == id
    ensures forall e :: e in Patched(g, [Remove(JsonPointer.Path("edges", id))]).edges <==> e in g.edges && e.id != id
  {
    var t := TableOf(EdgeItems(g.edges));
    ApplyEdgeOp(g, id);
    var m :| m in g.edges && m.id == id;
    StoredEdge(g, m);
    DropTabular(t, id);
    var d := Drop(t, id);
    assert Distinct(d.order);
    EdgesBack(d);
    hide *;
    forall e
      ensures e in EdgesIn(d) <==> e in g.edges && e.id != id
    {
      StoredEdge(g, e);
      DroppedEdge(t, d, id, e);
    }
  }

  lemma LastNodeAlone(g: Graph)
    requires Unique(g) && g.nodes != []
    ensures g.nodes[|g.nodes| - 1] !in g.nodes[..|g.nodes| - 1]
  {
    var ids := ItemIds(NodeItems(g.nodes));
    assert forall i :: 0 <= i < |g.nodes| ==> ids[i] == g.nodes[i].id;
  }

  lemma LastEdgeAlone(g: Graph)
    requires Unique(g) && g.edges != []
    ensures g.edges[|g.edges| - 1] !in g.edges[..|g.edges| - 1]
  {
    var ids := ItemIds(EdgeItems(g.edges));
    assert forall i :: 0 <= i < |g.edges| ==> ids[i] == g.edges[i].id;
  }

  lemma NothingToRemove(g: Graph, id: Id)
    ensures g.nodes == [] ==> Patched(g, [Remove(JsonPointer.Path("nodes", id))]).nodes == []
    ensures g.edges == [] ==> Patched(g, [Remove(JsonPointer.Path("edges", id))]).edges == []
  {
    ApplyNodeOp(g, id);
    ApplyEdgeOp(g, id);
    hide Patched;
    hide JsonPointer.Path;
  }

  /** A remove leaves exactly the nodes with other ids if and only if the id is held, or there are no nodes. */
  lemma RemoveNodeExact(g: Graph, id: Id)
    requires Unique(g)
    ensures (forall n :: n in Patched(g, [Remove(JsonPointer.Path("nodes", id))]).nodes <==> n in g.nodes && n.id != id)
      <==> g.nodes == [] || exists n :: n in g.nodes && n.id == id
  {
    hide Patched;
    hide Unique;
    if exists n :: n in g.nodes && n.id == id {
      KnownNodeRemoved(g, id);
    } else if g.nodes == [] {
      NothingToRemove(g, id);
    } else {
      UnknownRemoveTakesLast(g, id);
      LastNodeAlone(g);
      assert g.nodes[|g.nodes| - 1] in g.nodes;
    }
  }

  /** And so with the edges. */
  lemma RemoveEdgeExact(g: Graph, id: Id)
    requires Unique(g)
    ensures (forall e :: e in Patched(g, [Remove(JsonPointer.Path("edges", id))]).edges <==> e in g.edges && e.id != id)
      <==> g.edges == [] || exists e :: e in g.edges && e.id == id
  {
    hide Patched;
    hide Unique;
    if exists e :: e in g.edges && e.id == id {
      KnownEdgeRemoved(g, id);
    } else if g.edges == [] {
      NothingToRemove(g, id);
    } else {
      UnknownEdgeTakesLast(g, id);
      LastEdgeAlone(g);
      assert g.edges[|g.edges| - 1] in g.edges;
    }
  }
}
