// What changed between two graphs, by id, and replaying it.
module Patch {
  import opened Options
  import opened Digraph
  import opened Canvas
  import JsonPointer
  import Texts

  /** A node or an edge: the two collections are patched alike. */
  datatype Item = NodeItem(node: CanvasNode) | EdgeItem(edge: CanvasEdge)

  type Id = string
  type Store = map<Id, Item>

  datatype PatchOp = Add(path: string, value: Item) | Remove(path: string) | Replace(path: string, value: Item)

  function IdOf(x: Item): Id {
    match x
    case NodeItem(n) => n.id
    case EdgeItem(e) => e.id
  }

  /** The fields shallowEqualNode and shallowEqualEdge compare: all but the id. */
  predicate ShallowEqual(a: Item, b: Item) {
    match (a, b)
    case (NodeItem(m), NodeItem(n)) =>
      m.kind == n.kind && m.position == n.position && m.parentId == n.parentId && m.data == n.data
    case (EdgeItem(d), EdgeItem(e)) =>
      d.source == e.source && d.target == e.target && d.sourceHandle == e.sourceHandle
        && d.targetHandle == e.targetHandle
    case _ => false
  }

  function NodeItems(nodes: seq<CanvasNode>): (r: seq<Item>)
    ensures |r| == |nodes| && forall i :: 0 <= i < |nodes| ==> r[i] == NodeItem(nodes[i])
  {
    seq(|nodes|, i requires 0 <= i < |nodes| => NodeItem(nodes[i]))
  }

  function EdgeItems(edges: seq<CanvasEdge>): (r: seq<Item>)
    ensures |r| == |edges| && forall i :: 0 <= i < |edges| ==> r[i] == EdgeItem(edges[i])
  {
    seq(|edges|, i requires 0 <= i < |edges| => EdgeItem(edges[i]))
  }

  function ItemIds(items: seq<Item>): (r: seq<Id>)
    ensures |r| == |items| && forall i :: 0 <= i < |items| ==> r[i] == IdOf(items[i])
  {
    seq(|items|, i requires 0 <= i < |items| => IdOf(items[i]))
  }

  /** new Map(items.map(x => [x.id, x])): the last item with an id wins. */
  function ById(items: seq<Item>): (m: Store)
    ensures forall id :: id in m <==> id in ItemIds(items)
    ensures forall id :: id in m ==> m[id] in items && IdOf(m[id]) == id
  {
    if items == [] then map[]
    else
      var x := items[|items| - 1];
      assert items == items[..|items| - 1] + [x];
      assert forall id :: id in ItemIds(items) <==> id in ItemIds(items[..|items| - 1]) || id == IdOf(x) by {
        assert ItemIds(items) == ItemIds(items[..|items| - 1]) + [IdOf(x)];
      }
      ById(items[..|items| - 1])[IdOf(x) := x]
  }

  /** A map's keys, in the order they first appear. */
  function KeyOrder(ids: seq<Id>): (r: seq<Id>)
    ensures Distinct(r) && forall id :: id in r <==> id in ids
  {
    if ids == [] then []
    else
      var rest := KeyOrder(ids[..|ids| - 1]);
      assert ids == ids[..|ids| - 1] + [ids[|ids| - 1]];
      if ids[|ids| - 1] in rest then rest else rest + [ids[|ids| - 1]]
  }

  lemma {:induction false} KeyOrderDistinct(ids: seq<Id>)
    requires Distinct(ids)
    ensures KeyOrder(ids) == ids
  {
    if ids != [] {
      var n := |ids| - 1;
      KeyOrderDistinct(ids[..n]);
      assert ids[n] !in ids[..n];
      assert ids == ids[..n] + [ids[n]];
    }
  }

  // ---- the difference ----

  function PutOp(collection: string, id: Id, before: Store, x: Item): seq<PatchOp> {
    if id !in before then [Add(JsonPointer.Path(collection, id), x)]
    else if !ShallowEqual(before[id], x) then [Replace(JsonPointer.Path(collection, id), x)]
    else []
  }

  function PutOps(collection: string, order: seq<Id>, before: Store, after: Store): seq<PatchOp>
    requires forall id :: id in order ==> id in after
  {
    if order == [] then []
    else
      var n := |order| - 1;
      assert order == order[..n] + [order[n]];
      PutOps(collection, order[..n], before, after) + PutOp(collection, order[n], before, after[order[n]])
  }

  function DropOps(collection: string, order: seq<Id>, after: Store): seq<PatchOp> {
    if order == [] then []
    else
      var n := |order| - 1;
      DropOps(collection, order[..n], after)
      + if order[n] !in after then [Remove(JsonPointer.Path(collection, order[n]))] else []
  }

  function DiffItems(collection: string, before: seq<Item>, after: seq<Item>): seq<PatchOp> {
    PutOps(collection, KeyOrder(ItemIds(after)), ById(before), ById(after))
    + DropOps(collection, KeyOrder(ItemIds(before)), ById(after))
  }

  function Diff(before: Graph, after: Graph): seq<PatchOp> {
    DiffItems("nodes", NodeItems(before.nodes), NodeItems(after.nodes))
    + DiffItems("edges", EdgeItems(before.edges), EdgeItems(after.edges))
  }

  method PutLoop(collection: string, keys: seq<Id>, before: Store, after: Store) returns (ops: seq<PatchOp>)
    requires forall id :: id in keys ==> id in after
    ensures ops == PutOps(collection, keys, before, after)
  {
    ops := [];
    for i := 0 to |keys|
      invariant ops == PutOps(collection, keys[..i], before, after)
    {
      assert keys[..i + 1][..i] == keys[..i];
      var id := keys[i];
      if id !in before {
        ops := ops + [Add(JsonPointer.Path(collection, id), after[id])];
      } else if !ShallowEqual(before[id], after[id]) {
        ops := ops + [Replace(JsonPointer.Path(collection, id), after[id])];
      }
    }
    assert keys[..|keys|] == keys;
  }

  method DropLoop(collection: string, keys: seq<Id>, after: Store) returns (ops: seq<PatchOp>)
    ensures ops == DropOps(collection, keys, after)
  {
    ops := [];
    for i := 0 to |keys|
      invariant ops == DropOps(collection, keys[..i], after)
    {
      assert keys[..i + 1][..i] == keys[..i];
      if keys[i] !in after {
        ops := ops + [Remove(JsonPointer.Path(collection, keys[i]))];
      }
    }
    assert keys[..|keys|] == keys;
  }

  method DiffCollection(collection: string, before: seq<Item>, after: seq<Item>) returns (ops: seq<PatchOp>)
    ensures ops == DiffItems(collection, before, after)
  {
    var puts := PutLoop(collection, KeyOrder(ItemIds(after)), ById(before), ById(after));
    var drops := DropLoop(collection, KeyOrder(ItemIds(before)), ById(after));
    ops := puts + drops;
  }

  method DiffGraph(before: Graph, after: Graph) returns (ops: seq<PatchOp>)
    ensures ops == Diff(before, after)
  {
    var nodeOps := DiffCollection("nodes", NodeItems(before.nodes), NodeItems(after.nodes));
    var edgeOps := DiffCollection("edges", EdgeItems(before.edges), EdgeItems(after.edges));
    ops := nodeOps + edgeOps;
  }

  // ---- applying ----

  /** One collection under a patch: what each id stands for, and the order they come in. */
  datatype Table = Table(items: Store, order: seq<Id>)

  function IndexOf(order: seq<Id>, id: Id): (r: int)
    ensures -1 <= r < |order|
  {
    if order == [] then -1
    else if order[0] == id then 0
    else
      var k := IndexOf(order[1..], id);
      if k < 0 then -1 else k + 1
  }

  lemma {:induction false} IndexOfFinds(order: seq<Id>, id: Id)
    ensures id in order ==> 0 <= IndexOf(order, id) < |order| && order[IndexOf(order, id)] == id
    ensures id !in order ==> IndexOf(order, id) == -1
  {
    if order != [] {
      IndexOfFinds(order[1..], id);
      assert order == [order[0]] + order[1..];
    }
  }

  /** order.splice(k, 1): from the end when k is negative. */
  function Splice(order: seq<Id>, k: int): seq<Id>
    requires -1 <= k < |order|
  {
    if order == [] then []
    else if k < 0 then order[..|order| - 1]
    else order[..k] + order[k + 1..]
  }

  function Put(t: Table, id: Id, x: Item): Table {
    Table(t.items[id := x], if id in t.items then t.order else t.order + [id])
  }

  function Drop(t: Table, id: Id): Table {
    Table(t.items - {id}, Splice(t.order, IndexOf(t.order, id)))
  }

  function OnTable(t: Table, id: Id, op: PatchOp): Table {
    match op
    case Remove(_) => Drop(t, id)
    case Add(_, x) => Put(t, id, x)
    case Replace(_, x) => Put(t, id, x)
  }

  datatype Tables = Tables(nodes: Table, edges: Table)

  /** The path picks the collection and the id; anything else is skipped. */
  function ApplyOp(ts: Tables, op: PatchOp): Tables {
    var parts := Texts.SplitChar(op.path, '/');
    if |parts| < 3 then ts
    else
      var id := JsonPointer.Unescape(parts[2]);
      if parts[1] == "nodes" then ts.(nodes := OnTable(ts.nodes, id, op))
      else if parts[1] == "edges" then ts.(edges := OnTable(ts.edges, id, op))
      else ts
  }

  function ApplyOps(ts: Tables, ops: seq<PatchOp>): Tables {
    if ops == [] then ts else ApplyOp(ApplyOps(ts, ops[..|ops| - 1]), ops[|ops| - 1])
  }

  function TableOf(items: seq<Item>): Table {
    Table(ById(items), ItemIds(items))
  }

  function NodesIn(t: Table): seq<CanvasNode>
    decreases |t.order|
  {
    if t.order == [] then []
    else
      var id := t.order[|t.order| - 1];
      NodesIn(Table(t.items, t.order[..|t.order| - 1]))
      + if id in t.items && t.items[id].NodeItem? then [t.items[id].node] else []
  }

  function EdgesIn(t: Table): seq<CanvasEdge>
    decreases |t.order|
  {
    if t.order == [] then []
    else
      var id := t.order[|t.order| - 1];
      EdgesIn(Table(t.items, t.order[..|t.order| - 1]))
      + if id in t.items && t.items[id].EdgeItem? then [t.items[id].edge] else []
  }

  function Patched(g: Graph, ops: seq<PatchOp>): Graph {
    var ts := ApplyOps(Tables(TableOf(NodeItems(g.nodes)), TableOf(EdgeItems(g.edges))), ops);
    Graph(NodesIn(ts.nodes), EdgesIn(ts.edges))
  }

  method ApplyPatch(g: Graph, ops: seq<PatchOp>) returns (r: Graph)
    ensures r == Patched(g, ops)
  {
    var nodes, edges := TableOf(NodeItems(g.nodes)), TableOf(EdgeItems(g.edges));
    ghost var start := Tables(nodes, edges);
    for i := 0 to |ops|
      invariant Tables(nodes, edges) == ApplyOps(start, ops[..i])
    {
      assert ops[..i + 1][..i] == ops[..i];
      var parts := Texts.SplitChar(ops[i].path, '/');
      if |parts| >= 3 {
        var id := JsonPointer.Unescape(parts[2]);
        if parts[1] == "nodes" {
          nodes := OnTable(nodes, id, ops[i]);
        } else if parts[1] == "edges" {
          edges := OnTable(edges, id, ops[i]);
        }
      }
    }
    assert ops[..|ops|] == ops;
    r := Graph(NodesIn(nodes), EdgesIn(edges));
  }
}
