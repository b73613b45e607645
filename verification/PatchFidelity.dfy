// A patch is faithful: replaying the difference turns one graph into the other.
// A collection is a table of items by id with an order of ids; puts bring in
// what differs, drops take out what is gone.
module PatchFidelity {
  import opened Options
  import opened Digraph
  import opened Canvas
  import opened Patch
  import JsonPointer
  import Texts

  /** The same elements, in whatever order. */
  ghost predicate Alike<T(!new)>(a: seq<T>, b: seq<T>) {
    forall x :: x in a <==> x in b
  }

  ghost predicate SameContent(a: Graph, b: Graph) {
    Alike(a.nodes, b.nodes) && Alike(a.edges, b.edges)
  }

  ghost predicate Unique(g: Graph) {
    Distinct(ItemIds(NodeItems(g.nodes))) && Distinct(ItemIds(EdgeItems(g.edges)))
  }

  // ---- tables ----

  /** The order lists each stored id once. */
  ghost predicate Tabular(t: Table) {
    && Distinct(t.order)
    && (forall id :: id in t.order <==> id in t.items)
    && (forall id :: id in t.items ==> IdOf(t.items[id]) == id)
  }

  lemma SpliceFound(order: seq<Id>, id: Id)
    requires Distinct(order) && id in order
    ensures var r := Splice(order, IndexOf(order, id));
      Distinct(r) && forall x :: x in r <==> x in order && x != id
  {
    IndexOfFinds(order, id);
    var k := IndexOf(order, id);
    var r := order[..k] + order[k + 1..];
    forall x | x in order && x != id
      ensures x in r
    {
      var i :| 0 <= i < |order| && order[i] == x;
      assert if i < k then r[i] == x else r[i - 1] == x;
    }
  }

  lemma DropTabular(t: Table, id: Id)
    requires Tabular(t) && id in t.items
    ensures Tabular(Drop(t, id)) && Drop(t, id).items == t.items - {id}
  {
    SpliceFound(t.order, id);
  }

  lemma PutTabular(t: Table, id: Id, x: Item)
    requires Tabular(t) && IdOf(x) == id
    ensures Tabular(Put(t, id, x)) && Put(t, id, x).items == t.items[id := x]
  {
  }

  lemma {:induction false} ByIdDistinct(items: seq<Item>)
    requires Distinct(ItemIds(items))
    ensures forall x :: x in items <==> IdOf(x) in ById(items) && ById(items)[IdOf(x)] == x
  {
    if items != [] {
      var n := |items| - 1;
      assert ItemIds(items[..n]) == ItemIds(items)[..n];
      ByIdDistinct(items[..n]);
      assert ItemIds(items)[n] !in ItemIds(items)[..n];
      assert items == items[..n] + [items[n]];
    }
  }

  lemma TableOfTabular(items: seq<Item>)
    requires Distinct(ItemIds(items))
    ensures Tabular(TableOf(items))
  {
  }

  // ---- one collection under its own operations ----

  function OnItems(t: Table, ops: seq<PatchOp>): Table {
    if ops == [] then t
    else
      var op := ops[|ops| - 1];
      var parts := Texts.SplitChar(op.path, '/');
      var before := OnItems(t, ops[..|ops| - 1]);
      if |parts| < 3 then before else OnTable(before, JsonPointer.Unescape(parts[2]), op)
  }

  lemma OnItemsSnoc(t: Table, ops: seq<PatchOp>, collection: string, id: Id, op: PatchOp)
    requires '/' !in collection && op.path == JsonPointer.Path(collection, id)
    ensures OnItems(t, ops + [op]) == OnTable(OnItems(t, ops), id, op)
  {
    JsonPointer.PathParts(collection, id);
    assert (ops + [op])[..|ops|] == ops;
  }

  /** The old content with the listed ids taken from the new. */
  ghost predicate Merged(r: Table, before: Store, ids: seq<Id>, after: Store)
    requires forall id :: id in ids ==> id in after
  {
    && Tabular(r)
    && (forall id :: id in r.items <==> id in before || id in ids)
    && (forall id :: id in r.items ==> r.items[id] == if id in ids then after[id] else before[id])
  }

  lemma MergeOne(mid: Table, before: Store, ids: seq<Id>, after: Store, id: Id)
    requires (forall x :: x in ids ==> x in after) && id in after && IdOf(after[id]) == id
    requires Merged(mid, before, ids, after) && (forall x :: x in before ==> IdOf(before[x]) == x)
    ensures Merged(Put(mid, id, after[id]), before, ids + [id], after)
    ensures id in before && ShallowEqual(before[id], after[id]) ==> Merged(mid, before, ids + [id], after)
  {
    PutTabular(mid, id, after[id]);
    if id in before && ShallowEqual(before[id], after[id]) {
      SameItem(before[id], after[id], id);
    }
    hide ShallowEqual;
    hide Tabular;
  }

  /** The puts bring in everything of `after` that differs. */
  lemma {:induction false} PutsReach(collection: string, order: seq<Id>, before: Store, after: Store, t: Table)
    requires '/' !in collection && Tabular(t) && t.items == before
    requires forall id :: id in order ==> id in after
    requires forall id :: id in after ==> IdOf(after[id]) == id
    ensures Merged(OnItems(t, PutOps(collection, order, before, after)), before, order, after)
  {
    hide Merged;
    hide ShallowEqual;
    hide JsonPointer.Path;
    hide OnTable;
    if order == [] {
      MergedNothing(t, before, after);
    } else {
      var n := |order| - 1;
      var id := order[n];
      var ops := PutOps(collection, order[..n], before, after);
      assert order == order[..n] + [id];
      PutsReach(collection, order[..n], before, after, t);
      var mid := OnItems(t, ops);
      assert forall x :: x in before ==> IdOf(before[x]) == x;
      MergeOne(mid, before, order[..n], after, id);
      hide OnItems;
      OnePut(collection, t, ops, before, after[id], id);
    }
  }

  lemma MergedNothing(t: Table, before: Store, after: Store)
    requires Tabular(t) && t.items == before
    ensures Merged(t, before, [], after)
  {
  }

  /** One more id: put if it is new or different, left if it is the same. */
  lemma OnePut(collection: string, t: Table, ops: seq<PatchOp>, before: Store, x: Item, id: Id)
    requires '/' !in collection
    ensures var mid := OnItems(t, ops);
      OnItems(t, ops + PutOp(collection, id, before, x)) ==
      if id in before && ShallowEqual(before[id], x) then mid else Put(mid, id, x)
  {
    hide JsonPointer.Path;
    hide ShallowEqual;
    hide OnItems;
    var last := PutOp(collection, id, before, x);
    if last != [] {
      OnItemsSnoc(t, ops, collection, id, last[0]);
      assert last == [last[0]];
    } else {
      assert ops + last == ops;
    }
  }

  lemma SameItem(a: Item, b: Item, id: Id)
    requires ShallowEqual(a, b) && IdOf(a) == id && IdOf(b) == id
    ensures a == b
  {
  }

  /** The table without the listed ids that `after` lacks. */
  ghost predicate Pared(r: Table, mid: Table, ids: seq<Id>, after: Store) {
    && Tabular(r)
    && (forall id :: id in r.items <==> id in mid.items && (id !in ids || id in after))
    && (forall id :: id in r.items ==> r.items[id] == mid.items[id])
  }

  /** The drops take out everything `after` lacks. */
  lemma {:induction false} DropsReach(collection: string, order: seq<Id>, after: Store, t: Table, puts: seq<PatchOp>)
    requires '/' !in collection && Distinct(order)
    requires Tabular(OnItems(t, puts)) && forall id :: id in order ==> id in OnItems(t, puts).items
    ensures Pared(OnItems(t, puts + DropOps(collection, order, after)), OnItems(t, puts), order, after)
  {
    hide Tabular;
    hide OnItems;
    if order == [] {
      assert puts + [] == puts;
    } else {
      var n := |order| - 1;
      var id := order[n];
      var ops := DropOps(collection, order[..n], after);
      assert order == order[..n] + [id];
      DropsReach(collection, order[..n], after, t, puts);
      var mid := OnItems(t, puts + ops);
      assert id !in order[..n];
      if id !in after {
        var op := Remove(JsonPointer.Path(collection, id));
        OnItemsSnoc(t, puts + ops, collection, id, op);
        assert puts + (ops + [op]) == puts + ops + [op];
        DropTabular(mid, id);
      } else {
        assert ops + [] == ops;
      }
    }
  }

  lemma MergedThenPared(r: Table, mid: Table, before: Store, after: Store, beforeKeys: seq<Id>, afterKeys: seq<Id>)
    requires forall id :: id in afterKeys <==> id in after
    requires forall id :: id in beforeKeys <==> id in before
    requires Merged(mid, before, afterKeys, after) && Pared(r, mid, beforeKeys, after)
    ensures Tabular(r) && r.items == after
  {
    hide Tabular;
    assert forall id :: id in r.items <==> id in after;
  }

  /** One collection's difference, replayed on any table with the old content, gives the new content. */
  lemma ItemsReach(collection: string, before: seq<Item>, after: seq<Item>, t: Table)
    requires '/' !in collection
    requires Tabular(t) && t.items == ById(before)
    ensures var r := OnItems(t, DiffItems(collection, before, after));
      Tabular(r) && r.items == ById(after)
  {
    var was, now := ById(before), ById(after);
    var afterKeys, beforeKeys := KeyOrder(ItemIds(after)), KeyOrder(ItemIds(before));
    var puts := PutOps(collection, afterKeys, was, now);
    hide PutOps;
    hide DropOps;
    hide KeyOrder;
    hide ById;
    hide OnItems;
    hide Tabular;
    hide Pared;
    PutsReach(collection, afterKeys, was, now, t);
    var mid := OnItems(t, puts);
    assert Tabular(mid) && forall id :: id in beforeKeys ==> id in mid.items;
    hide Merged;
    DropsReach(collection, beforeKeys, now, t, puts);
    MergedThenPared(OnItems(t, DiffItems(collection, before, after)), mid, was, now, beforeKeys, afterKeys);
  }

  // ---- both collections ----

  lemma ApplyOpsSnoc(ts: Tables, ops: seq<PatchOp>, op: PatchOp)
    ensures ApplyOps(ts, ops + [op]) == ApplyOp(ApplyOps(ts, ops), op)
  {
    assert (ops + [op])[..|ops|] == ops;
  }

  lemma {:induction false} ApplyOpsConcat(ts: Tables, a: seq<PatchOp>, b: seq<PatchOp>)
    ensures ApplyOps(ts, a + b) == ApplyOps(ApplyOps(ts, a), b)
  {
    hide ApplyOp;
    if b == [] {
      assert a + b == a;
    } else {
      hide ApplyOps;
      var most, last := b[..|b| - 1], b[|b| - 1];
      assert b == most + [last];
      assert a + b == (a + most) + [last];
      ApplyOpsConcat(ts, a, most);
      ApplyOpsSnoc(ts, a + most, last);
      ApplyOpsSnoc(ApplyOps(ts, a), most, last);
    }
  }

  /** Every operation is addressed to the collection. */
  predicate For(collection: string, ops: seq<PatchOp>) {
    forall op :: op in ops ==> |Texts.SplitChar(op.path, '/')| >= 3 && Texts.SplitChar(op.path, '/')[1] == collection
  }

  lemma {:induction false} DiffAddressed(collection: string, order: seq<Id>, before: Store, after: Store)
    requires '/' !in collection
    ensures (forall id :: id in order ==> id in after) ==> For(collection, PutOps(collection, order, before, after))
    ensures For(collection, DropOps(collection, order, after))
  {
    if order != [] {
      var n := |order| - 1;
      assert order == order[..n] + [order[n]];
      DiffAddressed(collection, order[..n], before, after);
      JsonPointer.PathParts(collection, order[n]);
    }
  }

  lemma DiffItemsAddressed(collection: string, before: seq<Item>, after: seq<Item>)
    requires '/' !in collection
    ensures For(collection, DiffItems(collection, before, after))
  {
    DiffAddressed(collection, KeyOrder(ItemIds(after)), ById(before), ById(after));
    DiffAddressed(collection, KeyOrder(ItemIds(before)), ById(before), ById(after));
  }

  lemma OneNodeOp(ts: Tables, done: seq<PatchOp>, op: PatchOp)
    requires For("nodes", [op]) && ApplyOps(ts, done) == Tables(OnItems(ts.nodes, done), ts.edges)
    ensures ApplyOps(ts, done + [op]) == Tables(OnItems(ts.nodes, done + [op]), ts.edges)
  {
    assert (done + [op])[..|done|] == done;
    assert op in [op];
    hide Texts.SplitChar;
    hide JsonPointer.Unescape;
    hide OnTable;
  }

  lemma OneEdgeOp(ts: Tables, done: seq<PatchOp>, op: PatchOp)
    requires For("edges", [op]) && ApplyOps(ts, done) == Tables(ts.nodes, OnItems(ts.edges, done))
    ensures ApplyOps(ts, done + [op]) == Tables(ts.nodes, OnItems(ts.edges, done + [op]))
  {
    assert (done + [op])[..|done|] == done;
    assert op in [op];
    hide Texts.SplitChar;
    hide JsonPointer.Unescape;
    hide OnTable;
  }

  lemma ForParts(collection: string, ops: seq<PatchOp>)
    requires For(collection, ops) && ops != []
    ensures For(collection, ops[..|ops| - 1]) && For(collection, [ops[|ops| - 1]])
    ensures ops == ops[..|ops| - 1] + [ops[|ops| - 1]]
  {
    hide Texts.SplitChar;
    assert ops[|ops| - 1] in ops && forall op :: op in ops[..|ops| - 1] ==> op in ops;
  }

  lemma {:induction false} NodesOnly(ts: Tables, ops: seq<PatchOp>)
    requires For("nodes", ops)
    ensures ApplyOps(ts, ops) == Tables(OnItems(ts.nodes, ops), ts.edges)
  {
    hide For;
    if ops != [] {
      hide ApplyOps;
      hide OnItems;
      ForParts("nodes", ops);
      NodesOnly(ts, ops[..|ops| - 1]);
      OneNodeOp(ts, ops[..|ops| - 1], ops[|ops| - 1]);
    }
  }

  lemma {:induction false} EdgesOnly(ts: Tables, ops: seq<PatchOp>)
    requires For("edges", ops)
    ensures ApplyOps(ts, ops) == Tables(ts.nodes, OnItems(ts.edges, ops))
  {
    hide For;
    if ops != [] {
      hide ApplyOps;
      hide OnItems;
      ForParts("edges", ops);
      EdgesOnly(ts, ops[..|ops| - 1]);
      OneEdgeOp(ts, ops[..|ops| - 1], ops[|ops| - 1]);
    }
  }

  // ---- reading the tables back ----

  lemma {:induction false} NodesBack(t: Table)
    requires Distinct(t.order)
    ensures forall n :: n in NodesIn(t) <==> exists id :: id in t.order && id in t.items && t.items[id] == NodeItem(n)
    ensures (forall id :: id in t.items ==> IdOf(t.items[id]) == id) ==>
      Distinct(ItemIds(NodeItems(NodesIn(t))))
    decreases |t.order|
  {
    if t.order != [] {
      var k := |t.order| - 1;
      var id := t.order[k];
      var rest := Table(t.items, t.order[..k]);
      NodesBack(rest);
      assert t.order == t.order[..k] + [id];
      if (forall x :: x in t.items ==> IdOf(t.items[x]) == x) && id in t.items && t.items[id].NodeItem? {
        SnocDistinct(NodeItems(NodesIn(rest)), t.items[id], t);
        assert NodeItems(NodesIn(t)) == NodeItems(NodesIn(rest)) + [t.items[id]];
      } else if !(id in t.items && t.items[id].NodeItem?) {
        assert NodesIn(t) == NodesIn(rest);
      }
    }
  }

  lemma SnocDistinct(items: seq<Item>, x: Item, t: Table)
    requires t.order != [] && t.order[|t.order| - 1] == IdOf(x) && Distinct(t.order)
    requires Distinct(ItemIds(items))
    requires forall y :: y in items ==> IdOf(y) in t.order[..|t.order| - 1]
    ensures Distinct(ItemIds(items + [x]))
  {
    var all := ItemIds(items + [x]);
    assert all == ItemIds(items) + [IdOf(x)];
    forall i | 0 <= i < |items|
      ensures all[i] != IdOf(x)
    {
      assert items[i] in items;
    }
  }

  lemma {:induction false} EdgesBack(t: Table)
    requires Distinct(t.order)
    ensures forall e :: e in EdgesIn(t) <==> exists id :: id in t.order && id in t.items && t.items[id] == EdgeItem(e)
    ensures (forall id :: id in t.items ==> IdOf(t.items[id]) == id) ==>
      Distinct(ItemIds(EdgeItems(EdgesIn(t))))
    decreases |t.order|
  {
    if t.order != [] {
      var k := |t.order| - 1;
      var id := t.order[k];
      var rest := Table(t.items, t.order[..k]);
      EdgesBack(rest);
      assert t.order == t.order[..k] + [id];
      if (forall x :: x in t.items ==> IdOf(t.items[x]) == x) && id in t.items && t.items[id].EdgeItem? {
        SnocDistinct(EdgeItems(EdgesIn(rest)), t.items[id], t);
        assert EdgeItems(EdgesIn(t)) == EdgeItems(EdgesIn(rest)) + [t.items[id]];
      } else if !(id in t.items && t.items[id].EdgeItem?) {
        assert EdgesIn(t) == EdgesIn(rest);
      }
    }
  }

  // ---- fidelity ----

  lemma NodeContent(g: Graph, t: Table)
    requires Distinct(ItemIds(NodeItems(g.nodes))) && Tabular(t) && t.items == ById(NodeItems(g.nodes))
    ensures forall n :: n in NodesIn(t) <==> n in g.nodes
    ensures Distinct(ItemIds(NodeItems(NodesIn(t))))
  {
    hide NodesIn;
    hide ById;
    NodesBack(t);
    ByIdDistinct(NodeItems(g.nodes));
    forall n
      ensures n in NodesIn(t) <==> n in g.nodes
    {
      NodeItemIn(g.nodes, NodeItem(n));
      assert NodeItem(n) in NodeItems(g.nodes) <==> n.id in t.items && t.items[n.id] == NodeItem(n);
    }
    hide ItemIds;
    hide NodeItems;
  }

  lemma EdgeContent(g: Graph, t: Table)
    requires Distinct(ItemIds(EdgeItems(g.edges))) && Tabular(t) && t.items == ById(EdgeItems(g.edges))
    ensures forall e :: e in EdgesIn(t) <==> e in g.edges
    ensures Distinct(ItemIds(EdgeItems(EdgesIn(t))))
  {
    hide EdgesIn;
    hide ById;
    EdgesBack(t);
    ByIdDistinct(EdgeItems(g.edges));
    forall e
      ensures e in EdgesIn(t) <==> e in g.edges
    {
      EdgeItemIn(g.edges, EdgeItem(e));
      assert EdgeItem(e) in EdgeItems(g.edges) <==> e.id in t.items && t.items[e.id] == EdgeItem(e);
    }
    hide ItemIds;
    hide EdgeItems;
  }

  lemma SameItems(a: seq<Item>, b: seq<Item>)
    requires Distinct(ItemIds(a)) && Distinct(ItemIds(b))
    requires forall x :: x in a <==> x in b
    ensures ById(a) == ById(b)
  {
    hide Distinct, ItemIds, ById;
    ByIdDistinct(a);
    ByIdDistinct(b);
    var m, n := ById(a), ById(b);
    forall id
      ensures id in m <==> id in n
      ensures id in m ==> m[id] == n[id]
    {
      if id in m {
        assert m[id] in b;
      }
      if id in n {
        assert n[id] in a;
      }
    }
  }

  lemma SameNodeItems(a: seq<CanvasNode>, b: seq<CanvasNode>)
    requires forall n :: n in a <==> n in b
    ensures forall x :: x in NodeItems(a) <==> x in NodeItems(b)
  {
    forall x
      ensures x in NodeItems(a) <==> x in NodeItems(b)
    {
      NodeItemIn(a, x);
      NodeItemIn(b, x);
    }
  }

  lemma NodeItemIn(a: seq<CanvasNode>, x: Item)
    ensures x in NodeItems(a) <==> x.NodeItem? && x.node in a
  {
    if x.NodeItem? && x.node in a {
      var i :| 0 <= i < |a| && a[i] == x.node;
      assert NodeItems(a)[i] == x;
    }
  }

  lemma SameEdgeItems(a: seq<CanvasEdge>, b: seq<CanvasEdge>)
    requires forall e :: e in a <==> e in b
    ensures forall x :: x in EdgeItems(a) <==> x in EdgeItems(b)
  {
    forall x
      ensures x in EdgeItems(a) <==> x in EdgeItems(b)
    {
      EdgeItemIn(a, x);
      EdgeItemIn(b, x);
    }
  }

  lemma EdgeItemIn(a: seq<CanvasEdge>, x: Item)
    ensures x in EdgeItems(a) <==> x.EdgeItem? && x.edge in a
  {
    if x.EdgeItem? && x.edge in a {
      var i :| 0 <= i < |a| && a[i] == x.edge;
      assert EdgeItems(a)[i] == x;
    }
  }

  /**
   * Fidelity. The difference of two graphs, replayed on any graph holding what
   * the first holds, gives a graph holding exactly what the second holds.
   */
  lemma PatchFaithful(base: Graph, before: Graph, after: Graph)
    requires Unique(base) && Unique(before) && Unique(after) && SameContent(base, before)
    ensures SameContent(Patched(base, Diff(before, after)), after)
    ensures Unique(Patched(base, Diff(before, after)))
  {
    var nodes, edges := TableOf(NodeItems(base.nodes)), TableOf(EdgeItems(base.edges));
    SameNodeItems(base.nodes, before.nodes);
    SameItems(NodeItems(base.nodes), NodeItems(before.nodes));
    SameEdgeItems(base.edges, before.edges);
    SameItems(EdgeItems(base.edges), EdgeItems(before.edges));
    TableOfTabular(NodeItems(base.nodes));
    TableOfTabular(EdgeItems(base.edges));
    ItemsReach("nodes", NodeItems(before.nodes), NodeItems(after.nodes), nodes);
    ItemsReach("edges", EdgeItems(before.edges), EdgeItems(after.edges), edges);
    var nodeOps := DiffItems("nodes", NodeItems(before.nodes), NodeItems(after.nodes));
    var edgeOps := DiffItems("edges", EdgeItems(before.edges), EdgeItems(after.edges));
    DiffItemsAddressed("nodes", NodeItems(before.nodes), NodeItems(after.nodes));
    DiffItemsAddressed("edges", EdgeItems(before.edges), EdgeItems(after.edges));
    var ts := Tables(nodes, edges);
    ApplyOpsConcat(ts, nodeOps, edgeOps);
    NodesOnly(ts, nodeOps);
    EdgesOnly(Tables(OnItems(nodes, nodeOps), edges), edgeOps);
    var r := Patched(base, Diff(before, after));
    assert r == Graph(NodesIn(OnItems(nodes, nodeOps)), EdgesIn(OnItems(edges, edgeOps)));
    hide *;
    NodeContent(after, OnItems(nodes, nodeOps));
    EdgeContent(after, OnItems(edges, edgeOps));
    ContentOf(after, r);
  }

  lemma ContentOf(after: Graph, r: Graph)
    requires forall n :: n in r.nodes <==> n in after.nodes
    requires forall e :: e in r.edges <==> e in after.edges
    requires Distinct(ItemIds(NodeItems(r.nodes))) && Distinct(ItemIds(EdgeItems(r.edges)))
    ensures SameContent(r, after) && Unique(r)
  {
  }

  // ---- an empty difference ----

  lemma {:induction false} NoPuts(collection: string, order: seq<Id>, before: Store, after: Store)
    requires forall id :: id in order ==> id in after
    ensures PutOps(collection, order, before, after) == [] <==>
      forall id :: id in order ==> id in before && ShallowEqual(before[id], after[id])
  {
    hide ShallowEqual;
    hide JsonPointer.Path;
    if order != [] {
      var n := |order| - 1;
      assert order == order[..n] + [order[n]];
      NoPuts(collection, order[..n], before, after);
    }
  }

  lemma {:induction false} NoDrops(collection: string, order: seq<Id>, after: Store)
    ensures DropOps(collection, order, after) == [] <==> forall id :: id in order ==> id in after
  {
    hide JsonPointer.Path;
    if order != [] {
      var n := |order| - 1;
      assert order == order[..n] + [order[n]];
      NoDrops(collection, order[..n], after);
    }
  }

  lemma SameStores(a: seq<Item>, b: seq<Item>)
    requires Distinct(ItemIds(a)) && Distinct(ItemIds(b)) && ById(a) == ById(b)
    ensures forall x :: x in a <==> x in b
  {
    ByIdDistinct(a);
    ByIdDistinct(b);
    hide ById;
  }

  /** Nothing to put and nothing to drop: the stores agree. */
  lemma StoresAgree(was: Store, now: Store, wasKeys: seq<Id>, nowKeys: seq<Id>)
    requires forall id :: id in wasKeys <==> id in was
    requires forall id :: id in nowKeys <==> id in now
    requires (forall id :: id in was ==> IdOf(was[id]) == id) && forall id :: id in now ==> IdOf(now[id]) == id
    ensures was == now <==>
      && (forall id :: id in nowKeys ==> id in was && ShallowEqual(was[id], now[id]))
      && (forall id :: id in wasKeys ==> id in now)
  {
    if && (forall id :: id in nowKeys ==> id in was && ShallowEqual(was[id], now[id]))
       && (forall id :: id in wasKeys ==> id in now)
    {
      forall id | id in now
        ensures id in was && was[id] == now[id]
      {
        SameItem(was[id], now[id], id);
      }
      assert was.Keys == now.Keys;
    }
    forall x: Item
      ensures ShallowEqual(x, x)
    {
    }
    hide ShallowEqual;
  }

  lemma DiffParts(collection: string, before: seq<Item>, after: seq<Item>)
    ensures DiffItems(collection, before, after) == [] <==>
      PutOps(collection, KeyOrder(ItemIds(after)), ById(before), ById(after)) == []
      && DropOps(collection, KeyOrder(ItemIds(before)), ById(after)) == []
  {
    hide PutOps;
    hide DropOps;
    hide KeyOrder;
    hide ById;
  }

  lemma NoItemOps(collection: string, before: seq<Item>, after: seq<Item>)
    requires Distinct(ItemIds(before)) && Distinct(ItemIds(after))
    ensures DiffItems(collection, before, after) == [] <==> Alike(before, after)
  {
    hide *;
    var was, now := ById(before), ById(after);
    DiffParts(collection, before, after);
    NoPuts(collection, KeyOrder(ItemIds(after)), was, now);
    NoDrops(collection, KeyOrder(ItemIds(before)), now);
    StoresAgree(was, now, KeyOrder(ItemIds(before)), KeyOrder(ItemIds(after)));
    AlikeStores(before, after);
  }

  lemma AlikeStores(a: seq<Item>, b: seq<Item>)
    requires Distinct(ItemIds(a)) && Distinct(ItemIds(b))
    ensures Alike(a, b) <==> ById(a) == ById(b)
  {
    hide ById;
    hide Distinct;
    if ById(a) == ById(b) {
      SameStores(a, b);
    }
    if Alike(a, b) {
      SameItems(a, b);
    }
  }

  lemma NodesSameIff(a: seq<CanvasNode>, b: seq<CanvasNode>)
    ensures Alike(a, b) <==> Alike(NodeItems(a), NodeItems(b))
  {
    forall n
      ensures n in a <==> NodeItem(n) in NodeItems(a)
      ensures n in b <==> NodeItem(n) in NodeItems(b)
    {
      NodeItemIn(a, NodeItem(n));
      NodeItemIn(b, NodeItem(n));
    }
    if forall n :: n in a <==> n in b {
      SameNodeItems(a, b);
    }
    hide NodeItems;
  }

  lemma EdgesSameIff(a: seq<CanvasEdge>, b: seq<CanvasEdge>)
    ensures Alike(a, b) <==> Alike(EdgeItems(a), EdgeItems(b))
  {
    forall e
      ensures e in a <==> EdgeItem(e) in EdgeItems(a)
      ensures e in b <==> EdgeItem(e) in EdgeItems(b)
    {
      EdgeItemIn(a, EdgeItem(e));
      EdgeItemIn(b, EdgeItem(e));
    }
    if forall e :: e in a <==> e in b {
      SameEdgeItems(a, b);
    }
    hide EdgeItems;
  }

  /** Nothing to send exactly if nothing changed. */
  lemma EmptyIffSame(before: Graph, after: Graph)
    requires Unique(before) && Unique(after)
    ensures Diff(before, after) == [] <==> SameContent(before, after)
  {
    NodesSameIff(before.nodes, after.nodes);
    EdgesSameIff(before.edges, after.edges);
    NoItemOps("nodes", NodeItems(before.nodes), NodeItems(after.nodes));
    NoItemOps("edges", EdgeItems(before.edges), EdgeItems(after.edges));
    hide DiffItems;
    hide NodeItems;
    hide EdgeItems;
    hide Alike;
  }

  // ---- what a difference says ----

  predicate Holds(items: seq<Item>, id: Id) {
    exists x :: x in items && IdOf(x) == id
  }

  /** Added: new under its id. Replaced: another one under its id. Removed: its id is gone. */
  predicate ItemChange(collection: string, before: seq<Item>, after: seq<Item>, op: PatchOp) {
    match op
    case Add(path, x) => x in after && path == "/" + collection + "/" + JsonPointer.Escape(IdOf(x))
      && !Holds(before, IdOf(x))
    case Replace(path, x) =>
      && x in after && path == "/" + collection + "/" + JsonPointer.Escape(IdOf(x))
      && Holds(before, IdOf(x)) && x !in before
    case Remove(path) =>
      exists y :: y in before && path == "/" + collection + "/" + JsonPointer.Escape(IdOf(y)) && !Holds(after, IdOf(y))
  }

  lemma HoldsExactly(items: seq<Item>)
    ensures forall id :: id in ItemIds(items) <==> Holds(items, id)
  {
    forall id
      ensures id in ItemIds(items) <==> Holds(items, id)
    {
      if id in ItemIds(items) {
        var i :| 0 <= i < |items| && ItemIds(items)[i] == id;
        assert items[i] in items;
      }
      if x :| x in items && IdOf(x) == id {
        var i :| 0 <= i < |items| && items[i] == x;
        assert ItemIds(items)[i] == id;
      }
    }
  }

  lemma {:induction false} PutOpsMember(collection: string, order: seq<Id>, before: Store, after: Store, op: PatchOp)
    requires forall id :: id in order ==> id in after
    ensures op in PutOps(collection, order, before, after) <==>
      exists id :: id in order && op in PutOp(collection, id, before, after[id])
  {
    if order != [] {
      var n := |order| - 1;
      PutOpsMember(collection, order[..n], before, after, op);
      assert order == order[..n] + [order[n]];
      hide PutOp;
    }
  }

  lemma {:induction false} DropOpsMember(collection: string, order: seq<Id>, after: Store, op: PatchOp)
    ensures op in DropOps(collection, order, after) <==>
      exists id :: id in order && id !in after && op == Remove(JsonPointer.Path(collection, id))
  {
    if order != [] {
      var n := |order| - 1;
      DropOpsMember(collection, order[..n], after, op);
      assert order == order[..n] + [order[n]];
    }
  }

  lemma SamePlace(items: seq<Item>, x: Item)
    requires Distinct(ItemIds(items)) && Holds(items, IdOf(x))
    ensures IdOf(x) in ById(items) && (ById(items)[IdOf(x)] == x <==> x in items)
  {
    ByIdDistinct(items);
    HoldsExactly(items);
    hide Distinct;
  }

  lemma ShallowIsSame(a: Item, b: Item)
    requires IdOf(a) == IdOf(b) && (a.NodeItem? <==> b.NodeItem?)
    ensures ShallowEqual(a, b) <==> a == b
  {
  }

  /** What is stored under the id of an item there, and of none else. */
  lemma StoredIs(items: seq<Item>, id: Id)
    requires Distinct(ItemIds(items))
    ensures id in ById(items) <==> Holds(items, id)
    ensures forall x :: x in items && IdOf(x) == id ==> id in ById(items) && ById(items)[id] == x
  {
    HoldsExactly(items);
    ByIdDistinct(items);
    hide Distinct;
  }

  lemma PutsAreChanges(collection: string, before: seq<Item>, after: seq<Item>, op: PatchOp)
    requires Distinct(ItemIds(before)) && Distinct(ItemIds(after))
    requires forall x, y :: x in before && y in after ==> (x.NodeItem? <==> y.NodeItem?)
    ensures (exists id :: id in ItemIds(after) && op in PutOp(collection, id, ById(before), ById(after)[id])) <==>
      !op.Remove? && ItemChange(collection, before, after, op)
  {
    var was, now := ById(before), ById(after);
    HoldsExactly(after);
    forall id | id in ItemIds(after)
      ensures id in now && now[id] in after && IdOf(now[id]) == id
      ensures op in PutOp(collection, id, was, now[id]) ==> !op.Remove? && ItemChange(collection, before, after, op)
    {
      StoredIs(before, id);
      if id in was {
        ShallowIsSame(was[id], now[id]);
      }
      hide ById, ItemIds, Distinct;
    }
    if !op.Remove? && ItemChange(collection, before, after, op) {
      var x := op.value;
      StoredIs(after, IdOf(x));
      StoredIs(before, IdOf(x));
      if IdOf(x) in was {
        ShallowIsSame(was[IdOf(x)], x);
      }
      hide ById, ItemIds, Distinct;
      assert op in PutOp(collection, IdOf(x), was, now[IdOf(x)]);
    }
  }

  lemma DropsAreChanges(collection: string, before: seq<Item>, after: seq<Item>, op: PatchOp)
    ensures (exists id ::
               id in ItemIds(before) && id !in ById(after) && op == Remove(JsonPointer.Path(collection, id))) <==>
      op.Remove? && ItemChange(collection, before, after, op)
  {
    HoldsExactly(before);
    HoldsExactly(after);
    forall id
      ensures id !in ById(after) <==> !Holds(after, id)
    {
    }
    hide JsonPointer.Escape, ById, ItemIds;
    if id :| id in ItemIds(before) && id !in ById(after) && op == Remove(JsonPointer.Path(collection, id)) {
      var y :| y in before && IdOf(y) == id;
      assert !Holds(after, IdOf(y));
    }
    if op.Remove? && ItemChange(collection, before, after, op) {
      var y :| y in before && op.path == "/" + collection + "/" + JsonPointer.Escape(IdOf(y)) && !Holds(after, IdOf(y));
      assert Holds(before, IdOf(y));
    }
  }

  /** One collection's difference holds exactly the changes. */
  lemma DiffItemsExactly(collection: string, before: seq<Item>, after: seq<Item>, op: PatchOp)
    requires Distinct(ItemIds(before)) && Distinct(ItemIds(after))
    requires forall x, y :: x in before && y in after ==> (x.NodeItem? <==> y.NodeItem?)
    ensures op in DiffItems(collection, before, after) <==> ItemChange(collection, before, after, op)
  {
    PutOpsMember(collection, KeyOrder(ItemIds(after)), ById(before), ById(after), op);
    DropOpsMember(collection, KeyOrder(ItemIds(before)), ById(after), op);
    PutsAreChanges(collection, before, after, op);
    DropsAreChanges(collection, before, after, op);
    hide PutOps, DropOps, PutOp, ItemChange, Distinct;
  }

  predicate NodesThenEdges(before: Graph, after: Graph, ops: seq<PatchOp>, k: nat) {
    && k <= |ops|
    && (forall i :: 0 <= i < k ==> ItemChange("nodes", NodeItems(before.nodes), NodeItems(after.nodes), ops[i]))
    && (forall i :: k <= i < |ops| ==> ItemChange("edges", EdgeItems(before.edges), EdgeItems(after.edges), ops[i]))
  }

  /** Every change is said once over the whole graph, and nothing is said of what stayed; nodes come before edges. */
  lemma DiffExactly(before: Graph, after: Graph)
    requires Unique(before) && Unique(after)
    ensures forall op :: op in Diff(before, after) <==>
      || ItemChange("nodes", NodeItems(before.nodes), NodeItems(after.nodes), op)
      || ItemChange("edges", EdgeItems(before.edges), EdgeItems(after.edges), op)
    ensures exists k: nat :: NodesThenEdges(before, after, Diff(before, after), k)
  {
    hide *;
    var m, n := NodeItems(before.nodes), NodeItems(after.nodes);
    var d, e := EdgeItems(before.edges), EdgeItems(after.edges);
    UniqueParts(before);
    UniqueParts(after);
    forall op
      ensures op in DiffItems("nodes", m, n) <==> ItemChange("nodes", m, n, op)
      ensures op in DiffItems("edges", d, e) <==> ItemChange("edges", d, e, op)
    {
      DiffItemsExactly("nodes", m, n, op);
      DiffItemsExactly("edges", d, e, op);
    }
    WholeDiff(before, after, DiffItems("nodes", m, n), DiffItems("edges", d, e));
  }

  lemma UniqueParts(g: Graph)
    requires Unique(g)
    ensures Distinct(ItemIds(NodeItems(g.nodes))) && Distinct(ItemIds(EdgeItems(g.edges)))
    ensures (forall x :: x in NodeItems(g.nodes) ==> x.NodeItem?) && forall x :: x in EdgeItems(g.edges) ==> x.EdgeItem?
  {
    hide Distinct;
  }

  lemma WholeDiff(before: Graph, after: Graph, a: seq<PatchOp>, b: seq<PatchOp>)
    requires a == DiffItems("nodes", NodeItems(before.nodes), NodeItems(after.nodes))
    requires b == DiffItems("edges", EdgeItems(before.edges), EdgeItems(after.edges))
    requires forall op :: op in a ==> ItemChange("nodes", NodeItems(before.nodes), NodeItems(after.nodes), op)
    requires forall op :: op in b ==> ItemChange("edges", EdgeItems(before.edges), EdgeItems(after.edges), op)
    ensures Diff(before, after) == a + b
    ensures forall op :: op in Diff(before, after) <==> op in a || op in b
    ensures NodesThenEdges(before, after, Diff(before, after), |a|)
  {
    hide DiffItems, ItemChange;
    var whole := a + b;
    assert forall i :: 0 <= i < |a| ==> whole[i] == a[i] && a[i] in a;
    assert forall i :: |a| <= i < |whole| ==> whole[i] == b[i - |a|] && b[i - |a|] in b;
  }
}
