// The drawn graph: what the editor stores, the validator checks and the
// compiler reads.
module Canvas {
  import opened Options
  import opened Digraph
  import opened Sieves
  import Texts

  /** A config value. `refs` are the step ids the reference pattern finds in a text. */
  datatype Value =
    | Text(text: string, refs: seq<string>)
    | Scalar(text: string)
    | Null
    | List(items: seq<Value>)
    | Object(fields: seq<Field>)

  datatype Field = Field(name: string, value: Value)

  datatype Position = Position(x: int, y: int)

  datatype CanvasNode = CanvasNode(
    id: Node, kind: string, position: Position, data: map<string, Value>, parentId: Option<Node>)

  datatype CanvasEdge = CanvasEdge(
    id: string, source: Node, target: Node, sourceHandle: Option<string>, targetHandle: Option<string>)

  datatype Graph = Graph(nodes: seq<CanvasNode>, edges: seq<CanvasEdge>)

  const EMPTY_GRAPH := Graph([], [])

  function Ids(nodes: seq<CanvasNode>): (r: seq<Node>)
    ensures |r| == |nodes| && forall i :: 0 <= i < |nodes| ==> r[i] == nodes[i].id
  {
    seq(|nodes|, i requires 0 <= i < |nodes| => nodes[i].id)
  }

  function IdSet(nodes: seq<CanvasNode>): set<Node> {
    set n | n in nodes :: n.id
  }

  /** new Map(nodes.map(n => [n.id, n])): the last node with an id wins. */
  function IndexById(nodes: seq<CanvasNode>): (m: map<Node, CanvasNode>)
    ensures m.Keys == IdSet(nodes)
    ensures forall id :: id in m ==> m[id] in nodes && m[id].id == id
  {
    if nodes == [] then map[]
    else
      var n := nodes[|nodes| - 1];
      assert nodes == nodes[..|nodes| - 1] + [n];
      IndexById(nodes[..|nodes| - 1])[n.id := n]
  }

  lemma {:induction false} IndexDistinct(nodes: seq<CanvasNode>)
    requires Distinct(Ids(nodes))
    ensures forall n :: n in nodes ==> n.id in IndexById(nodes) && IndexById(nodes)[n.id] == n
  {
    if nodes != [] {
      var k := |nodes| - 1;
      var ids := Ids(nodes);
      assert Distinct(Ids(nodes[..k])) by {
        assert Ids(nodes[..k]) == ids[..k];
      }
      IndexDistinct(nodes[..k]);
      forall n | n in nodes
        ensures n.id in IndexById(nodes) && IndexById(nodes)[n.id] == n
      {
        var i :| 0 <= i < |nodes| && nodes[i] == n;
        assert ids[i] == n.id && ids[k] == nodes[k].id;
        if i < k {
          assert nodes[..k][i] == n;
        }
      }
    }
  }

  ghost function Wires(edges: seq<CanvasEdge>): Arrows {
    set e | e in edges :: (e.source, e.target)
  }

  predicate Dangling(g: Graph, e: CanvasEdge) {
    e.source !in IdSet(g.nodes) || e.target !in IdSet(g.nodes)
  }

  predicate Targeted(g: Graph, id: Node) {
    exists e :: e in g.edges && e.target == id
  }

  /** The nodes nothing points at, in node order. */
  function EntryPoints(g: Graph): seq<CanvasNode> {
    EntriesIn(g, g.nodes)
  }

  function EntriesIn(g: Graph, nodes: seq<CanvasNode>): (r: seq<CanvasNode>)
    ensures forall n :: n in r <==> n in nodes && !Targeted(g, n.id)
    ensures |r| <= |nodes|
  {
    if nodes == [] then []
    else
      var n := nodes[|nodes| - 1];
      assert nodes == nodes[..|nodes| - 1] + [n];
      EntriesIn(g, nodes[..|nodes| - 1]) + if Targeted(g, n.id) then [] else [n]
  }

  function Untargeted(g: Graph): CanvasNode -> bool {
    (n: CanvasNode) => !exists e :: e in g.edges && e.target == n.id
  }

  /** The nodes nothing points at, each once, in the order they were drawn. */
  lemma {:induction false} EntriesInOrder(g: Graph, nodes: seq<CanvasNode>) returns (at: seq<nat>)
    ensures Sieved(nodes, EntriesIn(g, nodes), Untargeted(g), at)
  {
    hide *;
    if nodes == [] {
      at := [];
      NoEntries(g);
    } else {
      var n := |nodes| - 1;
      var front := EntriesInOrder(g, nodes[..n]);
      assert nodes == nodes[..n] + [nodes[n]];
      EntriesLast(g, nodes[..n], nodes[n]);
      SievedSnoc(nodes[..n], EntriesIn(g, nodes[..n]), Untargeted(g), front, nodes[n]);
      at := front + if Untargeted(g)(nodes[n]) then [|nodes[..n]|] else [];
    }
  }

  lemma EntriesLast(g: Graph, front: seq<CanvasNode>, n: CanvasNode)
    ensures EntriesIn(g, front + [n]) == EntriesIn(g, front) + if Untargeted(g)(n) then [n] else []
  {
    assert (front + [n])[..|front|] == front;
  }

  lemma NoEntries(g: Graph)
    ensures Sieved([], EntriesIn(g, []), Untargeted(g), [])
  {
  }

  ghost predicate DistinctIds(g: Graph) {
    Distinct(Ids(g.nodes))
  }

  /** String(value ?? ''). */
  function TextOf(v: Value): string {
    match v
    case Text(t, _) => t
    case Scalar(t) => t
    case Null => ""
    case List(items) => Texts.Join(TextsOf(items), ",")
    case Object(_) => "[object Object]"
  }

  function TextsOf(vs: seq<Value>): seq<string> {
    if vs == [] then [] else [TextOf(vs[0])] + TextsOf(vs[1..])
  }

  function DataText(n: CanvasNode, field: string): string {
    if field in n.data then TextOf(n.data[field]) else ""
  }

  predicate Absent(n: CanvasNode, field: string) {
    field !in n.data || n.data[field].Null?
  }
}
