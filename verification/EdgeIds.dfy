// Edge ids are the connection written out: when they tell edges apart, and when not.
module EdgeIds {
  import opened Options
  import opened Digraph
  import opened Canvas
  import opened GraphAlgebra
  import opened GraphEditing
  import opened Patch
  import opened PatchFidelity
  import Texts

  /** No ':' and no "->" in it. */
  predicate Plain(id: Node) {
    ':' !in id && NoArrow(id)
  }

  predicate NoArrow(id: Node) {
    forall i :: 0 <= i < |id| - 1 ==> id[i] != '-' || id[i + 1] != '>'
  }

  function Tail(handle: Option<string>): string {
    if handle.Some? then ":" + handle.value else ""
  }

  function TargetText(c: Connection): string {
    c.target + Tail(c.sourceHandle)
  }

  function IdOf(c: Connection): string {
    ConnectionEdge(c).id
  }

  /** Within an id without "->" no "->" begins. */
  lemma ArrowAfter(b: string, y: string, i: nat)
    requires NoArrow(b) && i + 1 < |b + "->" + y|
    requires (b + "->" + y)[i] == '-' && (b + "->" + y)[i + 1] == '>'
    ensures i >= |b|
  {
  }

  /** A source without "->" ends at the first "->" of the id. */
  lemma SourceFound(a: string, x: string, b: string, y: string)
    requires NoArrow(a) && NoArrow(b) && a + "->" + x == b + "->" + y
    ensures a == b && x == y
  {
    var s := a + "->" + x;
    assert s[|a|] == '-' && s[|a| + 1] == '>';
    assert (b + "->" + y)[|b|] == '-' && (b + "->" + y)[|b| + 1] == '>';
    ArrowAfter(b, y, |a|);
    ArrowAfter(a, x, |b|);
    assert a == s[..|a|] == b;
    assert x == s[|a| + 2..] == y;
  }

  lemma ColonAfter(a: string, g: Option<string>, b: string, h: Option<string>)
    requires ':' !in b && a + Tail(g) == b + Tail(h)
    ensures |a| >= |b|
  {
    if g.Some? {
      assert (a + Tail(g))[|a|] == ':';
    }
  }

  /** A target without ':' ends at the first ':', or at the end. */
  lemma TargetFound(a: string, g: Option<string>, b: string, h: Option<string>)
    requires ':' !in a && ':' !in b && a + Tail(g) == b + Tail(h)
    ensures a == b && g == h
  {
    ColonAfter(a, g, b, h);
    ColonAfter(b, h, a, g);
    assert a == (a + Tail(g))[..|a|] == b;
    assert Tail(g) == (a + Tail(g))[|a|..] == Tail(h);
    assert g.Some? ==> g.value == Tail(g)[1..];
    assert h.Some? ==> h.value == Tail(h)[1..];
  }

  lemma IdParts(c: Connection)
    ensures IdOf(c) == c.source + "->" + TargetText(c)
  {
    assert c.source + "->" + c.target + Tail(c.sourceHandle) == c.source + "->" + (c.target + Tail(c.sourceHandle));
  }

  predicate SameEnds(a: Connection, b: Connection) {
    a.source == b.source && a.target == b.target && a.sourceHandle == b.sourceHandle
  }

  /**
   * With no "->" in the sources, two connections get one id if and only if they
   * leave the same node and their targets, handle appended, read the same; with
   * plain ids, if and only if they have the same ends.
   */
  lemma SameIdExactly(a: Connection, b: Connection)
    requires NoArrow(a.source) && NoArrow(b.source)
    ensures IdOf(a) == IdOf(b) <==> a.source == b.source && TargetText(a) == TargetText(b)
    ensures ':' !in a.target && ':' !in b.target ==> (IdOf(a) == IdOf(b) <==> SameEnds(a, b))
  {
    IdParts(a);
    IdParts(b);
    if IdOf(a) == IdOf(b) {
      SourceFound(a.source, TargetText(a), b.source, TargetText(b));
      if ':' !in a.target && ':' !in b.target {
        TargetFound(a.target, a.sourceHandle, b.target, b.sourceHandle);
      }
    }
  }

  // ---- the edges of an edited graph ----

  function Link(e: CanvasEdge): Connection {
    Connection(e.source, e.target, e.sourceHandle, e.targetHandle)
  }

  /** Each edge is named after its connection, and no two have the same ends. */
  predicate Named(edges: seq<CanvasEdge>) {
    && (forall e :: e in edges ==> e.id == IdOf(Link(e)))
    && (forall i, j :: 0 <= i < j < |edges| ==> !SameEnds(Link(edges[i]), Link(edges[j])))
  }

  lemma NamedSnoc(edges: seq<CanvasEdge>, e: CanvasEdge)
    ensures Named(edges + [e]) <==>
      Named(edges) && e.id == IdOf(Link(e)) && forall x :: x in edges ==> !SameEnds(Link(x), Link(e))
  {
    hide IdOf, SameEnds, Link;
    var all := edges + [e];
    assert all[|edges|] == e && all[..|edges|] == edges;
    assert forall x :: x in all <==> x in edges || x == e;
    assert forall i :: 0 <= i < |edges| ==> all[i] == edges[i];
  }

  lemma {:induction false} KeepNamed(edges: seq<CanvasEdge>, keep: CanvasEdge -> bool)
    requires Named(edges)
    ensures Named(KeepEdges(edges, keep))
  {
    if edges != [] {
      hide Named, IdOf, SameEnds, Link;
      var n := |edges| - 1;
      assert edges == edges[..n] + [edges[n]];
      NamedSnoc(edges[..n], edges[n]);
      KeepNamed(edges[..n], keep);
      NamedSnoc(KeepEdges(edges[..n], keep), edges[n]);
    }
  }

  lemma ConnectNamed(g: Graph, c: Connection)
    requires Named(g.edges)
    ensures Named(Connected(g, c).edges)
  {
    if RefusalOf(g, c).None? {
      var edge := ConnectionEdge(c);
      assert Link(edge) == c;
      forall i | 0 <= i < |g.edges|
        ensures !SameEnds(Link(g.edges[i]), c)
      {
        assert g.edges[i] in g.edges && !IsDuplicate(g.edges[i], c);
      }
    }
  }

  lemma {:induction false} EditedNamed(edits: seq<Edit>)
    ensures Named(Edited(edits).edges)
  {
    if edits != [] {
      var g := Edited(edits[..|edits| - 1]);
      EditedNamed(edits[..|edits| - 1]);
      match edits[|edits| - 1] {
        case Remove(id) => KeepNamed(g.edges, Apart(id));
        case Unlink(id) => KeepNamed(g.edges, OtherThan(id));
        case Link(c) => ConnectNamed(g, c);
        case _ =>
      }
    }
  }

  ghost predicate PlainNodes(g: Graph) {
    forall n :: n in g.nodes ==> Plain(n.id)
  }

  /** With fresh and plain node ids, whatever was drawn has distinct node ids and distinct edge ids. */
  lemma EditedUnique(edits: seq<Edit>)
    requires FreshAdds(edits) && PlainNodes(Edited(edits))
    ensures Unique(Edited(edits))
  {
    EditedDistinct(edits);
    EditedNamed(edits);
    EditedSound(edits);
    var g := Edited(edits);
    hide Edited;
    hide FreshAdds;
    NodeIdsDistinct(g);
    EdgeIdsDistinct(g);
  }

  lemma NodeIdsDistinct(g: Graph)
    requires DistinctIds(g)
    ensures Distinct(ItemIds(NodeItems(g.nodes)))
  {
    assert ItemIds(NodeItems(g.nodes)) == Ids(g.nodes);
  }

  lemma EdgeIdsDistinct(g: Graph)
    requires Named(g.edges) && NoDangling(g) && PlainNodes(g)
    ensures Distinct(ItemIds(EdgeItems(g.edges)))
  {
    forall i, j | 0 <= i < j < |g.edges|
      ensures g.edges[i].id != g.edges[j].id
    {
      PlainEnds(g, g.edges[i]);
      PlainEnds(g, g.edges[j]);
      SameIdExactly(Link(g.edges[i]), Link(g.edges[j]));
    }
  }

  lemma PlainEnds(g: Graph, e: CanvasEdge)
    requires NoDangling(g) && PlainNodes(g) && e in g.edges
    ensures Plain(e.source) && Plain(e.target)
  {
    assert !Dangling(g, e);
    var m :| m in g.nodes && m.id == e.source;
    var n :| n in g.nodes && n.id == e.target;
  }

  /** Drafts drawn in the editor are saved faithfully: from one drawing to any other. */
  lemma EditedPatchFaithful(was: seq<Edit>, now: seq<Edit>)
    requires FreshAdds(was) && FreshAdds(now) && PlainNodes(Edited(was)) && PlainNodes(Edited(now))
    ensures SameContent(Patched(Edited(was), Diff(Edited(was), Edited(now))), Edited(now))
    ensures Diff(Edited(was), Edited(now)) == [] <==> SameContent(Edited(was), Edited(now))
  {
    EditedUnique(was);
    EditedUnique(now);
    hide Diff;
    hide Patched;
    hide Unique;
    assert SameContent(Edited(was), Edited(was));
    PatchFaithful(Edited(was), Edited(was), Edited(now));
    EmptyIffSame(Edited(was), Edited(now));
  }

  // ---- a drawing in which two edges share an id ----

  const BRANCH := CanvasNode("a", "branch", Position(0, 0), map[], None)
  const PLAIN := CanvasNode("b", "http", Position(0, 0), map[], None)
  const LOOKALIKE := CanvasNode("b:yes", "http", Position(0, 0), map[], None)
  const TO_LOOKALIKE := Connection("a", "b:yes", None, None)
  const TO_PLAIN := Connection("a", "b", Some("yes"), None)

  /** Three fresh nodes and two connections the editor accepts. */
  function CollidingEdits(): seq<Edit> {
    [Edit.Add(BRANCH), Edit.Add(PLAIN), Edit.Add(LOOKALIKE), Edit.Link(TO_LOOKALIKE), Edit.Link(TO_PLAIN)]
  }

  lemma CollidingSteps()
    ensures var es := CollidingEdits();
      && Edited(es[..1]) == Graph([BRANCH], []) && Edited(es[..2]) == Graph([BRANCH, PLAIN], [])
      && Edited(es[..3]) == Graph([BRANCH, PLAIN, LOOKALIKE], [])
  {
    var es := CollidingEdits();
    assert es[..1][..0] == [] && es[..2][..1] == es[..1] && es[..3][..2] == es[..2];
    assert [] + [BRANCH] == [BRANCH] && [BRANCH] + [PLAIN] == [BRANCH, PLAIN]
      && [BRANCH, PLAIN] + [LOOKALIKE] == [BRANCH, PLAIN, LOOKALIKE];
    assert Edited([]) == EMPTY_GRAPH;
    assert Edited(es[..1]) == NodeAdded(EMPTY_GRAPH, BRANCH);
    assert Edited(es[..2]) == NodeAdded(Graph([BRANCH], []), PLAIN);
  }

  lemma NoWayFrom(es: Arrows, a: Node, b: Node)
    requires forall x :: x in es ==> x.0 != a
    ensures !ReachesByArrow(es, a, b)
  {
  }

  lemma FirstAccepted()
    ensures Connected(Graph([BRANCH, PLAIN, LOOKALIKE], []), TO_LOOKALIKE)
      == Graph([BRANCH, PLAIN, LOOKALIKE], [ConnectionEdge(TO_LOOKALIKE)])
  {
    var g := Graph([BRANCH, PLAIN, LOOKALIKE], []);
    assert BRANCH in g.nodes && LOOKALIKE in g.nodes;
    NoWayFrom(Forward(g), "b:yes", "a");
    assert [] + [ConnectionEdge(TO_LOOKALIKE)] == [ConnectionEdge(TO_LOOKALIKE)];
  }

  lemma SecondAccepted()
    ensures Connected(Graph([BRANCH, PLAIN, LOOKALIKE], [ConnectionEdge(TO_LOOKALIKE)]), TO_PLAIN)
         == Graph([BRANCH, PLAIN, LOOKALIKE], [ConnectionEdge(TO_LOOKALIKE), ConnectionEdge(TO_PLAIN)])
  {
    var g := Graph([BRANCH, PLAIN, LOOKALIKE], [ConnectionEdge(TO_LOOKALIKE)]);
    assert BRANCH in g.nodes && PLAIN in g.nodes;
    NoWayFrom(Forward(g), "b", "a");
    assert [ConnectionEdge(TO_LOOKALIKE)] + [ConnectionEdge(TO_PLAIN)]
      == [ConnectionEdge(TO_LOOKALIKE), ConnectionEdge(TO_PLAIN)];
  }

  lemma CollidingDrawn()
    ensures Edited(CollidingEdits())
      == Graph([BRANCH, PLAIN, LOOKALIKE], [ConnectionEdge(TO_LOOKALIKE), ConnectionEdge(TO_PLAIN)])
  {
    var es := CollidingEdits();
    CollidingSteps();
    FirstAccepted();
    SecondAccepted();
    hide Connected;
    assert es[..4][..3] == es[..3] && es[..5][..4] == es[..4] && es == es[..5];
    assert Edited(es[..4]) == Connected(Graph([BRANCH, PLAIN, LOOKALIKE], []), TO_LOOKALIKE);
    assert Edited(es) == Connected(Edited(es[..4]), TO_PLAIN);
  }

  lemma OneIdForBoth(g: Graph, e: CanvasEdge, f: CanvasEdge)
    requires g.edges == [e, f] && e.id == f.id
    ensures !Unique(g) && EdgeRemoved(g, e.id).edges == []
  {
    assert ItemIds(EdgeItems(g.edges))[0] == ItemIds(EdgeItems(g.edges))[1];
    var keep := OtherThan(e.id);
    assert [e, f][..1] == [e] && [e][..0] == [];
    assert KeepEdges([e], keep) == [];
  }

  /** Two accepted connections with one id: removing it removes both edges, and a patch cannot tell them apart. */
  lemma EdgeIdsCollide()
    ensures var g := Edited(CollidingEdits());
      && FreshAdds(CollidingEdits())
      && |g.edges| == 2 && g.edges[0] != g.edges[1] && g.edges[0].id == g.edges[1].id
      && !Unique(g) && EdgeRemoved(g, g.edges[0].id).edges == []
  {
    CollidingDrawn();
    CollidingFresh();
    hide Edited;
    hide FreshAdds;
    assert "a" + "->" + "b:yes" + "" == "a" + "->" + "b" + (":" + "yes");
    var first, second := ConnectionEdge(TO_LOOKALIKE), ConnectionEdge(TO_PLAIN);
    OneIdForBoth(Graph([BRANCH, PLAIN, LOOKALIKE], [first, second]), first, second);
  }

  lemma CollidingFresh()
    ensures FreshAdds(CollidingEdits())
  {
    var es := CollidingEdits();
    CollidingSteps();
    assert es[..1][..0] == [] && es[..2][..1] == es[..1] && es[..3][..2] == es[..2];
    assert es[..4][..3] == es[..3] && es[..5][..4] == es[..4];
    assert es == es[..5];
    assert IdSet([BRANCH]) == {"a"} && IdSet([BRANCH, PLAIN]) == {"a", "b"};
    assert FreshAdds([]) && Edited(es[..1][..0]) == EMPTY_GRAPH && IdSet([]) == {};
    assert FreshAdds(es[..1]);
    assert es[..2][1] == Edit.Add(PLAIN) && "b" !in IdSet(Edited(es[..2][..1]).nodes);
    assert FreshAdds(es[..2]);
    assert es[..3][2] == Edit.Add(LOOKALIKE) && "b:yes" !in IdSet(Edited(es[..3][..2]).nodes);
    assert FreshAdds(es[..3]);
    assert FreshAdds(es[..4]);
  }
}
