// Paths, reachability, cycles and topological orders over node ids.
module Digraph {
  type Node = string
  type Arrow = (Node, Node)
  type Arrows = set<Arrow>

  /** A non-empty walk along arrows; a single node is a walk of no arrows. */
  ghost predicate IsPath(es: Arrows, p: seq<Node>) {
    p != [] && forall i :: 0 <= i < |p| - 1 ==> (p[i], p[i + 1]) in es
  }

  ghost predicate PathFromTo(es: Arrows, p: seq<Node>, a: Node, b: Node) {
    IsPath(es, p) && p[0] == a && p[|p| - 1] == b
  }

  ghost predicate Reaches(es: Arrows, a: Node, b: Node) {
    exists p :: PathFromTo(es, p, a, b)
  }

  /** Reachable by at least one arrow. */
  ghost predicate ReachesByArrow(es: Arrows, a: Node, b: Node) {
    exists c :: (a, c) in es && Reaches(es, c, b)
  }

  ghost predicate Acyclic(es: Arrows) {
    forall v :: !ReachesByArrow(es, v, v)
  }

  ghost function Vertices(es: Arrows): set<Node> {
    (set e | e in es :: e.0) + (set e | e in es :: e.1)
  }

  ghost function ReachFrom(es: Arrows, start: set<Node>): set<Node> {
    set v | v in Vertices(es) + start && exists a :: a in start && Reaches(es, a, v)
  }

  ghost predicate Closed(es: Arrows, s: set<Node>) {
    forall e :: e in es && e.0 in s ==> e.1 in s
  }

  ghost function Reversed(es: Arrows): Arrows {
    set e | e in es :: (e.1, e.0)
  }

  // ---- paths ----

  lemma ReachesSelf(es: Arrows, a: Node)
    ensures Reaches(es, a, a)
  {
    assert PathFromTo(es, [a], a, a);
  }

  lemma ReachesTrans(es: Arrows, a: Node, b: Node, c: Node)
    requires Reaches(es, a, b) && Reaches(es, b, c)
    ensures Reaches(es, a, c)
  {
    var p :| PathFromTo(es, p, a, b);
    var q :| PathFromTo(es, q, b, c);
    var r := p + q[1..];
    forall i | 0 <= i < |r| - 1
      ensures (r[i], r[i + 1]) in es
    {
      if i < |p| - 1 {
        assert r[i] == p[i] && r[i + 1] == p[i + 1];
      } else {
        assert r[i] == q[i - |p| + 1] && r[i + 1] == q[i - |p| + 2];
      }
    }
    assert PathFromTo(es, r, a, c);
  }

  lemma ReachesArrow(es: Arrows, a: Node, b: Node)
    requires (a, b) in es
    ensures Reaches(es, a, b)
  {
    assert PathFromTo(es, [a, b], a, b);
  }

  /** Peel the first arrow off a path. */
  lemma ReachesFirst(es: Arrows, a: Node, b: Node)
    requires Reaches(es, a, b)
    ensures a == b || ReachesByArrow(es, a, b)
  {
    var p :| PathFromTo(es, p, a, b);
    if |p| > 1 {
      assert PathFromTo(es, p[1..], p[1], b);
      assert (a, p[1]) in es;
    }
  }

  /** Peel the last arrow off a path. */
  lemma ReachesLast(es: Arrows, a: Node, b: Node) returns (c: Node)
    requires ReachesByArrow(es, a, b)
    ensures Reaches(es, a, c) && (c, b) in es
  {
    var d :| (a, d) in es && Reaches(es, d, b);
    var p :| PathFromTo(es, p, d, b);
    var q := [a] + p;
    assert forall i :: 0 <= i < |q| - 1 ==> (q[i], q[i + 1]) in es;
    c := q[|q| - 2];
    assert PathFromTo(es, q[..|q| - 1], a, c);
  }

  lemma ByArrowTrans(es: Arrows, a: Node, b: Node, c: Node)
    requires (ReachesByArrow(es, a, b) && Reaches(es, b, c)) || (Reaches(es, a, b) && ReachesByArrow(es, b, c))
    ensures ReachesByArrow(es, a, c)
  {
    if ReachesByArrow(es, a, b) && Reaches(es, b, c) {
      var d :| (a, d) in es && Reaches(es, d, b);
      ReachesTrans(es, d, b, c);
    } else {
      ReachesFirst(es, a, b);
      if a != b {
        var d :| (a, d) in es && Reaches(es, d, b);
        var e :| (b, e) in es && Reaches(es, e, c);
        ReachesArrow(es, b, e);
        ReachesTrans(es, b, e, c);
        ReachesTrans(es, d, b, c);
      }
    }
  }

  lemma {:induction false} PathStaysClosed(es: Arrows, s: set<Node>, p: seq<Node>)
    requires IsPath(es, p) && p[0] in s && Closed(es, s)
    ensures forall i :: 0 <= i < |p| ==> p[i] in s
  {
    if |p| > 1 {
      assert (p[0], p[1]) in es;
      PathStaysClosed(es, s, p[1..]);
      assert forall i :: 1 <= i < |p| ==> p[i] == p[1..][i - 1];
    }
  }

  lemma ReachStaysClosed(es: Arrows, s: set<Node>, a: Node, b: Node)
    requires Closed(es, s) && a in s && Reaches(es, a, b)
    ensures b in s
  {
    var p :| PathFromTo(es, p, a, b);
    PathStaysClosed(es, s, p);
  }

  lemma ReachFromMember(es: Arrows, start: set<Node>, v: Node)
    ensures v in ReachFrom(es, start) <==> exists a :: a in start && Reaches(es, a, v)
  {
    if a :| a in start && Reaches(es, a, v) {
      var p :| PathFromTo(es, p, a, v);
      if |p| > 1 {
        assert (p[|p| - 2], p[|p| - 1]) in es;
        assert v in Vertices(es);
      }
    }
  }

  lemma ReachFromClosed(es: Arrows, start: set<Node>)
    ensures start <= ReachFrom(es, start)
    ensures Closed(es, ReachFrom(es, start))
  {
    forall v | v in start
      ensures v in ReachFrom(es, start)
    {
      ReachesSelf(es, v);
      ReachFromMember(es, start, v);
    }
    forall e | e in es && e.0 in ReachFrom(es, start)
      ensures e.1 in ReachFrom(es, start)
    {
      var a :| a in start && Reaches(es, a, e.0);
      assert (e.0, e.1) in es;
      ReachesArrow(es, e.0, e.1);
      ReachesTrans(es, a, e.0, e.1);
      ReachFromMember(es, start, e.1);
    }
  }

  /** ReachFrom is the least closed set holding the start: the fixpoint characterisation. */
  lemma ReachFromLeast(es: Arrows, start: set<Node>, s: set<Node>)
    requires start <= s && Closed(es, s)
    ensures ReachFrom(es, start) <= s
  {
    forall v | v in ReachFrom(es, start)
      ensures v in s
    {
      var a :| a in start && Reaches(es, a, v);
      ReachStaysClosed(es, s, a, v);
    }
  }

  lemma ClosedWithNode(es: Arrows, v: Node, next: set<Node>, s: set<Node>)
    requires forall w :: (v, w) in es ==> w in next
    requires next <= s && Closed(es, s)
    ensures Closed(es, {v} + s)
  {
    forall e | e in es && e.0 in {v} + s
      ensures e.1 in {v} + s
    {
      if e.0 == v {
        assert (v, e.1) in es;
      }
    }
  }

  lemma ClosedHoldsSuccessors(es: Arrows, v: Node, next: set<Node>, s: set<Node>)
    requires forall w :: w in next ==> (v, w) in es
    requires v in s && Closed(es, s)
    ensures next <= s
  {
    forall w | w in next
      ensures w in s
    {
      assert (v, w) in es;
    }
  }

  lemma UnfoldUpper(es: Arrows, v: Node, next: set<Node>)
    requires forall w :: (v, w) in es ==> w in next
    ensures ReachFrom(es, {v}) <= {v} + ReachFrom(es, next)
  {
    ReachFromClosed(es, next);
    ClosedWithNode(es, v, next, ReachFrom(es, next));
    ReachFromLeast(es, {v}, {v} + ReachFrom(es, next));
  }

  lemma UnfoldLower(es: Arrows, v: Node, next: set<Node>)
    requires forall w :: w in next ==> (v, w) in es
    ensures {v} + ReachFrom(es, next) <= ReachFrom(es, {v})
  {
    ReachFromClosed(es, {v});
    ClosedHoldsSuccessors(es, v, next, ReachFrom(es, {v}));
    ReachFromLeast(es, next, ReachFrom(es, {v}));
  }

  /** What a node reaches is itself and what its successors reach. */
  lemma ReachFromUnfold(es: Arrows, v: Node, next: set<Node>)
    requires forall w :: w in next <==> (v, w) in es
    ensures ReachFrom(es, {v}) == {v} + ReachFrom(es, next)
  {
    UnfoldUpper(es, v, next);
    UnfoldLower(es, v, next);
  }

  lemma ReachFromMono(es: Arrows, a: set<Node>, b: set<Node>)
    requires a <= b
    ensures ReachFrom(es, a) <= ReachFrom(es, b)
  {
    ReachFromClosed(es, b);
    ReachFromLeast(es, a, ReachFrom(es, b));
  }

  lemma ReachFromUnion(es: Arrows, a: set<Node>, b: set<Node>)
    ensures ReachFrom(es, a + b) == ReachFrom(es, a) + ReachFrom(es, b)
  {
    ReachFromMono(es, a, a + b);
    ReachFromMono(es, b, a + b);
    var ra, rb := ReachFrom(es, a), ReachFrom(es, b);
    assert a + b <= ra + rb && Closed(es, ra + rb) by {
      ReachFromClosed(es, a);
      ReachFromClosed(es, b);
    }
    ReachFromLeast(es, a + b, ra + rb);
  }

  lemma AcyclicNoReturn(es: Arrows, v: Node, next: set<Node>)
    requires Acyclic(es)
    requires forall w :: w in next ==> (v, w) in es
    ensures v !in ReachFrom(es, next)
  {
    assert !ReachesByArrow(es, v, v);
  }

  // ---- reversal ----

  lemma ReversePath(es: Arrows, p: seq<Node>) returns (q: seq<Node>)
    requires IsPath(es, p)
    ensures PathFromTo(Reversed(es), q, p[|p| - 1], p[0])
  {
    q := seq(|p|, i requires 0 <= i < |p| => p[|p| - 1 - i]);
    forall i | 0 <= i < |q| - 1
      ensures (q[i], q[i + 1]) in Reversed(es)
    {
      var e := (p[|p| - 2 - i], p[|p| - 1 - i]);
      assert e == (p[|p| - 2 - i], p[|p| - 2 - i + 1]);
      assert e in es;
      assert (e.1, e.0) in Reversed(es);
    }
  }

  lemma ReversedTwice(es: Arrows)
    ensures Reversed(Reversed(es)) == es
  {
    forall e | e in es
      ensures e in Reversed(Reversed(es))
    {
      assert (e.1, e.0) in Reversed(es);
    }
  }

  lemma ReversedReaches(es: Arrows, a: Node, b: Node)
    ensures Reaches(Reversed(es), a, b) <==> Reaches(es, b, a)
  {
    if Reaches(es, b, a) {
      var p :| PathFromTo(es, p, b, a);
      var q := ReversePath(es, p);
    }
    if Reaches(Reversed(es), a, b) {
      var p :| PathFromTo(Reversed(es), p, a, b);
      var q := ReversePath(Reversed(es), p);
      ReversedTwice(es);
    }
  }

  // ---- orders ----

  ghost predicate Distinct<T(!new)>(s: seq<T>) {
    forall i, j :: 0 <= i < j < |s| ==> s[i] != s[j]
  }

  /** Every arrow that starts on the list ends later on it. */
  ghost predicate Topological(es: Arrows, order: seq<Node>) {
    forall e, i :: e in es && 0 <= i < |order| && order[i] == e.0 ==>
      exists j :: i < j < |order| && order[j] == e.1
  }

  lemma {:induction false} TopologicalPath(es: Arrows, order: seq<Node>, p: seq<Node>, i: nat) returns (j: nat)
    requires Topological(es, order) && IsPath(es, p)
    requires i < |order| && order[i] == p[0]
    ensures i + |p| - 1 <= j < |order| && order[j] == p[|p| - 1]
    decreases |p|
  {
    if |p| == 1 {
      j := i;
    } else {
      assert (p[0], p[1]) in es;
      var k :| i < k < |order| && order[k] == p[1];
      j := TopologicalPath(es, order, p[1..], k);
    }
  }

  lemma CycleOnOrder(es: Arrows, order: seq<Node>, v: Node) returns (i: nat, j: nat)
    requires Topological(es, order) && v in order
    requires ReachesByArrow(es, v, v)
    ensures i < j < |order| && order[i] == order[j]
  {
    var c :| (v, c) in es && Reaches(es, c, v);
    var p :| PathFromTo(es, p, c, v);
    i :| 0 <= i < |order| && order[i] == v;
    var k :| i < k < |order| && order[k] == c;
    j := TopologicalPath(es, order, p, k);
  }

  /** An order that puts every arrow forwards leaves no room for a cycle. */
  lemma TopologicalAcyclic(es: Arrows, order: seq<Node>)
    requires Topological(es, order) && Distinct(order)
    requires forall e :: e in es ==> e.0 in order
    ensures Acyclic(es)
  {
    forall v
      ensures !ReachesByArrow(es, v, v)
    {
      if ReachesByArrow(es, v, v) {
        var i, j := CycleOnOrder(es, order, v);
      }
    }
  }

  lemma TopologicalReach(es: Arrows, order: seq<Node>, i: nat, b: Node) returns (j: nat)
    requires Topological(es, order)
    requires i < |order| && Reaches(es, order[i], b)
    ensures i <= j < |order| && order[j] == b
    ensures b != order[i] ==> i < j
  {
    var p :| PathFromTo(es, p, order[i], b);
    j := TopologicalPath(es, order, p, i);
  }
}
