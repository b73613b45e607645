// The stack-and-seen loop that branch skipping and the editor's graph walks share.
module Exploration {
  import opened Digraph

  type Adjacency = map<Node, seq<Node>>

  function NextOf(adjacency: Adjacency, v: Node): seq<Node> {
    if v in adjacency then adjacency[v] else []
  }

  ghost function Links(adjacency: Adjacency): Arrows {
    set v, w | v in adjacency && w in adjacency[v] :: (v, w)
  }

  /** Everything a seen node leads to has been seen or is waiting. */
  ghost predicate Frontier(es: Arrows, seen: set<Node>, stack: seq<Node>) {
    forall e :: e in es && e.0 in seen ==> e.1 in seen || e.1 in stack
  }

  lemma FrontierGrows(adjacency: Adjacency, seen: set<Node>, rest: seq<Node>, node: Node)
    requires Frontier(Links(adjacency), seen, rest + [node])
    ensures Frontier(Links(adjacency), seen + {node}, rest + NextOf(adjacency, node))
  {
    var es, stack := Links(adjacency), rest + [node];
    forall e | e in es && e.0 in seen + {node}
      ensures e.1 in seen + {node} || e.1 in rest + NextOf(adjacency, node)
    {
      if e.0 != node {
        assert e.1 in seen || e.1 in stack;
      }
    }
  }

  lemma NextReached(adjacency: Adjacency, goal: set<Node>, node: Node)
    requires Closed(Links(adjacency), goal) && node in goal
    ensures forall w :: w in NextOf(adjacency, node) ==> w in goal
  {
    forall w | w in NextOf(adjacency, node)
      ensures w in goal
    {
      assert (node, w) in Links(adjacency);
    }
  }

  lemma FrontierStart(es: Arrows, stack: seq<Node>)
    ensures Frontier(es, {}, stack)
  {
  }

  lemma FrontierDone(es: Arrows, seen: set<Node>)
    requires Frontier(es, seen, [])
    ensures Closed(es, seen)
  {
  }

  lemma FrontierPop(es: Arrows, seen: set<Node>, rest: seq<Node>, node: Node)
    requires Frontier(es, seen, rest + [node]) && node in seen
    ensures Frontier(es, seen, rest)
  {
    assert forall v :: v in rest + [node] ==> v in rest || v == node;
  }

  method Explore(adjacency: Adjacency, start: seq<Node>) returns (seen: set<Node>)
    ensures seen == ReachFrom(Links(adjacency), set v | v in start)
  {
    ghost var es := Links(adjacency);
    ghost var init := set v | v in start;
    ghost var goal := ReachFrom(es, init);
    ReachFromClosed(es, init);
    hide ReachFrom;
    hide Links;
    hide Frontier;
    FrontierStart(es, start);
    seen := {};
    var stack := start;
    while stack != []
      invariant seen <= goal
      invariant forall v :: v in stack ==> v in goal
      invariant forall v :: v in start ==> v in seen || v in stack
      invariant Frontier(es, seen, stack)
      decreases goal - seen, |stack|
    {
      var node := stack[|stack| - 1];
      var rest := stack[..|stack| - 1];
      assert stack == rest + [node];
      if node in seen {
        FrontierPop(es, seen, rest, node);
        stack := rest;
      } else {
        NextReached(adjacency, goal, node);
        FrontierGrows(adjacency, seen, rest, node);
        seen := seen + {node};
        stack := rest + NextOf(adjacency, node);
      }
    }
    FrontierDone(es, seen);
    ReachFromLeast(es, init, seen);
  }
}
