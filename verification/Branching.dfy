// Which steps a resolved branch leaves behind.
module Branching {
  import opened Options
  import opened Digraph
  import opened Exploration

  datatype Arm = YesArm | NoArm

  datatype FlowEdge = FlowEdge(src: Node, dst: Node, arm: Option<Arm>)

  ghost function ArrowsOf(edges: seq<FlowEdge>): Arrows {
    set e | e in edges :: (e.src, e.dst)
  }

  ghost function Heads(edges: seq<FlowEdge>, branch: Node, taken: Arm, kept: bool): set<Node> {
    set e | e in edges && e.src == branch && e.arm.Some? && (e.arm.value == taken) == kept :: e.dst
  }

  /** What the untaken arm reaches and the taken arm does not. */
  ghost function StepsToSkip(edges: seq<FlowEdge>, branch: Node, taken: Arm): set<Node> {
    ReachFrom(ArrowsOf(edges), Heads(edges, branch, taken, false))
    - ReachFrom(ArrowsOf(edges), Heads(edges, branch, taken, true))
  }

  lemma {:induction false} ArrowsOfSnoc(edges: seq<FlowEdge>, e: FlowEdge)
    ensures ArrowsOf(edges + [e]) == ArrowsOf(edges) + {(e.src, e.dst)}
  {
    var l, r := ArrowsOf(edges + [e]), ArrowsOf(edges) + {(e.src, e.dst)};
    forall x | x in r
      ensures x in l
    {
      if x in ArrowsOf(edges) {
        var f :| f in edges && (f.src, f.dst) == x;
        assert f in edges + [e];
      } else {
        assert e in edges + [e];
      }
    }
  }

  lemma HeadsSnoc(edges: seq<FlowEdge>, e: FlowEdge, branch: Node, taken: Arm, kept: bool)
    ensures Heads(edges + [e], branch, taken, kept)
      == Heads(edges, branch, taken, kept) + Heads([e], branch, taken, kept)
  {
    var whole := edges + [e];
    assert forall f :: f in whole <==> f in edges || f in [e];
  }

  /** Adjacency lists: for every source the targets of its edges, in edge order. */
  method OutgoingLists(edges: seq<FlowEdge>) returns (outgoing: map<Node, seq<Node>>)
    ensures forall v, w :: (v, w) in ArrowsOf(edges) <==> v in outgoing && w in outgoing[v]
  {
    outgoing := map[];
    for i := 0 to |edges|
      invariant forall v, w :: (v, w) in ArrowsOf(edges[..i]) <==> v in outgoing && w in outgoing[v]
    {
      var e := edges[i];
      ArrowsOfSnoc(edges[..i], e);
      assert edges[..i + 1] == edges[..i] + [e];
      if e.src in outgoing {
        outgoing := outgoing[e.src := outgoing[e.src] + [e.dst]];
      } else {
        outgoing := outgoing[e.src := [e.dst]];
      }
    }
    assert edges[..|edges|] == edges;
  }

  method ReachableFrom(edges: seq<FlowEdge>, start: seq<Node>) returns (seen: set<Node>)
    ensures seen == ReachFrom(ArrowsOf(edges), set v | v in start)
  {
    var outgoing := OutgoingLists(edges);
    assert Links(outgoing) == ArrowsOf(edges);
    seen := Explore(outgoing, start);
  }

  method ComputeStepsToSkip(edges: seq<FlowEdge>, branch: Node, taken: Arm) returns (skip: set<Node>)
    ensures skip == StepsToSkip(edges, branch, taken)
  {
    var takenHeads, untakenHeads := [], [];
    for i := 0 to |edges|
      invariant (set v | v in takenHeads) == Heads(edges[..i], branch, taken, true)
      invariant (set v | v in untakenHeads) == Heads(edges[..i], branch, taken, false)
    {
      var e := edges[i];
      assert edges[..i + 1] == edges[..i] + [e];
      HeadsSnoc(edges[..i], e, branch, taken, true);
      HeadsSnoc(edges[..i], e, branch, taken, false);
      if e.src == branch && e.arm.Some? {
        if e.arm.value == taken {
          takenHeads := takenHeads + [e.dst];
        } else {
          untakenHeads := untakenHeads + [e.dst];
        }
      }
    }
    assert edges[..|edges|] == edges;
    if untakenHeads == [] {
      ReachFromClosed(ArrowsOf(edges), {});
      ReachFromLeast(ArrowsOf(edges), {}, {});
      return {};
    }
    var kept := ReachableFrom(edges, takenHeads);
    var abandoned := ReachableFrom(edges, untakenHeads);
    skip := abandoned - kept;
  }

  /** Exactly one edge per arm and nothing else leaves the node. */
  ghost predicate TwoArmed(edges: seq<FlowEdge>, branch: Node, yes: Node, no: Node) {
    && (forall e :: e in edges && e.src == branch ==>
          e == FlowEdge(branch, yes, Some(YesArm)) || e == FlowEdge(branch, no, Some(NoArm)))
    && FlowEdge(branch, yes, Some(YesArm)) in edges
    && FlowEdge(branch, no, Some(NoArm)) in edges
  }

  /**
   * The skip rule is exact: of everything below a two-armed branch, what is not
   * skipped is what the taken arm reaches. Joins survive; nothing else does.
   */
  lemma SkipLeavesTakenArm(edges: seq<FlowEdge>, branch: Node, yes: Node, no: Node, taken: Arm)
    requires TwoArmed(edges, branch, yes, no)
    requires Acyclic(ArrowsOf(edges))
    ensures var es := ArrowsOf(edges);
      var head := if taken == YesArm then yes else no;
      && ReachFrom(es, {branch}) - {branch} - StepsToSkip(edges, branch, taken) == ReachFrom(es, {head})
      && StepsToSkip(edges, branch, taken) <= ReachFrom(es, {branch}) - {branch}
  {
    var es := ArrowsOf(edges);
    var head := if taken == YesArm then yes else no;
    var other := if taken == YesArm then no else yes;
    ArmHeads(edges, branch, yes, no, taken);
    hide *;
    assert {head, other} == {head} + {other};
    AcyclicNoReturn(es, branch, {head, other});
    ReachFromUnfold(es, branch, {head, other});
    ReachFromUnion(es, {head}, {other});
    SkippedIs(edges, branch, taken, head, other);
    SkipSets(ReachFrom(es, {branch}), branch, ReachFrom(es, {head}), ReachFrom(es, {other}));
  }

  lemma SkippedIs(edges: seq<FlowEdge>, branch: Node, taken: Arm, head: Node, other: Node)
    requires Heads(edges, branch, taken, true) == {head} && Heads(edges, branch, taken, false) == {other}
    ensures StepsToSkip(edges, branch, taken)
      == ReachFrom(ArrowsOf(edges), {other}) - ReachFrom(ArrowsOf(edges), {head})
  {
    hide ReachFrom;
    hide Heads;
  }

  lemma SkipSets(all: set<Node>, branch: Node, kept: set<Node>, abandoned: set<Node>)
    requires all == {branch} + (kept + abandoned) && branch !in kept + abandoned
    ensures all - {branch} - (abandoned - kept) == kept
    ensures abandoned - kept <= all - {branch}
  {
  }

  lemma ArmHeads(edges: seq<FlowEdge>, branch: Node, yes: Node, no: Node, taken: Arm)
    requires TwoArmed(edges, branch, yes, no)
    ensures var head := if taken == YesArm then yes else no;
      var other := if taken == YesArm then no else yes;
      && Heads(edges, branch, taken, true) == {head} && Heads(edges, branch, taken, false) == {other}
      && forall w :: w in {head, other} <==> (branch, w) in ArrowsOf(edges)
  {
    var y, n := FlowEdge(branch, yes, Some(YesArm)), FlowEdge(branch, no, Some(NoArm));
    assert y in edges && n in edges;
    forall w
      ensures w in {yes, no} <==> (branch, w) in ArrowsOf(edges)
    {
      if (branch, w) in ArrowsOf(edges) {
        var e :| e in edges && (e.src, e.dst) == (branch, w);
      }
    }
  }
}
