// The flat rows as bookkeeping of a walk through the graph.
module GraphMeaning {
  import opened Options
  import opened Digraph
  import opened Branching
  import opened EngineTypes
  import opened EngineRows

  function NodeIds(nodes: seq<FlowNode>): (r: seq<Node>)
    ensures |r| == |nodes| && forall i :: 0 <= i < |nodes| ==> r[i] == nodes[i].id
  {
    seq(|nodes|, i requires 0 <= i < |nodes| => nodes[i].id)
  }

  // ---- flow shapes the compiler produces from tidy graphs ----

  ghost predicate IsEnd(edges: seq<FlowEdge>, v: Node) {
    forall e :: e in edges ==> e.src != v
  }

  ghost predicate IsThen(edges: seq<FlowEdge>, v: Node, u: Node) {
    && (forall e :: e in edges && e.src == v ==> e == FlowEdge(v, u, None))
    && FlowEdge(v, u, None) in edges
  }

  ghost predicate IsFork(edges: seq<FlowEdge>, v: Node) {
    exists yes, no :: TwoArmed(edges, v, yes, no)
  }

  ghost predicate NodeShape(edges: seq<FlowEdge>, v: Node) {
    IsEnd(edges, v) || (exists u :: IsThen(edges, v, u)) || IsFork(edges, v)
  }

  ghost predicate WellShaped(flow: FlowDefinition) {
    var ids := NodeIds(flow.nodes);
    && ids != [] && Distinct(ids)
    && Topological(ArrowsOf(flow.edges), ids)
    && (forall e :: e in flow.edges ==> e.src in ids && e.dst in ids)
    && (forall v :: v in ids ==> Reaches(ArrowsOf(flow.edges), ids[0], v))
    && (forall v :: v in ids ==> NodeShape(flow.edges, v))
  }

  /** The edge a finished node hands over to: the only one, or the decided arm. */
  ghost predicate HandsOver(edges: seq<FlowEdge>, v: Node, output: Option<Output>, u: Node) {
    exists e :: e in edges && e.src == v && e.dst == u
      && (e.arm.None? || output == Some(Decision(e.arm.value)))
  }

  /** A branch says which way it went. */
  ghost predicate HonestAt(edges: seq<FlowEdge>, v: Node, output: Option<Output>) {
    IsFork(edges, v) ==> output.Some? && output.value.Decision?
  }

  lemma HandsOverUnique(edges: seq<FlowEdge>, v: Node, output: Option<Output>, a: Node, b: Node)
    requires NodeShape(edges, v)
    requires HandsOver(edges, v, output, a) && HandsOver(edges, v, output, b)
    ensures a == b
  {
    var e :| e in edges && e.src == v && e.dst == a && (e.arm.None? || output == Some(Decision(e.arm.value)));
    var f :| f in edges && f.src == v && f.dst == b && (f.arm.None? || output == Some(Decision(f.arm.value)));
    if IsFork(edges, v) {
      var yes, no :| TwoArmed(edges, v, yes, no);
    }
  }

  // ---- walks ----

  /** Indices from the entry on, each handed over to by the recorded result of the one before. */
  ghost predicate IsWalk(flow: FlowDefinition, steps: seq<StepRow>, path: seq<nat>) {
    && |steps| == |flow.nodes|
    && path != [] && path[0] == 0
    && (forall k :: 0 <= k < |path| ==> path[k] < |steps|)
    && forall k :: 0 <= k < |path| - 1 ==>
         steps[path[k]].status.Succeeded?
         && HandsOver(flow.edges, flow.nodes[path[k]].id, steps[path[k]].output, flow.nodes[path[k + 1]].id)
  }

  /** Recorded decisions pick one walk: two of the same length are the same. */
  lemma {:induction false} WalkUnique(flow: FlowDefinition, steps: seq<StepRow>, p: seq<nat>, q: seq<nat>)
    requires WellShaped(flow) && IsWalk(flow, steps, p) && IsWalk(flow, steps, q)
    requires |p| == |q|
    ensures p == q
  {
    if |p| > 1 {
      var n := |p| - 1;
      hide WellShaped, HandsOver;
      WalkUnique(flow, steps, p[..n], q[..n]);
      assert p[n - 1] == p[..n][n - 1] == q[n - 1];
      NextUnique(flow, steps, p, q);
      assert p == p[..n] + [p[n]] && q == q[..n] + [q[n]];
    }
  }

  lemma NextUnique(flow: FlowDefinition, steps: seq<StepRow>, p: seq<nat>, q: seq<nat>)
    requires WellShaped(flow) && IsWalk(flow, steps, p) && IsWalk(flow, steps, q)
    requires |p| == |q| > 1 && p[|p| - 2] == q[|q| - 2]
    ensures p[|p| - 1] == q[|q| - 1]
  {
    var n := |p| - 1;
    var ids := NodeIds(flow.nodes);
    assert ids[p[n - 1]] in ids;
    assert p[n] == p[n - 1 + 1] && q[n] == q[n - 1 + 1];
    HandsOverUnique(flow.edges, ids[p[n - 1]], steps[p[n - 1]].output, ids[p[n]], ids[q[n]]);
    assert ids[p[n]] == ids[q[n]];
  }

  lemma HandsOverForward(flow: FlowDefinition, i: nat, output: Option<Output>, u: Node) returns (j: nat)
    requires WellShaped(flow) && i < |flow.nodes|
    requires HandsOver(flow.edges, flow.nodes[i].id, output, u)
    ensures i < j < |flow.nodes| && flow.nodes[j].id == u
  {
    var ids := NodeIds(flow.nodes);
    var e :| e in flow.edges && e.src == flow.nodes[i].id && e.dst == u;
    assert (e.src, e.dst) in ArrowsOf(flow.edges) && ids[i] == (e.src, e.dst).0;
    j :| i < j < |ids| && ids[j] == (e.src, e.dst).1;
  }

  lemma {:induction false} WalkIncreases(flow: FlowDefinition, steps: seq<StepRow>, path: seq<nat>)
    requires WellShaped(flow) && IsWalk(flow, steps, path)
    ensures forall j, k :: 0 <= j < k < |path| ==> path[j] < path[k]
  {
    if |path| > 1 {
      var n := |path| - 1;
      WalkIncreases(flow, steps, path[..n]);
      var ids := NodeIds(flow.nodes);
      assert path[n] == path[n - 1 + 1];
      var j := HandsOverForward(flow, path[n - 1], steps[path[n - 1]].output, flow.nodes[path[n]].id);
      assert ids[j] == ids[path[n]];
      forall a, b | 0 <= a < b < |path|
        ensures path[a] < path[b]
      {
        assert b < n ==> path[..n][a] < path[..n][b];
        assert b == n && a < n - 1 ==> path[..n][a] < path[..n][n - 1];
      }
    }
  }

  // ---- the rows of a walk ----

  /** Not yet done: the row the run is at. */
  predicate AtRow(s: StepRow) {
    s.status.Pending? || s.status.Running? || s.status.Failed?
  }

  ghost function Ahead(flow: FlowDefinition, i: nat): set<Node>
    requires i < |flow.nodes|
  {
    ReachFrom(ArrowsOf(flow.edges), {flow.nodes[i].id})
  }

  /** Off the path: waiting if the walk can still come by, skipped if it cannot. */
  ghost predicate OffPath(flow: FlowDefinition, steps: seq<StepRow>, path: seq<nat>, ahead: set<Node>) {
    && |steps| == |flow.nodes|
    && forall i :: 0 <= i < |steps| && i !in path ==>
         if flow.nodes[i].id in ahead then steps[i].status.Pending? else steps[i].status.Skipped?
  }

  ghost predicate RowsFollow(flow: FlowDefinition, steps: seq<StepRow>) {
    |steps| == |flow.nodes| && forall i :: 0 <= i < |steps| ==> steps[i].nodeId == flow.nodes[i].id
  }

  /** Everything before the last path node has succeeded; the rest of the rows follow from where that node stands. */
  ghost predicate OnWalk(flow: FlowDefinition, steps: seq<StepRow>, path: seq<nat>) {
    && RowsFollow(flow, steps)
    && IsWalk(flow, steps, path)
    && var c := path[|path| - 1];
    || (AtRow(steps[c]) && OffPath(flow, steps, path, Ahead(flow, c)))
    || (steps[c].status.Succeeded? && IsEnd(flow.edges, flow.nodes[c].id) && OffPath(flow, steps, path, {}))
  }

  lemma FreshOnWalk(flow: FlowDefinition, steps: seq<StepRow>)
    requires WellShaped(flow) && RowsFollow(flow, steps) && forall i :: 0 <= i < |steps| ==> steps[i].status.Pending?
    ensures OnWalk(flow, steps, [0])
  {
    var ids := NodeIds(flow.nodes);
    forall i | 0 <= i < |flow.nodes|
      ensures flow.nodes[i].id in Ahead(flow, 0)
    {
      assert ids[i] in ids;
      ReachFromMember(ArrowsOf(flow.edges), {ids[0]}, ids[i]);
    }
  }

  lemma AheadIsLater(flow: FlowDefinition, c: nat, i: nat)
    requires WellShaped(flow) && c < |flow.nodes| && i < |flow.nodes|
    requires flow.nodes[i].id in Ahead(flow, c)
    ensures c <= i
  {
    var ids := NodeIds(flow.nodes);
    var es := ArrowsOf(flow.edges);
    ReachFromMember(es, {ids[c]}, ids[i]);
    var j := TopologicalReach(es, ids, c, ids[i]);
    assert ids[j] == ids[i];
  }

  /** Of all rows, only the walk's next one is open with everything before it settled. */
  lemma OnlyNextIsReady(flow: FlowDefinition, steps: seq<StepRow>, path: seq<nat>, i: nat)
    requires WellShaped(flow) && OnWalk(flow, steps, path)
    requires i < |steps| && AtRow(steps[i])
    requires forall j :: 0 <= j < i ==> !AtRow(steps[j])
    ensures i == path[|path| - 1] && AtRow(steps[i])
  {
    var c := path[|path| - 1];
    assert c in path;
    assert i in path ==> exists k :: 0 <= k < |path| && path[k] == i;
    if flow.nodes[i].id in Ahead(flow, c) {
      AheadIsLater(flow, c, i);
    }
  }

  /** Only the walk's last node is ever anything but pending, succeeded or skipped. */
  lemma OnlyLastIsBusy(flow: FlowDefinition, steps: seq<StepRow>, path: seq<nat>, i: nat)
    requires WellShaped(flow) && OnWalk(flow, steps, path)
    requires i < |steps| && (steps[i].status.Running? || steps[i].status.Failed?)
    ensures i == path[|path| - 1]
  {
    if i in path {
      var k :| 0 <= k < |path| && path[k] == i;
    }
  }

  /** Rewriting the last row without finishing it keeps the walk. */
  lemma StayOnWalk(flow: FlowDefinition, steps: seq<StepRow>, path: seq<nat>, s: StepRow)
    requires WellShaped(flow) && OnWalk(flow, steps, path) && AtRow(steps[path[|path| - 1]])
    requires AtRow(s) && s.nodeId == steps[path[|path| - 1]].nodeId
    ensures OnWalk(flow, steps[path[|path| - 1] := s], path)
  {
    var c := path[|path| - 1];
    WalkIncreases(flow, steps, path);
    var steps' := steps[c := s];
    assert IsWalk(flow, steps', path);
    forall i | 0 <= i < |steps'| && i !in path
      ensures if flow.nodes[i].id in Ahead(flow, c) then steps'[i].status.Pending? else steps'[i].status.Skipped?
    {
      assert c in path;
    }
  }

  // ---- finishing a node ----

  lemma EmptyReach(es: Arrows)
    ensures ReachFrom(es, {}) == {}
  {
    ReachFromLeast(es, {}, {});
  }

  lemma NoArmsNoSkip(edges: seq<FlowEdge>, v: Node, taken: Arm)
    requires forall e :: e in edges && e.src == v ==> e.arm.None?
    ensures StepsToSkip(edges, v, taken) == {}
  {
    assert Heads(edges, v, taken, false) == {};
    EmptyReach(ArrowsOf(edges));
  }

  /** The last node of a flow: nothing was ahead of it and nothing is skipped. */
  lemma FinishEnd(flow: FlowDefinition, v: Node, output: Option<Output>)
    requires IsEnd(flow.edges, v)
    ensures ReachFrom(ArrowsOf(flow.edges), {v}) == {v}
    ensures AbandonedBy(flow, v, output) == {}
  {
    var es := ArrowsOf(flow.edges);
    assert forall w :: (v, w) !in es;
    ReachFromUnfold(es, v, {});
    EmptyReach(es);
    if output.Some? && output.value.Decision? {
      NoArmsNoSkip(flow.edges, v, output.value.taken);
    }
  }

  lemma FinishThen(flow: FlowDefinition, v: Node, u: Node, output: Option<Output>)
    requires IsThen(flow.edges, v, u) && Acyclic(ArrowsOf(flow.edges))
    ensures HandsOver(flow.edges, v, output, u)
    ensures ReachFrom(ArrowsOf(flow.edges), {v}) - {v} == ReachFrom(ArrowsOf(flow.edges), {u})
    ensures AbandonedBy(flow, v, output) == {}
  {
    var es := ArrowsOf(flow.edges);
    var e0 := FlowEdge(v, u, None);
    assert e0 in flow.edges;
    assert (e0.src, e0.dst) == (v, u) && (v, u) in es;
    forall w
      ensures w in {u} <==> (v, w) in es
    {
      if (v, w) in es {
        var e :| e in flow.edges && (e.src, e.dst) == (v, w);
      }
    }
    ReachFromUnfold(es, v, {u});
    AcyclicNoReturn(es, v, {u});
    if output.Some? && output.value.Decision? {
      NoArmsNoSkip(flow.edges, v, output.value.taken);
    }
  }

  lemma FinishFork(flow: FlowDefinition, v: Node, output: Option<Output>) returns (u: Node)
    requires IsFork(flow.edges, v) && Acyclic(ArrowsOf(flow.edges))
    requires output.Some? && output.value.Decision?
    ensures HandsOver(flow.edges, v, output, u)
    ensures ReachFrom(ArrowsOf(flow.edges), {v}) - {v} - AbandonedBy(flow, v, output)
      == ReachFrom(ArrowsOf(flow.edges), {u})
    ensures AbandonedBy(flow, v, output) <= ReachFrom(ArrowsOf(flow.edges), {v}) - {v}
  {
    var yes, no :| TwoArmed(flow.edges, v, yes, no);
    var taken := output.value.taken;
    u := if taken == YesArm then yes else no;
    assert FlowEdge(v, u, Some(taken)) in flow.edges;
    SkipLeavesTakenArm(flow.edges, v, yes, no, taken);
  }

  lemma FlowAcyclic(flow: FlowDefinition)
    requires WellShaped(flow)
    ensures Acyclic(ArrowsOf(flow.edges))
  {
    var ids := NodeIds(flow.nodes);
    forall x | x in ArrowsOf(flow.edges)
      ensures x.0 in ids
    {
      var e :| e in flow.edges && (e.src, e.dst) == x;
    }
    TopologicalAcyclic(ArrowsOf(flow.edges), ids);
  }

  /** After v: either the flow ends here, or one node is next and exactly what it reaches stays pending. */
  lemma AfterNode(flow: FlowDefinition, v: Node, output: Option<Output>) returns (next: Option<Node>)
    requires WellShaped(flow) && v in NodeIds(flow.nodes) && HonestAt(flow.edges, v, output)
    ensures var all := ReachFrom(ArrowsOf(flow.edges), {v});
      && AbandonedBy(flow, v, output) <= all - {v}
      && (next.None? ==> IsEnd(flow.edges, v) && all - {v} - AbandonedBy(flow, v, output) == {})
      && (next.Some? ==>
            (&& HandsOver(flow.edges, v, output, next.value)
             && all - {v} - AbandonedBy(flow, v, output) == ReachFrom(ArrowsOf(flow.edges), {next.value})))
  {
    FlowAcyclic(flow);
    assert NodeShape(flow.edges, v);
    if IsEnd(flow.edges, v) {
      FinishEnd(flow, v, output);
      next := None;
    } else if u :| IsThen(flow.edges, v, u) {
      FinishThen(flow, v, u, output);
      next := Some(u);
    } else {
      var w := FinishFork(flow, v, output);
      next := Some(w);
    }
  }

  /**
   * A path node succeeds: the walk moves to the node the result hands over to,
   * the rows it can still reach stay pending, and exactly the rest is skipped.
   */
  lemma SucceedOnWalk(flow: FlowDefinition, steps: seq<StepRow>, path: seq<nat>, output: Option<Output>)
    returns (path': seq<nat>)
    requires WellShaped(flow) && OnWalk(flow, steps, path) && AtRow(steps[path[|path| - 1]])
    requires HonestAt(flow.edges, flow.nodes[path[|path| - 1]].id, output)
    ensures var c := path[|path| - 1];
      var v := flow.nodes[c].id;
      var rows := MarkSkipped(steps[c := SucceedRow(steps[c], output)], AbandonedBy(flow, v, output));
      && OnWalk(flow, rows, path')
      && (path' == path || (|path'| == |path| + 1 && path'[..|path|] == path && rows[path'[|path|]].status.Pending?))
      && rows[c].status.Succeeded?
  {
    var c := path[|path| - 1];
    var v := flow.nodes[c].id;
    assert NodeIds(flow.nodes)[c] == v;
    var next := AfterNode(flow, v, output);
    WalkIncreases(flow, steps, path);
    if next.None? {
      path' := path;
      FinishedRows(flow, steps, path, output);
    } else {
      var j := HandsOverForward(flow, c, output, next.value);
      path' := path + [j];
      HandedOverRows(flow, steps, path, output, j);
    }
  }

  lemma FinishedRows(flow: FlowDefinition, steps: seq<StepRow>, path: seq<nat>, output: Option<Output>)
    requires Distinct(NodeIds(flow.nodes))
    requires OnWalk(flow, steps, path) && AtRow(steps[path[|path| - 1]])
    requires forall j, k :: 0 <= j < k < |path| ==> path[j] < path[k]
    requires var c := path[|path| - 1];
      var v := flow.nodes[c].id;
      IsEnd(flow.edges, v) && Ahead(flow, c) - {v} - AbandonedBy(flow, v, output) == {}
    ensures var c := path[|path| - 1];
      var v := flow.nodes[c].id;
      OnWalk(flow, MarkSkipped(steps[c := SucceedRow(steps[c], output)], AbandonedBy(flow, v, output)), path)
  {
    var c := path[|path| - 1];
    var v := flow.nodes[c].id;
    var rows := MarkSkipped(steps[c := SucceedRow(steps[c], output)], AbandonedBy(flow, v, output));
    assert IsWalk(flow, rows, path);
    forall i | 0 <= i < |rows| && i !in path
      ensures rows[i].status.Skipped?
    {
      assert c in path;
      assert NodeIds(flow.nodes)[i] != NodeIds(flow.nodes)[c];
      assert flow.nodes[i].id !in Ahead(flow, c) - {v} - AbandonedBy(flow, v, output);
      OtherRowSettled(flow, steps, path, output, i);
    }
  }

  /** A row off the path: skipped unless the walk can still come by. */
  lemma OtherRowSettled(flow: FlowDefinition, steps: seq<StepRow>, path: seq<nat>, output: Option<Output>, i: nat)
    requires OnWalk(flow, steps, path) && AtRow(steps[path[|path| - 1]])
    requires i < |steps| && i !in path
    ensures var c := path[|path| - 1];
      var v := flow.nodes[c].id;
      var rows := MarkSkipped(steps[c := SucceedRow(steps[c], output)], AbandonedBy(flow, v, output));
      if flow.nodes[i].id in Ahead(flow, c) - AbandonedBy(flow, v, output)
      then rows[i].status.Pending? else rows[i].status.Skipped?
  {
    assert path[|path| - 1] in path;
  }

  /** Appending the node handed over to. */
  lemma ExtendWalk(flow: FlowDefinition, steps: seq<StepRow>, path: seq<nat>, rows: seq<StepRow>, j: nat)
    requires IsWalk(flow, steps, path) && |rows| == |steps| && j < |steps|
    requires forall k :: 0 <= k < |path| - 1 ==> rows[path[k]] == steps[path[k]]
    requires var c := path[|path| - 1];
      rows[c].status.Succeeded? && HandsOver(flow.edges, flow.nodes[c].id, rows[c].output, flow.nodes[j].id)
    ensures IsWalk(flow, rows, path + [j])
  {
    var path' := path + [j];
    forall k | 0 <= k < |path'| - 1
      ensures rows[path'[k]].status.Succeeded?
        && HandsOver(flow.edges, flow.nodes[path'[k]].id, rows[path'[k]].output, flow.nodes[path'[k + 1]].id)
    {
      assert path'[k] == path[k];
      assert k < |path| - 1 ==> path'[k + 1] == path[k + 1];
    }
  }

  lemma HandedOverRows(flow: FlowDefinition, steps: seq<StepRow>, path: seq<nat>, output: Option<Output>, j: nat)
    requires Distinct(NodeIds(flow.nodes))
    requires OnWalk(flow, steps, path) && AtRow(steps[path[|path| - 1]])
    requires forall a, k :: 0 <= a < k < |path| ==> path[a] < path[k]
    requires path[|path| - 1] < j < |steps|
    requires var c := path[|path| - 1];
      var v := flow.nodes[c].id;
      && HandsOver(flow.edges, v, output, flow.nodes[j].id)
      && Ahead(flow, c) - {v} - AbandonedBy(flow, v, output) == Ahead(flow, j)
    ensures var c := path[|path| - 1];
      var v := flow.nodes[c].id;
      var rows := MarkSkipped(steps[c := SucceedRow(steps[c], output)], AbandonedBy(flow, v, output));
      OnWalk(flow, rows, path + [j]) && rows[j].status.Pending?
  {
    var c := path[|path| - 1];
    var v := flow.nodes[c].id;
    var rows := MarkSkipped(steps[c := SucceedRow(steps[c], output)], AbandonedBy(flow, v, output));
    var path' := path + [j];
    assert c in path && forall x :: x in path' <==> x in path || x == j;
    ReachFromClosed(ArrowsOf(flow.edges), {flow.nodes[j].id});
    var ahead := Ahead(flow, j);
    assert flow.nodes[j].id in ahead;
    forall i | 0 <= i < |rows| && i !in path
      ensures if flow.nodes[i].id in ahead then rows[i].status.Pending? else rows[i].status.Skipped?
    {
      OtherRowSettled(flow, steps, path, output, i);
      assert NodeIds(flow.nodes)[i] != NodeIds(flow.nodes)[c];
    }
    ExtendWalk(flow, steps, path, rows, j);
    hide Ahead;
    hide AbandonedBy;
    hide HandsOver;
    hide IsEnd;
    hide IsWalk;
  }

  /** Finished for good: the skipped rows are exactly the off-path nodes. */
  lemma AllDoneOnWalk(flow: FlowDefinition, steps: seq<StepRow>, path: seq<nat>)
    requires WellShaped(flow) && OnWalk(flow, steps, path)
    requires forall s :: s in steps ==> IsDone(s.status)
    ensures IsEnd(flow.edges, flow.nodes[path[|path| - 1]].id)
    ensures forall i :: 0 <= i < |steps| ==> (steps[i].status.Succeeded? <==> i in path)
    ensures forall i :: 0 <= i < |steps| ==> (steps[i].status.Skipped? <==> i !in path)
  {
    var c := path[|path| - 1];
    assert steps[c] in steps;
    forall i | 0 <= i < |steps|
      ensures (steps[i].status.Succeeded? <==> i in path) && (steps[i].status.Skipped? <==> i !in path)
    {
      if i in path {
        var k :| 0 <= k < |path| && path[k] == i;
      }
    }
  }
}
