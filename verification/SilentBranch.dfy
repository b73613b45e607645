// A branch that succeeds without a decision: exactly when that goes unnoticed,
// and an execution in which both arms run.
module SilentBranch {
  import opened Options
  import opened Digraph
  import opened Branching
  import opened EngineTypes
  import opened EngineRows
  import opened EngineDb
  import opened World
  import opened TokenSteps
  import opened GraphMeaning
  import opened SoloHistory
  import Backoff

  // ---- what stays pending below a branch ----

  ghost function BelowBranch(flow: FlowDefinition, v: Node): set<Node> {
    ReachFrom(ArrowsOf(flow.edges), {v}) - {v}
  }

  ghost function PendingIn(steps: seq<StepRow>, nodes: set<Node>): set<Node> {
    set j | 0 <= j < |steps| && steps[j].status.Pending? && steps[j].nodeId in nodes :: steps[j].nodeId
  }

  predicate Decides(output: Option<Output>) {
    output.Some? && output.value.Decision?
  }

  /** Below a two-armed branch lies what its two heads reach. */
  lemma BelowIsBothArms(flow: FlowDefinition, v: Node, yes: Node, no: Node)
    requires TwoArmed(flow.edges, v, yes, no) && Acyclic(ArrowsOf(flow.edges))
    ensures var es := ArrowsOf(flow.edges);
      BelowBranch(flow, v) == ReachFrom(es, {yes}) + ReachFrom(es, {no})
  {
    var es := ArrowsOf(flow.edges);
    ArmHeads(flow.edges, v, yes, no, YesArm);
    hide *;
    assert {yes, no} == {yes} + {no};
    AcyclicNoReturn(es, v, {yes, no});
    ReachFromUnfold(es, v, {yes, no});
    ReachFromUnion(es, {yes}, {no});
    WithoutBranch(flow, v, ReachFrom(es, {yes, no}));
  }

  lemma WithoutBranch(flow: FlowDefinition, v: Node, arms: set<Node>)
    requires ReachFrom(ArrowsOf(flow.edges), {v}) == {v} + arms && v !in arms
    ensures BelowBranch(flow, v) == arms
  {
  }

  lemma HeadIn(es: Arrows, a: Node, b: Node)
    ensures b in ReachFrom(es, {a}) <==> Reaches(es, a, b)
  {
    ReachFromMember(es, {a}, b);
    hide *;
    assert a in {a};
  }

  /** One arm holds the other exactly if it reaches the other's head. */
  lemma ArmHolds(es: Arrows, a: Node, b: Node)
    ensures ReachFrom(es, {a}) + ReachFrom(es, {b}) == ReachFrom(es, {a}) <==> Reaches(es, a, b)
  {
    hide *;
    HeadIn(es, a, b);
    HeadIn(es, b, b);
    ReachesSelf(es, b);
    assert b in ReachFrom(es, {b});
    if Reaches(es, a, b) {
      ReachFromClosed(es, {a});
      ReachFromLeast(es, {b}, ReachFrom(es, {a}));
    } else {
      assert b in ReachFrom(es, {a}) + ReachFrom(es, {b});
    }
  }

  /** The rows a recorded success leaves pending are the pending ones not abandoned. */
  lemma PendingAfter(steps: seq<StepRow>, i: nat, output: Option<Output>, abandoned: set<Node>, nodes: set<Node>)
    requires i < |steps| && !steps[i].status.Pending?
    requires forall j :: 0 <= j < |steps| && steps[j].nodeId in nodes ==> steps[j].status.Pending?
    requires forall u :: u in nodes ==> exists j :: 0 <= j < |steps| && steps[j].nodeId == u
    ensures PendingIn(MarkSkipped(steps[i := SucceedRow(steps[i], output)], abandoned), nodes) == nodes - abandoned
  {
    var after := MarkSkipped(steps[i := SucceedRow(steps[i], output)], abandoned);
    forall u | u in nodes - abandoned
      ensures u in PendingIn(after, nodes)
    {
      var j :| 0 <= j < |steps| && steps[j].nodeId == u;
      assert after[j] == steps[j];
    }
  }

  /**
   * After a two-armed branch succeeds, the rows pending below it are what one of
   * its arms reaches if and only if it said which way it went, or one arm leads
   * to the head of the other.
   */
  lemma OneArmPendingExactly(flow: FlowDefinition, steps: seq<StepRow>, i: nat, yes: Node, no: Node,
                             output: Option<Output>)
    requires i < |steps| && steps[i].status.Running?
    requires TwoArmed(flow.edges, steps[i].nodeId, yes, no) && Acyclic(ArrowsOf(flow.edges))
    requires var below := BelowBranch(flow, steps[i].nodeId);
      && (forall j :: 0 <= j < |steps| && steps[j].nodeId in below ==> steps[j].status.Pending?)
      && (forall u :: u in below ==> exists j :: 0 <= j < |steps| && steps[j].nodeId == u)
    ensures var v, es := steps[i].nodeId, ArrowsOf(flow.edges);
      var pending := PendingIn(MarkSkipped(steps[i := SucceedRow(steps[i], output)], AbandonedBy(flow, v, output)),
                               BelowBranch(flow, v));
      (pending == ReachFrom(es, {yes}) || pending == ReachFrom(es, {no})) <==>
        Decides(output) || Reaches(es, yes, no) || Reaches(es, no, yes)
  {
    var v, es := steps[i].nodeId, ArrowsOf(flow.edges);
    PendingAfter(steps, i, output, AbandonedBy(flow, v, output), BelowBranch(flow, v));
    BelowIsBothArms(flow, v, yes, no);
    ArmHolds(es, yes, no);
    ArmHolds(es, no, yes);
    if Decides(output) {
      SkipLeavesTakenArm(flow.edges, v, yes, no, output.value.taken);
      DecidedBelow(flow, v, output);
    } else {
      SilentAbandons(flow, v, output);
    }
    hide *;
    assert ReachFrom(es, {yes}) + ReachFrom(es, {no}) == ReachFrom(es, {no}) + ReachFrom(es, {yes});
  }

  lemma DecidedBelow(flow: FlowDefinition, v: Node, output: Option<Output>)
    requires Decides(output)
    ensures BelowBranch(flow, v) - AbandonedBy(flow, v, output)
         == ReachFrom(ArrowsOf(flow.edges), {v}) - {v} - StepsToSkip(flow.edges, v, output.value.taken)
  {
    hide StepsToSkip;
    hide ReachFrom;
  }

  lemma SilentAbandons(flow: FlowDefinition, v: Node, output: Option<Output>)
    requires !Decides(output)
    ensures BelowBranch(flow, v) - AbandonedBy(flow, v, output) == BelowBranch(flow, v)
  {
    hide ReachFrom;
  }

  // ---- an execution in which every step of a flow is claimed ----

  /**
   * Whatever the flow, if no handler ever says which way it went, a crash-free
   * history claims and completes every step of it: both arms of every branch.
   */
  lemma SilentBranchRunsBothArms(cfg: Config, input: CreateRunInput, r: RunId, now: int, draw: Backoff.Draw)
    returns (actions: seq<Action>)
    requires cfg.limits.None? && input.flow.versionId in cfg.flows
    requires Insertable(r, input.flow.nodes) && input.runTimeoutMs.None?
    ensures SilentActions(actions)
    ensures var last := Exec(cfg, Start(now, 1), actions);
      && r in last.db.runs && |last.db.runs[r].steps| == |input.flow.nodes|
      && forall i :: 0 <= i < |input.flow.nodes| ==>
           ClaimedStep(r, i) in last.log && last.db.runs[r].steps[i].nodeId == input.flow.nodes[i].id
           && last.db.runs[r].steps[i].status.Succeeded?
  {
    actions := FirstSteps(cfg, input, r, now, |input.flow.nodes|, draw);
  }
}
