// Publish-time validation: when a drawn graph may be published.
module Validation {
  import opened Options
  import opened Digraph
  import opened Canvas
  import opened GraphAlgebra
  import opened Kahn
  import opened References
  import opened Compiler
  import opened Sieves

  // ---- the entry point and what it leaves out ----

  ghost function DescendantSet(g: Graph, id: Node): set<Node> {
    set v | v in Vertices(Forward(g)) && ReachesByArrow(Forward(g), id, v)
  }

  lemma DescendantMember(g: Graph, id: Node, v: Node)
    ensures v in DescendantSet(g, id) <==> ReachesByArrow(Forward(g), id, v)
  {
    if ReachesByArrow(Forward(g), id, v) {
      var c := ReachesLast(Forward(g), id, v);
      assert (c, v) in Forward(g);
    }
  }

  method CountDescendants(g: Graph, id: Node) returns (n: nat)
    ensures n == |DescendantSet(g, id)|
  {
    var below := Descendants(g, id);
    forall v
      ensures v in below <==> v in DescendantSet(g, id)
    {
      DescendantMember(g, id, v);
    }
    assert below == DescendantSet(g, id);
    n := |below|;
  }

  /** The root that reaches most, the earliest of several. */
  ghost predicate IsBestRoot(g: Graph, roots: seq<CanvasNode>, k: nat) {
    && k < |roots|
    && forall j :: 0 <= j < |roots| ==>
         && |DescendantSet(g, roots[j].id)| <= |DescendantSet(g, roots[k].id)|
         && (j < k ==> |DescendantSet(g, roots[j].id)| < |DescendantSet(g, roots[k].id)|)
  }

  method EntryPoint(g: Graph) returns (best: Option<CanvasNode>)
    ensures best.None? <==> EntryPoints(g) == []
    ensures best.Some? ==> exists k: nat :: IsBestRoot(g, EntryPoints(g), k) && EntryPoints(g)[k] == best.value
  {
    hide DescendantSet;
    var candidates := EntryPoints(g);
    hide EntryPoints;
    if candidates == [] {
      return None;
    }
    ghost var at := 0;
    var first := candidates[0];
    var bestReach := CountDescendants(g, first.id);
    assert candidates[..1] == [first];
    assert IsBestRoot(g, candidates[..1], 0);
    for i := 1 to |candidates|
      invariant at < i && first == candidates[at] && bestReach == |DescendantSet(g, first.id)|
      invariant IsBestRoot(g, candidates[..i], at)
    {
      var reach := CountDescendants(g, candidates[i].id);
      assert candidates[..i + 1] == candidates[..i] + [candidates[i]];
      if reach > bestReach {
        first, bestReach, at := candidates[i], reach, i;
      }
    }
    assert candidates[..|candidates|] == candidates;
    best := Some(first);
  }

  /** The nodes the entry point does not reach. */
  function Outside(nodes: seq<CanvasNode>, reached: set<Node>): (r: seq<CanvasNode>)
    ensures forall n :: n in r <==> n in nodes && n.id !in reached
  {
    if nodes == [] then []
    else
      var n := nodes[|nodes| - 1];
      assert nodes == nodes[..|nodes| - 1] + [n];
      Outside(nodes[..|nodes| - 1], reached) + if n.id !in reached then [n] else []
  }

  ghost predicate AllReached(g: Graph, entry: Node, reached: set<Node>) {
    forall v :: v in reached <==> Reaches(Forward(g), entry, v)
  }

  function NotAmong(reached: set<Node>): CanvasNode -> bool {
    (n: CanvasNode) => n.id !in reached
  }

  lemma OutsideLast(front: seq<CanvasNode>, n: CanvasNode, reached: set<Node>)
    ensures Outside(front + [n], reached) == Outside(front, reached) + if NotAmong(reached)(n) then [n] else []
  {
    assert (front + [n])[..|front|] == front;
  }

  lemma NothingOutside(reached: set<Node>)
    ensures Sieved([], Outside([], reached), NotAmong(reached), [])
  {
  }

  lemma {:induction false} OutsideInOrder(nodes: seq<CanvasNode>, reached: set<Node>) returns (at: seq<nat>)
    ensures Sieved(nodes, Outside(nodes, reached), NotAmong(reached), at)
  {
    hide *;
    if nodes == [] {
      at := [];
      NothingOutside(reached);
    } else {
      var n := |nodes| - 1;
      var front := OutsideInOrder(nodes[..n], reached);
      assert nodes == nodes[..n] + [nodes[n]];
      OutsideLast(nodes[..n], nodes[n], reached);
      SievedSnoc(nodes[..n], Outside(nodes[..n], reached), NotAmong(reached), front, nodes[n]);
      at := front + if NotAmong(reached)(nodes[n]) then [|nodes[..n]|] else [];
    }
  }

  /** In the graph's order, the nodes with no path from this one. */
  ghost predicate UnreachedFrom(g: Graph, entry: Node, loose: seq<CanvasNode>) {
    exists reached, at :: AllReached(g, entry, reached) && Sieved(g.nodes, loose, NotAmong(reached), at)
  }

  lemma UnreachedMeans(g: Graph, entry: Node, loose: seq<CanvasNode>)
    requires UnreachedFrom(g, entry, loose)
    ensures forall n :: n in loose <==> n in g.nodes && !Reaches(Forward(g), entry, n.id)
  {
    var reached, at :| AllReached(g, entry, reached) && Sieved(g.nodes, loose, NotAmong(reached), at);
    SievedMembers(g.nodes, loose, NotAmong(reached), at);
    hide Sieved, Reaches, Forward;
  }

  /** Measured from the given node, or else from the best root; nothing is loose without roots. */
  method Orphans(g: Graph, entryId: Option<Node>) returns (loose: seq<CanvasNode>)
    ensures entryId.Some? ==> UnreachedFrom(g, entryId.value, loose)
    ensures entryId.None? && EntryPoints(g) == [] ==> loose == []
    ensures entryId.None? && EntryPoints(g) != [] ==>
      exists k: nat :: IsBestRoot(g, EntryPoints(g), k) && UnreachedFrom(g, EntryPoints(g)[k].id, loose)
  {
    hide *;
    var entry := entryId;
    if entryId.None? {
      var best := EntryPoint(g);
      if best.None? {
        return [];
      }
      entry := Some(best.value.id);
    }
    var below := Descendants(g, entry.value);
    ReachesOrSelf(Forward(g), entry.value, below);
    loose := Outside(g.nodes, {entry.value} + below);
    UnreachedIs(g, entry.value, {entry.value} + below);
  }

  lemma UnreachedIs(g: Graph, entry: Node, reached: set<Node>)
    requires forall v :: v in reached <==> Reaches(Forward(g), entry, v)
    ensures UnreachedFrom(g, entry, Outside(g.nodes, reached))
  {
    var at := OutsideInOrder(g.nodes, reached);
    assert AllReached(g, entry, reached);
    hide Forward, Reaches, Outside, Sieved;
  }

  lemma ReachesOrSelf(es: Arrows, a: Node, below: set<Node>)
    requires forall v :: v in below <==> ReachesByArrow(es, a, v)
    ensures forall v :: v in {a} + below <==> Reaches(es, a, v)
  {
    forall v
      ensures v in {a} + below <==> Reaches(es, a, v)
    {
      ReachesSelf(es, a);
      if Reaches(es, a, v) {
        ReachesFirst(es, a, v);
      }
      if v in below {
        ByArrowReaches(es, a, v);
      }
    }
  }

  // ---- issues ----

  datatype Severity = Error | Warning

  datatype IssueCode =
    | EmptyGraph
    | DanglingEdge(edgeId: string)
    | Cycle
    | NoTrigger
    | MultipleTriggers
    | Orphan
    | MissingRequired
    | SelfReference
    | UnknownReference(stepId: Node)
    | NonAncestorReference(stepId: Node)

  datatype Issue = Issue(severity: Severity, code: IssueCode, nodeId: Option<Node>, field: Option<string>)

  /** Publishing is blocked by errors; warnings do not block. */
  predicate CanPublish(issues: seq<Issue>) {
    forall i :: i in issues ==> i.severity != Error
  }

  lemma PublishConcat(a: seq<Issue>, b: seq<Issue>)
    ensures CanPublish(a + b) <==> CanPublish(a) && CanPublish(b)
  {
    assert forall i :: i in a || i in b <==> i in a + b;
  }

  lemma OneError(issues: seq<Issue>, issue: Issue)
    requires issue.severity == Error
    ensures !CanPublish(issues + [issue])
  {
    assert issue in issues + [issue];
  }

  predicate Blank(n: CanvasNode, field: string) {
    Absent(n, field) || n.data[field] == Text("", []) || (n.data[field].Text? && n.data[field].text == "")
  }

  function RequiredFor(required: map<string, seq<string>>, kind: string): seq<string> {
    if kind in required then required[kind] else []
  }

  // ---- publishable, without running the checks ----

  ghost predicate ReferencesRunBefore(g: Graph, n: CanvasNode) {
    forall id :: NodeMentions(n, id) ==>
      id != n.id && id in IdSet(g.nodes) && ReachesByArrow(Wires(g.edges), id, n.id)
  }

  predicate FieldsFilled(required: map<string, seq<string>>, n: CanvasNode) {
    forall f :: f in RequiredFor(required, n.kind) ==> !Blank(n, f)
  }

  ghost predicate Publishable(g: Graph, required: map<string, seq<string>>) {
    && g.nodes != [] && NoDangling(g) && Acyclic(Wires(g.edges)) && |EntryPoints(g)| == 1
    && NodesReady(g, required, g.nodes)
  }

  // ---- each issue, without running the checks ----

  predicate DanglingIssue(g: Graph, x: Issue) {
    x.code.DanglingEdge? && x == Issue(Error, DanglingEdge(x.code.edgeId), None, None)
    && exists e :: e in g.edges && e.id == x.code.edgeId && Dangling(g, e)
  }

  predicate Unfilled(n: CanvasNode, field: string) {
    field in n.data ==> n.data[field] == Null || (n.data[field].Text? && n.data[field].text == "")
  }

  /** A required field left empty, or a reference to what cannot have run. */
  ghost predicate NodeIssue(g: Graph, required: map<string, seq<string>>, n: CanvasNode, x: Issue) {
    && x.severity == Error && x.nodeId == Some(n.id) && x.field.Some?
    && var field := x.field.value;
    match x.code
    case MissingRequired => n.kind in required && field in required[n.kind] && Unfilled(n, field)
    case SelfReference => NodeNames(n, field, n.id)
    case UnknownReference(id) => NodeNames(n, field, id) && id != n.id && id !in IdSet(g.nodes)
    case NonAncestorReference(id) =>
      NodeNames(n, field, id) && id != n.id && id in IdSet(g.nodes) && !ReachesByArrow(Backward(g), n.id, id)
    case _ => false
  }

  /** A node the best root does not reach. */
  ghost predicate OrphanIssue(g: Graph, x: Issue) {
    && x.severity == Warning && x.code == Orphan && x.field.None? && x.nodeId.Some?
    && exists k: nat, n :: IsBestRoot(g, EntryPoints(g), k) && n in g.nodes && n.id == x.nodeId.value
         && !Reaches(Forward(g), EntryPoints(g)[k].id, n.id)
  }

  predicate TriggerIssue(g: Graph, x: Issue) {
    || (EntryPoints(g) == [] && x == Issue(Error, NoTrigger, None, None))
    || (|EntryPoints(g)| > 1 && x == Issue(Error, MultipleTriggers, Some(EntryPoints(g)[1].id), None))
  }

  /** What there is to say of a graph that has an order. */
  ghost predicate GraphIssue(g: Graph, required: map<string, seq<string>>, x: Issue) {
    DanglingIssue(g, x) || TriggerIssue(g, x) || OrphanIssue(g, x) || exists n ::
      n in g.nodes && NodeIssue(g, required, n, x)
  }

  // ---- the checks, in loops ----

  method DanglingIssues(g: Graph) returns (issues: seq<Issue>)
    ensures CanPublish(issues) <==> NoDangling(g)
    ensures forall x :: x in issues <==> DanglingIssue(g, x)
  {
    issues := [];
    for i := 0 to |g.edges|
      invariant forall x :: x in issues <==>
        exists k :: 0 <= k < i && Dangling(g, g.edges[k]) && x == Issue(Error, DanglingEdge(g.edges[k].id), None, None)
      invariant CanPublish(issues) <==> forall k :: 0 <= k < i ==> !Dangling(g, g.edges[k])
    {
      if Dangling(g, g.edges[i]) {
        var issue := Issue(Error, DanglingEdge(g.edges[i].id), None, None);
        PublishConcat(issues, [issue]);
        assert issue in [issue];
        issues := issues + [issue];
      }
    }
  }

  function TriggerIssues(roots: seq<CanvasNode>): (r: seq<Issue>)
    ensures CanPublish(r) <==> |roots| == 1
  {
    if |roots| == 0 then
      var issue := Issue(Error, NoTrigger, None, None);
      assert issue in [issue];
      [issue]
    else if |roots| > 1 then
      var issue := Issue(Error, MultipleTriggers, Some(roots[1].id), None);
      assert issue in [issue];
      [issue]
    else []
  }

  function OrphanIssues(loose: seq<CanvasNode>): (r: seq<Issue>)
    ensures CanPublish(r)
    ensures forall x :: x in r <==> exists n :: n in loose && x == Issue(Warning, Orphan, Some(n.id), None)
  {
    if loose == [] then []
    else
      var n := loose[|loose| - 1];
      assert loose == loose[..|loose| - 1] + [n];
      var rest := OrphanIssues(loose[..|loose| - 1]);
      rest + [Issue(Warning, Orphan, Some(n.id), None)]
  }

  method FieldIssues(n: CanvasNode, fields: seq<string>) returns (issues: seq<Issue>)
    ensures CanPublish(issues) <==> forall f :: f in fields ==> !Blank(n, f)
    ensures forall x :: x in issues <==>
      exists f :: f in fields && Blank(n, f) && x == Issue(Error, MissingRequired, Some(n.id), Some(f))
  {
    issues := [];
    for i := 0 to |fields|
      invariant forall x :: x in issues <==>
        exists k :: 0 <= k < i && Blank(n, fields[k]) && x == Issue(Error, MissingRequired, Some(n.id), Some(fields[k]))
      invariant CanPublish(issues) <==> forall k :: 0 <= k < i ==> !Blank(n, fields[k])
    {
      if Blank(n, fields[i]) {
        var issue := Issue(Error, MissingRequired, Some(n.id), Some(fields[i]));
        PublishConcat(issues, [issue]);
        assert issue in [issue];
        issues := issues + [issue];
      }
    }
  }

  /** What is wrong with one reference, if anything. */
  function ReferenceIssue(n: CanvasNode, known: set<Node>, available: set<Node>, ref: Reference): Option<Issue> {
    if ref.stepId == n.id then Some(Issue(Error, SelfReference, Some(n.id), Some(ref.field)))
    else if ref.stepId !in known then Some(Issue(Error, UnknownReference(ref.stepId), Some(n.id), Some(ref.field)))
    else if ref.stepId !in available then
      Some(Issue(Error, NonAncestorReference(ref.stepId), Some(n.id), Some(ref.field)))
    else None
  }

  method ReferenceIssues(n: CanvasNode, known: set<Node>, available: set<Node>, refs: seq<Reference>)
    returns (issues: seq<Issue>)
    ensures CanPublish(issues) <==>
      forall id :: Found(refs, id) ==> id != n.id && id in known && id in available
    ensures forall x :: x in issues <==> exists r :: r in refs && ReferenceIssue(n, known, available, r) == Some(x)
  {
    issues := [];
    for i := 0 to |refs|
      invariant forall x :: x in issues <==>
        exists k :: 0 <= k < i && ReferenceIssue(n, known, available, refs[k]) == Some(x)
      invariant CanPublish(issues) <==> forall k :: 0 <= k < i ==> ReferenceIssue(n, known, available, refs[k]).None?
    {
      var problem := ReferenceIssue(n, known, available, refs[i]);
      if problem.Some? {
        PublishConcat(issues, [problem.value]);
        assert problem.value in [problem.value];
        issues := issues + [problem.value];
      }
    }
    assert forall k :: 0 <= k < |refs| ==> Found(refs, refs[k].stepId);
  }

  method NodeIssues(g: Graph, required: map<string, seq<string>>, n: CanvasNode) returns (issues: seq<Issue>)
    ensures NoDangling(g) ==> (CanPublish(issues) <==> FieldsFilled(required, n) && ReferencesRunBefore(g, n))
    ensures forall x :: x in issues <==> NodeIssue(g, required, n, x)
  {
    issues := FieldIssues(n, RequiredFor(required, n.kind));
    var available := Ancestors(g, n.id);
    var refs := ReferencesOf(n);
    var more := ReferenceIssues(n, IdSet(g.nodes), available, refs);
    PublishConcat(issues, more);
    if NoDangling(g) {
      forall id
        ensures id in available <==> ReachesByArrow(Wires(g.edges), id, n.id)
      {
        AncestorMeaning(g, n.id, id);
      }
    }
    forall x
      ensures x in issues || x in more <==> NodeIssue(g, required, n, x)
    {
      NodeIssueFrom(g, required, n, refs, available, x);
    }
    issues := issues + more;
  }

  lemma NodeIssueFrom(g: Graph, required: map<string, seq<string>>, n: CanvasNode, refs: seq<Reference>,
                      available: set<Node>, x: Issue)
    requires forall y :: y in refs <==> NodeNames(n, y.field, y.stepId)
    requires forall v :: v in available <==> ReachesByArrow(Backward(g), n.id, v)
    ensures NodeIssue(g, required, n, x) <==>
      || (exists f :: f in RequiredFor(required, n.kind) && Blank(n, f)
            && x == Issue(Error, MissingRequired, Some(n.id), Some(f)))
      || (exists r :: r in refs && ReferenceIssue(n, IdSet(g.nodes), available, r) == Some(x))
  {
    hide NodeNames, ReachesByArrow, Backward;
    if x.field.Some? {
      assert Blank(n, x.field.value) <==> Unfilled(n, x.field.value);
      match x.code {
        case SelfReference => assert Reference(x.field.value, n.id) in refs <==> NodeNames(n, x.field.value, n.id);
        case UnknownReference(id) => assert Reference(x.field.value, id) in refs <==> NodeNames(n, x.field.value, id);
        case NonAncestorReference(id) => assert Reference(x.field.value, id) in refs <==>
          NodeNames(n, x.field.value, id);
        case _ =>
      }
    }
  }

  ghost predicate NodesReady(g: Graph, required: map<string, seq<string>>, nodes: seq<CanvasNode>) {
    forall n :: n in nodes ==> FieldsFilled(required, n) && ReferencesRunBefore(g, n)
  }

  method AllNodeIssues(g: Graph, required: map<string, seq<string>>) returns (issues: seq<Issue>)
    ensures NoDangling(g) ==> (CanPublish(issues) <==> NodesReady(g, required, g.nodes))
    ensures forall x :: x in issues <==> exists n :: n in g.nodes && NodeIssue(g, required, n, x)
  {
    hide FieldsFilled;
    hide ReferencesRunBefore;
    hide NodeIssue;
    issues := [];
    for i := 0 to |g.nodes|
      invariant forall x :: x in issues <==> exists k :: 0 <= k < i && NodeIssue(g, required, g.nodes[k], x)
      invariant NoDangling(g) ==> (CanPublish(issues) <==> NodesReady(g, required, g.nodes[..i]))
    {
      var more := NodeIssues(g, required, g.nodes[i]);
      PublishConcat(issues, more);
      assert g.nodes[..i + 1] == g.nodes[..i] + [g.nodes[i]];
      issues := issues + more;
    }
    assert g.nodes[..|g.nodes|] == g.nodes;
  }

  /** Everything there is to say is said and nothing else; a graph without an order is told only that. */
  ghost predicate SaysAll(g: Graph, required: map<string, seq<string>>, issues: seq<Issue>) {
    if g.nodes == [] then issues == [Issue(Error, EmptyGraph, None, None)]
    else if NoPhantomSource(g) && Acyclic(Inner(g)) then forall x :: x in issues <==> GraphIssue(g, required, x)
    else forall x :: x in issues <==> DanglingIssue(g, x) || x == Issue(Error, Cycle, None, None)
  }

  lemma LooseAreOrphans(g: Graph, loose: seq<CanvasNode>, x: Issue)
    requires EntryPoints(g) == [] ==> loose == []
    requires EntryPoints(g) != [] ==>
      exists k: nat :: IsBestRoot(g, EntryPoints(g), k) && UnreachedFrom(g, EntryPoints(g)[k].id, loose)
    ensures (exists n :: n in loose && x == Issue(Warning, Orphan, Some(n.id), None)) <==> OrphanIssue(g, x)
  {
    hide Reaches, Forward, EntryPoints, UnreachedFrom, DescendantSet;
    if EntryPoints(g) != [] {
      var k: nat :| IsBestRoot(g, EntryPoints(g), k) && UnreachedFrom(g, EntryPoints(g)[k].id, loose);
      UnreachedMeans(g, EntryPoints(g)[k].id, loose);
      assert forall j: nat :: IsBestRoot(g, EntryPoints(g), j) ==> j == k;
    }
  }

  /** Publishing is allowed exactly of publishable graphs. */
  method Validate(g: Graph, required: map<string, seq<string>>) returns (issues: seq<Issue>)
    ensures DistinctIds(g) ==> (CanPublish(issues) <==> Publishable(g, required))
    ensures DistinctIds(g) ==> SaysAll(g, required, issues)
  {
    if g.nodes == [] {
      var issue := Issue(Error, EmptyGraph, None, None);
      OneError([], issue);
      assert [issue] == [] + [issue];
      return [issue];
    }
    issues := DanglingIssues(g);
    ghost var dangling := issues;
    var order := TopologicalOrder(g);
    ghost var cyclic := !Acyclic(Wires(g.edges));
    if NoDangling(g) {
      NullMeansCyclic(g);
      assert DistinctIds(g) ==> (order.None? <==> cyclic);
    }
    assert Publishable(g, required) <==>
      g.nodes != [] && NoDangling(g) && !cyclic && |EntryPoints(g)| == 1 && NodesReady(g, required, g.nodes);
    assert order.None? ==> DistinctIds(g) ==> !(NoPhantomSource(g) && Acyclic(Inner(g)));
    hide *;
    if order.None? {
      var issue := Issue(Error, Cycle, None, None);
      OneError(issues, issue);
      issues := issues + [issue];
      SaysCycle(g, required, issues);
      return;
    }
    PublishConcat(issues, TriggerIssues(EntryPoints(g)));
    ghost var trigger := TriggerIssues(EntryPoints(g));
    issues := issues + TriggerIssues(EntryPoints(g));
    var loose := Orphans(g, None);
    PublishConcat(issues, OrphanIssues(loose));
    issues := issues + OrphanIssues(loose);
    var more := AllNodeIssues(g, required);
    PublishConcat(issues, more);
    issues := issues + more;
    forall x
      ensures x in OrphanIssues(loose) <==> OrphanIssue(g, x)
      ensures x in trigger <==> TriggerIssue(g, x)
    {
      LooseAreOrphans(g, loose, x);
      TriggerExactly(g, x);
    }
    assert forall x :: x in issues <==> x in dangling || x in trigger || x in OrphanIssues(loose) || x in more;
    SaysEverything(g, required, issues, dangling, trigger, OrphanIssues(loose), more);
  }

  lemma TriggerExactly(g: Graph, x: Issue)
    ensures x in TriggerIssues(EntryPoints(g)) <==> TriggerIssue(g, x)
  {
  }

  lemma SaysCycle(g: Graph, required: map<string, seq<string>>, issues: seq<Issue>)
    requires g.nodes != [] && (DistinctIds(g) ==> !(NoPhantomSource(g) && Acyclic(Inner(g))))
    requires forall x :: x in issues <==> DanglingIssue(g, x) || x == Issue(Error, Cycle, None, None)
    ensures DistinctIds(g) ==> SaysAll(g, required, issues)
  {
    hide DanglingIssue, GraphIssue;
  }

  lemma SaysEverything(g: Graph, required: map<string, seq<string>>, issues: seq<Issue>, dangling: seq<Issue>,
                       trigger: seq<Issue>, loose: seq<Issue>, nodes: seq<Issue>)
    requires g.nodes != [] && (DistinctIds(g) ==> NoPhantomSource(g) && Acyclic(Inner(g)))
    requires forall x :: x in dangling <==> DanglingIssue(g, x)
    requires forall x :: x in trigger <==> TriggerIssue(g, x)
    requires forall x :: x in loose <==> OrphanIssue(g, x)
    requires forall x :: x in nodes <==> exists n :: n in g.nodes && NodeIssue(g, required, n, x)
    requires forall x :: x in issues <==> x in dangling || x in trigger || x in loose || x in nodes
    ensures DistinctIds(g) ==> SaysAll(g, required, issues)
  {
    hide DanglingIssue, TriggerIssue, OrphanIssue, NodeIssue;
  }
}
