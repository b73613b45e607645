// Canvas graph to engine flow definition: a depth-first walk from the one entry
// point, every problem collected on the way.
module Compiler {
  import opened Options
  import opened Digraph
  import opened Canvas
  import Branching
  import EngineTypes
  import Texts

  datatype Problem =
    | EmptyFlow
    | StartsNowhere(edgeId: string)
    | EndsNowhere(edgeId: string)
    | NoBeginning
    | NotConnected(nodeId: Node)
    | NotATrigger(nodeId: Node)
    | LoopsBack(nodeId: Node)
    | TooManyNext(nodeId: Node)
    | BadArms(nodeId: Node, yes: nat, no: nat)
    | NoCondition(nodeId: Node)
    | Unreachable(nodeId: Node)
    | NoExecutor(nodeId: Node)
    | NoRecipient(nodeId: Node)
    | NoBody(nodeId: Node)
    | NoTemplate(nodeId: Node)
    | NoUrl(nodeId: Node)

  function NodeOf(p: Problem): Option<Node> {
    match p
    case EmptyFlow => None
    case StartsNowhere(_) => None
    case EndsNowhere(_) => None
    case NoBeginning => None
    case NotConnected(n) => Some(n)
    case NotATrigger(n) => Some(n)
    case LoopsBack(n) => Some(n)
    case TooManyNext(n) => Some(n)
    case BadArms(n, _, _) => Some(n)
    case NoCondition(n) => Some(n)
    case Unreachable(n) => Some(n)
    case NoExecutor(n) => Some(n)
    case NoRecipient(n) => Some(n)
    case NoBody(n) => Some(n)
    case NoTemplate(n) => Some(n)
    case NoUrl(n) => Some(n)
  }

  type Compilation = Result<EngineTypes.FlowDefinition, seq<Problem>>

  const EXECUTORS: set<string> := {"trigger", "http", "transform", "email", "branch", "ai"}

  function Upper(s: string): string {
    seq(|s|, i requires 0 <= i < |s| => if 'a' <= s[i] <= 'z' then s[i] - 'a' + 'A' else s[i])
  }

  /** Only a GET or HEAD is assumed repeatable. */
  function IsIdempotent(n: CanvasNode): bool {
    var verb := Upper(if Absent(n, "method") then "GET" else DataText(n, "method"));
    n.kind == "http" && (verb == "GET" || verb == "HEAD")
  }

  function OutEdges(edges: seq<CanvasEdge>, id: Node): (r: seq<CanvasEdge>)
    ensures forall e :: e in r <==> e in edges && e.source == id
  {
    if edges == [] then []
    else (if edges[0].source == id then [edges[0]] else []) + OutEdges(edges[1..], id)
  }

  predicate IsArm(e: CanvasEdge, handle: string) {
    e.sourceHandle == Some(handle)
  }

  function ArmCount(edges: seq<CanvasEdge>, handle: string): nat {
    if edges == [] then 0 else (if IsArm(edges[0], handle) then 1 else 0) + ArmCount(edges[1..], handle)
  }

  // ---- the per-node checks, as lists of problems ----

  function ShapeProblems(edges: seq<CanvasEdge>, n: CanvasNode): seq<Problem> {
    var out := OutEdges(edges, n.id);
    if n.kind != "branch" then
      if |out| > 1 then [TooManyNext(n.id)] else []
    else
      var yes, no := ArmCount(out, "yes"), ArmCount(out, "no");
      (if yes != 1 || no != 1 then [BadArms(n.id, yes, no)] else [])
      + (if Texts.Trim(DataText(n, "condition")) == "" then [NoCondition(n.id)] else [])
  }

  function TemplateText(n: CanvasNode): string {
    if !Absent(n, "template") then DataText(n, "template") else DataText(n, "expression")
  }

  function ConfigProblems(n: CanvasNode): seq<Problem> {
    if n.kind !in EXECUTORS then [NoExecutor(n.id)]
    else
      (if n.kind == "email" && DataText(n, "to") == "" then [NoRecipient(n.id)] else [])
      + (if n.kind == "email" && Texts.Trim(DataText(n, "body")) == "" then [NoBody(n.id)] else [])
      + (if n.kind == "transform" && Texts.Trim(TemplateText(n)) == "" then [NoTemplate(n.id)] else [])
      + (if n.kind == "http" && DataText(n, "url") == "" then [NoUrl(n.id)] else [])
  }

  // ---- what is wrong with a drawing, problem by problem ----

  /** The places of the edges that leave a node. */
  function Leaving(edges: seq<CanvasEdge>, id: Node): set<nat> {
    set i: nat | i < |edges| && edges[i].source == id
  }

  function LeavingBy(edges: seq<CanvasEdge>, id: Node, handle: string): set<nat> {
    set i: nat | i < |edges| && edges[i].source == id && edges[i].sourceHandle == Some(handle)
  }

  predicate BlankText(s: string) {
    forall i :: 0 <= i < |s| ==> Texts.IsSpace(s[i])
  }

  predicate TemplateBlank(n: CanvasNode) {
    if "template" in n.data && n.data["template"] != Null then BlankText(TextOf(n.data["template"]))
    else BlankText(DataText(n, "expression"))
  }

  /** The problem names this step, and the step has it. */
  predicate NodeDefect(edges: seq<CanvasEdge>, n: CanvasNode, p: Problem) {
    match p
    case TooManyNext(id) => id == n.id && n.kind != "branch" && |Leaving(edges, id)| > 1
    case BadArms(id, yes, no) =>
      && id == n.id && n.kind == "branch" && (yes != 1 || no != 1)
      && yes == |LeavingBy(edges, id, "yes")| && no == |LeavingBy(edges, id, "no")|
    case NoCondition(id) => id == n.id && n.kind == "branch" && BlankText(DataText(n, "condition"))
    case NoExecutor(id) => id == n.id && n.kind !in {"trigger", "http", "transform", "email", "branch", "ai"}
    case NoRecipient(id) => id == n.id && n.kind == "email" && DataText(n, "to") == ""
    case NoBody(id) => id == n.id && n.kind == "email" && BlankText(DataText(n, "body"))
    case NoTemplate(id) => id == n.id && n.kind == "transform" && TemplateBlank(n)
    case NoUrl(id) => id == n.id && n.kind == "http" && DataText(n, "url") == ""
    case _ => false
  }

  /** An edge one of whose ends is no step of the drawing. */
  predicate LooseEnd(g: Graph, p: Problem) {
    match p
    case StartsNowhere(id) => exists e :: e in g.edges && e.id == id && forall n :: n in g.nodes ==> n.id != e.source
    case EndsNowhere(id) => exists e :: e in g.edges && e.id == id && forall n :: n in g.nodes ==> n.id != e.target
    case _ => false
  }

  /** What is wrong with a drawing that begins somewhere and does not loop. */
  ghost predicate FlowDefect(g: Graph, p: Problem)
    requires EntryPoints(g) != []
  {
    var entries, es := EntryPoints(g), Wires(g.edges);
    match p
    case NotConnected(id) => exists i :: 1 <= i < |entries| && entries[i].id == id
    case NotATrigger(id) => id == entries[0].id && entries[0].kind != "trigger"
    case Unreachable(id) =>
      && (exists n :: n in g.nodes && n.id == id) && (exists e :: e in g.edges && e.target == id)
      && !Reaches(es, entries[0].id, id)
    case _ => exists n :: n in g.nodes && Reaches(es, entries[0].id, n.id) && NodeDefect(g.edges, n, p)
  }

  /** The node can be compiled: neither its edges nor its config have a defect. */
  predicate Fit(edges: seq<CanvasEdge>, n: CanvasNode) {
    && (if n.kind == "branch" then
          && |LeavingBy(edges, n.id, "yes")| == 1 && |LeavingBy(edges, n.id, "no")| == 1
          && !BlankText(DataText(n, "condition"))
        else |Leaving(edges, n.id)| <= 1)
    && n.kind in {"trigger", "http", "transform", "email", "branch", "ai"}
    && (n.kind == "email" ==> DataText(n, "to") != "" && !BlankText(DataText(n, "body")))
    && (n.kind == "transform" ==> !TemplateBlank(n))
    && (n.kind == "http" ==> DataText(n, "url") != "")
  }

  // ---- what the compiler accepts, stated without running it ----

  ghost predicate CycleBelow(g: Graph, entry: Node) {
    exists v :: Reaches(Wires(g.edges), entry, v) && ReachesByArrow(Wires(g.edges), v, v)
  }

  ghost predicate Accepted(g: Graph) {
    && g.nodes != []
    && (forall e :: e in g.edges ==> !Dangling(g, e))
    && |EntryPoints(g)| == 1
    && var entry := EntryPoints(g)[0];
    && entry.kind == "trigger"
    && !CycleBelow(g, entry.id)
    && (forall n :: n in g.nodes ==> Reaches(Wires(g.edges), entry.id, n.id))
    && (forall n :: n in g.nodes ==> Fit(g.edges, n))
  }

  // ---- compiled output ----

  function ToFlowNode(n: CanvasNode): EngineTypes.FlowNode {
    EngineTypes.FlowNode(n.id, n.kind, IsIdempotent(n), None)
  }

  function ArmOf(e: CanvasEdge): Option<Branching.Arm> {
    if IsArm(e, "yes") then Some(Branching.YesArm)
    else if IsArm(e, "no") then Some(Branching.NoArm)
    else None
  }

  function ToFlowEdge(e: CanvasEdge): Branching.FlowEdge {
    Branching.FlowEdge(e.source, e.target, ArmOf(e))
  }

  function FlowNodes(chain: seq<CanvasNode>): (r: seq<EngineTypes.FlowNode>)
    ensures |r| == |chain| && forall i :: 0 <= i < |chain| ==> r[i] == ToFlowNode(chain[i])
  {
    seq(|chain|, i requires 0 <= i < |chain| => ToFlowNode(chain[i]))
  }

  function FlowEdges(edges: seq<CanvasEdge>, included: set<Node>): seq<Branching.FlowEdge> {
    if edges == [] then []
    else (if edges[0].source in included && edges[0].target in included then [ToFlowEdge(edges[0])] else [])
         + FlowEdges(edges[1..], included)
  }

  // ---- what a compiled step and a compiled edge say of the drawing, without compiling ----

  /** The word in any letter case. */
  predicate Spelt(t: string, word: string) {
    |t| == |word| && forall i :: 0 <= i < |t| ==> Texts.LowerChar(t[i]) == word[i]
  }

  /** A request of a kind that may be sent again; without a method it is a GET. */
  predicate Rereads(n: CanvasNode) {
    n.kind == "http"
    && (Absent(n, "method") || Spelt(DataText(n, "method"), "get") || Spelt(DataText(n, "method"), "head"))
  }

  predicate NodeDrawn(n: CanvasNode, f: EngineTypes.FlowNode) {
    f.id == n.id && f.kind == n.kind && f.maxAttempts.None? && (f.idempotent <==> Rereads(n))
  }

  /** The same two ends, and the arm the drawn handle names. */
  predicate EdgeDrawn(e: CanvasEdge, f: Branching.FlowEdge) {
    && f.src == e.source && f.dst == e.target
    && (e.sourceHandle == Some("yes") ==> f.arm == Some(Branching.YesArm))
    && (e.sourceHandle == Some("no") ==> f.arm == Some(Branching.NoArm))
    && (e.sourceHandle != Some("yes") && e.sourceHandle != Some("no") ==> f.arm.None?)
  }

  predicate EdgesDrawn(edges: seq<CanvasEdge>, flowEdges: seq<Branching.FlowEdge>) {
    |flowEdges| == |edges| && forall i :: 0 <= i < |edges| ==> EdgeDrawn(edges[i], flowEdges[i])
  }

  lemma SpeltUpper(t: string, word: string, upper: string)
    requires |word| == |upper|
    requires forall i :: 0 <= i < |word| ==> 'a' <= word[i] <= 'z' && upper[i] == word[i] - 'a' + 'A'
    ensures Upper(t) == upper <==> Spelt(t, word)
  {
    if Upper(t) == upper {
      forall i | 0 <= i < |t|
        ensures Texts.LowerChar(t[i]) == word[i]
      {
        assert Upper(t)[i] == upper[i];
      }
    }
    if Spelt(t, word) {
      forall i | 0 <= i < |t|
        ensures Upper(t)[i] == upper[i]
      {
        assert Texts.LowerChar(t[i]) == word[i];
      }
    }
  }

  lemma CompiledNodeDrawn(n: CanvasNode)
    ensures NodeDrawn(n, ToFlowNode(n))
  {
    SpeltUpper(DataText(n, "method"), "get", "GET");
    SpeltUpper(DataText(n, "method"), "head", "HEAD");
    assert Upper("GET") == "GET";
    hide Upper, Spelt, DataText;
  }

  lemma CompiledEdgeDrawn(e: CanvasEdge)
    ensures EdgeDrawn(e, ToFlowEdge(e))
    ensures forall f :: EdgeDrawn(e, f) ==> f == ToFlowEdge(e)
  {
  }

  datatype CompileOptions = CompileOptions(flowId: string, versionId: string)
}
