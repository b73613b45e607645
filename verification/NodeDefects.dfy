// The compiler's checks of one step, and what it takes to pass them.
module NodeDefects {
  import opened Options
  import opened Digraph
  import opened Canvas
  import opened Compiler
  import opened CompilerWalk
  import Texts
  import Comparisons

  lemma LeavingSnoc(front: seq<CanvasEdge>, e: CanvasEdge, id: Node)
    ensures Leaving(front + [e], id) == Leaving(front, id) + if e.source == id then {|front|} else {}
    ensures |front| !in Leaving(front, id)
  {
  }

  lemma {:induction false} LeavingCounted(edges: seq<CanvasEdge>, id: Node)
    ensures |OutEdges(edges, id)| == |Leaving(edges, id)|
  {
    if edges == [] {
      assert Leaving(edges, id) == {};
    } else {
      hide OutEdges, Leaving;
      var n := |edges| - 1;
      assert edges == edges[..n] + [edges[n]];
      LeavingCounted(edges[..n], id);
      OutEdgesSnoc(edges[..n], edges[n], id);
      LeavingSnoc(edges[..n], edges[n], id);
    }
  }

  lemma {:induction false} ArmCountSnoc(edges: seq<CanvasEdge>, e: CanvasEdge, handle: string)
    ensures ArmCount(edges + [e], handle) == ArmCount(edges, handle) + if IsArm(e, handle) then 1 else 0
  {
    if edges == [] {
      assert edges + [e] == [e] && [e][1..] == [];
    } else {
      assert (edges + [e])[1..] == edges[1..] + [e];
      ArmCountSnoc(edges[1..], e, handle);
    }
  }

  lemma LeavingBySnoc(front: seq<CanvasEdge>, e: CanvasEdge, id: Node, handle: string)
    ensures LeavingBy(front + [e], id, handle)
         == LeavingBy(front, id, handle) + if e.source == id && IsArm(e, handle) then {|front|} else {}
    ensures |front| !in LeavingBy(front, id, handle)
  {
  }

  lemma {:induction false} ArmsCounted(edges: seq<CanvasEdge>, id: Node, handle: string)
    ensures ArmCount(OutEdges(edges, id), handle) == |LeavingBy(edges, id, handle)|
  {
    if edges == [] {
      assert LeavingBy(edges, id, handle) == {};
    } else {
      hide OutEdges, LeavingBy, ArmCount, IsArm;
      var n := |edges| - 1;
      assert edges == edges[..n] + [edges[n]];
      ArmsCounted(edges[..n], id, handle);
      OutEdgesSnoc(edges[..n], edges[n], id);
      LeavingBySnoc(edges[..n], edges[n], id, handle);
      if edges[n].source == id {
        ArmCountSnoc(OutEdges(edges[..n], id), edges[n], handle);
      } else {
        assert OutEdges(edges[..n], id) + [] == OutEdges(edges[..n], id);
      }
    }
  }

  lemma TrimmedBlank(s: string)
    ensures Texts.Trim(s) == "" <==> BlankText(s)
  {
    Comparisons.TrimBlank(s);
    hide Texts.Trim;
  }

  /** Every blank text is no setting, and so is a list with nothing in it. */
  lemma UnsetExactly(n: CanvasNode, field: string)
    ensures DataText(n, field) == "" <==> field in n.data ==> Unset(n.data[field])
  {
    if field in n.data {
      UnsetText(n.data[field]);
    }
  }

  predicate Unset(v: Value) {
    match v
    case Text(t, _) => t == ""
    case Scalar(t) => t == ""
    case Null => true
    case List(items) => items == [] || (|items| == 1 && Unset(items[0]))
    case Object(_) => false
  }

  lemma JoinedEmpty(texts: seq<string>)
    ensures Texts.Join(texts, ",") == "" <==> texts == [] || texts == [""]
  {
    assert |texts| > 1 ==> Texts.Join(texts, ",")[|texts[0]|] == ',';
  }

  lemma OneText(items: seq<Value>)
    requires items != []
    ensures TextsOf(items) == [""] <==> |items| == 1 && TextOf(items[0]) == ""
    ensures TextsOf(items) != []
  {
    var texts := TextsOf(items);
    assert texts[0] == TextOf(items[0]) && texts[1..] == TextsOf(items[1..]);
    hide TextOf;
    assert |items| > 1 ==> TextsOf(items[1..]) != [];
  }

  lemma {:induction false} UnsetText(v: Value)
    ensures TextOf(v) == "" <==> Unset(v)
  {
    if v.List? && v.items != [] {
      UnsetText(v.items[0]);
      OneText(v.items);
      JoinedEmpty(TextsOf(v.items));
    }
  }

  /** The checks of a step's edges report exactly its defects of that kind. */
  lemma ShapeReported(edges: seq<CanvasEdge>, n: CanvasNode, p: Problem)
    ensures p in ShapeProblems(edges, n) <==>
      NodeDefect(edges, n, p) && (p.TooManyNext? || p.BadArms? || p.NoCondition?)
  {
    hide OutEdges, ArmCount, Leaving, LeavingBy, Texts.Trim, BlankText, TemplateBlank, DataText;
    LeavingCounted(edges, n.id);
    ArmsCounted(edges, n.id, "yes");
    ArmsCounted(edges, n.id, "no");
    TrimmedBlank(DataText(n, "condition"));
  }

  lemma ConfigReported(edges: seq<CanvasEdge>, n: CanvasNode, p: Problem)
    ensures p in ConfigProblems(n) <==>
      && NodeDefect(edges, n, p)
      && (p.NoExecutor? || p.NoRecipient? || p.NoBody? || p.NoTemplate? || p.NoUrl?)
  {
    hide Leaving, LeavingBy, Texts.Trim, BlankText, TemplateBlank, TemplateText, DataText;
    TrimmedBlank(DataText(n, "body"));
    TemplateIsBlank(n);
    var parts := ConfigParts(n);
    assert n.kind in EXECUTORS ==> ConfigProblems(n) == parts[0] + parts[1] + parts[2] + parts[3];
  }

  lemma TemplateIsBlank(n: CanvasNode)
    ensures Texts.Trim(TemplateText(n)) == "" <==> TemplateBlank(n)
  {
    TrimmedBlank(TemplateText(n));
    hide Texts.Trim, BlankText;
  }

  function ConfigParts(n: CanvasNode): seq<seq<Problem>> {
    [if n.kind == "email" && DataText(n, "to") == "" then [NoRecipient(n.id)] else [],
     if n.kind == "email" && Texts.Trim(DataText(n, "body")) == "" then [NoBody(n.id)] else [],
     if n.kind == "transform" && Texts.Trim(TemplateText(n)) == "" then [NoTemplate(n.id)] else [],
     if n.kind == "http" && DataText(n, "url") == "" then [NoUrl(n.id)] else []]
  }

  /** The checks pass exactly if the step is fit. */
  lemma FitExactly(edges: seq<CanvasEdge>, n: CanvasNode)
    ensures ShapeProblems(edges, n) == [] && ConfigProblems(n) == [] <==> Fit(edges, n)
  {
    FitShape(edges, n);
    FitConfig(n);
    hide ShapeProblems, ConfigProblems, Leaving, LeavingBy, BlankText, TemplateBlank, DataText;
  }

  lemma FitShape(edges: seq<CanvasEdge>, n: CanvasNode)
    ensures ShapeProblems(edges, n) == [] <==>
      if n.kind == "branch" then
        && |LeavingBy(edges, n.id, "yes")| == 1 && |LeavingBy(edges, n.id, "no")| == 1
        && !BlankText(DataText(n, "condition"))
      else |Leaving(edges, n.id)| <= 1
  {
    hide OutEdges, ArmCount, Leaving, LeavingBy, Texts.Trim, BlankText, DataText;
    LeavingCounted(edges, n.id);
    ArmsCounted(edges, n.id, "yes");
    ArmsCounted(edges, n.id, "no");
    TrimmedBlank(DataText(n, "condition"));
  }

  lemma FitConfig(n: CanvasNode)
    ensures ConfigProblems(n) == [] <==>
      && n.kind in {"trigger", "http", "transform", "email", "branch", "ai"}
      && (n.kind == "email" ==> DataText(n, "to") != "" && !BlankText(DataText(n, "body")))
      && (n.kind == "transform" ==> !TemplateBlank(n))
      && (n.kind == "http" ==> DataText(n, "url") != "")
  {
    hide Texts.Trim, BlankText, TemplateBlank, TemplateText, DataText;
    TrimmedBlank(DataText(n, "body"));
    TemplateIsBlank(n);
    var parts := ConfigParts(n);
    assert n.kind in EXECUTORS ==> ConfigProblems(n) == parts[0] + parts[1] + parts[2] + parts[3];
  }
}
