// The condition language: comparisons joined by "and" and "or", quote-aware.
module Conditions {
  import opened Options
  import opened Texts
  import opened Quoting

  datatype Reason = EmptyCondition | TrailingText(op: string) | EmptySide(op: string) | NotNumbers(op: string)

  /** `Diverges`: the evaluator calls itself on the string it was given, and never answers. */
  datatype ConditionResult = Value(value: bool) | Unreadable(reason: Reason) | Diverges

  /** How a text reads as a number, if it does. */
  type Numbers = string -> Option<real>

  const OR := " or "
  const AND := " and "

  const SYMBOLS: seq<string> := [">=", "<=", "!=", "=", ">", "<"]

  /** Longest phrase first: a negation is tried before what it negates. */
  const WORDS: seq<string> := [
    "does not start with", "does not contain", "does not end with", "does not exist", "is not in",
    "starts with", "ends with", "contains", "is in", "exists"]

  // ---- operands ----

  function Unquote(raw: string): string {
    var t := Trim(raw);
    if |t| >= 2 && IsQuote(t[0]) && t[|t| - 1] == t[0] then t[1..|t| - 1] else t
  }

  function Fold(raw: string): string {
    Lower(Unquote(raw))
  }

  function FoldAll(parts: seq<string>): seq<string> {
    if parts == [] then []
    else
      var f := Fold(parts[0]);
      (if f != "" then [f] else []) + FoldAll(parts[1..])
  }

  function SplitList(raw: string): seq<string> {
    FoldAll(Split(raw, ","))
  }

  predicate Includes(s: string, t: string) {
    FirstAt(s, t, 0).Some?
  }

  predicate EndsWith(s: string, t: string) {
    |t| <= |s| && s[|s| - |t|..] == t
  }

  /** A reference nothing resolved: braces around text without a closing brace. */
  predicate Unresolved(t: string) {
    var x := Trim(t);
    |x| >= 4 && x[..2] == "{{" && x[|x| - 2..] == "}}" && '}' !in x[2..|x| - 2]
  }

  predicate Present(raw: string) {
    var t := Unquote(raw);
    t != "" && !Unresolved(t) && t != "null" && t != "undefined"
  }

  predicate Truthy(raw: string) {
    Fold(raw) !in {"", "false", "0", "null", "undefined"}
  }

  // ---- word operators ----

  datatype WordMatch = WordMatch(op: string, at: nat)

  function Haystack(source: string): string {
    " " + Lower(Mask(source)) + " "
  }

  function FindIn(haystack: string, ops: seq<string>): Option<WordMatch> {
    if ops == [] then None
    else
      match FirstAt(haystack, " " + ops[0] + " ", 0)
      case Some(at) => Some(WordMatch(ops[0], at))
      case None => FindIn(haystack, ops[1..])
  }

  function FindWordOperator(source: string): Option<WordMatch> {
    FindIn(Haystack(source), WORDS)
  }

  function ApplyWord(op: string, left: string, right: string): bool {
    var l, r := Fold(left), Fold(right);
    if op == "contains" then Includes(l, r)
    else if op == "does not contain" then !Includes(l, r)
    else if op == "starts with" then Texts.At(l, 0, r)
    else if op == "does not start with" then !Texts.At(l, 0, r)
    else if op == "ends with" then EndsWith(l, r)
    else if op == "does not end with" then !EndsWith(l, r)
    else if op == "is in" then l in SplitList(right)
    else if op == "is not in" then l !in SplitList(right)
    else if op == "exists" then Present(left)
    else !Present(left)
  }

  predicate IsUnary(op: string) {
    op == "exists" || op == "does not exist"
  }

  // ---- one comparison ----

  datatype SymbolMatch = SymbolMatch(op: string, at: nat)

  function FindSymbol(masked: string, ops: seq<string>): (r: Option<SymbolMatch>)
    ensures r.Some? ==> Texts.At(masked, r.value.at, r.value.op) && r.value.op in ops
  {
    if ops == [] then None
    else
      match FirstAt(masked, ops[0], 0)
      case Some(at) => Some(SymbolMatch(ops[0], at))
      case None => FindSymbol(masked, ops[1..])
  }

  function Ordered(op: string, a: real, b: real): bool {
    if op == ">" then a > b else if op == "<" then a < b else if op == ">=" then a >= b else a <= b
  }

  function CompareSymbol(op: string, left: string, right: string, numbers: Numbers): ConditionResult {
    if op == "=" then Value(left == right)
    else if op == "!=" then Value(left != right)
    else if Trim(left) == "" || Trim(right) == "" then Unreadable(EmptySide(op))
    else
      var a, b := numbers(left), numbers(right);
      if a.None? || b.None? then Unreadable(NotNumbers(op)) else Value(Ordered(op, a.value, b.value))
  }

  /** s.slice(from). */
  function From(s: string, i: nat): string {
    if i <= |s| then s[i..] else ""
  }

  function Atom(source: string, numbers: Numbers): ConditionResult {
    match FindWordOperator(source)
    case Some(WordMatch(op, at)) =>
      var left := if at <= |source| then source[..at] else source;
      var right := From(source, at + |op| + 1);
      if IsUnary(op) && Trim(right) != "" then Unreadable(TrailingText(op))
      else Value(ApplyWord(op, left, right))
    case None =>
      match FindSymbol(Mask(source), SYMBOLS)
      case Some(SymbolMatch(op, at)) =>
        CompareSymbol(op, Unquote(source[..at]), Unquote(source[at + |op|..]), numbers)
      case None => Value(Truthy(source))
  }

  // ---- joining results ----

  /** In order; the first that is not a value ends it. */
  function Combine(rs: seq<ConditionResult>, any: bool): ConditionResult {
    if rs == [] then Value(!any)
    else
      match Combine(rs[..|rs| - 1], any)
      case Value(sofar) =>
        (match rs[|rs| - 1]
         case Value(v) => Value(if any then sofar || v else sofar && v)
         case other => other)
      case other => other
  }

  lemma CombineNext(rs: seq<ConditionResult>, i: nat, any: bool, sofar: bool)
    requires i < |rs| && Combine(rs[..i], any) == Value(sofar) && rs[i].Value?
    ensures Combine(rs[..i + 1], any) == Value(if any then sofar || rs[i].value else sofar && rs[i].value)
  {
    assert rs[..i + 1][..i] == rs[..i];
  }

  lemma {:induction false} CombineStops(rs: seq<ConditionResult>, i: nat, any: bool)
    requires i < |rs| && !rs[i].Value? && Combine(rs[..i], any).Value?
    ensures Combine(rs, any) == rs[i]
    decreases |rs|
  {
    var n := |rs| - 1;
    if i < n {
      assert rs[..n][..i] == rs[..i];
      CombineStops(rs[..n], i, any);
    }
  }

  // ---- the evaluator, as the source recurses ----

  /** The joiner is looked for in lower case, then split on exactly as spelt. */
  function SplitJoined(source: string, joiner: string): Option<seq<string>>
    requires joiner != ""
  {
    if |Split(Lower(source), joiner)| == 1 then None else Some(Split(source, joiner))
  }

  function Evaluate(condition: string, numbers: Numbers): ConditionResult
    decreases |condition|, 1, 0
  {
    var source := Trim(condition);
    if source == "" then Unreadable(EmptyCondition)
    else
      match SplitJoined(source, OR)
      case Some(parts) =>
        SplitShrinks(source, OR);
        if |parts| == 1 then Diverges else Combine(EvaluateAll(parts, |source|, numbers), true)
      case None =>
        match SplitJoined(source, AND)
        case Some(parts) =>
          SplitShrinks(source, AND);
          if |parts| == 1 then Diverges else Combine(EvaluateAll(parts, |source|, numbers), false)
        case None => Atom(source, numbers)
  }

  function EvaluateAll(parts: seq<string>, bound: nat, numbers: Numbers): (rs: seq<ConditionResult>)
    requires forall part :: part in parts ==> |part| < bound
    ensures |rs| == |parts| && forall i :: 0 <= i < |parts| ==> rs[i] == Evaluate(parts[i], numbers)
    decreases bound, 0, |parts|
  {
    if parts == [] then []
    else
      var n := |parts| - 1;
      assert parts == parts[..n] + [parts[n]];
      EvaluateAll(parts[..n], bound, numbers) + [Evaluate(parts[n], numbers)]
  }

  method EvaluateCondition(condition: string, numbers: Numbers) returns (r: ConditionResult)
    ensures r == Evaluate(condition, numbers)
    decreases |condition|, 1
  {
    var source := Trim(condition);
    if source == "" {
      return Unreadable(EmptyCondition);
    }
    var joiner, parts := OR, SplitJoined(source, OR);
    if parts.None? {
      joiner, parts := AND, SplitJoined(source, AND);
    }
    if parts.None? {
      return Atom(source, numbers);
    }
    SplitShrinks(source, joiner);
    if |parts.value| == 1 {
      return Diverges;
    }
    hide Split;
    r := EvaluateParts(parts.value, |source|, joiner == OR, numbers);
  }

  /** The loop over alternatives, and the one over conjuncts. */
  method EvaluateParts(parts: seq<string>, bound: nat, any: bool, numbers: Numbers) returns (r: ConditionResult)
    requires forall part :: part in parts ==> |part| < bound
    ensures r == Combine(EvaluateAll(parts, bound, numbers), any)
    decreases bound, 0
  {
    ghost var results := EvaluateAll(parts, bound, numbers);
    assert Combine(results[..0], any) == Value(!any);
    hide *;
    var value := !any;
    for i := 0 to |parts|
      invariant Value(value) == Combine(results[..i], any)
    {
      var result := EvaluateCondition(parts[i], numbers);
      if !result.Value? {
        CombineStops(results, i, any);
        return result;
      }
      CombineNext(results, i, any, value);
      if any && result.value {
        value := true;
      }
      if !any && !result.value {
        value := false;
      }
    }
    assert results[..|parts|] == results;
    r := Value(value);
  }
}
