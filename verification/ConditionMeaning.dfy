// What a condition means: the OR over its alternatives of the AND over their
// conjuncts, and exactly when the evaluator answers at all. The evaluator calls
// itself on every part, so the meaning is stated on the parts of one split each.
module ConditionMeaning {
  import opened Options
  import opened Texts
  import opened Quoting
  import opened Conditions

  // ---- the meaning, without recursion ----

  /** The joiner is there, in some letter case. */
  predicate Detected(text: string, joiner: string) {
    Occurs(Lower(text), joiner)
  }

  function ConjunctResult(part: string, numbers: Numbers): ConditionResult {
    var c := Trim(part);
    if c == "" then Unreadable(EmptyCondition)
    else if Detected(c, AND) then Diverges
    else Atom(c, numbers)
  }

  function ConjunctResults(parts: seq<string>, numbers: Numbers): (rs: seq<ConditionResult>)
    ensures |rs| == |parts| && forall i :: 0 <= i < |parts| ==> rs[i] == ConjunctResult(parts[i], numbers)
  {
    seq(|parts|, i requires 0 <= i < |parts| => ConjunctResult(parts[i], numbers))
  }

  function AlternativeResult(part: string, numbers: Numbers): ConditionResult {
    var a := Trim(part);
    if a == "" then Unreadable(EmptyCondition)
    else if Detected(a, OR) then Diverges
    else Combine(ConjunctResults(Split(a, AND), numbers), false)
  }

  function AlternativeResults(parts: seq<string>, numbers: Numbers): (rs: seq<ConditionResult>)
    ensures |rs| == |parts| && forall i :: 0 <= i < |parts| ==> rs[i] == AlternativeResult(parts[i], numbers)
  {
    seq(|parts|, i requires 0 <= i < |parts| => AlternativeResult(parts[i], numbers))
  }

  function Meaning(condition: string, numbers: Numbers): ConditionResult {
    var source := Trim(condition);
    if source == "" then Unreadable(EmptyCondition)
    else Combine(AlternativeResults(Split(source, OR), numbers), true)
  }

  // ---- facts about pieces ----

  lemma JoinersStructural()
    ensures Structural(OR) && Structural(AND) && OR != "" && AND != ""
  {
    assert OR[1] == 'o' && AND[1] == 'a';
  }

  lemma {:induction false} TrimEndTwice(s: string)
    ensures TrimEnd(TrimEnd(s)) == TrimEnd(s)
  {
    if s != "" && IsSpace(s[|s| - 1]) {
      TrimEndTwice(s[..|s| - 1]);
    }
  }

  lemma TrimTwice(s: string)
    ensures Trim(Trim(s)) == Trim(s)
  {
    var t := TrimStart(s);
    TrimEndTwice(t);
    var e := TrimEnd(t);
    if e != "" {
      assert e[0] == t[0];
    }
  }

  /** A piece of a split, trimmed, is a clean slice of the source without the separator. */
  lemma PieceFacts(source: string, sep: string, part: string) returns (start: nat)
    requires Structural(sep) && part in Split(source, sep)
    ensures CleanSlice(source, start, Trim(part)) && !Occurs(Trim(part), sep)
  {
    hide *;
    var a := SplitParts(source, sep, part);
    var b := TrimIsClean(part);
    SliceTrans(source, a, part, b, Trim(part));
    NotInSlice(part, b, Trim(part), sep);
    start := a + b;
  }

  lemma NotInSlice(s: string, start: nat, part: string, t: string)
    requires CleanSlice(s, start, part) && !Occurs(s, t)
    ensures !Occurs(part, t)
  {
    hide Mask;
    hide OpenAt;
    var first := FirstAt(Mask(part), t, 0);
    if first.Some? {
      OccursInSource(s, start, part, first.value, t);
    }
  }

  lemma LowerSlice(s: string, start: nat, part: string)
    requires CleanSlice(s, start, part)
    ensures CleanSlice(Lower(s), start, Lower(part))
  {
    LowerOpen(s, start);
    var w := Lower(s)[start..start + |part|];
    forall i | 0 <= i < |part|
      ensures w[i] == Lower(part)[i]
    {
      assert part[i] == s[start + i];
    }
    assert w == Lower(part);
  }

  /** What is not detected is not detected in any clean slice. */
  lemma NotDetectedInSlice(s: string, start: nat, part: string, joiner: string)
    requires CleanSlice(s, start, part) && !Detected(s, joiner)
    ensures !Detected(part, joiner)
  {
    LowerSlice(s, start, part);
    NotInSlice(Lower(s), start, Lower(part), joiner);
  }

  lemma DetectedMeans(source: string, joiner: string)
    requires joiner != ""
    ensures SplitJoined(source, joiner).Some? <==> Detected(source, joiner)
    ensures SplitJoined(source, joiner).Some? ==> SplitJoined(source, joiner).value == Split(source, joiner)
    ensures !Occurs(source, joiner) ==> Split(source, joiner) == [source]
  {
    SplitShrinks(Lower(source), joiner);
  }

  // ---- the recursion computes the meaning ----

  /** A trimmed piece with no exact joiner of either kind. */
  lemma EvaluateConjunct(part: string, numbers: Numbers)
    requires !Detected(Trim(part), OR) && !Occurs(Trim(part), AND)
    ensures Evaluate(part, numbers) == ConjunctResult(part, numbers)
  {
    DetectedMeans(Trim(part), OR);
    DetectedMeans(Trim(part), AND);
    hide Split;
    hide Occurs;
    hide Detected;
    hide Atom;
    hide SplitJoined;
    hide Trim;
  }

  lemma SingleConjunct(a: string, numbers: Numbers)
    requires a != "" && Trim(a) == a && !Detected(a, AND)
    ensures Combine(ConjunctResults([a], numbers), false) == Atom(a, numbers)
  {
    assert ConjunctResults([a], numbers) == [Atom(a, numbers)];
    SingleResult(Atom(a, numbers), false);
    hide *;
  }

  lemma SingleResult(r: ConditionResult, any: bool)
    ensures Combine([r], any) == r
  {
    assert [r][..0] == [];
  }

  lemma ConjunctsAgree(a: string, numbers: Numbers)
    requires Trim(a) == a && !Detected(a, OR)
    requires forall part :: part in Split(a, AND) ==> |part| < |a|
    ensures EvaluateAll(Split(a, AND), |a|, numbers) == ConjunctResults(Split(a, AND), numbers)
  {
    hide *;
    JoinersStructural();
    var parts := Split(a, AND);
    forall i | 0 <= i < |parts|
      ensures Evaluate(parts[i], numbers) == ConjunctResult(parts[i], numbers)
    {
      var start := PieceFacts(a, AND, parts[i]);
      NotDetectedInSlice(a, start, Trim(parts[i]), OR);
      EvaluateConjunct(parts[i], numbers);
    }
  }

  /** The conjuncts of a piece, whichever way its "and" is spelt. */
  lemma ConjunctsMean(a: string, numbers: Numbers)
    requires a != "" && Trim(a) == a && !Detected(a, OR)
    ensures Detected(a, AND) && |Split(a, AND)| > 1 ==>
      (&& (forall part :: part in Split(a, AND) ==> |part| < |a|)
       && Combine(ConjunctResults(Split(a, AND), numbers), false)
         == Combine(EvaluateAll(Split(a, AND), |a|, numbers), false))
    ensures Detected(a, AND) && |Split(a, AND)| == 1 ==>
      Combine(ConjunctResults(Split(a, AND), numbers), false) == Diverges
    ensures !Detected(a, AND) ==> Combine(ConjunctResults(Split(a, AND), numbers), false) == Atom(a, numbers)
  {
    hide *;
    JoinersStructural();
    LowerJoiner();
    SplitShrinks(a, AND);
    DetectedMeans(a, AND);
    if !Detected(a, AND) {
      NotDetectedNotThere(a, AND);
      SingleConjunct(a, numbers);
    } else if Occurs(a, AND) {
      ConjunctsAgree(a, numbers);
    } else {
      StuckConjunct(a, numbers);
    }
  }

  /** A trimmed piece with no exact "or". */
  lemma EvaluateAlternative(part: string, numbers: Numbers)
    requires !Occurs(Trim(part), OR)
    ensures Evaluate(part, numbers) == AlternativeResult(part, numbers)
  {
    var a := Trim(part);
    hide Split;
    hide Occurs;
    hide Detected;
    hide Atom;
    hide SplitJoined;
    hide Trim;
    hide ConjunctResults;
    hide EvaluateAll;
    hide Combine;
    TrimTwice(part);
    DetectedMeans(a, OR);
    DetectedMeans(a, AND);
    if a != "" && !Detected(a, OR) {
      ConjunctsMean(a, numbers);
    }
  }

  /** Detected in lower case, not there as spelt: the piece is handed to the evaluator unchanged. */
  lemma StuckConjunct(a: string, numbers: Numbers)
    requires a != "" && Trim(a) == a && Detected(a, AND) && !Occurs(a, AND)
    ensures Combine(ConjunctResults(Split(a, AND), numbers), false) == Diverges
  {
    hide *;
    JoinersStructural();
    DetectedMeans(a, AND);
    StuckResult(a, numbers);
    assert ConjunctResults([a], numbers) == [Diverges];
    SingleResult(Diverges, false);
  }

  lemma StuckResult(a: string, numbers: Numbers)
    requires a != "" && Trim(a) == a && Detected(a, AND)
    ensures ConjunctResult(a, numbers) == Diverges
  {
    hide Detected;
    hide Trim;
  }

  lemma NotDetectedNotThere(a: string, joiner: string)
    requires Structural(joiner) && !Detected(a, joiner) && Lower(joiner) == joiner
    ensures !Occurs(a, joiner)
  {
    var first := FirstAt(Mask(a), joiner, 0);
    if first.Some? {
      LowerFinds(a, first.value, joiner);
    }
  }

  /** A lower-case text found on the mask is found on the lower-cased mask. */
  lemma LowerFinds(s: string, i: nat, t: string)
    requires Texts.At(Mask(s), i, t) && Lower(t) == t
    ensures Texts.At(Mask(Lower(s)), i, t)
  {
    LowerMasks(s);
    hide Mask;
    AtMeans(Mask(s), i, t);
    AtMeans(Lower(Mask(s)), i, t);
    forall j | 0 <= j < |t|
      ensures Lower(Mask(s))[i + j] == t[j]
    {
      assert Lower(t)[j] == t[j];
    }
    hide Texts.At;
  }

  lemma AlternativesAgree(source: string, numbers: Numbers)
    requires forall part :: part in Split(source, OR) ==> |part| < |source|
    ensures EvaluateAll(Split(source, OR), |source|, numbers) == AlternativeResults(Split(source, OR), numbers)
  {
    hide *;
    JoinersStructural();
    var parts := Split(source, OR);
    forall i | 0 <= i < |parts|
      ensures Evaluate(parts[i], numbers) == AlternativeResult(parts[i], numbers)
    {
      var start := PieceFacts(source, OR, parts[i]);
      EvaluateAlternative(parts[i], numbers);
    }
  }

  lemma SingleAlternative(source: string, numbers: Numbers)
    requires Trim(source) == source
    ensures Combine(AlternativeResults([source], numbers), true) == AlternativeResult(source, numbers)
  {
    assert AlternativeResults([source], numbers) == [AlternativeResult(source, numbers)];
    SingleResult(AlternativeResult(source, numbers), true);
    hide *;
  }

  /** The recursive evaluator gives every condition exactly its meaning. */
  lemma EvaluateMeans(condition: string, numbers: Numbers)
    ensures Evaluate(condition, numbers) == Meaning(condition, numbers)
  {
    var source := Trim(condition);
    TrimTwice(condition);
    if source != "" {
      SplitShrinks(source, OR);
      if Occurs(source, OR) {
        LowerJoiner();
        OccursDetected(source, OR);
        DetectedMeans(source, OR);
        AlternativesAgree(source, numbers);
        hide *;
        EvaluateSplit(condition, numbers);
      } else {
        DetectedMeans(source, OR);
        SingleAlternative(source, numbers);
        EvaluateAlternative(condition, numbers);
        hide *;
        OneAlternative(condition, numbers);
      }
    }
  }

  lemma LowerJoiner()
    ensures Lower(OR) == OR && Lower(AND) == AND
  {
  }

  lemma OccursDetected(s: string, joiner: string)
    requires Occurs(s, joiner) && Lower(joiner) == joiner
    ensures Detected(s, joiner)
  {
    var first := FirstAt(Mask(s), joiner, 0);
    LowerFinds(s, first.value, joiner);
  }

  lemma EvaluateSplit(condition: string, numbers: Numbers)
    requires var source := Trim(condition);
      && source != "" && Detected(source, OR) && |Split(source, OR)| > 1
      && SplitJoined(source, OR) == Some(Split(source, OR))
      && (forall part :: part in Split(source, OR) ==> |part| < |source|)
      && EvaluateAll(Split(source, OR), |source|, numbers) == AlternativeResults(Split(source, OR), numbers)
    ensures Evaluate(condition, numbers) == Meaning(condition, numbers)
  {
    hide Split;
    hide Detected;
    hide SplitJoined;
    hide Trim;
    hide AlternativeResults;
    hide Combine;
  }

  lemma OneAlternative(condition: string, numbers: Numbers)
    requires Trim(condition) != "" && Split(Trim(condition), OR) == [Trim(condition)]
    requires Combine(AlternativeResults([Trim(condition)], numbers), true)
      == AlternativeResult(Trim(condition), numbers)
    requires Evaluate(condition, numbers) == AlternativeResult(condition, numbers)
    requires Trim(Trim(condition)) == Trim(condition)
    ensures Evaluate(condition, numbers) == Meaning(condition, numbers)
  {
    hide Evaluate;
    hide Trim;
    hide Combine;
    hide Split;
  }

  // ---- when it answers ----

  lemma {:induction false} CombineDiverges(rs: seq<ConditionResult>, any: bool)
    ensures Combine(rs, any) == Diverges <==>
      exists k :: 0 <= k < |rs| && rs[k] == Diverges && forall j :: 0 <= j < k ==> rs[j].Value?
    ensures Combine(rs, any).Value? <==> forall k :: 0 <= k < |rs| ==> rs[k].Value?
    ensures Combine(rs, any).Value? ==>
      (Combine(rs, any).value <==>
        if any then exists k :: 0 <= k < |rs| && rs[k] == Value(true)
        else forall k :: 0 <= k < |rs| ==> rs[k] == Value(true))
  {
    if rs != [] {
      var n := |rs| - 1;
      CombineDiverges(rs[..n], any);
      assert forall k :: 0 <= k < n ==> rs[..n][k] == rs[k];
    }
  }

  /** An alternative in which "or" stays in upper or mixed case, or a conjunct in which "and" does. */
  predicate StuckIn(part: string, numbers: Numbers) {
    var a := Trim(part);
    a != ""
    && (Detected(a, OR)
        || exists k :: 0 <= k < |Split(a, AND)| && Trim(Split(a, AND)[k]) != "" && Detected(Trim(Split(a, AND)[k]), AND)
             && forall j :: 0 <= j < k ==> ConjunctResult(Split(a, AND)[j], numbers).Value?)
  }

  lemma ConjunctDiverges(part: string, numbers: Numbers)
    ensures ConjunctResult(part, numbers) == Diverges <==> Trim(part) != "" && Detected(Trim(part), AND)
  {
    hide Trim;
    hide Detected;
    AtomAnswers(Trim(part), numbers);
    hide Atom;
  }

  lemma AtomAnswers(source: string, numbers: Numbers)
    ensures !Atom(source, numbers).Diverges?
  {
    hide FindWordOperator;
    hide FindSymbol;
    hide Mask;
    hide ApplyWord;
    hide Trim;
    hide Unquote;
    hide Truthy;
  }

  lemma AlternativeDiverges(part: string, numbers: Numbers)
    ensures AlternativeResult(part, numbers) == Diverges <==> StuckIn(part, numbers)
  {
    hide Trim;
    hide Detected;
    hide Split;
    hide Combine;
    hide ConjunctResult;
    var a := Trim(part);
    var parts := Split(a, AND);
    CombineDiverges(ConjunctResults(parts, numbers), false);
    forall k | 0 <= k < |parts|
      ensures ConjunctResult(parts[k], numbers) == Diverges <==> Trim(parts[k]) != "" && Detected(Trim(parts[k]), AND)
    {
      ConjunctDiverges(parts[k], numbers);
    }
  }

  /** Some alternative is stuck and everything before it could be read. */
  predicate StuckFirst(parts: seq<string>, numbers: Numbers) {
    exists k :: 0 <= k < |parts| && StuckIn(parts[k], numbers)
      && (forall j :: 0 <= j < k ==> AlternativeResult(parts[j], numbers).Value?)
  }

  lemma AlternativesDiverge(parts: seq<string>, numbers: Numbers)
    ensures Combine(AlternativeResults(parts, numbers), true) == Diverges <==> StuckFirst(parts, numbers)
  {
    hide StuckIn, AlternativeResult, Combine;
    CombineDiverges(AlternativeResults(parts, numbers), true);
    forall k | 0 <= k < |parts|
      ensures AlternativeResult(parts[k], numbers) == Diverges <==> StuckIn(parts[k], numbers)
    {
      AlternativeDiverges(parts[k], numbers);
    }
  }

  /**
   * The evaluator fails to answer exactly if some alternative holds a joiner
   * that is not in lower case, and everything before it could be read. What a
   * caller can check beforehand is LowerJoinersMean's condition: every joiner in
   * lower case, and then it always answers.
   */
  lemma DivergesExactly(condition: string, numbers: Numbers)
    ensures Evaluate(condition, numbers) == Diverges <==>
      Trim(condition) != "" && StuckFirst(Split(Trim(condition), OR), numbers)
  {
    EvaluateMeans(condition, numbers);
    AlternativesDiverge(Split(Trim(condition), OR), numbers);
    hide Evaluate;
    hide StuckFirst;
    hide AlternativeResults;
    hide Combine;
    hide Trim;
    hide Split;
  }

  /** Every joiner outside quotes is spelt in lower case. */
  predicate LowerJoiners(condition: string, joiner: string) {
    forall i: nat | i < |condition| ::
      Texts.At(Mask(Lower(condition)), i, joiner) ==> Texts.At(Mask(condition), i, joiner)
  }

  lemma LowerJoinersInSlice(s: string, start: nat, part: string, joiner: string)
    requires CleanSlice(s, start, part) && LowerJoiners(s, joiner) && joiner != "" && !Occurs(part, joiner)
    ensures !Detected(part, joiner)
  {
    hide *;
    LowerSlice(s, start, part);
    FoundMeans(Lower(part), joiner);
    DetectedIs(part, joiner);
    if Detected(part, joiner) {
      var i: nat :| Texts.At(Mask(Lower(part)), i, joiner);
      OccursInSource(Lower(s), start, Lower(part), i, joiner);
      AtFits(Mask(Lower(s)), start + i, joiner);
      AtFits(Mask(Lower(part)), i, joiner);
      SpeltLow(s, joiner, start + i);
      InSlice(s, start, part, i, joiner);
      FoundMeans(part, joiner);
    }
  }

  lemma DetectedIs(text: string, joiner: string)
    ensures Detected(text, joiner) <==> Occurs(Lower(text), joiner)
  {
    hide Occurs;
  }

  lemma AtFits(s: string, i: nat, t: string)
    requires Texts.At(s, i, t)
    ensures i + |t| <= |s|
  {
  }

  lemma SpeltLow(s: string, joiner: string, i: nat)
    requires LowerJoiners(s, joiner) && Texts.At(Mask(Lower(s)), i, joiner) && i + |joiner| <= |s| && joiner != ""
    ensures Texts.At(Mask(s), i, joiner)
  {
    hide Mask;
    hide Texts.At;
  }

  lemma InSlice(s: string, start: nat, part: string, i: nat, t: string)
    requires CleanSlice(s, start, part) && Texts.At(Mask(s), start + i, t) && i + |t| <= |part|
    ensures Texts.At(Mask(part), i, t)
  {
    MaskOfSlice(s, start, part);
    hide Mask;
    hide OpenAt;
    AtMeans(Mask(part), i, t);
    AtMeans(Mask(s), start + i, t);
    hide Texts.At;
    forall j | 0 <= j < |t|
      ensures Mask(part)[i + j] == t[j]
    {
      assert Mask(s)[start + i + j] == t[j];
    }
  }

  function AtomOf(part: string, numbers: Numbers): ConditionResult {
    if Trim(part) == "" then Unreadable(EmptyCondition) else Atom(Trim(part), numbers)
  }

  /** The comparisons of one alternative. */
  function AtomResults(alternative: string, numbers: Numbers): (rs: seq<ConditionResult>)
    ensures |rs| == |Split(Trim(alternative), " and ")|
    ensures forall i :: 0 <= i < |rs| ==> rs[i] == AtomOf(Split(Trim(alternative), " and ")[i], numbers)
  {
    var parts := Split(Trim(alternative), " and ");
    seq(|parts|, i requires 0 <= i < |parts| => AtomOf(parts[i], numbers))
  }

  predicate AllRead(rs: seq<ConditionResult>) {
    forall k :: 0 <= k < |rs| ==> rs[k].Value?
  }

  predicate AllTrue(rs: seq<ConditionResult>) {
    forall k :: 0 <= k < |rs| ==> rs[k] == Value(true)
  }

  lemma TrimEmpty()
    ensures Trim("") == "" && Split("", AND) == [""] && Split("", OR) == [""]
  {
    SplitShrinks("", AND);
    SplitShrinks("", OR);
  }

  lemma LowerConjuncts(a: string, numbers: Numbers)
    requires LowerJoiners(a, AND) && a != ""
    ensures forall part :: part in Split(a, AND) ==> ConjunctResult(part, numbers) == AtomOf(part, numbers)
  {
    hide Atom;
    hide LowerJoiners;
    hide Split;
    hide Detected;
    hide Trim;
    forall part | part in Split(a, AND)
      ensures ConjunctResult(part, numbers) == AtomOf(part, numbers)
    {
      NotStuck(a, AND, part);
    }
  }

  /** With lower-case joiners, no piece of a split is stuck. */
  lemma NotStuck(source: string, joiner: string, part: string)
    requires joiner in {OR, AND} && part in Split(source, joiner) && LowerJoiners(source, joiner)
    ensures !Detected(Trim(part), joiner)
  {
    JoinersStructural();
    hide *;
    var start := PieceFacts(source, joiner, part);
    LowerJoinersInSlice(source, start, Trim(part), joiner);
  }

  lemma LowerJoinersStay(s: string, start: nat, part: string, joiner: string)
    requires CleanSlice(s, start, part) && LowerJoiners(s, joiner) && joiner != ""
    ensures LowerJoiners(part, joiner)
  {
    LowerSlice(s, start, part);
    hide Mask;
    hide OpenAt;
    hide CleanSlice;
    forall i: nat | i < |part| && Texts.At(Mask(Lower(part)), i, joiner)
      ensures Texts.At(Mask(part), i, joiner)
    {
      OccursInSource(Lower(s), start, Lower(part), i, joiner);
      InSlice(s, start, part, i, joiner);
    }
  }

  lemma LowerAlternative(source: string, part: string, numbers: Numbers)
    requires part in Split(source, OR) && LowerJoiners(source, OR) && LowerJoiners(source, AND)
    ensures AlternativeResult(part, numbers) == Combine(AtomResults(part, numbers), false)
  {
    NotStuck(source, OR, part);
    JoinersStructural();
    var start := PieceFacts(source, OR, part);
    LowerJoinersStay(source, start, Trim(part), AND);
    AlternativeAtoms(part, numbers);
    hide *;
  }

  lemma AlternativeAtoms(part: string, numbers: Numbers)
    requires !Detected(Trim(part), OR) && LowerJoiners(Trim(part), AND)
    ensures AlternativeResult(part, numbers) == Combine(AtomResults(part, numbers), false)
  {
    hide *;
    AlternativeUnfold(part, numbers);
    if Trim(part) == "" {
      NothingThere(part, numbers);
      SingleResult(Unreadable(EmptyCondition), false);
    } else {
      AtomsAreConjuncts(part, numbers);
    }
  }

  lemma NothingThere(part: string, numbers: Numbers)
    requires Trim(part) == ""
    ensures AtomResults(part, numbers) == [Unreadable(EmptyCondition)]
  {
    hide Atom, Split, Trim;
    TrimEmpty();
  }

  lemma AtomsAreConjuncts(part: string, numbers: Numbers)
    requires Trim(part) != "" && LowerJoiners(Trim(part), AND)
    ensures ConjunctResults(Split(Trim(part), AND), numbers) == AtomResults(part, numbers)
  {
    LowerConjuncts(Trim(part), numbers);
    hide LowerJoiners, Split, Trim, AtomOf, ConjunctResult;
  }

  lemma AlternativeUnfold(part: string, numbers: Numbers)
    requires !Detected(Trim(part), OR)
    ensures Trim(part) == "" ==> AlternativeResult(part, numbers) == Unreadable(EmptyCondition)
    ensures Trim(part) != "" ==>
      AlternativeResult(part, numbers) == Combine(ConjunctResults(Split(Trim(part), AND), numbers), false)
  {
    hide Detected;
    hide Trim;
    hide Split;
    hide Combine;
  }

  /**
   * With every joiner in lower case the evaluator always answers: it can read
   * the condition exactly if it can read every comparison, and the answer is
   * the OR over the alternatives of the AND over their comparisons.
   */
  lemma LowerJoinersMean(condition: string, numbers: Numbers)
    requires LowerJoiners(condition, " or ") && LowerJoiners(condition, " and ")
    ensures var alternatives := Split(Trim(condition), " or ");
      var r := Evaluate(condition, numbers);
      && !r.Diverges?
      && (r.Value? <==> forall k :: 0 <= k < |alternatives| ==> AllRead(AtomResults(alternatives[k], numbers)))
      && (r.Value? ==>
            (r.value <==> exists k :: 0 <= k < |alternatives| && AllTrue(AtomResults(alternatives[k], numbers))))
  {
    assert OR == " or " && AND == " and ";
    hide *;
    var source := Trim(condition);
    var start := TrimIsClean(condition);
    JoinersStructural();
    LowerJoinersStay(condition, start, source, OR);
    LowerJoinersStay(condition, start, source, AND);
    EvaluateMeans(condition, numbers);
    var parts := Split(source, OR);
    forall k | 0 <= k < |parts|
      ensures AlternativeResult(parts[k], numbers) == Combine(AtomResults(parts[k], numbers), false)
    {
      LowerAlternative(source, parts[k], numbers);
    }
    MeaningOfAtoms(source, parts, numbers);
    MeaningUnfold(condition, numbers);
  }

  lemma MeaningUnfold(condition: string, numbers: Numbers)
    ensures Meaning(condition, numbers) == Combine(AlternativeResults(Split(Trim(condition), OR), numbers), true)
  {
    var source := Trim(condition);
    if source == "" {
      TrimEmpty();
      assert AlternativeResults([""], numbers) == [Unreadable(EmptyCondition)];
      SingleResult(Unreadable(EmptyCondition), true);
    }
  }

  lemma MeaningOfAtoms(source: string, parts: seq<string>, numbers: Numbers)
    requires parts != []
    requires forall k :: 0 <= k < |parts| ==>
      AlternativeResult(parts[k], numbers) == Combine(AtomResults(parts[k], numbers), false)
    ensures var r := Combine(AlternativeResults(parts, numbers), true);
      && !r.Diverges?
      && (r.Value? <==> forall k :: 0 <= k < |parts| ==> AllRead(AtomResults(parts[k], numbers)))
      && (r.Value? ==> (r.value <==> exists k :: 0 <= k < |parts| && AllTrue(AtomResults(parts[k], numbers))))
  {
    CombineDiverges(AlternativeResults(parts, numbers), true);
    forall k | 0 <= k < |parts|
      ensures !AlternativeResult(parts[k], numbers).Diverges?
      ensures AlternativeResult(parts[k], numbers).Value? <==> AllRead(AtomResults(parts[k], numbers))
      ensures AlternativeResult(parts[k], numbers) == Value(true) <==> AllTrue(AtomResults(parts[k], numbers))
    {
      AtomsCombine(parts[k], numbers);
    }
    hide AlternativeResult;
    hide AtomResults;
    hide AllRead;
    hide AllTrue;
    hide Combine;
  }

  lemma NoAtomDiverges(part: string, numbers: Numbers, k: nat)
    requires k < |AtomResults(part, numbers)|
    ensures !AtomResults(part, numbers)[k].Diverges?
  {
    hide Trim;
    hide Split;
    AtomAnswers(Trim(Split(Trim(part), AND)[k]), numbers);
    hide Atom;
  }

  /** Results that are all answers combine to an answer: their AND, if all could be read. */
  lemma AnswersCombine(rs: seq<ConditionResult>)
    requires forall k :: 0 <= k < |rs| ==> !rs[k].Diverges?
    ensures var r := Combine(rs, false);
      !r.Diverges? && (r.Value? <==> AllRead(rs)) && (r == Value(true) <==> AllTrue(rs))
  {
    CombineDiverges(rs, false);
    hide Combine;
  }

  lemma AtomsCombine(part: string, numbers: Numbers)
    ensures var r := Combine(AtomResults(part, numbers), false);
      && !r.Diverges?
      && (r.Value? <==> AllRead(AtomResults(part, numbers)))
      && (r == Value(true) <==> AllTrue(AtomResults(part, numbers)))
  {
    hide *;
    forall k | 0 <= k < |AtomResults(part, numbers)|
      ensures !AtomResults(part, numbers)[k].Diverges?
    {
      NoAtomDiverges(part, numbers, k);
    }
    AnswersCombine(AtomResults(part, numbers));
  }

  // ---- where the source falls short ----

  /** Detected but not split on: the one part is the source again, and so without end. */
  lemma StuckRepeats(source: string, numbers: Numbers)
    requires source != "" && Trim(source) == source && Detected(source, OR) && !Occurs(source, OR)
    ensures Split(source, OR) == [source] && Evaluate(source, numbers) == Diverges
  {
    DetectedMeans(source, OR);
    hide Split;
    hide Detected;
    hide Trim;
  }

  lemma {:induction false} UnquotedOpen(s: string, i: nat)
    requires i <= |s| && forall c :: c in s ==> !IsQuote(c)
    ensures OpenAt(s, i).None?
  {
    if i > 0 {
      UnquotedOpen(s, i - 1);
      assert s[i - 1] in s;
    }
  }

  lemma UnquotedMask(s: string)
    requires forall c :: c in s ==> !IsQuote(c)
    ensures Mask(s) == s
  {
    forall i | 0 <= i < |s|
      ensures Mask(s)[i] == s[i]
    {
      UnquotedOpen(s, i);
      Masked(s, i);
    }
  }

  lemma TightTrim(s: string)
    requires s != "" && !IsSpace(s[0]) && !IsSpace(s[|s| - 1])
    ensures Trim(s) == s
  {
  }

  lemma SpeltLower()
    ensures Lower("a OR b") == "a or b" && Texts.At("a or b", 1, OR)
  {
    var lower := "a or b";
    assert lower[1..5] == " or ";
  }

  lemma NoneWithout(s: string, t: string, c: char)
    requires c in t && c !in s
    ensures forall k: nat :: !Texts.At(s, k, t)
  {
    var j :| 0 <= j < |t| && t[j] == c;
    forall k: nat
      ensures !Texts.At(s, k, t)
    {
      AtMeans(s, k, t);
      hide Texts.At;
      assert k + |t| <= |s| ==> s[k + j] in s;
    }
  }

  lemma FoundMeans(s: string, t: string)
    ensures Occurs(s, t) <==> exists k: nat :: Texts.At(Mask(s), k, t)
  {
  }

  /** One upper-case joiner is enough. */
  lemma UpperJoinerDiverges(numbers: Numbers)
    ensures Evaluate("a OR b", numbers) == Diverges
  {
    SpeltLower();
    TightTrim("a OR b");
    UpperUndetected();
    UpperDetected();
    hide *;
    StuckRepeats("a OR b", numbers);
  }

  lemma UpperUndetected()
    ensures !Occurs("a OR b", OR)
  {
    assert OR[1] == 'o';
    NoneWithout("a OR b", OR, 'o');
    UnquotedMask("a OR b");
    hide Mask;
    FoundMeans("a OR b", OR);
  }

  lemma UpperDetected()
    ensures Detected("a OR b", OR)
  {
    SpeltLower();
    UnquotedMask("a or b");
    hide Mask;
    FoundMeans("a or b", OR);
    DetectedIs("a OR b", OR);
    hide Detected;
  }
}
