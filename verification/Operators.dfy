// Operators are found only as they are written outside quotes, longest first.
module Operators {
  import opened Options
  import opened Texts
  import opened Quoting
  import opened Conditions

  /** The operator stands at `at` in some letter case, outside quotes, with a blank or an end on either side. */
  predicate StandsAt(source: string, op: string, at: nat) {
    && Texts.At(Lower(source), at, op)
    && (forall j :: at <= j < at + |op| ==> Outside(source, j))
    && (at == 0 || (source[at - 1] == ' ' && Outside(source, at - 1)))
    && (at + |op| == |source| || (source[at + |op|] == ' ' && Outside(source, at + |op|)))
  }

  lemma HaystackAt(source: string, op: string, at: nat)
    requires op != ""
    requires Texts.At(Haystack(source), at, " " + op + " ")
    ensures at + |op| <= |source| && Texts.At(Mask(Lower(source)), at, op)
    ensures at > 0 ==> Mask(source)[at - 1] == ' '
    ensures at + |op| < |source| ==> Mask(source)[at + |op|] == ' '
  {
    var h, m, padded := Haystack(source), Mask(source), " " + op + " ";
    LowerMasks(source);
    hide Mask;
    AtMeans(h, at, padded);
    AtMeans(Lower(m), at, op);
    hide Texts.At;
    assert |h| == |source| + 2;
    forall j | 0 <= j < |op|
      ensures Lower(m)[at + j] == op[j]
    {
      assert padded[j + 1] == op[j] && h[at + (j + 1)] == Lower(m)[at + j];
    }
    assert padded[0] == ' ' && padded[|op| + 1] == ' ';
    assert h[at + 0] == ' ' && h[at + (|op| + 1)] == ' ';
    LowerBlank();
  }

  lemma LowerBlank()
    ensures forall c :: LowerChar(c) == ' ' <==> c == ' '
  {
  }

  lemma FoundStands(source: string, op: string, at: nat)
    requires Structural(op) && Texts.At(Haystack(source), at, " " + op + " ")
    ensures StandsAt(source, op, at)
  {
    hide *;
    StructuralNonEmpty(op);
    HaystackAt(source, op, at);
    MatchIsLiteral(Lower(source), at, op);
    forall j | at <= j < at + |op|
      ensures Outside(source, j)
    {
      LowerOutside(source, j);
    }
    BlankIsNoQuote();
    if at > 0 {
      PreviousOutside(source, at - 1);
    }
    if at + |op| < |source| {
      NextOutside(source, at + |op| - 1);
    }
    Stands(source, op, at);
  }

  lemma StructuralNonEmpty(op: string)
    requires Structural(op)
    ensures op != ""
  {
  }

  lemma Stands(source: string, op: string, at: nat)
    requires Texts.At(Lower(source), at, op) && at + |op| <= |source|
    requires forall j :: at <= j < at + |op| ==> Outside(source, j)
    requires at > 0 ==> source[at - 1] == ' ' && Outside(source, at - 1)
    requires at + |op| < |source| ==> source[at + |op|] == ' ' && Outside(source, at + |op|)
    ensures StandsAt(source, op, at)
  {
    hide Outside;
    hide Texts.At;
  }

  lemma BlankIsNoQuote()
    ensures !IsQuote(' ')
  {
  }

  /** The words before k do not occur. */
  predicate FirstOf(haystack: string, ops: seq<string>, k: nat) {
    k < |ops| && forall j :: 0 <= j < k ==> FirstAt(haystack, " " + ops[j] + " ", 0).None?
  }

  lemma {:induction false} FindInExact(haystack: string, ops: seq<string>)
    ensures var r := FindIn(haystack, ops);
      && (r.Some? ==> exists k: nat :: FirstOf(haystack, ops, k) && ops[k] == r.value.op
                                       && FirstAt(haystack, " " + ops[k] + " ", 0) == Some(r.value.at))
      && (r.None? ==> forall j :: 0 <= j < |ops| ==> FirstAt(haystack, " " + ops[j] + " ", 0).None?)
  {
    if ops != [] {
      var rest := ops[1..];
      FindInExact(haystack, rest);
      assert forall j :: 0 <= j < |rest| ==> rest[j] == ops[j + 1];
      if FirstAt(haystack, " " + ops[0] + " ", 0).Some? {
        assert FirstOf(haystack, ops, 0);
      } else if FindIn(haystack, rest).Some? {
        var k: nat :| FirstOf(haystack, rest, k) && rest[k] == FindIn(haystack, rest).value.op
            && FirstAt(haystack, " " + rest[k] + " ", 0) == Some(FindIn(haystack, rest).value.at);
        assert ops[k + 1] == rest[k];
        forall j | 0 <= j < k + 1
          ensures FirstAt(haystack, " " + ops[j] + " ", 0).None?
        {
          assert j > 0 ==> ops[j] == rest[j - 1];
        }
        assert FirstOf(haystack, ops, k + 1);
      }
    }
  }

  lemma WordsStructural()
    ensures forall op :: op in WORDS ==> Structural(op)
  {
    forall op | op in WORDS
      ensures Structural(op)
    {
      assert op[0] != ' ';
    }
  }

  /** The word operator found is written outside quotes, and none before it in the list is there. */
  lemma WordFound(source: string)
    requires FindWordOperator(source).Some?
    ensures var m := FindWordOperator(source).value;
      && StandsAt(source, m.op, m.at)
      && exists k: nat :: FirstOf(Haystack(source), WORDS, k) && WORDS[k] == m.op
  {
    WordsStructural();
    FindInExact(Haystack(source), WORDS);
    var m := FindWordOperator(source).value;
    hide Structural;
    hide FirstOf;
    var k: nat :| FirstOf(Haystack(source), WORDS, k) && WORDS[k] == m.op
        && FirstAt(Haystack(source), " " + WORDS[k] + " ", 0) == Some(m.at);
    hide *;
    FoundStands(source, m.op, m.at);
  }

  lemma SymbolsStructural()
    ensures forall op :: op in SYMBOLS ==> Structural(op)
  {
    forall op | op in SYMBOLS
      ensures Structural(op)
    {
      assert op[0] != ' ';
    }
  }

  /** The symbol found is literally there, outside quotes. */
  lemma SymbolFound(source: string)
    requires FindSymbol(Mask(source), SYMBOLS).Some?
    ensures var m := FindSymbol(Mask(source), SYMBOLS).value;
      && Texts.At(source, m.at, m.op)
      && forall j :: m.at <= j < m.at + |m.op| ==> Outside(source, j)
  {
    var m := FindSymbol(Mask(source), SYMBOLS).value;
    SymbolsStructural();
    hide *;
    MatchIsLiteral(source, m.at, m.op);
  }
}
