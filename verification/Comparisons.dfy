// One comparison, read by its operands: what each operator answers.
module Comparisons {
  import opened Options
  import opened Texts
  import opened Quoting
  import opened Conditions
  import ConditionMeaning
  import Operators

  // ---- values ----

  /** t is s from n on, between blanks. */
  predicate StrippedAt(s: string, t: string, n: nat) {
    && n + |t| <= |s| && s[n..n + |t|] == t
    && (forall i :: 0 <= i < n ==> IsSpace(s[i]))
    && (forall i :: n + |t| <= i < |s| ==> IsSpace(s[i]))
    && (t != "" ==> !IsSpace(t[0]) && !IsSpace(t[|t| - 1]))
  }

  /** t is s without the blanks around it. */
  ghost predicate Stripped(s: string, t: string) {
    exists n: nat :: StrippedAt(s, t, n)
  }

  lemma {:induction false} TrimEndRest(s: string)
    ensures forall i :: |TrimEnd(s)| <= i < |s| ==> IsSpace(s[i])
    ensures s != "" && !IsSpace(s[0]) ==> TrimEnd(s) != ""
  {
    if s != "" && IsSpace(s[|s| - 1]) {
      TrimEndRest(s[..|s| - 1]);
    }
  }

  lemma TrimStrips(s: string)
    ensures Stripped(s, Trim(s))
  {
    hide *;
    var n := TrimStartSlice(s);
    var rest := TrimStart(s);
    TrimEndRest(rest);
    TrimEndPrefix(rest);
    TrimEndPrefix(s);
    TrimEndsClear(s);
    StripsAt(s, n, rest, Trim(s));
    StrippedFrom(s, Trim(s), n);
  }

  lemma TrimEndsClear(s: string)
    ensures var t := Trim(s); t != "" ==> !IsSpace(t[0]) && !IsSpace(t[|t| - 1])
  {
    var rest := TrimStart(s);
    var t := TrimEnd(rest);
    hide TrimStart, TrimEnd, IsSpace;
    assert t != "" ==> t[0] == rest[0];
  }

  lemma StripsAt(s: string, n: nat, rest: string, t: string)
    requires n <= |s| && rest == s[n..] && (forall i :: 0 <= i < n ==> IsSpace(s[i]))
    requires |t| <= |rest| && rest[..|t|] == t && forall i :: |t| <= i < |rest| ==> IsSpace(rest[i])
    requires t != "" ==> !IsSpace(t[0]) && !IsSpace(t[|t| - 1])
    ensures StrippedAt(s, t, n)
  {
    hide IsSpace;
    assert forall i :: n <= i < |s| ==> s[i] == rest[i - n];
    assert s[n..n + |t|] == rest[..|t|];
  }

  lemma StrippedFrom(s: string, t: string, n: nat)
    requires StrippedAt(s, t, n)
    ensures Stripped(s, t)
  {
  }

  /** Something is left exactly if something is not blank. */
  lemma StrippedBlank(s: string, t: string, n: nat)
    requires StrippedAt(s, t, n)
    ensures t == "" <==> forall i :: 0 <= i < |s| ==> IsSpace(s[i])
    ensures t != "" ==> s[n] == t[0] && s[n + |t| - 1] == t[|t| - 1]
  {
    hide IsSpace;
    assert t != "" ==> s[n] == t[0];
  }

  lemma StrippedOnce(s: string, a: string, n: nat, b: string, m: nat)
    requires StrippedAt(s, a, n) && StrippedAt(s, b, m)
    ensures a == b
  {
    hide IsSpace;
    StrippedBlank(s, a, n);
    StrippedBlank(s, b, m);
    if a != "" {
      assert n == m;
      assert n + |a| - 1 == m + |b| - 1;
    }
  }

  /** Blanks can be taken off in one way only. */
  lemma TrimExactly(s: string, t: string)
    ensures Stripped(s, t) <==> Trim(s) == t
  {
    TrimStrips(s);
    hide Trim, StrippedAt;
    if Stripped(s, t) {
      var n: nat :| StrippedAt(s, t, n);
      var m: nat :| StrippedAt(s, Trim(s), m);
      StrippedOnce(s, t, n, Trim(s), m);
    }
  }

  predicate Quoted(t: string) {
    |t| >= 2 && IsQuote(t[0]) && t[|t| - 1] == t[0]
  }

  /** The text between one pair of matching quotes, or else the text itself, blanks around it aside. */
  ghost predicate ReadsAs(s: string, value: string) {
    || (Stripped(s, value) && !Quoted(value))
    || (exists q :: IsQuote(q) && Stripped(s, [q] + value + [q]))
  }

  lemma UnquoteExactly(s: string, value: string)
    ensures ReadsAs(s, value) <==> Unquote(s) == value
  {
    TrimExactly(s, value);
    forall q
      ensures Stripped(s, [q] + value + [q]) <==> Trim(s) == [q] + value + [q]
    {
      TrimExactly(s, [q] + value + [q]);
    }
    hide Stripped;
    UnquotedText(Trim(s), value);
    hide Trim, IsQuote;
  }

  lemma UnquotedText(t: string, value: string)
    ensures (if Quoted(t) then t[1..|t| - 1] else t) == value <==>
      (t == value && !Quoted(value)) || exists q :: IsQuote(q) && t == [q] + value + [q]
  {
    hide IsQuote;
    if Quoted(t) {
      assert t == [t[0]] + t[1..|t| - 1] + [t[0]];
    }
    forall q | t == [q] + value + [q]
      ensures t[0] == q && t[|t| - 1] == q && t[1..|t| - 1] == value
    {
    }
  }

  /** Equal but for the case of letters. */
  predicate SameLetters(a: string, b: string) {
    |a| == |b| && forall i :: 0 <= i < |a| ==> LowerChar(a[i]) == LowerChar(b[i])
  }

  lemma SameLettersExactly(a: string, b: string)
    ensures SameLetters(a, b) <==> Lower(a) == Lower(b)
  {
    if Lower(a) == Lower(b) {
      forall i | 0 <= i < |a|
        ensures LowerChar(a[i]) == LowerChar(b[i])
      {
        assert Lower(a)[i] == Lower(b)[i];
      }
    }
  }

  const BLANKS := "\t\n\U{B}\U{C}\r \U{A0}\U{1680}\U{2000}\U{2001}\U{2002}\U{2003}\U{2004}\U{2005}\U{2006}\U{2007}"
    + "\U{2008}\U{2009}\U{200A}\U{2028}\U{2029}\U{202F}\U{205F}\U{3000}\U{FEFF}"

  lemma BlanksExactly(c: char)
    ensures IsSpace(c) <==> c in BLANKS
  {
    var n := c as int;
    assert BLANKS[0] as int == 9 && BLANKS[1] as int == 10 && BLANKS[2] as int == 11 && BLANKS[3] as int == 12;
    assert BLANKS[4] as int == 13 && BLANKS[5] as int == 32 && BLANKS[6] as int == 0xA0 && BLANKS[7] as int == 0x1680;
    assert BLANKS[8] as int == 0x2000 && BLANKS[9] as int == 0x2001 && BLANKS[10] as int == 0x2002;
    assert BLANKS[11] as int == 0x2003 && BLANKS[12] as int == 0x2004 && BLANKS[13] as int == 0x2005;
    assert BLANKS[14] as int == 0x2006 && BLANKS[15] as int == 0x2007 && BLANKS[16] as int == 0x2008;
    assert BLANKS[17] as int == 0x2009 && BLANKS[18] as int == 0x200A;
    assert BLANKS[19] as int == 0x2028 && BLANKS[20] as int == 0x2029 && BLANKS[21] as int == 0x202F;
    assert BLANKS[22] as int == 0x205F && BLANKS[23] as int == 0x3000 && BLANKS[24] as int == 0xFEFF;
    if 0x2000 <= n <= 0x200A {
      assert BLANKS[8 + (n - 0x2000)] == c;
    }
  }

  const CAPITALS := "ABCDEFGHIJKLMNOPQRSTUVWXYZ"
  const SMALL := "abcdefghijklmnopqrstuvwxyz"

  /** The letters that are taken for each other. */
  lemma LetterPairs(c: char)
    ensures forall i :: 0 <= i < 26 && CAPITALS[i] == c ==> LowerChar(c) == SMALL[i]
    ensures c !in CAPITALS ==> LowerChar(c) == c
  {
    assert forall i :: 0 <= i < 26 ==> CAPITALS[i] == ('A' as int + i) as char && SMALL[i] == ('a' as int + i) as char;
    if 'A' <= c <= 'Z' {
      assert CAPITALS[c as int - 'A' as int] == c;
    }
  }

  // ---- what each word operator asks ----

  predicate LettersAt(l: string, i: nat, r: string) {
    i + |r| <= |l| && SameLetters(l[i..i + |r|], r)
  }

  ghost predicate Inside(l: string, r: string) {
    exists i: nat :: LettersAt(l, i, r)
  }

  predicate Begins(l: string, r: string) {
    |r| <= |l| && SameLetters(l[..|r|], r)
  }

  predicate Ends(l: string, r: string) {
    |r| <= |l| && SameLetters(l[|l| - |r|..], r)
  }

  /** One of the entries between unquoted commas, empty ones aside. */
  ghost predicate Listed(l: string, right: string) {
    exists part, p :: part in Split(right, ",") && ReadsAs(part, p) && p != "" && SameLetters(l, p)
  }

  ghost predicate BracedBy(l: string, body: string) {
    Stripped(l, "{{" + body + "}}") && '}' !in body
  }

  /** A reference that stayed as it was written. */
  ghost predicate Braced(l: string) {
    exists body :: BracedBy(l, body)
  }

  ghost predicate There(l: string) {
    l != "" && l != "null" && l != "undefined" && !Braced(l)
  }

  /** What the word says of the value on its left and of what stands on its right. */
  ghost predicate WordAnswer(op: string, l: string, r: string, right: string, answer: bool) {
    && (op == "contains" ==> (answer <==> Inside(l, r)))
    && (op == "does not contain" ==> (answer <==> !Inside(l, r)))
    && (op == "starts with" ==> (answer <==> Begins(l, r)))
    && (op == "does not start with" ==> (answer <==> !Begins(l, r)))
    && (op == "ends with" ==> (answer <==> Ends(l, r)))
    && (op == "does not end with" ==> (answer <==> !Ends(l, r)))
    && (op == "is in" ==> (answer <==> Listed(l, right)))
    && (op == "is not in" ==> (answer <==> !Listed(l, right)))
    && (op == "exists" ==> (answer <==> There(l)))
    && (op == "does not exist" ==> (answer <==> !There(l)))
  }

  predicate IsWord(op: string) {
    op in {"contains", "does not contain", "starts with", "does not start with", "ends with", "does not end with",
           "is in", "is not in", "exists", "does not exist"}
  }

  lemma LowerSlice(s: string, i: nat, j: nat)
    requires i <= j <= |s|
    ensures Lower(s)[i..j] == Lower(s[i..j])
  {
  }

  lemma AtLetters(l: string, i: nat, r: string)
    ensures Texts.At(Lower(l), i, Lower(r)) <==> LettersAt(l, i, r)
  {
    if i + |r| <= |l| {
      LowerSlice(l, i, i + |r|);
      SameLettersExactly(l[i..i + |r|], r);
    }
  }

  lemma InsideExactly(l: string, r: string)
    ensures Includes(Lower(l), Lower(r)) <==> Inside(l, r)
  {
    forall i: nat
      ensures Texts.At(Lower(l), i, Lower(r)) <==> LettersAt(l, i, r)
    {
      AtLetters(l, i, r);
    }
    hide Lower, Texts.At, LettersAt;
  }

  lemma BeginsExactly(l: string, r: string)
    ensures Texts.At(Lower(l), 0, Lower(r)) <==> Begins(l, r)
  {
    AtLetters(l, 0, r);
    assert |r| <= |l| ==> l[0..0 + |r|] == l[..|r|];
  }

  lemma EndsExactly(l: string, r: string)
    ensures EndsWith(Lower(l), Lower(r)) <==> Ends(l, r)
  {
    if |r| <= |l| {
      AtLetters(l, |l| - |r|, r);
      assert l[|l| - |r|..|l| - |r| + |r|] == l[|l| - |r|..];
      assert Lower(l)[|l| - |r|..|l| - |r| + |r|] == Lower(l)[|l| - |r|..];
    }
  }

  lemma {:induction false} FoldAllExactly(parts: seq<string>, f: string)
    ensures f in FoldAll(parts) <==> f != "" && exists part :: part in parts && Fold(part) == f
  {
    if parts != [] {
      FoldAllExactly(parts[1..], f);
      assert parts == [parts[0]] + parts[1..];
    }
  }

  lemma ListedExactly(l: string, right: string)
    ensures Lower(l) in SplitList(right) <==> Listed(l, right)
  {
    var parts := Split(right, ",");
    FoldAllExactly(parts, Lower(l));
    forall part, p
      ensures ReadsAs(part, p) && p != "" && SameLetters(l, p) <==>
        ReadsAs(part, p) && Lower(l) != "" && Fold(part) == Lower(l)
    {
      UnquoteExactly(part, p);
      SameLettersExactly(l, p);
    }
    forall part
      ensures ReadsAs(part, Unquote(part))
    {
      UnquoteExactly(part, Unquote(part));
    }
    hide ReadsAs, SameLetters, Fold, FoldAll, Split, Unquote;
  }

  lemma BracesExactly(x: string, body: string)
    ensures x == "{{" + body + "}}" <==>
      |x| >= 4 && x[..2] == "{{" && x[|x| - 2..] == "}}" && x[2..|x| - 2] == body
  {
    if |x| >= 4 {
      assert x == x[..2] + x[2..|x| - 2] + x[|x| - 2..];
    }
    var y := "{{" + body + "}}";
    assert y[..2] == "{{" && y[|y| - 2..] == "}}" && y[2..|y| - 2] == body;
  }

  /** x is the body between double braces. */
  predicate InBraces(x: string, body: string) {
    '}' !in body && |x| >= 4 && x[..2] == "{{" && x[|x| - 2..] == "}}" && x[2..|x| - 2] == body
  }

  lemma BracedByExactly(l: string, body: string)
    ensures BracedBy(l, body) <==> InBraces(Trim(l), body)
  {
    TrimExactly(l, "{{" + body + "}}");
    BracesExactly(Trim(l), body);
    hide Stripped, Trim;
  }

  lemma UnresolvedExactly(l: string)
    ensures Unresolved(l) ==> |Trim(l)| >= 4 && InBraces(Trim(l), Trim(l)[2..|Trim(l)| - 2])
    ensures (exists body :: InBraces(Trim(l), body)) ==> Unresolved(l)
  {
    hide Trim;
  }

  lemma BracedExactly(l: string)
    ensures Unresolved(l) <==> Braced(l)
  {
    hide *;
    UnresolvedExactly(l);
    if Unresolved(l) {
      var body := Trim(l)[2..|Trim(l)| - 2];
      BracedByExactly(l, body);
      BracedHas(l, body);
    }
    if Braced(l) {
      var body := BracedBody(l);
      BracedByExactly(l, body);
    }
  }

  lemma BracedHas(l: string, body: string)
    requires BracedBy(l, body)
    ensures Braced(l)
  {
    hide BracedBy;
  }

  lemma BracedBody(l: string) returns (body: string)
    requires Braced(l)
    ensures BracedBy(l, body)
  {
    hide BracedBy;
    body :| BracedBy(l, body);
  }

  lemma WordAnswers(op: string, left: string, right: string, l: string, r: string)
    requires IsWord(op) && ReadsAs(left, l) && ReadsAs(right, r)
    ensures WordAnswer(op, l, r, right, ApplyWord(op, left, right))
  {
    UnquoteExactly(left, l);
    UnquoteExactly(right, r);
    InsideExactly(l, r);
    BeginsExactly(l, r);
    EndsExactly(l, r);
    ListedExactly(l, right);
    BracedExactly(l);
    hide ReadsAs, Inside, Begins, Ends, Listed, Braced, Unquote, Lower, Includes, EndsWith, Texts.At, SplitList,
      Unresolved;
  }

  // ---- the operator a text is read by ----

  /** The text with what is quoted blanked, in lower case, between two blanks. */
  function Padded(source: string): string {
    " " + Lower(Mask(source)) + " "
  }

  predicate NoWord(source: string) {
    forall w :: w in WORDS ==> FirstAt(Padded(source), " " + w + " ", 0).None?
  }

  /** op stands here first, and no word before it in the list stands anywhere. */
  ghost predicate FirstWord(source: string, op: string, at: nat) {
    exists k: nat :: Operators.FirstOf(Padded(source), WORDS, k) && WORDS[k] == op
      && FirstAt(Padded(source), " " + op + " ", 0) == Some(at)
  }

  /** op stands here first, and none of the nine other words stands anywhere. */
  ghost predicate OnlyWord(source: string, op: string, at: nat) {
    && IsWord(op) && FirstAt(Padded(source), " " + op + " ", 0) == Some(at)
    && forall w :: IsWord(w) && w != op ==> FirstAt(Padded(source), " " + w + " ", 0).None?
  }

  /** Longest phrase first, so that no word is read where a longer one stands. */
  lemma TheTenWords()
    ensures WORDS == ["does not start with", "does not contain", "does not end with", "does not exist", "is not in",
                      "starts with", "ends with", "contains", "is in", "exists"]
    ensures forall w :: w in WORDS <==> IsWord(w)
    ensures forall i, j :: 0 <= i < j < |WORDS| ==> WORDS[i] != WORDS[j]
  {
    assert WORDS[0] == "does not start with" && WORDS[1] == "does not contain" && WORDS[2] == "does not end with";
    assert WORDS[3] == "does not exist" && WORDS[4] == "is not in" && WORDS[5] == "starts with";
    assert WORDS[6] == "ends with" && WORDS[7] == "contains" && WORDS[8] == "is in" && WORDS[9] == "exists";
  }

  lemma OnlyIsFirst(source: string, op: string, at: nat)
    requires OnlyWord(source, op, at)
    ensures FirstWord(source, op, at)
  {
    TheTenWords();
    hide Padded, FirstAt, IsWord;
    assert op in WORDS;
    var k: nat :| k < |WORDS| && WORDS[k] == op;
    forall j | 0 <= j < k
      ensures FirstAt(Padded(source), " " + WORDS[j] + " ", 0).None?
    {
      assert WORDS[j] in WORDS;
    }
    assert Operators.FirstOf(Padded(source), WORDS, k);
  }

  lemma WordExactly(source: string)
    ensures forall op, at :: FindWordOperator(source) == Some(WordMatch(op, at)) <==> FirstWord(source, op, at)
    ensures FindWordOperator(source).None? <==> NoWord(source)
  {
    Operators.FindInExact(Padded(source), WORDS);
    assert Haystack(source) == Padded(source);
    hide FindIn, Padded, Haystack, FirstAt;
    var found := FindWordOperator(source);
    if found.Some? {
      forall op, at
        ensures FirstWord(source, op, at) <==> op == found.value.op && at == found.value.at
      {
        FirstWordOnce(source, op, at, found.value.op, found.value.at);
      }
      FirstWordStands(source, found.value.op, found.value.at);
    } else {
      forall w | w in WORDS
        ensures FirstAt(Padded(source), " " + w + " ", 0).None?
      {
        var j: nat :| j < |WORDS| && WORDS[j] == w;
      }
      forall op, at
        ensures !FirstWord(source, op, at)
      {
      }
    }
  }

  lemma FirstWordStands(source: string, op: string, at: nat)
    requires FirstWord(source, op, at)
    ensures !NoWord(source)
  {
    hide Padded, FirstAt;
    assert op in WORDS;
  }

  lemma FirstWordOnce(source: string, op: string, at: nat, op': string, at': nat)
    requires FirstWord(source, op', at')
    ensures FirstWord(source, op, at) <==> op == op' && at == at'
  {
    hide Padded, FirstAt;
  }

  predicate IsSymbol(op: string) {
    op in {"=", "!=", ">", "<", ">=", "<="}
  }

  predicate NoSymbol(source: string) {
    forall op :: op in SYMBOLS ==> FirstAt(Mask(source), op, 0).None?
  }

  predicate SymbolsBefore(masked: string, k: nat) {
    k < |SYMBOLS| && forall j :: 0 <= j < k ==> FirstAt(masked, SYMBOLS[j], 0).None?
  }

  /** op stands here first outside quotes, and no symbol before it in the list stands anywhere. */
  ghost predicate FirstSymbol(source: string, op: string, at: nat) {
    exists k: nat :: SymbolsBefore(Mask(source), k) && SYMBOLS[k] == op && FirstAt(Mask(source), op, 0) == Some(at)
  }

  lemma {:induction false} FindSymbolExact(masked: string, ops: seq<string>)
    ensures var r := FindSymbol(masked, ops);
      && (r.Some? ==>
            exists k: nat ::
              && k < |ops| && ops[k] == r.value.op && FirstAt(masked, r.value.op, 0) == Some(r.value.at)
              && forall j :: 0 <= j < k ==> FirstAt(masked, ops[j], 0).None?)
      && (r.None? ==> forall op :: op in ops ==> FirstAt(masked, op, 0).None?)
  {
    if ops != [] {
      var rest := ops[1..];
      FindSymbolExact(masked, rest);
      assert forall j :: 0 <= j < |rest| ==> rest[j] == ops[j + 1];
      hide FirstAt;
      if FirstAt(masked, ops[0], 0).Some? {
        assert ops[0] == FindSymbol(masked, ops).value.op;
      } else if FindSymbol(masked, rest).Some? {
        var found := FindSymbol(masked, rest).value;
        var k: nat :| k < |rest| && rest[k] == found.op && FirstAt(masked, found.op, 0) == Some(found.at)
            && forall j :: 0 <= j < k ==> FirstAt(masked, rest[j], 0).None?;
        assert ops[k + 1] == found.op;
        forall j | 0 <= j < k + 1
          ensures FirstAt(masked, ops[j], 0).None?
        {
          assert j > 0 ==> ops[j] == rest[j - 1];
        }
      }
    }
  }

  lemma SymbolExactly(source: string)
    ensures forall op, at :: FindSymbol(Mask(source), SYMBOLS) == Some(SymbolMatch(op, at)) <==>
      FirstSymbol(source, op, at)
    ensures FindSymbol(Mask(source), SYMBOLS).None? <==> NoSymbol(source)
  {
    var m := Mask(source);
    FindSymbolExact(m, SYMBOLS);
    hide FindSymbol, Mask, FirstAt;
    var found := FindSymbol(m, SYMBOLS);
    if found.Some? {
      var k: nat :| k < |SYMBOLS| && SYMBOLS[k] == found.value.op
        && FirstAt(m, found.value.op, 0) == Some(found.value.at)
          && forall j :: 0 <= j < k ==> FirstAt(m, SYMBOLS[j], 0).None?;
      assert SymbolsBefore(m, k);
      assert SYMBOLS[k] in SYMBOLS;
    }
  }

  // ---- one comparison ----

  /** Two or more comparisons in one. */
  predicate Joined(source: string) {
    FirstAt(Mask(Lower(source)), " or ", 0).Some? || FirstAt(Mask(Lower(source)), " and ", 0).Some?
  }

  predicate Blank(s: string) {
    forall i :: 0 <= i < |s| ==> IsSpace(s[i])
  }

  /** What the symbol says of the two values. */
  predicate SymbolAnswer(op: string, l: string, r: string, numbers: Numbers, v: ConditionResult) {
    var a, b := numbers(l), numbers(r);
    && (op == "=" ==> v == Value(l == r))
    && (op == "!=" ==> v == Value(l != r))
    && (op != "=" && op != "!=" ==>
          if Blank(l) || Blank(r) then v == Unreadable(EmptySide(op))
          else if a.None? || b.None? then v == Unreadable(NotNumbers(op))
          else
            && (op == ">" ==> v == Value(a.value > b.value))
            && (op == "<" ==> v == Value(b.value > a.value))
            && (op == ">=" ==> v == Value(!(b.value > a.value)))
            && (op == "<=" ==> v == Value(!(a.value > b.value))))
  }

  lemma TrimBlank(s: string)
    ensures Trim(s) == "" <==> Blank(s)
  {
    TrimStrips(s);
    var n: nat :| StrippedAt(s, Trim(s), n);
    StrippedBlank(s, Trim(s), n);
    hide *;
  }

  lemma SymbolAnswers(op: string, l: string, r: string, numbers: Numbers)
    requires IsSymbol(op)
    ensures SymbolAnswer(op, l, r, numbers, CompareSymbol(op, l, r, numbers))
  {
    TrimBlank(l);
    TrimBlank(r);
    hide Trim, Blank;
  }

  lemma SingleIsAtom(condition: string, numbers: Numbers)
    requires Trim(condition) != "" && !Joined(Trim(condition))
    ensures Evaluate(condition, numbers) == Atom(Trim(condition), numbers)
  {
    var source := Trim(condition);
    ConditionMeaning.JoinersStructural();
    ConditionMeaning.DetectedMeans(source, OR);
    ConditionMeaning.DetectedMeans(source, AND);
    hide Trim, Atom, Split, Lower, Mask, FirstAt, SplitJoined;
  }

  lemma AtomOfWord(source: string, op: string, at: nat, numbers: Numbers)
    requires FindWordOperator(source) == Some(WordMatch(op, at)) && at <= |source|
    ensures var right := From(source, at + |op| + 1);
      Atom(source, numbers) == if op in {"exists", "does not exist"} && Trim(right) != ""
        then Unreadable(TrailingText(op))
                               else Value(ApplyWord(op, source[..at], right))
  {
    hide FindWordOperator, ApplyWord, FindSymbol, CompareSymbol, Trim;
  }

  lemma AtomOfSymbol(source: string, op: string, at: nat, numbers: Numbers)
    requires FindWordOperator(source).None? && FindSymbol(Mask(source), SYMBOLS) == Some(SymbolMatch(op, at))
    requires at + |op| <= |source|
    ensures Atom(source, numbers) == CompareSymbol(op, Unquote(source[..at]), Unquote(source[at + |op|..]), numbers)
  {
    hide FindWordOperator, ApplyWord, FindSymbol, CompareSymbol, Trim, Unquote;
  }

  /** What a joined condition asks of each of its parts is what the part says alone. */
  lemma PartIsComparison(part: string, numbers: Numbers)
    requires !Joined(Trim(part))
    ensures ConditionMeaning.AtomOf(part, numbers) == Evaluate(part, numbers)
  {
    if Trim(part) != "" {
      SingleIsAtom(part, numbers);
    }
    hide Joined, Trim, Atom, SplitJoined, EvaluateAll;
  }

  /** A text whose operator is a word. */
  lemma WordMeans(condition: string, op: string, at: nat, l: string, r: string, numbers: Numbers)
    requires var source := Trim(condition);
      && source != "" && !Joined(source) && IsWord(op) && FirstWord(source, op, at)
      && at + |op| <= |source| && ReadsAs(source[..at], l)
      && ReadsAs(From(source, at + |op| + 1), r)
    ensures var source := Trim(condition);
      var right := From(source, at + |op| + 1);
      var v := Evaluate(condition, numbers);
      if op in {"exists", "does not exist"} && !Blank(right) then v == Unreadable(TrailingText(op))
      else v.Value? && WordAnswer(op, l, r, right, v.value)
  {
    hide *;
    var source := Trim(condition);
    var left, right := source[..at], From(source, at + |op| + 1);
    WordExactly(source);
    AtomOfWord(source, op, at, numbers);
    SingleIsAtom(condition, numbers);
    TrimBlank(right);
    WordAnswers(op, left, right, l, r);
  }

  /** A text whose operator is a symbol. */
  lemma SymbolMeans(condition: string, op: string, at: nat, l: string, r: string, numbers: Numbers)
    requires var source := Trim(condition);
      && source != "" && !Joined(source) && NoWord(source) && IsSymbol(op) && FirstSymbol(source, op, at)
      && at + |op| <= |source| && ReadsAs(source[..at], l) && ReadsAs(source[at + |op|..], r)
    ensures SymbolAnswer(op, l, r, numbers, Evaluate(condition, numbers))
  {
    hide *;
    var source := Trim(condition);
    WordExactly(source);
    SymbolExactly(source);
    AtomOfSymbol(source, op, at, numbers);
    SingleIsAtom(condition, numbers);
    UnquoteExactly(source[..at], l);
    UnquoteExactly(source[at + |op|..], r);
    SymbolAnswers(op, l, r, numbers);
  }

  /** What counts as no. */
  predicate SaysNo(l: string) {
    SameLetters(l, "") || SameLetters(l, "false") || SameLetters(l, "0") || SameLetters(l, "null")
    || SameLetters(l, "undefined")
  }

  /** A text without an operator asks whether there is anything to it. */
  lemma PlainMeans(condition: string, l: string, numbers: Numbers)
    requires var source := Trim(condition);
      source != "" && !Joined(source) && NoWord(source) && NoSymbol(source) && ReadsAs(source, l)
    ensures Evaluate(condition, numbers) == Value(!SaysNo(l))
  {
    var source := Trim(condition);
    WordExactly(source);
    SymbolExactly(source);
    SingleIsAtom(condition, numbers);
    UnquoteExactly(source, l);
    SaysNoExactly(l);
    hide FindWordOperator, FindSymbol, Trim, Evaluate, Joined, NoWord, NoSymbol, ReadsAs, Unquote, SaysNo,
      CompareSymbol, ApplyWord, Mask, Lower;
  }

  lemma SaysNoExactly(l: string)
    ensures SaysNo(l) <==> Lower(l) in {"", "false", "0", "null", "undefined"}
  {
    SameLettersExactly(l, "");
    SameLettersExactly(l, "false");
    SameLettersExactly(l, "0");
    SameLettersExactly(l, "null");
    SameLettersExactly(l, "undefined");
    assert Lower("") == "" && Lower("false") == "false" && Lower("0") == "0";
    assert Lower("null") == "null" && Lower("undefined") == "undefined";
    hide SameLetters, Lower;
  }

  // ---- a comparison as it is written down ----

  predicate SymbolChar(c: char) {
    c == '=' || c == '<' || c == '>' || c == '!'
  }

  /** No quote is left open, and no symbol stands outside quotes. */
  predicate Operand(s: string) {
    OpenAt(s, |s|).None? && forall c :: c in Mask(s) ==> !SymbolChar(c)
  }

  lemma MaskConcat(a: string, b: string)
    requires OpenAt(a, |a|).None?
    ensures Mask(a + b) == Mask(a) + Mask(b)
    ensures OpenAt(a + b, |a + b|) == OpenAt(b, |b|)
  {
    var s := a + b;
    assert s[..|a|] == a && s[|a|..] == b;
    assert CleanSlice(s, 0, a);
    OpenInSlice(s, 0, a, |a|);
    assert CleanSlice(s, |a|, b);
    OpenInSlice(s, |a|, b, |b|);
    MaskOfSlice(s, 0, a);
    MaskOfSlice(s, |a|, b);
    hide Mask, OpenAt;
    assert Mask(s) == Mask(s)[0..0 + |a|] + Mask(s)[|a|..|a| + |b|];
  }

  lemma SymbolFacts(op: string)
    requires IsSymbol(op)
    ensures op != "" && |op| <= 2 && forall c :: c in op ==> SymbolChar(c) && !IsSpace(c) && !IsQuote(c)
    ensures Mask(op) == op && OpenAt(op, |op|).None?
  {
    assert forall c :: SymbolChar(c) ==> !IsQuote(c) && !IsSpace(c);
    hide IsSpace;
    NoQuoteMask(op);
  }

  lemma {:induction false} NoQuoteOpen(s: string, i: nat)
    requires i <= |s| && forall c :: c in s ==> !IsQuote(c)
    ensures OpenAt(s, i).None?
  {
    if i > 0 {
      NoQuoteOpen(s, i - 1);
      assert s[i - 1] in s;
    }
  }

  lemma NoQuoteMask(s: string)
    requires forall c :: c in s ==> !IsQuote(c)
    ensures Mask(s) == s && OpenAt(s, |s|).None?
  {
    forall i | 0 <= i <= |s|
      ensures OpenAt(s, i).None?
    {
      NoQuoteOpen(s, i);
    }
  }

  /** Among operands, a symbol is found only inside the symbol that was written. */
  lemma FoundInside(a: string, op: string, b: string, w: string, i: nat)
    requires (forall c :: c in a ==> !SymbolChar(c)) && (forall c :: c in b ==> !SymbolChar(c))
    requires w != "" && forall c :: c in w ==> SymbolChar(c)
    requires Texts.At(a + op + b, i, w)
    ensures |a| <= i && i + |w| <= |a| + |op| && op[i - |a|..i - |a| + |w|] == w
  {
    var s := a + op + b;
    hide SymbolChar;
    assert s[i] == w[0] && w[0] in w;
    assert forall k :: 0 <= k < |a| ==> s[k] == a[k] && a[k] in a;
    var last := i + |w| - 1;
    assert s[last] == w[|w| - 1] && w[|w| - 1] in w;
    assert forall k :: |a| + |op| <= k < |s| ==> s[k] == b[k - |a| - |op|] && b[k - |a| - |op|] in b;
    assert s[i..i + |w|] == op[i - |a|..i - |a| + |w|];
  }

  lemma SymbolParts(op: string, w: string, i: nat)
    requires IsSymbol(op) && IsSymbol(w) && i + |w| <= |op| && op[i..i + |w|] == w
    ensures w == op ==> i == 0
    ensures w != op ==> |op| == 2 && |w| == 1
  {
  }

  lemma SymbolOrder()
    ensures SYMBOLS[0] == ">=" && SYMBOLS[1] == "<=" && SYMBOLS[2] == "!=" && SYMBOLS[3] == "=" && SYMBOLS[4] == ">"
    ensures SYMBOLS[5] == "<" && |SYMBOLS| == 6
  {
  }

  lemma SymbolAtItsPlace(a: string, op: string, b: string)
    requires IsSymbol(op)
    requires (forall c :: c in a ==> !SymbolChar(c)) && (forall c :: c in b ==> !SymbolChar(c))
    ensures FirstAt(a + op + b, op, 0) == Some(|a|)
    ensures exists k: nat :: SymbolsBefore(a + op + b, k) && SYMBOLS[k] == op
  {
    var s := a + op + b;
    SymbolOrder();
    assert Texts.At(s, |a|, op);
    forall w, i: nat | IsSymbol(w) && Texts.At(s, i, w)
      ensures w == op ==> i == |a|
      ensures w != op ==> |op| == 2 && |w| == 1
    {
      SymbolFacts(w);
      FoundInside(a, op, b, w, i);
      SymbolParts(op, w, i - |a|);
    }
    hide Texts.At, SymbolChar;
    var k: nat :| k < 6 && SYMBOLS[k] == op;
    forall j | 0 <= j < k
      ensures FirstAt(s, SYMBOLS[j], 0).None?
    {
      assert IsSymbol(SYMBOLS[j]) && SYMBOLS[j] != op;
      assert |op| == 2 ==> |SYMBOLS[j]| == 2;
    }
    assert SymbolsBefore(s, k);
  }

  lemma TrimAround(left: string, op: string, right: string)
    requires IsSymbol(op)
    ensures Trim(left + op + right) == TrimStart(left) + op + TrimEnd(right)
  {
    hide *;
    var n := TrimStartSlice(left);
    SymbolFacts(op);
    TrimEndRest(right);
    TrimEndPrefix(right);
    StartClear(left);
    AroundStrips(left, op, right, n, TrimStart(left), TrimEnd(right));
    StrippedFrom(left + op + right, TrimStart(left) + op + TrimEnd(right), n);
    TrimExactly(left + op + right, TrimStart(left) + op + TrimEnd(right));
  }

  lemma StartClear(s: string)
    ensures TrimStart(s) != "" ==> !IsSpace(TrimStart(s)[0])
    ensures TrimEnd(s) != "" ==> !IsSpace(TrimEnd(s)[|TrimEnd(s)| - 1])
  {
  }

  lemma AroundStrips(left: string, op: string, right: string, n: nat, ls: string, rs: string)
    requires op != "" && !IsSpace(op[0]) && !IsSpace(op[|op| - 1])
    requires n + |ls| == |left| && left[n..] == ls && (forall i :: 0 <= i < n ==> IsSpace(left[i]))
    requires ls != "" ==> !IsSpace(ls[0])
    requires |rs| <= |right| && right[..|rs|] == rs && (forall i :: |rs| <= i < |right| ==> IsSpace(right[i]))
    requires rs != "" ==> !IsSpace(rs[|rs| - 1])
    ensures StrippedAt(left + op + right, ls + op + rs, n)
  {
    hide IsSpace;
    var s, t := left + op + right, ls + op + rs;
    assert left == left[..n] + ls && right == rs + right[|rs|..];
    assert s[n..n + |t|] == t;
    forall i | n + |t| <= i < |s|
      ensures IsSpace(s[i])
    {
      assert s[i] == right[i - |left| - |op|];
    }
  }

  /** Taking blanks off an operand changes neither what it reads as nor what is visible of it. */
  lemma StartOperand(left: string)
    requires Operand(left)
    ensures Operand(TrimStart(left)) && Trim(TrimStart(left)) == Trim(left)
  {
    hide *;
    var n := TrimStartSlice(left);
    SpacesKeepClosed(left, n);
    var ls := TrimStart(left);
    TrimOfStart(left);
    assert left[n..n + |ls|] == ls;
    SliceIsClean(left, n, ls);
    OpenInSlice(left, n, ls, |ls|);
    MaskOfSlice(left, n, ls);
    OperandMeans(left);
    OperandMeans(ls);
    assert forall c :: c in Mask(ls) ==> c in Mask(left);
  }

  lemma SliceIsClean(s: string, start: nat, part: string)
    requires start + |part| <= |s| && s[start..start + |part|] == part && OpenAt(s, start).None?
    ensures CleanSlice(s, start, part)
  {
    hide OpenAt;
  }

  lemma TrimOfStart(s: string)
    ensures Trim(TrimStart(s)) == Trim(s)
  {
    assert TrimStart(TrimStart(s)) == TrimStart(s);
    hide IsSpace, TrimEnd, TrimStart;
  }

  lemma EndOperand(right: string)
    requires Operand(right)
    ensures (forall c :: c in Mask(TrimEnd(right)) ==> !SymbolChar(c)) && Trim(TrimEnd(right)) == Trim(right)
  {
    var rs := TrimEnd(right);
    TrimEndPrefix(right);
    assert right[0..0 + |rs|] == rs;
    OpenAtStart(right);
    MaskOfSlice(right, 0, rs);
    TrimEndFirst(right);
    hide Mask, OpenAt, TrimEnd, Trim;
    assert forall c :: c in Mask(rs) ==> c in Mask(right);
  }

  lemma StrippedWhere(s: string, t: string) returns (n: nat)
    requires Stripped(s, t)
    ensures StrippedAt(s, t, n)
  {
    n :| StrippedAt(s, t, n);
  }

  lemma TrimEndFirst(s: string)
    ensures Trim(TrimEnd(s)) == Trim(s)
  {
    hide *;
    TrimStrips(s);
    var n := StrippedWhere(s, Trim(s));
    TrimEndRest(s);
    StartClear(s);
    TrimEndPrefix(s);
    StrippedPrefix(s, Trim(s), n, TrimEnd(s));
    TrimExactly(TrimEnd(s), Trim(s));
  }

  lemma StrippedPrefix(s: string, t: string, n: nat, front: string)
    requires StrippedAt(s, t, n) && |front| <= |s| && s[..|front|] == front
    requires front != "" ==> !IsSpace(front[|front| - 1])
    requires forall i :: |front| <= i < |s| ==> IsSpace(s[i])
    ensures Stripped(front, t)
  {
    hide IsSpace;
    StrippedBlank(s, t, n);
    assert front != "" ==> front[|front| - 1] == s[|front| - 1];
    if t == "" {
      assert StrippedAt(front, t, 0);
    } else {
      assert n + |t| <= |front|;
      assert front[n..n + |t|] == t;
      assert StrippedAt(front, t, n);
    }
  }

  lemma SameReading(a: string, b: string, value: string)
    requires Trim(a) == Trim(b) && ReadsAs(a, value)
    ensures ReadsAs(b, value)
  {
    UnquoteExactly(a, value);
    UnquoteExactly(b, value);
    hide ReadsAs, Trim;
  }

  /**
   * left, a symbol, right, with nothing else of the language outside quotes:
   * whatever else stands inside quotes, the two values are compared by it.
   */
  lemma WrittenComparison(left: string, op: string, right: string, l: string, r: string, numbers: Numbers)
    requires IsSymbol(op) && Operand(left) && Operand(right) && ReadsAs(left, l) && ReadsAs(right, r)
    requires var source := Trim(left + op + right); !Joined(source) && NoWord(source)
    ensures SymbolAnswer(op, l, r, numbers, Evaluate(left + op + right, numbers))
  {
    hide *;
    var ls, rs := TrimStart(left), TrimEnd(right);
    var source := ls + op + rs;
    TrimAround(left, op, right);
    StartOperand(left);
    EndOperand(right);
    SameReading(left, ls, l);
    SameReading(right, rs, r);
    OperandMeans(ls);
    MaskedParts(ls, op, rs);
    SymbolFacts(op);
    SymbolAtItsPlace(Mask(ls), op, Mask(rs));
    FirstSymbolFrom(source, op, |ls|);
    assert source[..|ls|] == ls && source[|ls| + |op|..] == rs;
    SymbolMeans(left + op + right, op, |ls|, l, r, numbers);
  }

  lemma OperandMeans(s: string)
    ensures Operand(s) <==> OpenAt(s, |s|).None? && forall c :: c in Mask(s) ==> !SymbolChar(c)
  {
  }

  lemma MaskedParts(ls: string, op: string, rs: string)
    requires OpenAt(ls, |ls|).None? && IsSymbol(op)
    ensures Mask(ls + op + rs) == Mask(ls) + op + Mask(rs)
  {
    SymbolFacts(op);
    MaskConcat(ls, op);
    MaskConcat(ls + op, rs);
    hide Mask, OpenAt;
  }

  lemma FirstSymbolFrom(source: string, op: string, at: nat)
    requires FirstAt(Mask(source), op, 0) == Some(at)
    requires exists k: nat :: SymbolsBefore(Mask(source), k) && SYMBOLS[k] == op
    ensures FirstSymbol(source, op, at)
  {
  }

  // ---- which texts cannot be read ----

  predicate IsUnaryWord(op: string) {
    op == "exists" || op == "does not exist"
  }

  predicate IsOrdering(op: string) {
    op in {">", "<", ">=", "<="}
  }

  /** Something stands behind a word that takes nothing after it. */
  ghost predicate TrailsText(source: string, op: string, at: nat) {
    FirstWord(source, op, at) && IsUnaryWord(op) && !Blank(From(source, at + |op| + 1))
  }

  /** An ordering symbol decides the text, between these two values. */
  ghost predicate Orders(source: string, op: string, at: nat, l: string, r: string) {
    && NoWord(source) && IsOrdering(op) && FirstSymbol(source, op, at)
    && at + |op| <= |source| && ReadsAs(source[..at], l) && ReadsAs(source[at + |op|..], r)
  }

  ghost predicate Lopsided(source: string, op: string) {
    exists at: nat, l, r :: Orders(source, op, at, l, r) && (Blank(l) || Blank(r))
  }

  ghost predicate Uncounted(source: string, op: string, numbers: Numbers) {
    exists at: nat, l, r :: Orders(source, op, at, l, r) && !Blank(l) && !Blank(r)
      && (numbers(l).None? || numbers(r).None?)
  }

  /** Why a single comparison cannot be read, if it cannot. */
  ghost predicate Defective(source: string, numbers: Numbers, reason: Reason) {
    match reason
    case EmptyCondition => source == ""
    case TrailingText(op) => source != "" && exists at: nat :: TrailsText(source, op, at)
    case EmptySide(op) => source != "" && Lopsided(source, op)
    case NotNumbers(op) => source != "" && Uncounted(source, op, numbers)
  }

  lemma WordPlace(source: string, op: string, at: nat)
    requires FirstWord(source, op, at)
    ensures IsWord(op) && at + |op| <= |source|
  {
    TheTenWords();
    assert op in WORDS;
    hide FirstAt;
    var k: nat :| Operators.FirstOf(Padded(source), WORDS, k) && WORDS[k] == op
        && FirstAt(Padded(source), " " + op + " ", 0) == Some(at);
    assert op != "";
    assert Haystack(source) == Padded(source);
    Operators.HaystackAt(source, op, at);
  }

  lemma SymbolPlace(source: string, op: string, at: nat)
    requires FirstSymbol(source, op, at)
    ensures IsSymbol(op) && at + |op| <= |source|
  {
    assert op in SYMBOLS;
    hide FirstAt, Mask;
  }

  lemma ReadByWord(condition: string, numbers: Numbers, op: string, at: nat, reason: Reason)
    requires Trim(condition) != "" && !Joined(Trim(condition)) && FirstWord(Trim(condition), op, at)
    ensures var v := Evaluate(condition, numbers);
      && !v.Diverges?
      && (v == Unreadable(reason) <==> TrailsText(Trim(condition), op, at) && reason == TrailingText(op))
  {
    hide *;
    var source := Trim(condition);
    WordPlace(source, op, at);
    var left, right := source[..at], From(source, at + |op| + 1);
    UnquoteExactly(left, Unquote(left));
    UnquoteExactly(right, Unquote(right));
    WordMeans(condition, op, at, Unquote(left), Unquote(right), numbers);
    TrailsMeans(source, op, at);
  }

  lemma TrailsMeans(source: string, op: string, at: nat)
    requires FirstWord(source, op, at)
    ensures TrailsText(source, op, at) <==>
      op in {"exists", "does not exist"} && !Blank(From(source, at + |op| + 1))
  {
    hide FirstWord, Blank, From;
  }

  lemma ReadBySymbol(condition: string, numbers: Numbers, op: string, at: nat, reason: Reason)
    requires var source := Trim(condition);
      source != "" && !Joined(source) && NoWord(source) && FirstSymbol(source, op, at)
    ensures var source, v := Trim(condition), Evaluate(condition, numbers);
      && !v.Diverges?
      && (v == Unreadable(reason) <==>
            (Lopsided(source, op) && reason == EmptySide(op))
            || (Uncounted(source, op, numbers) && reason == NotNumbers(op)))
  {
    hide *;
    var source := Trim(condition);
    SymbolPlace(source, op, at);
    var l, r := Unquote(source[..at]), Unquote(source[at + |op|..]);
    UnquoteExactly(source[..at], l);
    UnquoteExactly(source[at + |op|..], r);
    SymbolMeans(condition, op, at, l, r, numbers);
    OrderedBy(source, op, at, l, r, numbers);
    AnswerUnreadable(op, l, r, numbers, Evaluate(condition, numbers), reason);
  }

  lemma AnswerUnreadable(op: string, l: string, r: string, numbers: Numbers, v: ConditionResult, reason: Reason)
    requires IsSymbol(op) && SymbolAnswer(op, l, r, numbers, v)
    ensures !v.Diverges?
    ensures v == Unreadable(reason) <==>
      IsOrdering(op) && (if Blank(l) || Blank(r) then reason == EmptySide(op)
                         else (numbers(l).None? || numbers(r).None?) && reason == NotNumbers(op))
  {
    hide Blank;
  }

  lemma OrderedBy(source: string, op: string, at: nat, l: string, r: string, numbers: Numbers)
    requires NoWord(source) && FirstSymbol(source, op, at) && at + |op| <= |source|
    requires ReadsAs(source[..at], l) && ReadsAs(source[at + |op|..], r)
    ensures Lopsided(source, op) <==> IsOrdering(op) && (Blank(l) || Blank(r))
    ensures Uncounted(source, op, numbers) <==>
      IsOrdering(op) && !Blank(l) && !Blank(r) && (numbers(l).None? || numbers(r).None?)
  {
    hide Orders, NoWord, FirstSymbol, ReadsAs, Blank, IsOrdering;
    OrdersHere(source, op, at, l, r);
    forall at': nat, l', r' | Orders(source, op, at', l', r')
      ensures at' == at && l' == l && r' == r
    {
      OrdersOnce(source, op, at, l, r, at', l', r');
    }
  }

  lemma OrdersHere(source: string, op: string, at: nat, l: string, r: string)
    requires NoWord(source) && FirstSymbol(source, op, at) && at + |op| <= |source|
    requires ReadsAs(source[..at], l) && ReadsAs(source[at + |op|..], r)
    ensures Orders(source, op, at, l, r) <==> IsOrdering(op)
    ensures forall at': nat, l', r' :: Orders(source, op, at', l', r') ==> IsOrdering(op)
  {
    hide NoWord, FirstSymbol, ReadsAs, IsOrdering;
  }

  lemma OrdersOnce(source: string, op: string, at: nat, l: string, r: string, at': nat, l': string, r': string)
    requires FirstSymbol(source, op, at) && at + |op| <= |source|
    requires ReadsAs(source[..at], l) && ReadsAs(source[at + |op|..], r)
    requires Orders(source, op, at', l', r')
    ensures at' == at && l' == l && r' == r
  {
    hide ReadsAs, NoWord, IsOrdering, Unquote, FirstSymbol, FindSymbol, Mask;
    SymbolExactly(source);
    assert at' == at;
    UnquoteExactly(source[..at], l);
    UnquoteExactly(source[at + |op|..], r);
    UnquoteExactly(source[..at], l');
    UnquoteExactly(source[at + |op|..], r');
  }

  /** A single comparison always has an answer, and each refusal has exactly its texts. */
  lemma UnreadableExactly(condition: string, numbers: Numbers, reason: Reason)
    requires !Joined(Trim(condition))
    ensures !Evaluate(condition, numbers).Diverges?
    ensures Evaluate(condition, numbers) == Unreadable(reason) <==> Defective(Trim(condition), numbers, reason)
  {
    hide *;
    var source := Trim(condition);
    DefectMeans(source, numbers, reason);
    WordExactly(source);
    SymbolExactly(source);
    if source == "" {
      EmptyIsUnreadable(condition, numbers);
    } else if FindWordOperator(source).Some? {
      var m := FindWordOperator(source).value;
      assert FindWordOperator(source) == Some(WordMatch(m.op, m.at));
      ReadByWord(condition, numbers, m.op, m.at, reason);
      WordDefects(source, numbers, reason, m.op, m.at);
    } else if FindSymbol(Mask(source), SYMBOLS).Some? {
      var m := FindSymbol(Mask(source), SYMBOLS).value;
      assert FindSymbol(Mask(source), SYMBOLS) == Some(SymbolMatch(m.op, m.at));
      ReadBySymbol(condition, numbers, m.op, m.at, reason);
      SymbolDefects(source, numbers, reason, m.op, m.at);
    } else {
      UnquoteExactly(source, Unquote(source));
      PlainMeans(condition, Unquote(source), numbers);
      NoDefects(source, numbers, reason);
    }
  }

  lemma EmptyIsUnreadable(condition: string, numbers: Numbers)
    requires Trim(condition) == ""
    ensures Evaluate(condition, numbers) == Unreadable(EmptyCondition)
  {
  }

  lemma DefectMeans(source: string, numbers: Numbers, reason: Reason)
    ensures source == "" ==> (Defective(source, numbers, reason) <==> reason == EmptyCondition)
  {
    hide TrailsText, Lopsided, Uncounted;
  }

  lemma WordDefects(source: string, numbers: Numbers, reason: Reason, op: string, at: nat)
    requires source != "" && FirstWord(source, op, at)
    ensures Defective(source, numbers, reason) <==> TrailsText(source, op, at) && reason == TrailingText(op)
  {
    FirstWordStands(source, op, at);
    forall op', at'
      ensures FirstWord(source, op', at') <==> op' == op && at' == at
    {
      FirstWordOnce(source, op', at', op, at);
    }
    hide FirstWord, NoWord, FirstSymbol, ReadsAs, Blank, From;
  }

  lemma SymbolDefects(source: string, numbers: Numbers, reason: Reason, op: string, at: nat)
    requires source != "" && NoWord(source) && FirstSymbol(source, op, at)
    ensures Defective(source, numbers, reason) <==>
      (Lopsided(source, op) && reason == EmptySide(op)) || (Uncounted(source, op, numbers) && reason == NotNumbers(op))
  {
    SymbolExactly(source);
    WordExactly(source);
    hide NoWord, FirstSymbol, FirstWord, FindSymbol, FindWordOperator, ReadsAs, Blank, From, Mask;
  }

  lemma NoDefects(source: string, numbers: Numbers, reason: Reason)
    requires source != "" && NoWord(source) && NoSymbol(source)
    ensures !Defective(source, numbers, reason)
  {
    SymbolExactly(source);
    WordExactly(source);
    hide NoWord, NoSymbol, FirstSymbol, FirstWord, FindSymbol, FindWordOperator, ReadsAs, Blank, From, Mask;
  }
}
