// Structure is only ever found outside quoted spans.
module Quoting {
  import opened Options
  import opened Texts

  predicate IsQuote(c: char) {
    c == '"' || c == '\''
  }

  /** The quote open after one more character. */
  function Step(open: Option<char>, c: char): Option<char> {
    match open
    case Some(q) => if c == q then None else open
    case None => if IsQuote(c) then Some(c) else None
  }

  /** The quote open before position i. */
  function OpenAt(s: string, i: nat): Option<char>
    requires i <= |s|
  {
    if i == 0 then None else Step(OpenAt(s, i - 1), s[i - 1])
  }

  lemma OpenAtStart(s: string)
    ensures OpenAt(s, 0).None?
  {
  }

  function MaskChar(open: Option<char>, c: char): char {
    if open.Some? && c != open.value then ' ' else c
  }

  /** The contents of quoted spans blanked; same length, quotes kept. */
  function Mask(s: string): (r: string)
    ensures |r| == |s|
  {
    seq(|s|, i requires 0 <= i < |s| => MaskChar(OpenAt(s, i), s[i]))
  }

  lemma Masked(s: string, i: nat)
    requires i < |s|
    ensures Mask(s)[i] == MaskChar(OpenAt(s, i), s[i])
  {
  }

  method MaskQuoted(source: string) returns (masked: string)
    ensures masked == Mask(source)
  {
    masked := "";
    var quote: Option<char> := None;
    for i := 0 to |source|
      invariant |masked| == i && quote == OpenAt(source, i)
      invariant forall k :: 0 <= k < i ==> masked[k] == Mask(source)[k]
    {
      var c := source[i];
      Masked(source, i);
      if quote.Some? {
        masked := masked + [if c == quote.value then c else ' '];
        if c == quote.value {
          quote := None;
        }
      } else if IsQuote(c) {
        quote := Some(c);
        masked := masked + [c];
      } else {
        masked := masked + [c];
      }
    }
  }

  // ---- which characters are quoted ----

  /** A quote mark that opens a span at j, with no mark of its own kind from there to i. */
  predicate Opens(s: string, j: nat, q: char, i: nat)
    requires i <= |s|
  {
    j < i && s[j] == q && (q == '"' || q == '\'') && OpenAt(s, j).None? && forall k :: j < k < i ==> s[k] != q
  }

  /** A span runs from a quote mark outside any other span to the next mark of the same kind. */
  lemma {:induction false} OpenExactly(s: string, i: nat, q: char)
    requires i <= |s|
    ensures OpenAt(s, i) == Some(q) <==> exists j: nat :: Opens(s, j, q, i)
  {
    if i > 0 {
      OpenExactly(s, i - 1, q);
      if OpenAt(s, i) == Some(q) {
        if OpenAt(s, i - 1) == Some(q) {
          var j: nat :| Opens(s, j, q, i - 1);
          assert Opens(s, j, q, i);
        } else {
          assert Opens(s, i - 1, q, i);
        }
      }
      if j: nat :| Opens(s, j, q, i) {
        assert j < i - 1 ==> Opens(s, j, q, i - 1);
      }
    }
  }

  /** Exactly what is inside a span, its marks aside, is blanked. */
  lemma MaskExactly(s: string, i: nat)
    requires i < |s|
    ensures Mask(s)[i] == if exists j: nat, q :: Opens(s, j, q, i) && s[i] != q then ' ' else s[i]
  {
    Masked(s, i);
    forall j: nat, q | Opens(s, j, q, i)
      ensures OpenAt(s, i) == Some(q)
    {
      OpenExactly(s, i, q);
    }
    if OpenAt(s, i).Some? {
      var open := OpenAt(s, i).value;
      OpenExactly(s, i, open);
      var j: nat :| Opens(s, j, open, i);
    }
    hide OpenAt, Opens, Mask;
  }

  // ---- searching ----

  /** A separator or operator: no quote in it, and not all blanks. */
  predicate Structural(t: string) {
    (forall c :: c in t ==> !IsQuote(c)) && exists i :: 0 <= i < |t| && t[i] != ' '
  }

  predicate Outside(s: string, i: nat) {
    i < |s| && OpenAt(s, i).None? && !IsQuote(s[i])
  }

  /** A masked character that is neither a blank nor a quote is the original one, outside quotes. */
  lemma SeenIsOutside(s: string, i: nat)
    requires i < |s| && Mask(s)[i] != ' ' && !IsQuote(Mask(s)[i])
    ensures Outside(s, i) && s[i] == Mask(s)[i]
  {
    OpenIsQuote(s, i);
    Masked(s, i);
  }

  lemma {:induction false} OpenIsQuote(s: string, i: nat)
    requires i <= |s|
    ensures OpenAt(s, i).Some? ==> IsQuote(OpenAt(s, i).value)
  {
    if i > 0 {
      OpenIsQuote(s, i - 1);
    }
  }

  lemma NextOutside(s: string, i: nat)
    requires Outside(s, i) && i + 1 < |s| && !IsQuote(Mask(s)[i + 1])
    ensures Outside(s, i + 1) && Mask(s)[i + 1] == s[i + 1]
  {
    assert OpenAt(s, i + 1) == Step(OpenAt(s, i), s[i]);
    Masked(s, i + 1);
  }

  lemma PreviousOutside(s: string, i: nat)
    requires i + 1 < |s| && Outside(s, i + 1) && !IsQuote(Mask(s)[i])
    ensures Outside(s, i) && Mask(s)[i] == s[i]
  {
    OpenIsQuote(s, i);
    Masked(s, i);
    assert OpenAt(s, i + 1) == Step(OpenAt(s, i), s[i]);
  }

  lemma OutsideUnmasked(s: string, i: nat)
    requires Outside(s, i)
    ensures Mask(s)[i] == s[i]
  {
    Masked(s, i);
  }

  lemma {:induction false} OutsideAfter(s: string, i: nat, k: nat)
    requires Outside(s, i) && i <= k < |s|
    requires forall j :: i <= j <= k ==> !IsQuote(Mask(s)[j])
    ensures forall j :: i <= j <= k ==> Outside(s, j) && s[j] == Mask(s)[j]
    decreases k
  {
    hide Mask;
    hide OpenAt;
    hide IsQuote;
    OutsideUnmasked(s, i);
    if i < k {
      OutsideAfter(s, i, k - 1);
      NextOutside(s, k - 1);
    }
  }

  lemma {:induction false} OutsideBefore(s: string, i: nat, k: nat)
    requires i <= k < |s| && Outside(s, k)
    requires forall j :: i <= j <= k ==> !IsQuote(Mask(s)[j])
    ensures forall j :: i <= j <= k ==> Outside(s, j) && s[j] == Mask(s)[j]
    decreases k - i
  {
    hide Mask;
    hide OpenAt;
    hide IsQuote;
    OutsideUnmasked(s, k);
    if i < k {
      PreviousOutside(s, k - 1);
      OutsideBefore(s, i, k - 1);
    }
  }

  /** What is found on the masked text is a literal match, wholly outside quotes. */
  lemma MatchIsLiteral(s: string, i: nat, t: string)
    requires Structural(t) && Texts.At(Mask(s), i, t)
    ensures Texts.At(s, i, t)
    ensures forall j :: i <= j < i + |t| ==> Outside(s, j)
    ensures OpenAt(s, i).None? && OpenAt(s, i + |t|).None?
  {
    var m := Mask(s);
    var p :| 0 <= p < |t| && t[p] != ' ';
    AtMeans(m, i, t);
    AtMeans(s, i, t);
    hide Mask;
    forall j | i <= j < i + |t|
      ensures m[j] == t[j - i] && !IsQuote(m[j])
    {
      assert m[i + (j - i)] == t[j - i];
      assert t[j - i] in t;
    }
    hide IsQuote;
    hide Texts.At;
    SeenIsOutside(s, i + p);
    OutsideBefore(s, i, i + p);
    OutsideAfter(s, i + p, i + |t| - 1);
    forall j | 0 <= j < |t|
      ensures s[i + j] == t[j]
    {
      assert m[i + j] == t[j];
    }
    AfterOutside(s, i + |t| - 1);
  }

  lemma AfterOutside(s: string, i: nat)
    requires Outside(s, i)
    ensures OpenAt(s, i + 1).None?
  {
    assert OpenAt(s, i + 1) == Step(OpenAt(s, i), s[i]);
  }

  // ---- clean slices ----

  /** A stretch of the source that starts outside quotes. */
  predicate CleanSlice(s: string, start: nat, part: string) {
    start + |part| <= |s| && s[start..start + |part|] == part && OpenAt(s, start).None?
  }

  lemma {:induction false} OpenInSlice(s: string, start: nat, part: string, i: nat)
    requires CleanSlice(s, start, part) && i <= |part|
    ensures OpenAt(part, i) == OpenAt(s, start + i)
  {
    if i > 0 {
      OpenInSlice(s, start, part, i - 1);
      assert part[i - 1] == s[start + i - 1];
    }
  }

  /** Masking commutes with taking clean slices. */
  lemma MaskOfSlice(s: string, start: nat, part: string)
    requires CleanSlice(s, start, part)
    ensures Mask(part) == Mask(s)[start..start + |part|]
  {
    forall i | 0 <= i < |part|
      ensures Mask(part)[i] == Mask(s)[start + i]
    {
      OpenInSlice(s, start, part, i);
      Masked(part, i);
      Masked(s, start + i);
      assert part[i] == s[start + i];
    }
    hide Mask;
    var w := Mask(s)[start..start + |part|];
    assert forall i :: 0 <= i < |part| ==> w[i] == Mask(s)[start + i];
  }

  lemma SliceTrans(s: string, a: nat, part: string, b: nat, sub: string)
    requires CleanSlice(s, a, part) && CleanSlice(part, b, sub)
    ensures CleanSlice(s, a + b, sub)
  {
    OpenInSlice(s, a, part, b);
    var w := s[a + b..a + b + |sub|];
    forall j | 0 <= j < |sub|
      ensures w[j] == sub[j]
    {
      assert part[b + j] == s[a + (b + j)];
    }
    assert w == sub;
  }

  /** What occurs in a clean slice occurs in the source. */
  lemma OccursInSource(s: string, start: nat, part: string, i: nat, t: string)
    requires CleanSlice(s, start, part) && Texts.At(Mask(part), i, t)
    ensures Texts.At(Mask(s), start + i, t)
  {
    MaskOfSlice(s, start, part);
    hide Mask;
    hide OpenAt;
    AtMeans(Mask(part), i, t);
    AtMeans(Mask(s), start + i, t);
    hide Texts.At;
    forall j | 0 <= j < |t|
      ensures Mask(s)[start + i + j] == t[j]
    {
      assert Mask(part)[i + j] == t[j];
    }
  }

  lemma {:induction false} TrimStartSlice(s: string) returns (n: nat)
    ensures n + |TrimStart(s)| == |s| && s[n..] == TrimStart(s)
    ensures forall k :: 0 <= k < n ==> IsSpace(s[k])
  {
    if s != "" && IsSpace(s[0]) {
      var m := TrimStartSlice(s[1..]);
      n := m + 1;
      assert s[n..] == s[1..][m..];
      forall k | 0 <= k < n
        ensures IsSpace(s[k])
      {
        assert k > 0 ==> s[k] == s[1..][k - 1];
      }
    } else {
      n := 0;
    }
  }

  lemma {:induction false} SpacesKeepClosed(s: string, n: nat)
    requires n <= |s| && forall k :: 0 <= k < n ==> IsSpace(s[k])
    ensures OpenAt(s, n).None?
  {
    if n > 0 {
      SpacesKeepClosed(s, n - 1);
    }
  }

  lemma TrimEndPrefix(s: string)
    ensures |TrimEnd(s)| <= |s| && s[..|TrimEnd(s)|] == TrimEnd(s)
    ensures Trim(s) == TrimEnd(TrimStart(s))
  {
  }

  /** Trimming takes a clean slice. */
  lemma TrimIsClean(s: string) returns (n: nat)
    ensures CleanSlice(s, n, Trim(s))
  {
    n := TrimStartSlice(s);
    SpacesKeepClosed(s, n);
    TrimEndPrefix(TrimStart(s));
    hide *;
    SliceOfRest(s, n, TrimStart(s), Trim(s));
  }

  lemma SliceOfRest(s: string, n: nat, rest: string, part: string)
    requires n <= |s| && s[n..] == rest && |part| <= |rest| && rest[..|part|] == part && OpenAt(s, n).None?
    ensures CleanSlice(s, n, part)
  {
    hide OpenAt;
    assert s[n..n + |part|] == s[n..][..|part|];
  }

  // ---- splitting ----

  predicate Occurs(s: string, t: string) {
    FirstAt(Mask(s), t, 0).Some?
  }

  function Split(s: string, sep: string): (r: seq<string>)
    requires sep != ""
    ensures r != []
    decreases |s|
  {
    match FirstAt(Mask(s), sep, 0)
    case None => [s]
    case Some(p) => [s[..p]] + Split(s[p + |sep|..], sep)
  }

  method SplitUnquoted(source: string, sep: string) returns (parts: seq<string>)
    requires Structural(sep)
    ensures parts == Split(source, sep)
  {
    hide Mask;
    hide OpenAt;
    hide Split;
    var masked := MaskQuoted(source);
    parts := [];
    var start: nat, i: nat := 0, 0;
    OpenAtStart(source);
    assert source[0..] == source;
    while i < |masked|
      invariant start <= i && (i <= |masked| || start == i == |masked|)
      invariant start <= |source| && OpenAt(source, start).None?
      invariant Split(source, sep) == parts + Split(source[start..], sep)
      invariant forall k: nat :: start <= k < i ==> !Texts.At(masked, k, sep)
      decreases |masked| - i
    {
      if Texts.At(masked, i, sep) {
        MatchIsLiteral(source, i, sep);
        SplitHere(source, sep, start, i);
        parts := parts + [source[start..i]];
        i := i + |sep|;
        start := i;
      } else {
        i := i + 1;
      }
    }
    SplitDone(source, sep, start);
    parts := parts + [source[start..]];
  }

  /** Past a closed quote, the rest masks as it does in place. */
  lemma RestMask(s: string, start: nat)
    requires start <= |s| && OpenAt(s, start).None?
    ensures CleanSlice(s, start, s[start..]) && Mask(s[start..]) == Mask(s)[start..]
  {
    assert s[start..start + |s[start..]|] == s[start..];
    MaskOfSlice(s, start, s[start..]);
  }

  lemma AtInRest(m: string, start: nat, k: nat, t: string)
    requires start <= |m|
    ensures Texts.At(m[start..], k, t) <==> Texts.At(m, start + k, t)
  {
    if k + |t| <= |m| - start {
      assert m[start..][k..k + |t|] == m[start + k..start + k + |t|];
    }
  }

  lemma FirstInRest(m: string, start: nat, i: nat, t: string)
    requires start <= i <= |m|
    requires Texts.At(m, i, t) && forall k: nat :: start <= k < i ==> !Texts.At(m, k, t)
    ensures FirstAt(m[start..], t, 0) == Some(i - start)
  {
    forall k: nat
      ensures Texts.At(m[start..], k, t) <==> Texts.At(m, start + k, t)
    {
      AtInRest(m, start, k, t);
    }
    hide Texts.At;
    assert Texts.At(m[start..], i - start, t);
    var first := FirstAt(m[start..], t, 0);
    assert Texts.At(m, start + first.value, t);
  }

  lemma SplitHere(s: string, sep: string, start: nat, i: nat)
    requires sep != "" && start <= i <= |s| && OpenAt(s, start).None?
    requires Texts.At(Mask(s), i, sep) && forall k: nat :: start <= k < i ==> !Texts.At(Mask(s), k, sep)
    ensures Split(s[start..], sep) == [s[start..i]] + Split(s[i + |sep|..], sep)
  {
    hide Mask;
    hide OpenAt;
    RestMask(s, start);
    FirstInRest(Mask(s), start, i, sep);
    hide Texts.At;
    hide FirstAt;
    assert s[start..][..i - start] == s[start..i];
    assert s[start..][i - start + |sep|..] == s[i + |sep|..];
  }

  lemma SplitDone(s: string, sep: string, start: nat)
    requires sep != "" && start <= |s| && OpenAt(s, start).None?
    requires forall k: nat :: start <= k < |s| ==> !Texts.At(Mask(s), k, sep)
    ensures Split(s[start..], sep) == [s[start..]]
  {
    hide Mask;
    hide OpenAt;
    RestMask(s, start);
    forall k: nat
      ensures !Texts.At(Mask(s[start..]), k, sep)
    {
      AtInRest(Mask(s), start, k, sep);
    }
  }

  /** Splitting and joining again gives the source back. */
  lemma {:induction false} SplitRejoins(s: string, sep: string)
    requires Structural(sep)
    ensures Join(Split(s, sep), sep) == s
    decreases |s|
  {
    hide Mask;
    hide OpenAt;
    var first := FirstAt(Mask(s), sep, 0);
    if first.Some? {
      var p := first.value;
      MatchIsLiteral(s, p, sep);
      SplitRejoins(s[p + |sep|..], sep);
      var rest := Split(s[p + |sep|..], sep);
      assert ([s[..p]] + rest)[1..] == rest;
      assert s == s[..p] + sep + s[p + |sep|..];
    }
  }

  lemma BeforeFirst(s: string, sep: string, p: nat)
    requires sep != "" && p <= |s| && forall k: nat :: k < p ==> !Texts.At(Mask(s), k, sep)
    ensures !Occurs(s[..p], sep)
  {
    hide Mask;
    hide OpenAt;
    var part := s[..p];
    var first := FirstAt(Mask(part), sep, 0);
    if first.Some? {
      OpenAtStart(s);
      assert s[0..|part|] == part;
      OccursInSource(s, 0, part, first.value, sep);
    }
  }

  lemma WholeSlice(s: string)
    ensures CleanSlice(s, 0, s)
  {
    assert s[0..|s|] == s;
  }

  lemma FrontSlice(s: string, p: nat)
    requires p <= |s|
    ensures CleanSlice(s, 0, s[..p])
  {
    assert s[0..p] == s[..p];
  }

  /** A part is the whole text, what stands before the first separator, or a part of what stands behind it. */
  lemma SplitCases(s: string, sep: string, part: string) returns (p: nat)
    requires Structural(sep) && part in Split(s, sep)
    ensures p <= |s| && (p == 0 ==> part == s && !Occurs(s, sep))
    ensures p > 0 ==>
      || (CleanSlice(s, 0, part) && !Occurs(part, sep))
      || (OpenAt(s, p).None? && part in Split(s[p..], sep))
  {
    var first := FirstAt(Mask(s), sep, 0);
    StructuralShown(sep);
    hide Mask, OpenAt, Structural;
    if first.None? {
      p := 0;
    } else {
      var at := first.value;
      p := at + |sep|;
      SeparatorClosed(s, at, sep);
      BeforeFirst(s, sep, at);
      FrontSlice(s, at);
    }
  }

  lemma SeparatorClosed(s: string, at: nat, sep: string)
    requires Structural(sep) && Texts.At(Mask(s), at, sep)
    ensures at + |sep| <= |s| && OpenAt(s, at + |sep|).None?
  {
    MatchIsLiteral(s, at, sep);
    hide Mask, OpenAt, Structural;
  }

  /** Each part is a clean slice of the source with no further separator in it. */
  lemma {:induction false} SplitParts(s: string, sep: string, part: string) returns (start: nat)
    requires Structural(sep) && part in Split(s, sep)
    ensures CleanSlice(s, start, part) && !Occurs(part, sep)
    decreases |s|
  {
    hide *;
    start := 0;
    var p := SplitCases(s, sep, part);
    if p == 0 {
      WholeSlice(s);
    } else if !CleanSlice(s, 0, part) || Occurs(part, sep) {
      RestMask(s, p);
      var n := SplitParts(s[p..], sep, part);
      SliceTrans(s, p, s[p..], n, part);
      start := p + n;
    }
  }

  lemma StructuralShown(t: string)
    requires Structural(t)
    ensures t != ""
  {
  }

  /** More than one part exactly if the separator occurs; every part is then shorter. */
  lemma {:induction false} SplitShrinks(s: string, sep: string)
    requires sep != ""
    ensures |Split(s, sep)| > 1 <==> Occurs(s, sep)
    ensures Occurs(s, sep) ==> forall part :: part in Split(s, sep) ==> |part| < |s|
    decreases |s|
  {
    hide Mask;
    hide OpenAt;
    var first := FirstAt(Mask(s), sep, 0);
    if first.Some? {
      SplitShrinks(s[first.value + |sep|..], sep);
      var rest := Split(s[first.value + |sep|..], sep);
      forall part | part in Split(s, sep)
        ensures |part| < |s|
      {
        if part != s[..first.value] {
          assert part in rest;
          assert !Occurs(s[first.value + |sep|..], sep) ==> rest == [s[first.value + |sep|..]];
        }
      }
    }
  }

  function MaskAll(parts: seq<string>): (r: seq<string>)
    ensures |r| == |parts|
  {
    seq(|parts|, i requires 0 <= i < |parts| => Mask(parts[i]))
  }

  /** Masking commutes with splitting: the masked parts re-join to the masked source. */
  lemma {:induction false} SplitMasks(s: string, sep: string)
    requires Structural(sep)
    ensures Join(MaskAll(Split(s, sep)), sep) == Mask(s)
    decreases |s|
  {
    hide Mask;
    hide OpenAt;
    var first := FirstAt(Mask(s), sep, 0);
    if first.None? {
      assert MaskAll([s]) == [Mask(s)];
    } else {
      var p := first.value;
      MatchIsLiteral(s, p, sep);
      OpenAtStart(s);
      SplitMasks(s[p + |sep|..], sep);
      assert s[0..|s[..p]|] == s[..p];
      MaskOfSlice(s, 0, s[..p]);
      RestMask(s, p + |sep|);
      MaskedParts(s[..p], Split(s[p + |sep|..], sep), sep);
      AroundMatch(Mask(s), p, sep);
      hide Texts.At;
      hide FirstAt;
      hide Structural;
      hide MaskAll;
    }
  }

  lemma AroundMatch(m: string, p: nat, t: string)
    requires Texts.At(m, p, t)
    ensures m == m[..p] + t + m[p + |t|..]
  {
  }

  lemma MaskedParts(first: string, parts: seq<string>, sep: string)
    requires parts != []
    ensures Join(MaskAll([first] + parts), sep) == Mask(first) + sep + Join(MaskAll(parts), sep)
  {
    hide Mask;
    assert MaskAll([first] + parts) == [Mask(first)] + MaskAll(parts);
    assert ([Mask(first)] + MaskAll(parts))[1..] == MaskAll(parts);
  }

  // ---- letter case does not move quotes ----

  lemma {:induction false} LowerOpen(s: string, i: nat)
    requires i <= |s|
    ensures OpenAt(Lower(s), i) == OpenAt(s, i)
  {
    if i > 0 {
      LowerOpen(s, i - 1);
      OpenIsQuote(s, i - 1);
      assert Lower(s)[i - 1] == LowerChar(s[i - 1]);
    }
  }

  lemma LowerMasks(s: string)
    ensures Mask(Lower(s)) == Lower(Mask(s))
  {
    forall i | 0 <= i < |s|
      ensures Mask(Lower(s))[i] == Lower(Mask(s))[i]
    {
      LowerOpen(s, i);
      OpenIsQuote(s, i);
      Masked(s, i);
      Masked(Lower(s), i);
    }
    hide Mask;
  }

  lemma LowerOutside(s: string, i: nat)
    requires Outside(Lower(s), i)
    ensures Outside(s, i)
  {
    LowerOpen(s, i);
  }
}
