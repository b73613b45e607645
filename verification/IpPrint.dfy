// Printing addresses, and that what is printed parses back.
module IpPrint {
  import opened Options
  import opened Texts
  import opened Numerals
  import opened IpText

  function GroupsOf(bytes: Bytes): (gs: seq<Group>)
    requires |bytes| == 16
    ensures |gs| == 8 && forall i :: 0 <= i < 8 ==> gs[i] == (bytes[2 * i] as int) * 256 + bytes[2 * i + 1]
  {
    seq(8, i requires 0 <= i < 8 => (bytes[2 * i] as int) * 256 + bytes[2 * i + 1])
  }

  function GroupText(g: Group): string {
    Numeral(g, 16)
  }

  function TextsOf(gs: seq<Group>): (r: seq<string>)
    ensures |r| == |gs| && forall i :: 0 <= i < |gs| ==> r[i] == GroupText(gs[i])
  {
    seq(|gs|, i requires 0 <= i < |gs| => GroupText(gs[i]))
  }

  function OctetTexts(bytes: Bytes): (r: seq<string>)
    ensures |r| == |bytes| && forall i :: 0 <= i < |bytes| ==> r[i] == Numeral(bytes[i], 10)
  {
    seq(|bytes|, i requires 0 <= i < |bytes| => Numeral(bytes[i], 10))
  }

  // ---- the scan for the run to compress ----

  predicate ZeroRun(texts: seq<string>, a: int, n: nat) {
    0 <= a && a + n <= |texts| && forall k :: a <= k < a + n ==> texts[k] == "0"
  }

  /** The longest run of zero groups, the first of several. */
  ghost predicate LeftmostLongest(texts: seq<string>, start: int, length: nat) {
    && (length > 0 ==> ZeroRun(texts, start, length))
    && forall a, n: nat :: n > 0 && ZeroRun(texts, a, n) ==> n <= length && (a < start ==> n < length)
  }

  datatype Scan = Scan(runStart: int, bestStart: int, bestLength: nat)

  /** A run ends before k. */
  function Close(s: Scan, k: nat): Scan {
    if s.runStart == -1 then s
    else if k > s.runStart && k - s.runStart > s.bestLength then Scan(-1, s.runStart, k - s.runStart)
    else s.(runStart := -1)
  }

  function Scanned(texts: seq<string>, i: nat): Scan
    requires i <= |texts|
  {
    if i == 0 then Scan(-1, -1, 0)
    else
      var s := Scanned(texts, i - 1);
      if texts[i - 1] == "0" then (if s.runStart == -1 then s.(runStart := i - 1) else s)
      else Close(s, i - 1)
  }

  function BestRun(texts: seq<string>): Scan {
    Close(Scanned(texts, |texts|), |texts|)
  }

  /** Runs that end by i are beaten, or still open. */
  ghost predicate ScanOk(texts: seq<string>, i: nat, s: Scan) {
    && i <= |texts|
    && (s.runStart == -1 || (0 <= s.runStart < i && ZeroRun(texts, s.runStart, i - s.runStart)))
    && (s.runStart == -1 ==> i == 0 || texts[i - 1] != "0")
    && (s.runStart > 0 ==> texts[s.runStart - 1] != "0")
    && (s.bestLength > 0 ==> ZeroRun(texts, s.bestStart, s.bestLength) && s.bestStart + s.bestLength <= i)
    && (s.bestLength == 0 ==> s.bestStart == -1)
    && (s.runStart >= 0 ==> s.bestStart < s.runStart)
    && forall a, n: nat :: n > 0 && a + n <= i && ZeroRun(texts, a, n) ==>
         (s.runStart >= 0 && a >= s.runStart) || (n <= s.bestLength && (a < s.bestStart ==> n < s.bestLength))
  }

  lemma StepOk(texts: seq<string>, i: nat, s: Scan)
    requires ScanOk(texts, i, s) && i < |texts|
    ensures ScanOk(texts, i + 1,
      if texts[i] == "0" then (if s.runStart == -1 then s.(runStart := i) else s) else Close(s, i))
  {
    var s' := if texts[i] == "0" then (if s.runStart == -1 then s.(runStart := i) else s) else Close(s, i);
    forall a, n: nat | n > 0 && a + n <= i + 1 && ZeroRun(texts, a, n)
      ensures (s'.runStart >= 0 && a >= s'.runStart) || (n <= s'.bestLength && (a < s'.bestStart ==> n < s'.bestLength))
    {
      RunStep(texts, i, s, a, n);
    }
  }

  lemma RunStep(texts: seq<string>, i: nat, s: Scan, a: int, n: nat)
    requires ScanOk(texts, i, s) && i < |texts|
    requires n > 0 && a + n <= i + 1 && ZeroRun(texts, a, n)
    ensures var s' := if texts[i] == "0" then (if s.runStart == -1 then s.(runStart := i) else s) else Close(s, i);
      (s'.runStart >= 0 && a >= s'.runStart) || (n <= s'.bestLength && (a < s'.bestStart ==> n < s'.bestLength))
  {
    if a + n <= i {
      assert (s.runStart >= 0 && a >= s.runStart) || (n <= s.bestLength && (a < s.bestStart ==> n < s.bestLength));
    } else {
      assert texts[a + n - 1] == "0";
    }
  }

  lemma {:induction false} ScannedOk(texts: seq<string>, i: nat)
    requires i <= |texts|
    ensures ScanOk(texts, i, Scanned(texts, i))
  {
    if i > 0 {
      ScannedOk(texts, i - 1);
      StepOk(texts, i - 1, Scanned(texts, i - 1));
    }
  }

  lemma BestRunIsBest(texts: seq<string>)
    ensures LeftmostLongest(texts, BestRun(texts).bestStart, BestRun(texts).bestLength)
  {
    ScannedOk(texts, |texts|);
    var s := Scanned(texts, |texts|);
    hide Scanned;
    forall a, n: nat | n > 0 && ZeroRun(texts, a, n)
      ensures n <= BestRun(texts).bestLength && (a < BestRun(texts).bestStart ==> n < BestRun(texts).bestLength)
    {
      assert (s.runStart >= 0 && a >= s.runStart) || (n <= s.bestLength && (a < s.bestStart ==> n < s.bestLength));
    }
  }

  // ---- printing ----

  function Printed(bytes: Bytes): string
    requires |bytes| == 4 || |bytes| == 16
  {
    if |bytes| == 4 then Join(OctetTexts(bytes), ".")
    else
      var texts := TextsOf(GroupsOf(bytes));
      var best := BestRun(texts);
      BestRunIsBest(texts);
      if best.bestLength < 2 then Join(texts, ":")
      else Join(texts[..best.bestStart], ":") + "::" + Join(texts[best.bestStart + best.bestLength..], ":")
  }

  method FindRun(groups: seq<string>) returns (bestStart: int, bestLength: nat)
    ensures bestStart == BestRun(groups).bestStart && bestLength == BestRun(groups).bestLength
  {
    var runStart := -1;
    bestStart, bestLength := -1, 0;
    for i := 0 to |groups|
      invariant Scan(runStart, bestStart, bestLength) == Scanned(groups, i)
    {
      if groups[i] == "0" {
        if runStart == -1 {
          runStart := i;
        }
      } else if runStart != -1 {
        ScannedOk(groups, i);
        if i - runStart > bestLength {
          bestStart, bestLength := runStart, i - runStart;
        }
        runStart := -1;
      }
    }
    ScannedOk(groups, |groups|);
    if runStart != -1 && |groups| - runStart > bestLength {
      bestStart, bestLength := runStart, |groups| - runStart;
    }
  }

  method IpToString(bytes: Bytes) returns (text: string)
    requires |bytes| == 4 || |bytes| == 16
    ensures text == Printed(bytes)
  {
    if |bytes| == 4 {
      return Join(OctetTexts(bytes), ".");
    }
    var groups: seq<string> := [];
    for i := 0 to 8
      invariant groups == TextsOf(GroupsOf(bytes))[..i]
    {
      groups := groups + [Numeral((bytes[2 * i] as int) * 256 + bytes[2 * i + 1], 16)];
    }
    assert groups == TextsOf(GroupsOf(bytes));
    var bestStart, bestLength := FindRun(groups);
    BestRunIsBest(groups);
    hide BestRun;
    hide Join;
    if bestLength < 2 {
      return Join(groups, ":");
    }
    text := Join(groups[..bestStart], ":") + "::" + Join(groups[bestStart + bestLength..], ":");
  }

  // ---- group texts ----

  /** Neither a separator of groups, nor a zone mark, nor a bracket, nor the slash of a block. */
  predicate PieceChar(c: char) {
    c != ':' && c != '%' && c != '[' && c != ']' && c != '/'
  }

  /** What may stand between two colons. */
  predicate Pieces(parts: seq<string>) {
    forall i :: 0 <= i < |parts| ==> parts[i] != "" && forall c :: c in parts[i] ==> PieceChar(c)
  }

  lemma TextsArePieces(gs: seq<Group>)
    ensures Pieces(TextsOf(gs)) && forall i :: 0 <= i < |gs| ==> '.' !in TextsOf(gs)[i]
  {
    forall i | 0 <= i < |gs|
      ensures TextsOf(gs)[i] != "" && '.' !in TextsOf(gs)[i] && forall c :: c in TextsOf(gs)[i] ==> PieceChar(c)
    {
      NumeralLead(gs[i], 16);
      NumeralLowerCase(gs[i], 16);
    }
  }

  lemma OctetsArePieces(bytes: Bytes)
    ensures Pieces(OctetTexts(bytes)) && forall i :: 0 <= i < |bytes| ==> '.' !in OctetTexts(bytes)[i]
  {
    forall i | 0 <= i < |bytes|
      ensures OctetTexts(bytes)[i] != "" && '.' !in OctetTexts(bytes)[i]
      ensures forall c :: c in OctetTexts(bytes)[i] ==> PieceChar(c)
    {
      NumeralLead(bytes[i], 10);
      NumeralLowerCase(bytes[i], 10);
    }
  }

  predicate NoDouble(s: string) {
    forall k :: 0 <= k < |s| - 1 ==> s[k] != ':' || s[k + 1] != ':'
  }

  predicate ColonOrPiece(s: string) {
    forall c :: c in s ==> c == ':' || PieceChar(c)
  }

  /** No two colons meet and none is at an end. */
  predicate Spaced(s: string) {
    NoDouble(s) && (s != "" ==> s[0] != ':' && s[|s| - 1] != ':')
  }

  predicate WellJoined(s: string) {
    Spaced(s) && ColonOrPiece(s)
  }

  lemma {:induction false} JoinedWell(parts: seq<string>)
    requires Pieces(parts)
    ensures WellJoined(Join(parts, ":"))
    ensures parts != [] ==> Join(parts, ":") != ""
    ensures |parts| > 1 ==> ':' in Join(parts, ":")
  {
    if |parts| > 1 {
      assert Pieces(parts[1..]) by {
        assert forall i :: 0 <= i < |parts[1..]| ==> parts[1..][i] == parts[i + 1];
      }
      JoinedWell(parts[1..]);
      PrependWell(parts[0], Join(parts[1..], ":"));
    } else if |parts| == 1 {
      PieceWell(parts[0]);
    }
  }

  lemma PieceWell(p: string)
    requires p != "" && forall c :: c in p ==> PieceChar(c)
    ensures WellJoined(p)
  {
    assert forall i :: 0 <= i < |p| ==> p[i] in p;
  }

  lemma PrependWell(p: string, rest: string)
    requires p != "" && (forall c :: c in p ==> PieceChar(c)) && rest != "" && WellJoined(rest)
    ensures WellJoined(p + ":" + rest) && ':' in p + ":" + rest
  {
    var s := p + ":" + rest;
    assert forall i :: 0 <= i < |p| ==> s[i] == p[i] && p[i] in p;
    assert s[|p|] == ':';
    forall k | 0 <= k < |s| - 1
      ensures s[k] != ':' || s[k + 1] != ':'
    {
      if k > |p| {
        assert s[k] == rest[k - |p| - 1] && s[k + 1] == rest[k - |p| - 1 + 1];
      }
    }
    assert s[|s| - 1] == rest[|rest| - 1];
  }

  // ---- finding "::" ----

  lemma AtDouble(s: string, k: nat)
    ensures Texts.At(s, k, "::") <==> k + 1 < |s| && s[k] == ':' && s[k + 1] == ':'
  {
    AtMeans(s, k, "::");
    assert "::"[0] == ':' && "::"[1] == ':';
    if k + 1 < |s| {
      assert s[k + 0] == s[k];
    }
  }

  lemma NoDoubleFound(s: string, i: nat)
    requires NoDouble(s)
    ensures FirstAt(s, "::", i).None?
  {
    forall k: nat
      ensures !Texts.At(s, k, "::")
    {
      AtDouble(s, k);
    }
    hide Texts.At;
  }

  lemma ElsewhereSingle(head: string, tail: string, k: nat)
    requires Spaced(head) && Spaced(tail) && k != |head|
    ensures !Texts.At(head + "::" + tail, k, "::")
  {
    var s := head + "::" + tail;
    AtDouble(s, k);
    hide Texts.At;
    if k + 1 < |s| {
      if k < |head| {
        assert s[k] == head[k] && (k + 1 < |head| ==> s[k + 1] == head[k + 1]);
      } else {
        var j := k - |head| - 2;
        assert s[k + 1] == tail[j + 1] && (j >= 0 ==> s[k] == tail[j]);
      }
    }
  }

  /** The compressed text has its one "::" where the run was. */
  lemma OneDouble(head: string, tail: string)
    requires Spaced(head) && Spaced(tail)
    ensures var s := head + "::" + tail;
      FirstAt(s, "::", 0) == Some(|head|) && FirstAt(s, "::", |head| + 1).None?
  {
    var s := head + "::" + tail;
    AtDouble(s, |head|);
    assert Texts.At(s, |head|, "::");
    hide Texts.At;
    hide Spaced;
    forall k: nat | k != |head|
      ensures !Texts.At(s, k, "::")
    {
      ElsewhereSingle(head, tail, k);
    }
  }

  // ---- groups and bytes ----

  function BytesOf(gs: seq<Group>): (r: Bytes)
    ensures |r| == 2 * |gs|
    ensures forall i :: 0 <= i < |gs| ==> r[2 * i] == gs[i] / 256 && r[2 * i + 1] == gs[i] % 256
  {
    if gs == [] then []
    else
      var n := |gs| - 1;
      BytesOf(gs[..n]) + GroupBytes(gs[n])
  }

  lemma GroupReadsBack(g: Group)
    ensures ParseGroup(GroupText(g)) == Some(g)
  {
    NumeralReadsBack(g, 16);
    NumeralLead(g, 16);
    assert Power(16, 0) == 1 && Power(16, 1) == 16 && Power(16, 2) == 256 && Power(16, 3) == 4096
      && Power(16, 4) == 65536;
    NumeralLength(g, 16, 4);
    hide Numeral;
    hide ValueOf;
  }

  lemma {:induction false} GroupsReadBack(gs: seq<Group>)
    ensures ParseGroups(TextsOf(gs)) == Some(BytesOf(gs))
  {
    if gs != [] {
      var n := |gs| - 1;
      GroupsReadBack(gs[..n]);
      assert TextsOf(gs)[..n] == TextsOf(gs[..n]);
      GroupReadsBack(gs[n]);
    }
  }

  lemma BytesOfGroups(bytes: Bytes)
    requires |bytes| == 16
    ensures BytesOf(GroupsOf(bytes)) == bytes
  {
    var gs := GroupsOf(bytes);
    var r := BytesOf(gs);
    hide BytesOf;
    forall i | 0 <= i < 16
      ensures r[i] == bytes[i]
    {
      var k := i / 2;
      assert r[2 * k] == gs[k] / 256 && r[2 * k + 1] == gs[k] % 256;
      assert gs[k] == (bytes[2 * k] as int) * 256 + bytes[2 * k + 1];
    }
  }

  lemma BytesSnoc(gs: seq<Group>, g: Group)
    ensures BytesOf(gs + [g]) == BytesOf(gs) + GroupBytes(g)
  {
    assert (gs + [g])[..|gs|] == gs;
  }

  lemma {:induction false} BytesOfConcat(a: seq<Group>, b: seq<Group>)
    ensures BytesOf(a + b) == BytesOf(a) + BytesOf(b)
  {
    hide BytesOf;
    hide GroupBytes;
    if b == [] {
      assert a + b == a;
      EmptyBytes();
    } else {
      var n := |b| - 1;
      var most, last := b[..n], b[n];
      assert b == most + [last];
      BytesOfConcat(a, most);
      BytesSnoc(a + most, last);
      BytesSnoc(most, last);
      assert a + b == (a + most) + [last];
    }
  }

  lemma EmptyBytes()
    ensures BytesOf([]) == []
  {
  }

  lemma {:induction false} BytesOfZeros(gs: seq<Group>)
    requires forall i :: 0 <= i < |gs| ==> gs[i] == 0
    ensures BytesOf(gs) == Zeros(2 * |gs|)
  {
    if gs != [] {
      BytesOfZeros(gs[..|gs| - 1]);
    }
  }

  lemma RunHoldsZeros(gs: seq<Group>, start: nat, length: nat)
    requires ZeroRun(TextsOf(gs), start, length)
    ensures start + length <= |gs|
    ensures forall i :: start <= i < start + length ==> gs[i] == 0
  {
    forall i | start <= i < start + length
      ensures gs[i] == 0
    {
      assert TextsOf(gs)[i] == "0";
      NumeralLead(gs[i], 16);
    }
  }

  /** The compressed run stands for zero bytes. */
  lemma RunIsZeros(gs: seq<Group>, start: nat, length: nat)
    requires ZeroRun(TextsOf(gs), start, length)
    ensures BytesOf(gs) == BytesOf(gs[..start]) + Zeros(2 * length) + BytesOf(gs[start + length..])
  {
    hide *;
    RunHoldsZeros(gs, start, length);
    var run := gs[start..start + length];
    BytesOfZeros(run);
    assert gs == gs[..start] + run + gs[start + length..];
    BytesOfConcat(gs[..start] + run, gs[start + length..]);
    BytesOfConcat(gs[..start], run);
  }

  lemma NoSeparatorInside(parts: seq<string>, c: char)
    requires Pieces(parts) && !PieceChar(c)
    ensures forall i :: 0 <= i < |parts| ==> c !in parts[i]
  {
  }

  /** A half splits back into its groups and holds no dotted quad. */
  lemma HalfReadsBack(gs: seq<Group>)
    ensures GroupTexts(Join(TextsOf(gs), ":")) == TextsOf(gs)
    ensures TakeEmbedded(TextsOf(gs)) == Some(Half(TextsOf(gs), []))
  {
    var texts := TextsOf(gs);
    TextsArePieces(gs);
    NoSeparatorInside(texts, ':');
    JoinedWell(texts);
    if texts != [] {
      JoinSplits(texts, ':');
      assert ":" == [':'];
    }
    hide Pieces;
    hide WellJoined;
  }

  // ---- the round trip ----

  lemma PlainChars(s: string)
    requires ColonOrPiece(s)
    ensures '%' !in s && StripBrackets(s) == s
    ensures s != "" ==> s[0] != '['
  {
    assert s != "" ==> s[0] in s;
  }

  lemma ParseFull(text: string, half: Half)
    requires StripBrackets(text) == text && '%' !in text && text != "" && FirstAt(text, "::", 0).None?
    requires TakeEmbedded(GroupTexts(text)) == Some(half) && 2 * |half.groups| + |half.embedded| == 16
    ensures ParseV6(text) == Assembled(half.groups, [], half.embedded)
  {
    hide StripBrackets;
    hide FirstAt;
    hide TakeEmbedded;
    hide GroupTexts;
    hide Assembled;
  }

  lemma AssembledFull(gs: seq<Group>)
    requires |gs| == 8
    ensures Assembled(TextsOf(gs), [], []) == Some(BytesOf(gs))
  {
    hide *;
    GroupsReadBack(gs);
    NoGroups();
    AssembledFrom(TextsOf(gs), [], BytesOf(gs), [], [], 0);
    assert BytesOf(gs) + Zeros(0) + [] + [] == BytesOf(gs);
  }

  lemma NoGroups()
    ensures ParseGroups([]) == Some([])
  {
  }

  lemma FullReadsBack(gs: seq<Group>)
    requires |gs| == 8
    ensures ParseV6(Join(TextsOf(gs), ":")) == Some(BytesOf(gs))
  {
    hide *;
    var text := Join(TextsOf(gs), ":");
    TextsArePieces(gs);
    JoinedWell(TextsOf(gs));
    WellParts(text);
    PlainChars(text);
    NoDoubleFound(text, 0);
    HalfReadsBack(gs);
    AssembledFull(gs);
    ParseFull(text, Half(TextsOf(gs), []));
  }

  lemma WellParts(s: string)
    requires WellJoined(s)
    ensures NoDouble(s) && Spaced(s) && ColonOrPiece(s)
  {
  }

  lemma ParseCompressed(text: string, at: nat, a: seq<string>, half: Half)
    requires StripBrackets(text) == text && '%' !in text && at + 2 <= |text|
    requires FirstAt(text, "::", 0) == Some(at) && FirstAt(text, "::", at + 1).None?
    requires GroupTexts(text[..at]) == a && TakeEmbedded(GroupTexts(text[at + 2..])) == Some(half)
    requires 2 * |a| + 2 * |half.groups| + |half.embedded| <= 14
    ensures ParseV6(text) == Assembled(a, half.groups, half.embedded)
  {
    hide StripBrackets;
    hide FirstAt;
    hide TakeEmbedded;
    hide GroupTexts;
    hide Assembled;
  }

  lemma AssembledFrom(a: seq<string>, b: seq<string>, head: Bytes, tail: Bytes, embedded: Bytes, n: nat)
    requires ParseGroups(a) == Some(head) && ParseGroups(b) == Some(tail)
    requires |head| + n + |tail| + |embedded| == 16
    ensures 2 * |a| + 2 * |b| + |embedded| <= 16
    ensures Assembled(a, b, embedded) == Some(head + Zeros(n) + tail + embedded)
  {
    hide ParseGroups;
  }

  lemma AssembledCompressed(gs: seq<Group>, start: nat, length: nat)
    requires |gs| == 8 && length >= 2 && start + length <= 8 && ZeroRun(TextsOf(gs), start, length)
    ensures Assembled(TextsOf(gs[..start]), TextsOf(gs[start + length..]), []) == Some(BytesOf(gs))
  {
    hide *;
    RunIsZeros(gs, start, length);
    GroupsReadBack(gs[..start]);
    GroupsReadBack(gs[start + length..]);
    AssembledFrom(TextsOf(gs[..start]), TextsOf(gs[start + length..]),
                  BytesOf(gs[..start]), BytesOf(gs[start + length..]), [], 2 * length);
    assert BytesOf(gs) + [] == BytesOf(gs);
  }

  lemma ColonsBetween(head: string, tail: string)
    requires ColonOrPiece(head) && ColonOrPiece(tail)
    ensures ColonOrPiece(head + "::" + tail)
  {
  }

  lemma CompressedReadsBack(gs: seq<Group>, start: nat, length: nat)
    requires |gs| == 8 && length >= 2 && ZeroRun(TextsOf(gs), start, length)
    requires start + length <= 8
    ensures ParseV6(Join(TextsOf(gs[..start]), ":") + "::" + Join(TextsOf(gs[start + length..]), ":"))
      == Some(BytesOf(gs))
  {
    hide *;
    var a, b := gs[..start], gs[start + length..];
    var head, tail := Join(TextsOf(a), ":"), Join(TextsOf(b), ":");
    TextsArePieces(a);
    TextsArePieces(b);
    JoinedWell(TextsOf(a));
    JoinedWell(TextsOf(b));
    WellParts(head);
    WellParts(tail);
    OneDouble(head, tail);
    ColonsBetween(head, tail);
    PlainChars(head + "::" + tail);
    HalfReadsBack(a);
    HalfReadsBack(b);
    AssembledCompressed(gs, start, length);
    var text := head + "::" + tail;
    assert text[..|head|] == head && text[|head| + 2..] == tail;
    ParseCompressed(text, |head|, TextsOf(a), Half(TextsOf(b), []));
  }

  lemma V4ReadsBack(bytes: Bytes)
    requires |bytes| == 4
    ensures ParseV4(Join(OctetTexts(bytes), ".")) == Some(bytes)
  {
    OctetsArePieces(bytes);
    JoinSplits(OctetTexts(bytes), '.');
    assert "." == ['.'];
    OctetsReadBack(bytes);
    hide ParseOctets;
    hide Join;
    hide SplitChar;
    hide Pieces;
  }

  lemma OctetReadsBack(b: Byte)
    ensures ParseOctet(Numeral(b, 10)) == Some(b)
  {
    NumeralReadsBack(b, 10);
    NumeralLead(b, 10);
    assert Power(10, 0) == 1 && Power(10, 1) == 10 && Power(10, 2) == 100 && Power(10, 3) == 1000;
    NumeralLength(b, 10, 3);
    if b == 0 {
      assert Numeral(0, 10) == [DIGITS[0]];
    }
    hide Numeral;
    hide ValueOf;
  }

  lemma {:induction false} OctetsReadBack(bytes: Bytes)
    ensures ParseOctets(OctetTexts(bytes)) == Some(bytes)
  {
    if bytes != [] {
      var n := |bytes| - 1;
      OctetsReadBack(bytes[..n]);
      assert OctetTexts(bytes)[..n] == OctetTexts(bytes[..n]);
      OctetReadsBack(bytes[n]);
      assert bytes == bytes[..n] + [bytes[n]];
    }
  }

  lemma {:induction false} JoinedChars(parts: seq<string>, sep: string)
    requires Pieces(parts)
    ensures forall c :: c in Join(parts, sep) ==> PieceChar(c) || c in sep
    ensures parts != [] ==> Join(parts, sep) != "" && PieceChar(Join(parts, sep)[0])
  {
    if parts != [] {
      assert parts[0][0] in parts[0];
      if |parts| > 1 {
        assert Pieces(parts[1..]) by {
          assert forall i :: 0 <= i < |parts[1..]| ==> parts[1..][i] == parts[i + 1];
        }
        JoinedChars(parts[1..], sep);
      }
    }
  }

  /** Every address parses back from what is printed. */
  lemma PrintParses(bytes: Bytes)
    requires |bytes| == 4 || |bytes| == 16
    ensures Parse(Printed(bytes)) == Some(ParsedIp(bytes, if |bytes| == 4 then 4 else 6))
  {
    if |bytes| == 4 {
      V4ReadsBack(bytes);
      OctetsArePieces(bytes);
      JoinedChars(OctetTexts(bytes), ".");
      V4Parses(Join(OctetTexts(bytes), "."), bytes);
    } else {
      V6Parses(bytes);
    }
  }

  lemma V4Parses(text: string, bytes: Bytes)
    requires ParseV4(text) == Some(bytes) && text != "" && PieceChar(text[0])
    requires forall c :: c in text ==> PieceChar(c) || c in "."
    ensures Parse(text) == Some(ParsedIp(bytes, 4))
  {
    hide ParseV4;
  }

  lemma V6Parses(bytes: Bytes)
    requires |bytes| == 16
    ensures Parse(Printed(bytes)) == Some(ParsedIp(bytes, 6))
  {
    var gs := GroupsOf(bytes);
    var texts := TextsOf(gs);
    var best := BestRun(texts);
    BytesOfGroups(bytes);
    BestRunIsBest(texts);
    hide BestRun;
    hide ParseV6;
    hide Join;
    if best.bestLength < 2 {
      FullReadsBack(gs);
      TextsArePieces(gs);
      JoinedWell(texts);
    } else {
      CompressedReadsBack(gs, best.bestStart, best.bestLength);
      SlicedTexts(gs, best.bestStart, best.bestLength);
      assert "::"[0] == ':';
    }
    hide TextsOf;
    hide BytesOf;
    hide LeftmostLongest;
    hide WellJoined;
    hide Pieces;
  }

  lemma SlicedTexts(gs: seq<Group>, start: nat, length: nat)
    requires start + length <= |gs|
    ensures TextsOf(gs)[..start] == TextsOf(gs[..start])
    ensures TextsOf(gs)[start + length..] == TextsOf(gs[start + length..])
  {
    hide GroupText;
  }

  // ---- the canonical form ----

  predicate HexLower(c: char) {
    '0' <= c <= '9' || 'a' <= c <= 'f'
  }

  /** At most four lower-case digits, the leading zeros suppressed. */
  predicate ShortGroup(text: string) {
    && 1 <= |text| <= 4 && (forall c :: c in text ==> HexLower(c))
    && (|text| > 1 ==> text[0] != '0')
  }

  lemma GroupIsShort(g: Group)
    ensures ShortGroup(GroupText(g))
  {
    NumeralLead(g, 16);
    NumeralLowerCase(g, 16);
    assert Power(16, 0) == 1 && Power(16, 1) == 16 && Power(16, 2) == 256 && Power(16, 3) == 4096
      && Power(16, 4) == 65536;
    NumeralLength(g, 16, 4);
    if g == 0 {
      assert Numeral(0, 16) == [DIGITS[0]];
    }
    hide Numeral;
  }

  /**
   * Sections 4.1 to 4.3 of RFC 5952: short lower-case groups, and "::" exactly
   * for the first of the longest runs of two or more zero groups.
   */
  lemma Canonical(bytes: Bytes)
    requires |bytes| == 16
    ensures var texts := TextsOf(GroupsOf(bytes));
      (forall i :: 0 <= i < 8 ==> ShortGroup(texts[i]))
      && if exists i :: 0 <= i < 7 && texts[i] == "0" && texts[i + 1] == "0" then
           exists start: int, length: nat ::
             && length >= 2 && ZeroRun(texts, start, length) && LeftmostLongest(texts, start, length)
             && Printed(bytes) == Join(texts[..start], ":") + "::" + Join(texts[start + length..], ":")
         else Printed(bytes) == Join(texts, ":")
  {
    var texts := TextsOf(GroupsOf(bytes));
    forall i | 0 <= i < 8
      ensures ShortGroup(texts[i])
    {
      GroupIsShort(GroupsOf(bytes)[i]);
    }
    hide ShortGroup;
    PrintedBy(bytes);
    hide *;
    CompressedIff(texts, BestRun(texts).bestStart, BestRun(texts).bestLength);
  }

  lemma PrintedBy(bytes: Bytes)
    requires |bytes| == 16
    ensures var texts := TextsOf(GroupsOf(bytes));
      var start, length := BestRun(texts).bestStart, BestRun(texts).bestLength;
      && LeftmostLongest(texts, start, length)
      && (length >= 2 ==>
            ZeroRun(texts, start, length)
            && Printed(bytes) == Join(texts[..start], ":") + "::" + Join(texts[start + length..], ":"))
      && (length < 2 ==> Printed(bytes) == Join(texts, ":"))
  {
    BestRunIsBest(TextsOf(GroupsOf(bytes)));
    hide BestRun;
    hide Join;
    hide TextsOf;
    hide GroupsOf;
  }

  /** A longest run of two or more is there exactly if two zero groups meet. */
  lemma CompressedIff(texts: seq<string>, start: int, length: nat)
    requires LeftmostLongest(texts, start, length)
    ensures length >= 2 <==> exists i :: 0 <= i < |texts| - 1 && texts[i] == "0" && texts[i + 1] == "0"
  {
    if length >= 2 {
      assert texts[start] == "0" && texts[start + 1] == "0";
    }
    if i :| 0 <= i < |texts| - 1 && texts[i] == "0" && texts[i + 1] == "0" {
      assert ZeroRun(texts, i, 2);
    }
  }
}
