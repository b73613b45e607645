// Which texts are IPv6 literals, said by their groups.
module Ipv6Exact {
  import opened Options
  import opened Texts
  import opened Numerals
  import opened IpText
  import opened IpPrint
  import Ipv4Exact

  type Quad = b: Bytes | |b| == 4 witness [0, 0, 0, 0]

  /** The groups before "::", whether there is one, the groups after it, and a final IPv4 address. */
  datatype Literal = Literal(head: seq<string>, elided: bool, tail: seq<string>, quad: Option<Quad>)

  /** One to four hexadecimal digits, leading zeros and either case allowed. */
  predicate HexGroup(p: string) {
    1 <= |p| <= 4 && AllDigits(p, 16)
  }

  predicate HexGroups(ps: seq<string>) {
    forall i :: 0 <= i < |ps| ==> HexGroup(ps[i])
  }

  function QuadTexts(quad: Option<Quad>): seq<string> {
    if quad.Some? then [Printed(quad.value)] else []
  }

  function QuadBytes(quad: Option<Quad>): Bytes {
    if quad.Some? then quad.value else []
  }

  function Width(l: Literal): nat {
    2 * |l.head| + 2 * |l.tail| + |QuadBytes(l.quad)|
  }

  /** Sixteen bytes in full, or "::" for at least two of them. */
  predicate Well(l: Literal) {
    && HexGroups(l.head) && HexGroups(l.tail)
    && (if l.elided then Width(l) <= 14 else l.tail == [] && Width(l) == 16)
  }

  function Written(l: Literal): string {
    if l.elided then Join(l.head, ":") + "::" + Join(l.tail + QuadTexts(l.quad), ":")
    else Join(l.head + QuadTexts(l.quad), ":")
  }

  function GroupValue(p: string): Group
    requires HexGroup(p)
  {
    HexFits(p);
    ValueOf(p, 16)
  }

  function Values(ps: seq<string>): (r: seq<Group>)
    requires HexGroups(ps)
    ensures |r| == |ps| && forall i :: 0 <= i < |ps| ==> r[i] == GroupValue(ps[i])
  {
    seq(|ps|, i requires 0 <= i < |ps| => GroupValue(ps[i]))
  }

  /** The groups from both ends, zero bytes between them, the address last. */
  function Denoted(l: Literal): Bytes
    requires Well(l)
  {
    BytesOf(Values(l.head)) + Zeros(16 - Width(l)) + BytesOf(Values(l.tail)) + QuadBytes(l.quad)
  }

  /** s is this literal, bracketed or not. */
  predicate Spells(s: string, l: Literal) {
    s == Written(l) || s == "[" + Written(l) + "]"
  }

  ghost predicate Denotes(s: string, l: Literal, bytes: Bytes) {
    Well(l) && Spells(s, l) && Denoted(l) == bytes
  }

  // ---- every literal parses ----

  lemma {:induction false} GroupsRead(ps: seq<string>)
    requires HexGroups(ps)
    ensures ParseGroups(ps) == Some(BytesOf(Values(ps)))
  {
    if ps != [] {
      var n := |ps| - 1;
      GroupsRead(ps[..n]);
      assert Values(ps)[..n] == Values(ps[..n]);
      assert HexGroup(ps[n]) && ParseGroup(ps[n]) == Some(Values(ps)[n]);
    }
  }

  lemma HexPieces(ps: seq<string>)
    requires HexGroups(ps)
    ensures Pieces(ps) && forall i :: 0 <= i < |ps| ==> '.' !in ps[i]
  {
    forall i | 0 <= i < |ps|
      ensures ps[i] != "" && '.' !in ps[i] && forall c :: c in ps[i] ==> PieceChar(c)
    {
      assert HexGroup(ps[i]);
      assert forall k :: 0 <= k < |ps[i]| ==> IsDigit(ps[i][k], 16);
    }
  }

  lemma QuadPiece(quad: Quad)
    ensures Printed(quad) != "" && '.' in Printed(quad) && forall c :: c in Printed(quad) ==> PieceChar(c)
    ensures ParseV4(Printed(quad)) == Some(quad)
  {
    V4ReadsBack(quad);
    OctetsArePieces(quad);
    JoinedChars(OctetTexts(quad), ".");
    assert Join(OctetTexts(quad), ".") == OctetTexts(quad)[0] + "." + Join(OctetTexts(quad)[1..], ".");
    assert '.' in ".";
    hide ParseV4, OctetTexts;
  }

  /** A half with its address splits back into both. */
  lemma HalfSplits(ps: seq<string>, quad: Option<Quad>)
    requires HexGroups(ps)
    ensures var all := ps + QuadTexts(quad);
      && Pieces(all)
      && GroupTexts(Join(all, ":")) == all
      && TakeEmbedded(all) == Some(Half(ps, QuadBytes(quad)))
  {
    hide Join, ParseV4, Printed, PieceChar;
    var all := ps + QuadTexts(quad);
    HexPieces(ps);
    if quad.Some? {
      QuadPiece(quad.value);
      assert all[..|all| - 1] == ps;
    } else {
      assert all == ps;
    }
    PiecesSplit(all);
  }

  lemma PiecesSplit(all: seq<string>)
    requires Pieces(all)
    ensures GroupTexts(Join(all, ":")) == all
  {
    if all != [] {
      NoSeparatorInside(all, ':');
      JoinedWell(all);
      assert ":" == [':'];
      JoinSplits(all, ':');
    }
  }

  lemma HalfWell(ps: seq<string>)
    requires Pieces(ps)
    ensures var s := Join(ps, ":"); NoDouble(s) && Spaced(s) && ColonOrPiece(s) && (ps != [] ==> s != "")
  {
    hide *;
    JoinedWell(ps);
    WellParts(Join(ps, ":"));
  }

  lemma FullParses(l: Literal)
    requires Well(l) && !l.elided
    ensures Written(l) != "" && StripBrackets(Written(l)) == Written(l)
    ensures ParseV6(Written(l)) == Assembled(l.head, l.tail, QuadBytes(l.quad))
  {
    hide HexGroups, QuadTexts, ParseV6, Assembled, Pieces, Join;
    var all := l.head + QuadTexts(l.quad);
    HalfSplits(l.head, l.quad);
    assert all != [] by { WideMeansSome(l); }
    HalfWell(all);
    hide *;
    WrittenIs(l);
    PlainChars(Join(all, ":"));
    NoDoubleFound(Join(all, ":"), 0);
    ParseFull(Join(all, ":"), Half(l.head, QuadBytes(l.quad)));
  }

  lemma WideMeansSome(l: Literal)
    requires Well(l) && !l.elided
    ensures l.head + QuadTexts(l.quad) != []
  {
  }

  lemma WrittenIs(l: Literal)
    ensures !l.elided ==> Written(l) == Join(l.head + QuadTexts(l.quad), ":")
    ensures l.elided ==> Written(l) == Join(l.head, ":") + "::" + Join(l.tail + QuadTexts(l.quad), ":")
    ensures Well(l) && !l.elided ==> l.tail == [] && 2 * |l.head| + |QuadBytes(l.quad)| == 16
    ensures Well(l) && l.elided ==> 2 * |l.head| + 2 * |l.tail| + |QuadBytes(l.quad)| <= 14
    ensures Well(l) ==> HexGroups(l.head) && HexGroups(l.tail)
  {
    hide Join, QuadTexts, HexGroups;
  }

  lemma ElidedParses(l: Literal)
    requires Well(l) && l.elided
    ensures Written(l) != "" && StripBrackets(Written(l)) == Written(l)
    ensures ParseV6(Written(l)) == Assembled(l.head, l.tail, QuadBytes(l.quad))
  {
    hide *;
    WrittenIs(l);
    NoQuad(l.head);
    HalfSplits(l.head, None);
    HalfSplits(l.tail, l.quad);
    var head, tail := Join(l.head, ":"), Join(l.tail + QuadTexts(l.quad), ":");
    HalfWell(l.head);
    HalfWell(l.tail + QuadTexts(l.quad));
    OneDouble(head, tail);
    ColonsBetween(head, tail);
    var text := head + "::" + tail;
    PlainChars(text);
    assert text[..|head|] == head && text[|head| + 2..] == tail;
    ParseCompressed(text, |head|, l.head, Half(l.tail, QuadBytes(l.quad)));
  }

  lemma NoQuad(ps: seq<string>)
    ensures ps + QuadTexts(None) == ps
  {
  }

  lemma StrippedAlike(s: string, t: string)
    requires StripBrackets(s) == StripBrackets(t)
    ensures ParseV6(s) == ParseV6(t)
  {
    hide StripBrackets, FirstAt, TakeEmbedded, GroupTexts, Assembled;
  }

  lemma BracketsOff(t: string)
    ensures StripBrackets("[" + t + "]") == t
  {
  }

  lemma LiteralParses(s: string, l: Literal)
    requires Well(l) && Spells(s, l)
    ensures ParseV6(s) == Some(Denoted(l))
  {
    hide *;
    if l.elided {
      ElidedParses(l);
    } else {
      FullParses(l);
    }
    SpellsMeans(s, l);
    BracketsOff(Written(l));
    StrippedAlike(s, Written(l));
    WrittenIs(l);
    GroupsRead(l.head);
    GroupsRead(l.tail);
    WidthIs(l);
    AssembledFrom(l.head, l.tail, BytesOf(Values(l.head)), BytesOf(Values(l.tail)), QuadBytes(l.quad), 16 - Width(l));
    DenotedIs(l);
  }

  lemma SpellsMeans(s: string, l: Literal)
    ensures Spells(s, l) <==> s == Written(l) || s == "[" + Written(l) + "]"
  {
    hide Written;
  }

  lemma WidthIs(l: Literal)
    ensures Width(l) == 2 * |l.head| + 2 * |l.tail| + |QuadBytes(l.quad)|
  {
  }

  lemma DenotedIs(l: Literal)
    requires Well(l)
    ensures Denoted(l)
         == BytesOf(Values(l.head)) + Zeros(16 - Width(l)) + BytesOf(Values(l.tail)) + QuadBytes(l.quad)
  {
  }

  // ---- every text that parses is a literal ----

  lemma {:induction false} GroupsAreHex(ps: seq<string>)
    requires ParseGroups(ps).Some?
    ensures HexGroups(ps)
  {
    if ps != [] {
      var n := |ps| - 1;
      assert ParseGroups(ps[..n]).Some? && ParseGroup(ps[n]).Some?;
      GroupsAreHex(ps[..n]);
      assert forall i :: 0 <= i < n ==> ps[..n][i] == ps[i];
      assert HexGroup(ps[n]);
      hide HexGroup;
    }
  }

  lemma GroupsRejoin(half: string)
    ensures Join(GroupTexts(half), ":") == half
  {
    Ipv4Exact.SplitJoins(half, ':');
    assert ":" == [':'];
  }

  lemma EmbeddedIs(groups: seq<string>, half: Half) returns (quad: Option<Quad>)
    requires TakeEmbedded(groups) == Some(half)
    ensures groups == half.groups + QuadTexts(quad) && half.embedded == QuadBytes(quad)
  {
    hide ParseV4, Printed;
    quad := None;
    if groups != [] && '.' in groups[|groups| - 1] {
      Ipv4Exact.ParsesExactlyPrinted(groups[|groups| - 1], half.embedded);
      quad := Some(half.embedded);
    }
  }

  lemma AssembledMeans(head: seq<string>, tail: seq<string>, embedded: Bytes, bytes: Bytes)
    requires 2 * |head| + 2 * |tail| + |embedded| <= 16
    requires Assembled(head, tail, embedded) == Some(bytes)
    ensures HexGroups(head) && HexGroups(tail)
    ensures bytes == BytesOf(Values(head)) + Zeros(16 - 2 * |head| - 2 * |tail| - |embedded|)
                   + BytesOf(Values(tail)) + embedded
  {
    hide HexGroups, ParseGroups, BytesOf;
    GroupsAreHex(head);
    GroupsAreHex(tail);
    GroupsRead(head);
    GroupsRead(tail);
  }

  lemma FullSteps(s: string, bytes: Bytes) returns (half: Half)
    requires ParseV6(s) == Some(bytes) && FirstAt(StripBrackets(s), "::", 0).None?
    ensures TakeEmbedded(GroupTexts(StripBrackets(s))) == Some(half) && 2 * |half.groups| + |half.embedded| == 16
    ensures Assembled(half.groups, [], half.embedded) == Some(bytes)
  {
    hide StripBrackets, FirstAt, TakeEmbedded, GroupTexts, Assembled;
    half := TakeEmbedded(GroupTexts(StripBrackets(s))).value;
  }

  lemma ElidedSteps(s: string, bytes: Bytes, at: nat) returns (head: seq<string>, half: Half)
    requires ParseV6(s) == Some(bytes) && FirstAt(StripBrackets(s), "::", 0) == Some(at)
    ensures var text := StripBrackets(s);
      && at + 2 <= |text| && text[at..at + 2] == "::"
      && head == GroupTexts(text[..at]) && TakeEmbedded(GroupTexts(text[at + 2..])) == Some(half)
      && 2 * |head| + 2 * |half.groups| + |half.embedded| <= 14
      && Assembled(head, half.groups, half.embedded) == Some(bytes)
  {
    hide StripBrackets, FirstAt, TakeEmbedded, GroupTexts, Assembled;
    var text := StripBrackets(s);
    head := GroupTexts(text[..at]);
    half := TakeEmbedded(GroupTexts(text[at + 2..])).value;
  }

  lemma FullIsLiteral(s: string, bytes: Bytes) returns (l: Literal)
    requires ParseV6(s) == Some(bytes) && FirstAt(StripBrackets(s), "::", 0).None?
    ensures Well(l) && Written(l) == StripBrackets(s) && Denoted(l) == bytes
  {
    hide *;
    var half := FullSteps(s, bytes);
    var quad := EmbeddedIs(GroupTexts(StripBrackets(s)), half);
    l := Literal(half.groups, false, [], quad);
    GroupsRejoin(StripBrackets(s));
    AssembledMeans(half.groups, [], half.embedded, bytes);
    WrittenIs(l);
    WidthIs(l);
    WellIs(l);
    DenotedIs(l);
  }

  lemma ElidedIsLiteral(s: string, bytes: Bytes, at: nat) returns (l: Literal)
    requires ParseV6(s) == Some(bytes) && FirstAt(StripBrackets(s), "::", 0) == Some(at)
    ensures Well(l) && Written(l) == StripBrackets(s) && Denoted(l) == bytes
  {
    hide *;
    var text := StripBrackets(s);
    var head, half := ElidedSteps(s, bytes, at);
    var quad := EmbeddedIs(GroupTexts(text[at + 2..]), half);
    l := Literal(head, true, half.groups, quad);
    GroupsRejoin(text[..at]);
    GroupsRejoin(text[at + 2..]);
    assert text == text[..at] + text[at..at + 2] + text[at + 2..];
    AssembledMeans(head, half.groups, half.embedded, bytes);
    WrittenIs(l);
    WidthIs(l);
    WellIs(l);
    DenotedIs(l);
  }

  lemma WellIs(l: Literal)
    requires HexGroups(l.head) && HexGroups(l.tail)
    requires if l.elided then Width(l) <= 14 else l.tail == [] && Width(l) == 16
    ensures Well(l)
  {
  }

  lemma BracketsOn(s: string)
    ensures s == StripBrackets(s) || s == "[" + StripBrackets(s) + "]"
  {
  }

  /**
   * A text is accepted for an address exactly if it spells a literal of it:
   * eight groups, or at most seven around one "::", of one to four hexadecimal
   * digits, the last two of which may be an IPv4 address, in brackets or not.
   */
  lemma AcceptsExactly(s: string, bytes: Bytes)
    ensures ParseV6(s) == Some(bytes) <==> exists l :: Denotes(s, l, bytes)
  {
    hide *;
    if ParseV6(s) == Some(bytes) {
      var at := FirstAt(StripBrackets(s), "::", 0);
      var l: Literal;
      if at.None? {
        l := FullIsLiteral(s, bytes);
      } else {
        l := ElidedIsLiteral(s, bytes, at.value);
      }
      BracketsOn(s);
      DenotesMeans(s, l, bytes);
      assert Denotes(s, l, bytes);
    }
    if l :| Denotes(s, l, bytes) {
      DenotesMeans(s, l, bytes);
      SpellsMeans(s, l);
      LiteralParses(s, l);
    }
  }

  lemma DenotesMeans(s: string, l: Literal, bytes: Bytes)
    ensures Denotes(s, l, bytes) <==>
      Well(l) && Denoted(l) == bytes && (s == Written(l) || s == "[" + Written(l) + "]")
  {
    hide Well, Written, Denoted;
  }
}
