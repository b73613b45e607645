// IP literals parsed to bytes.
module IpText {
  import opened Options
  import opened Texts
  import opened Numerals

  type Byte = x: int | 0 <= x < 256
  type Bytes = seq<Byte>
  /** Two bytes of an IPv6 address. */
  type Group = x: int | 0 <= x < 65536

  datatype ParsedIp = ParsedIp(bytes: Bytes, family: int)

  // ---- IPv4 ----

  /** One to three decimal digits, no leading zero, at most 255. */
  function ParseOctet(part: string): Option<Byte> {
    if |part| == 0 || |part| > 3 then None
    else if !AllDigits(part, 10) then None
    else if |part| > 1 && part[0] == '0' then None
    else if ValueOf(part, 10) > 255 then None
    else Some(ValueOf(part, 10))
  }

  function ParseOctets(parts: seq<string>): (r: Option<Bytes>)
    ensures r.Some? ==> |r.value| == |parts|
  {
    if parts == [] then Some([])
    else
      var n := |parts| - 1;
      match (ParseOctets(parts[..n]), ParseOctet(parts[n]))
      case (Some(rest), Some(b)) => Some(rest + [b])
      case _ => None
  }

  function ParseV4(input: string): (r: Option<Bytes>)
    ensures r.Some? ==> |r.value| == 4
  {
    var parts := SplitChar(input, '.');
    if |parts| != 4 then None else ParseOctets(parts)
  }

  method ParseIpv4(input: string) returns (r: Option<Bytes>)
    ensures r == ParseV4(input)
  {
    var parts := SplitChar(input, '.');
    if |parts| != 4 {
      return None;
    }
    var bytes: Bytes := [];
    for i := 0 to 4
      invariant ParseOctets(parts[..i]) == Some(bytes)
    {
      assert parts[..i + 1][..i] == parts[..i];
      var octet := ParseOctet(parts[i]);
      if octet.None? {
        OctetsFail(parts, i);
        return None;
      }
      bytes := bytes + [octet.value];
    }
    assert parts[..4] == parts;
    r := Some(bytes);
  }

  lemma {:induction false} OctetsFail(parts: seq<string>, i: nat)
    requires i < |parts| && ParseOctet(parts[i]).None?
    ensures ParseOctets(parts).None?
  {
    var n := |parts| - 1;
    if i < n {
      assert parts[..n][i] == parts[i];
      OctetsFail(parts[..n], i);
    }
  }

  // ---- IPv6 ----

  /** One to four hexadecimal digits. */
  function ParseGroup(text: string): Option<Group> {
    if |text| == 0 || |text| > 4 || !AllDigits(text, 16) then None
    else
      HexFits(text);
      Some(ValueOf(text, 16))
  }

  lemma {:induction false} ValueBound(s: string, base: Base)
    requires AllDigits(s, base)
    ensures ValueOf(s, base) < Power(base, |s|)
  {
    if s != "" {
      var n := |s| - 1;
      ValueBound(s[..n], base);
      assert IsDigit(s[n], base);
      Times(ValueOf(s[..n], base), Power(base, n), base);
    }
  }

  lemma Times(a: nat, b: nat, base: Base)
    requires a < b
    ensures a * base + base <= base * b
  {
  }

  lemma HexFits(text: string)
    requires |text| <= 4 && AllDigits(text, 16)
    ensures ValueOf(text, 16) < 65536
  {
    ValueBound(text, 16);
    hide ValueOf;
    assert Power(16, 0) == 1 && Power(16, 1) == 16 && Power(16, 2) == 256 && Power(16, 3) == 4096
      && Power(16, 4) == 65536;
  }

  function GroupBytes(g: Group): Bytes {
    [g / 256, g % 256]
  }

  function ParseGroups(texts: seq<string>): (r: Option<Bytes>)
    ensures r.Some? ==> |r.value| == 2 * |texts|
  {
    if texts == [] then Some([])
    else
      var n := |texts| - 1;
      match (ParseGroups(texts[..n]), ParseGroup(texts[n]))
      case (Some(rest), Some(g)) => Some(rest + GroupBytes(g))
      case _ => None
  }

  function Zeros(n: nat): (r: Bytes)
    ensures |r| == n && forall i :: 0 <= i < n ==> r[i] == 0
  {
    seq(n, _ => 0)
  }

  function StripBrackets(input: string): string {
    if |input| >= 2 && input[0] == '[' && input[|input| - 1] == ']' then input[1..|input| - 1] else input
  }

  function GroupTexts(half: string): seq<string> {
    if half == "" then [] else SplitChar(half, ':')
  }

  /** The last group may be a dotted quad standing for two groups. */
  datatype Half = Half(groups: seq<string>, embedded: Bytes)

  function TakeEmbedded(groups: seq<string>): (r: Option<Half>)
    ensures r.Some? ==> |r.value.embedded| == 0 || |r.value.embedded| == 4
  {
    if groups != [] && '.' in groups[|groups| - 1] then
      match ParseV4(groups[|groups| - 1])
      case Some(bytes) => Some(Half(groups[..|groups| - 1], bytes))
      case None => None
    else Some(Half(groups, []))
  }

  /** Head from the left, the rest right-aligned in sixteen bytes. */
  function Assembled(head: seq<string>, tail: seq<string>, embedded: Bytes): (r: Option<Bytes>)
    requires 2 * |head| + 2 * |tail| + |embedded| <= 16
    ensures r.Some? ==> |r.value| == 16
  {
    match (ParseGroups(head), ParseGroups(tail))
    case (Some(a), Some(b)) => Some(a + Zeros(16 - |a| - |b| - |embedded|) + b + embedded)
    case _ => None
  }

  /** Without "::" there are exactly eight groups; with it, at most seven. */
  function ParseV6(input: string): (r: Option<Bytes>)
    ensures r.Some? ==> |r.value| == 16
  {
    var text := StripBrackets(input);
    if '%' in text || text == "" then None
    else
      match FirstAt(text, "::", 0)
      case None =>
        (match TakeEmbedded(GroupTexts(text))
         case None => None
         case Some(Half(head, embedded)) =>
           if 2 * |head| + |embedded| != 16 then None else Assembled(head, [], embedded))
      case Some(at) =>
        if FirstAt(text, "::", at + 1).Some? then None
        else
          var head := GroupTexts(text[..at]);
          match TakeEmbedded(GroupTexts(text[at + 2..]))
          case None => None
          case Some(Half(tail, embedded)) =>
            if 2 * |head| + 2 * |tail| + |embedded| > 14 then None else Assembled(head, tail, embedded)
  }

  lemma {:induction false} GroupsFail(texts: seq<string>, i: nat)
    requires i < |texts| && ParseGroup(texts[i]).None?
    ensures ParseGroups(texts).None?
  {
    var n := |texts| - 1;
    if i < n {
      assert texts[..n][i] == texts[i];
      GroupsFail(texts[..n], i);
    }
  }

  /** Write groups into the buffer, two bytes each. */
  method WriteGroups(bytes: array<Byte>, start: nat, groups: seq<string>) returns (ok: bool)
    requires start + 2 * |groups| <= bytes.Length
    modifies bytes
    ensures ok <==> ParseGroups(groups).Some?
    ensures ok ==> bytes[..] == old(bytes[..start]) + ParseGroups(groups).value + old(bytes[start + 2 * |groups|..])
  {
    hide ParseGroup;
    ghost var was := bytes[..];
    var offset := start;
    for i := 0 to |groups|
      invariant offset == start + 2 * i && ParseGroups(groups[..i]).Some?
      invariant bytes[..] == was[..start] + ParseGroups(groups[..i]).value + was[offset..]
    {
      assert groups[..i + 1][..i] == groups[..i];
      var value := ParseGroup(groups[i]);
      if value.None? {
        GroupsFail(groups, i);
        return false;
      }
      bytes[offset] := value.value / 256;
      bytes[offset + 1] := value.value % 256;
      offset := offset + 2;
    }
    assert groups[..|groups|] == groups;
    ok := true;
  }

  method WriteBytes(bytes: array<Byte>, start: nat, data: Bytes)
    requires start + |data| <= bytes.Length
    modifies bytes
    ensures bytes[..] == old(bytes[..start]) + data + old(bytes[start + |data|..])
  {
    ghost var was := bytes[..];
    for i := 0 to |data|
      invariant bytes[..] == was[..start] + data[..i] + was[start + i..]
    {
      bytes[start + i] := data[i];
    }
  }

  method ParseIpv6(input: string) returns (r: Option<Bytes>)
    ensures r == ParseV6(input)
  {
    var text := StripBrackets(input);
    if '%' in text || text == "" {
      return None;
    }
    var doubleColon := FirstAt(text, "::", 0);
    if doubleColon.Some? && FirstAt(text, "::", doubleColon.value + 1).Some? {
      return None;
    }
    var head := GroupTexts(if doubleColon.Some? then text[..doubleColon.value] else text);
    var tail := if doubleColon.Some? then GroupTexts(text[doubleColon.value + 2..]) else [];
    var taken := TakeEmbedded(if doubleColon.Some? then tail else head);
    if taken.None? {
      return None;
    }
    var embedded := taken.value.embedded;
    if doubleColon.Some? {
      tail := taken.value.groups;
    } else {
      head := taken.value.groups;
    }
    var total := 2 * |head| + 2 * |tail| + |embedded|;
    if (if doubleColon.None? then total != 16 else total > 14) {
      return None;
    }
    r := Assemble(head, tail, embedded);
  }

  method Assemble(head: seq<string>, tail: seq<string>, embedded: Bytes) returns (r: Option<Bytes>)
    requires 2 * |head| + 2 * |tail| + |embedded| <= 16
    ensures r == Assembled(head, tail, embedded)
  {
    var bytes := new Byte[16](_ => 0);
    assert bytes[..] == Zeros(16);
    var ok := WriteGroups(bytes, 0, head);
    if !ok {
      return None;
    }
    ghost var one := bytes[..];
    var offset := 16 - 2 * |tail| - |embedded|;
    ok := WriteGroups(bytes, offset, tail);
    if !ok {
      return None;
    }
    ghost var two := bytes[..];
    WriteBytes(bytes, 16 - |embedded|, embedded);
    r := Some(bytes[..]);
    hide ParseGroups;
    Layout(ParseGroups(head).value, ParseGroups(tail).value, embedded, one, two, r.value);
  }

  lemma Layout(a: Bytes, b: Bytes, e: Bytes, one: Bytes, two: Bytes, three: Bytes)
    requires |a| + |b| + |e| <= 16
    requires one == Zeros(16)[..0] + a + Zeros(16)[|a|..]
    requires two == one[..16 - |b| - |e|] + b + one[16 - |e|..]
    requires three == two[..16 - |e|] + e + two[16..]
    ensures three == a + Zeros(16 - |a| - |b| - |e|) + b + e
  {
    var gap := 16 - |a| - |b| - |e|;
    assert one[..16 - |b| - |e|] == a + Zeros(gap);
    assert two[..16 - |e|] == a + Zeros(gap) + b;
  }

  function Parse(input: string): Option<ParsedIp> {
    if ':' in input || (input != "" && input[0] == '[') then
      match ParseV6(input)
      case Some(bytes) => Some(ParsedIp(bytes, 6))
      case None => None
    else
      match ParseV4(input)
      case Some(bytes) => Some(ParsedIp(bytes, 4))
      case None => None
  }
}
