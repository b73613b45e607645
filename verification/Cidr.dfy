// CIDR blocks: a prefix comparison on bytes, and what it means bit by bit.
module Cidr {
  import opened Options
  import opened Texts
  import opened Numerals
  import opened IpText
  import opened IpPrint

  datatype Block = Block(bytes: Bytes, prefix: nat, family: int)

  function LastSlash(input: string): (r: Option<nat>)
    ensures r.Some? ==> r.value < |input| && input[r.value] == '/' && '/' !in input[r.value + 1..]
    ensures r.None? <==> '/' !in input
  {
    if input == "" then None
    else if input[|input| - 1] == '/' then Some(|input| - 1)
    else
      var front := input[..|input| - 1];
      assert input == front + [input[|input| - 1]];
      var r := LastSlash(front);
      assert r.Some? ==> input[r.value + 1..] == front[r.value + 1..] + [input[|input| - 1]];
      r
  }

  function MaxPrefix(family: int): nat {
    if family == 4 then 32 else 128
  }

  /** The prefix never exceeds the address. */
  function ParseCidr(input: string): (r: Option<Block>)
    ensures r.Some? ==> |r.value.bytes| in {4, 16} && r.value.prefix <= 8 * |r.value.bytes|
  {
    match LastSlash(input)
    case None =>
      (match Parse(input)
       case None => None
       case Some(bare) => Some(Block(bare.bytes, MaxPrefix(bare.family), bare.family)))
    case Some(slash) =>
      var text := input[slash + 1..];
      match Parse(input[..slash])
      case None => None
      case Some(address) =>
        if !(1 <= |text| <= 3) || !AllDigits(text, 10) || ValueOf(text, 10) > MaxPrefix(address.family) then None
        else Some(Block(address.bytes, ValueOf(text, 10), address.family))
  }

  function Pow2(n: nat): (r: nat)
    ensures r > 0
  {
    if n == 0 then 1 else 2 * Pow2(n - 1)
  }

  /** b & mask, where the mask keeps the top `kept` bits of a byte. */
  function TopBits(b: Byte, kept: nat): int
    requires kept <= 8
  {
    b - b % Pow2(8 - kept)
  }

  /** Same family, and the leading bits agree. */
  predicate Contains(block: Block, address: Bytes) {
    |block.bytes| == |address| && forall k :: 0 <= k < block.prefix ==> Bit(block.bytes, k) == Bit(address, k)
  }

  method CidrContains(block: Block, address: Bytes) returns (r: bool)
    requires block.prefix <= 8 * |block.bytes|
    ensures r <==> Contains(block, address)
  {
    if |block.bytes| != |address| {
      return false;
    }
    var wholeBytes := block.prefix / 8;
    for i := 0 to wholeBytes
      invariant forall k :: 0 <= k < i ==> block.bytes[k] == address[k]
    {
      if block.bytes[i] != address[i] {
        BytesDiffer(block.bytes, address, i);
        return false;
      }
    }
    var remainingBits := block.prefix % 8;
    r := remainingBits == 0
      || TopBits(block.bytes[wholeBytes], remainingBits) == TopBits(address[wholeBytes], remainingBits);
    PrefixBits(block.bytes, address, wholeBytes, remainingBits);
  }

  // ---- bits ----

  /** Bit k of a byte, the most significant first. */
  function BitOf(b: Byte, k: nat): int
    requires k < 8
  {
    b / Pow2(7 - k) % 2
  }

  function Bit(bytes: Bytes, k: int): int {
    if 0 <= k < 8 * |bytes| then BitOf(bytes[k / 8], k % 8) else 0
  }

  lemma Pow2Values()
    ensures Pow2(0) == 1 && Pow2(1) == 2 && Pow2(2) == 4 && Pow2(3) == 8 && Pow2(4) == 16
    ensures Pow2(5) == 32 && Pow2(6) == 64 && Pow2(7) == 128 && Pow2(8) == 256
  {
    assert Pow2(4) == 16;
  }

  /** Halving a quotient once more. */
  lemma HalveAgain(b: Byte, n: nat)
    ensures b / Pow2(n + 1) == b / Pow2(n) / 2
  {
    var p := Pow2(n);
    var q := b / p;
    assert b == p * q + b % p && 0 <= b % p < p;
    assert q == 2 * (q / 2) + q % 2;
    assert b == 2 * p * (q / 2) + (p * (q % 2) + b % p);
    assert 0 <= p * (q % 2) + b % p < 2 * p;
    QuotientUnique(b, 2 * p, q / 2, p * (q % 2) + b % p);
  }

  lemma QuotientUnique(b: int, d: nat, q: int, r: int)
    requires d > 0 && b == d * q + r && 0 <= r < d
    ensures b / d == q
  {
    var x := b / d - q;
    assert b == d * (b / d) + b % d;
    assert d * x == r - b % d;
    SmallMultiple(d, x);
  }

  lemma SmallMultiple(d: nat, x: int)
    requires -(d as int) < d * x < d
    ensures x == 0
  {
    assert x >= 1 ==> d * x >= d;
    assert x <= -1 ==> d * x <= -(d as int);
  }

  lemma Parity(x: int, y: int)
    ensures x == y <==> x / 2 == y / 2 && x % 2 == y % 2
  {
  }

  /** Two bytes share their top bits exactly if the quotients agree. */
  lemma {:induction false} QuotientBits(a: Byte, b: Byte, kept: nat)
    requires kept <= 8
    ensures a / Pow2(8 - kept) == b / Pow2(8 - kept) <==> forall k :: 0 <= k < kept ==> BitOf(a, k) == BitOf(b, k)
  {
    if kept == 0 {
      Pow2Values();
    } else {
      var n := 8 - kept;
      assert BitOf(a, kept - 1) == a / Pow2(n) % 2 && BitOf(b, kept - 1) == b / Pow2(n) % 2;
      hide BitOf;
      hide Pow2;
      QuotientBits(a, b, kept - 1);
      HalveAgain(a, n);
      HalveAgain(b, n);
      Parity(a / Pow2(n), b / Pow2(n));
    }
  }

  lemma FloorsEqual(a: int, b: int, p: nat)
    requires p > 0
    ensures a - a % p == b - b % p <==> a / p == b / p
  {
    assert a - a % p == p * (a / p) && b - b % p == p * (b / p);
    if a - a % p == b - b % p {
      assert p * (a / p - b / p) == 0;
      SmallMultiple(p, a / p - b / p);
    }
  }

  lemma TopBitsMean(a: Byte, b: Byte, kept: nat)
    requires kept <= 8
    ensures TopBits(a, kept) == TopBits(b, kept) <==> forall k :: 0 <= k < kept ==> BitOf(a, k) == BitOf(b, k)
  {
    QuotientBits(a, b, kept);
    FloorsEqual(a, b, Pow2(8 - kept));
    hide BitOf;
    hide Pow2;
  }

  lemma SameByteBits(a: Byte, b: Byte)
    ensures a == b <==> forall k :: 0 <= k < 8 ==> BitOf(a, k) == BitOf(b, k)
  {
    Pow2Values();
    QuotientBits(a, b, 8);
  }

  lemma BytesDiffer(a: Bytes, b: Bytes, i: nat)
    requires |a| == |b| && i < |a| && a[i] != b[i]
    ensures exists k :: 8 * i <= k < 8 * (i + 1) && Bit(a, k) != Bit(b, k)
  {
    SameByteBits(a[i], b[i]);
    var j :| 0 <= j < 8 && BitOf(a[i], j) != BitOf(b[i], j);
    var k := 8 * i + j;
    assert k / 8 == i && k % 8 == j;
    assert Bit(a, k) != Bit(b, k);
  }

  /** Equal whole bytes and equal top bits of the next are equal leading bits. */
  lemma PrefixBits(a: Bytes, b: Bytes, whole: nat, rest: nat)
    requires |a| == |b| && rest < 8 && 8 * whole + rest <= 8 * |a|
    requires forall i :: 0 <= i < whole ==> a[i] == b[i]
    ensures (rest == 0 || TopBits(a[whole], rest) == TopBits(b[whole], rest)) <==>
      forall k :: 0 <= k < 8 * whole + rest ==> Bit(a, k) == Bit(b, k)
  {
    hide BitOf;
    if rest > 0 {
      TopBitsMean(a[whole], b[whole], rest);
      forall j | 0 <= j < rest
        ensures Bit(a, 8 * whole + j) == BitOf(a[whole], j) && Bit(b, 8 * whole + j) == BitOf(b[whole], j)
      {
        assert (8 * whole + j) / 8 == whole && (8 * whole + j) % 8 == j;
      }
    }
    hide TopBits;
    forall k | 0 <= k < 8 * whole
      ensures Bit(a, k) == Bit(b, k)
    {
      assert k / 8 < whole;
    }
    if forall j :: 0 <= j < rest ==> BitOf(a[whole], j) == BitOf(b[whole], j) {
      forall k | 8 * whole <= k < 8 * whole + rest
        ensures Bit(a, k) == Bit(b, k)
      {
        var j := k - 8 * whole;
        assert k == 8 * whole + j;
      }
    }
  }

  // ---- which texts are blocks ----

  /** An address alone is the block of its full length. */
  predicate IsBare(s: string, block: Block) {
    && '/' !in s && Parse(s) == Some(ParsedIp(block.bytes, block.family))
    && block.prefix == MaxPrefix(block.family)
  }

  /** An address, a slash, and a prefix in one to three decimal digits that is not too long for it. */
  predicate IsPrefixed(s: string, address: string, digits: string, block: Block) {
    && s == address + "/" + digits
    && Parse(address) == Some(ParsedIp(block.bytes, block.family))
    && 1 <= |digits| <= 3 && AllDigits(digits, 10)
    && block.prefix == ValueOf(digits, 10) <= MaxPrefix(block.family)
  }

  lemma DigitsNoSlash(digits: string)
    requires AllDigits(digits, 10)
    ensures '/' !in digits
  {
    assert forall i :: 0 <= i < |digits| ==> IsDigit(digits[i], 10);
  }

  lemma {:induction false} LastSlashAt(address: string, digits: string)
    requires '/' !in digits
    ensures LastSlash(address + "/" + digits) == Some(|address|)
  {
    var s := address + "/" + digits;
    if digits != "" {
      var n := |digits| - 1;
      assert digits[n] in digits;
      LastSlashAt(address, digits[..n]);
      assert s[..|s| - 1] == address + "/" + digits[..n];
    }
  }

  lemma PrefixedParses(s: string, address: string, digits: string, block: Block)
    requires IsPrefixed(s, address, digits, block)
    ensures ParseCidr(s) == Some(block)
  {
    DigitsNoSlash(digits);
    LastSlashAt(address, digits);
    assert s[..|address|] == address && s[|address| + 1..] == digits;
    hide Parse, ValueOf, LastSlash;
  }

  /** A block is an address alone, or an address with a prefix that fits it, and nothing else. */
  lemma CidrExactly(s: string, block: Block)
    ensures ParseCidr(s) == Some(block) <==>
      IsBare(s, block) || exists address, digits :: IsPrefixed(s, address, digits, block)
  {
    if ParseCidr(s) == Some(block) && LastSlash(s).Some? {
      var slash := LastSlash(s).value;
      assert s == s[..slash] + "/" + s[slash + 1..];
      assert IsPrefixed(s, s[..slash], s[slash + 1..], block);
    }
    if address, digits :| IsPrefixed(s, address, digits, block) {
      PrefixedParses(s, address, digits, block);
    }
    hide Parse, ValueOf, LastSlash;
  }

  lemma {:induction false} JoinedColons(parts: seq<string>)
    requires Pieces(parts)
    ensures ColonOrPiece(Join(parts, ":"))
  {
    JoinedWell(parts);
  }

  lemma PrintedChars(bytes: Bytes)
    requires |bytes| == 4 || |bytes| == 16
    ensures ColonOrPiece(Printed(bytes))
  {
    if |bytes| == 4 {
      OctetsArePieces(bytes);
      JoinedChars(OctetTexts(bytes), ".");
    } else {
      var texts := TextsOf(GroupsOf(bytes));
      var start, length := BestRun(texts).bestStart, BestRun(texts).bestLength;
      PrintedBy(bytes);
      TextsArePieces(GroupsOf(bytes));
      hide Printed, LeftmostLongest, BestRun, TextsOf, GroupsOf;
      JoinedColons(texts);
      if length >= 2 {
        JoinedColons(texts[..start]);
        JoinedColons(texts[start + length..]);
        ColonsBetween(Join(texts[..start], ":"), Join(texts[start + length..], ":"));
      }
    }
  }

  /** A printed address with a printed prefix reads back as that block. */
  lemma BlockReadsBack(bytes: Bytes, prefix: nat)
    requires |bytes| == 4 || |bytes| == 16
    requires prefix <= 8 * |bytes|
    ensures ParseCidr(Printed(bytes) + "/" + Numeral(prefix, 10))
         == Some(Block(bytes, prefix, if |bytes| == 4 then 4 else 6))
  {
    PrintParses(bytes);
    NumeralReadsBack(prefix, 10);
    NumeralLead(prefix, 10);
    assert Power(10, 0) == 1 && Power(10, 1) == 10 && Power(10, 2) == 100 && Power(10, 3) == 1000;
    NumeralLength(prefix, 10, 3);
    hide Parse, Printed, Numeral, ValueOf, ParseCidr;
    var block := Block(bytes, prefix, if |bytes| == 4 then 4 else 6);
    PrefixedParses(Printed(bytes) + "/" + Numeral(prefix, 10), Printed(bytes), Numeral(prefix, 10), block);
  }

  lemma AllBitsSame(block: Block, address: Bytes)
    requires block.prefix == 8 * |block.bytes|
    ensures Contains(block, address) <==> address == block.bytes
  {
    hide Bit;
    if |address| == |block.bytes| && address != block.bytes {
      var i: nat :| i < |address| && block.bytes[i] != address[i];
      BytesDiffer(block.bytes, address, i);
    }
  }

  /** A printed address without a prefix is the block that holds this address and no other. */
  lemma HostBlock(bytes: Bytes, address: Bytes)
    requires |bytes| == 4 || |bytes| == 16
    ensures var block := ParseCidr(Printed(bytes));
      block.Some? && (Contains(block.value, address) <==> address == bytes)
  {
    hide *;
    var family := if |bytes| == 4 then 4 else 6;
    var block := Block(bytes, 8 * |bytes|, family);
    PrintParses(bytes);
    PrintedChars(bytes);
    BareParses(Printed(bytes), block);
    AllBitsSame(block, address);
  }

  lemma BareParses(s: string, block: Block)
    requires ColonOrPiece(s) && Parse(s) == Some(ParsedIp(block.bytes, block.family))
    requires (block.family == 4 && block.prefix == 32) || (block.family == 6 && block.prefix == 128)
    ensures ParseCidr(s) == Some(block)
  {
    hide Parse;
    assert !PieceChar('/');
    hide LastSlash;
  }

  // ---- IPv4-mapped addresses ----

  predicate IsIpv4Mapped(bytes: Bytes) {
    |bytes| == 16 && bytes[..10] == Zeros(10) && bytes[10] == 255 && bytes[11] == 255
  }

  function UnwrapIpv4Mapped(bytes: Bytes): Option<Bytes> {
    if IsIpv4Mapped(bytes) then Some(bytes[12..16]) else None
  }

  lemma FullGroup()
    ensures GroupText(65535) == "ffff"
  {
    assert Numeral(15, 16) == "f";
    assert Numeral(255, 16) == "ff";
    assert Numeral(4095, 16) == "fff";
  }

  lemma MappedTail(quad: string)
    requires quad != "" && forall c :: c in quad ==> PieceChar(c)
    ensures var tail := "ffff:" + quad;
      && Spaced(tail) && ColonOrPiece(tail)
      && GroupTexts(tail) == ["ffff", quad]
  {
    var tail := "ffff:" + quad;
    assert forall i :: 0 <= i < |quad| ==> quad[i] in quad;
    assert forall i :: 5 <= i < |tail| ==> tail[i] == quad[i - 5];
    var parts := ["ffff", quad];
    assert Join(parts, ":") == tail by {
      assert parts[1..] == [quad];
    }
    assert ":" == [':'];
    JoinSplits(parts, ':');
  }

  lemma MappedGroups(quad: string, bytes: Bytes)
    requires ParseV4(quad) == Some(bytes) && '.' in quad
    ensures TakeEmbedded(["ffff", quad]) == Some(Half(["ffff"], bytes))
    ensures Assembled([], ["ffff"], bytes) == Some(Zeros(10) + [255, 255] + bytes)
  {
    FullGroup();
    GroupReadsBack(65535);
    assert ["ffff", quad][..1] == ["ffff"];
    var one := ["ffff"];
    assert one[..|one| - 1] == [];
    assert ParseGroups([]) == Some([]);
    assert [] + GroupBytes(65535) == [255, 255];
    assert ParseGroups(one) == Some([255, 255]);
    assert [] + Zeros(10) + [255, 255] + bytes == Zeros(10) + [255, 255] + bytes;
    hide ParseV4;
  }

  lemma MappedText(text: string, tail: string)
    requires text == "::" + tail && Spaced(tail) && ColonOrPiece(tail)
    ensures StripBrackets(text) == text && '%' !in text && ':' in text
    ensures FirstAt(text, "::", 0) == Some(0) && FirstAt(text, "::", 1).None?
  {
    OneDouble("", tail);
    assert "" + "::" + tail == text;
    assert text[0] == ':';
    hide Spaced;
    hide FirstAt;
  }

  lemma ParseMapped(text: string, tail: string, quad: string, bytes: Bytes)
    requires text == "::" + tail && StripBrackets(text) == text && '%' !in text && |bytes| == 4
    requires FirstAt(text, "::", 0) == Some(0) && FirstAt(text, "::", 1).None?
    requires GroupTexts(tail) == ["ffff", quad] && TakeEmbedded(["ffff", quad]) == Some(Half(["ffff"], bytes))
    ensures ParseV6(text) == Assembled([], ["ffff"], bytes)
  {
    assert text[..0] == "" && text[2..] == tail;
    assert GroupTexts("") == [];
    hide StripBrackets;
    hide FirstAt;
    hide TakeEmbedded;
    hide GroupTexts;
    hide Assembled;
  }

  lemma QuadText(bytes: Bytes)
    requires |bytes| == 4
    ensures var quad := Printed(bytes);
      && quad != "" && '.' in quad && ParseV4(quad) == Some(bytes)
      && forall c :: c in quad ==> PieceChar(c)
  {
    V4ReadsBack(bytes);
    OctetsArePieces(bytes);
    JoinedChars(OctetTexts(bytes), ".");
    assert Join(OctetTexts(bytes), ".") == OctetTexts(bytes)[0] + "." + Join(OctetTexts(bytes)[1..], ".");
    assert '.' in ".";
    hide ParseV4;
    hide OctetTexts;
  }

  /** An IPv4 address written as an IPv4-mapped IPv6 literal unwraps to its own four bytes. */
  lemma MappedUnwraps(bytes: Bytes)
    requires |bytes| == 4
    ensures var r := ParseV6("::ffff:" + Printed(bytes));
      r.Some? && UnwrapIpv4Mapped(r.value) == Some(bytes)
  {
    var quad := Printed(bytes);
    QuadText(bytes);
    hide *;
    var tail := "ffff:" + quad;
    MappedTail(quad);
    MappedGroups(quad, bytes);
    MappedText("::" + tail, tail);
    ParseMapped("::" + tail, tail, quad, bytes);
    assert "::ffff:" + quad == "::" + tail;
    MappedBytes(bytes);
  }

  lemma MappedBytes(bytes: Bytes)
    requires |bytes| == 4
    ensures UnwrapIpv4Mapped(Zeros(10) + [255, 255] + bytes) == Some(bytes)
  {
    var all := Zeros(10) + [255, 255] + bytes;
    assert all[..10] == Zeros(10);
    assert all[12..16] == bytes;
  }

  /** Exactly ten zero bytes, two of ones and the four of the address unwrap to that address. */
  lemma UnwrapExactly(bytes: Bytes, address: Bytes)
    ensures UnwrapIpv4Mapped(bytes) == Some(address) <==>
      |address| == 4 && bytes == Zeros(10) + [255, 255] + address
  {
    if |bytes| == 16 {
      assert bytes == bytes[..10] + [bytes[10], bytes[11]] + bytes[12..16];
    }
    var whole := Zeros(10) + [255, 255] + address;
    assert whole[..10] == Zeros(10) && whole[10] == 255 && whole[11] == 255;
    assert |address| == 4 ==> whole[12..16] == address;
  }
}
