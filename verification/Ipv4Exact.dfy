// Every IPv4 literal the parser takes is the one printed form of its address.
module Ipv4Exact {
  import opened Options
  import opened Numerals
  import opened IpText
  import opened IpPrint
  import opened Texts

  lemma {:induction false} LeadPositive(p: string)
    requires p != "" && AllDigits(p, 10) && p[0] != '0'
    ensures ValueOf(p, 10) > 0
  {
    var n := |p| - 1;
    assert IsDigit(p[n], 10);
    if n > 0 {
      assert AllDigits(p[..n], 10) && p[..n][0] == p[0];
      LeadPositive(p[..n]);
    } else {
      assert p[..0] == "";
    }
  }

  lemma LastDigit(v: nat, d: nat)
    requires d < 10
    ensures (v * 10 + d) / 10 == v && (v * 10 + d) % 10 == d
  {
  }

  lemma NumeralSnoc(v: nat, d: nat)
    requires v > 0 && d < 10
    ensures Numeral(v * 10 + d, 10) == Numeral(v, 10) + [DIGITS[d]]
  {
    LastDigit(v, d);
  }

  lemma ValueFront(p: string) returns (d: nat)
    requires p != "" && AllDigits(p, 10)
    ensures d < 10 && AllDigits(p[..|p| - 1], 10) && DIGITS[d] == p[|p| - 1]
    ensures ValueOf(p, 10) == ValueOf(p[..|p| - 1], 10) * 10 + d
  {
    assert IsDigit(p[|p| - 1], 10);
    d := DigitValue(p[|p| - 1]).value;
  }

  lemma OneDigit(p: string)
    requires |p| == 1 && AllDigits(p, 10)
    ensures Numeral(ValueOf(p, 10), 10) == p
  {
    var d := ValueFront(p);
    assert p[..0] == "";
    EmptyValue(10);
    assert ValueOf(p, 10) == d;
  }

  lemma FrontDigits(p: string)
    requires |p| > 1 && AllDigits(p, 10) && p[0] != '0'
    ensures var front := p[..|p| - 1];
      front != "" && AllDigits(front, 10) && front[0] == p[0] && ValueOf(front, 10) > 0
  {
    var front := p[..|p| - 1];
    assert AllDigits(front, 10);
    LeadPositive(front);
  }

  lemma LongDecimal(p: string)
    requires |p| > 1 && AllDigits(p, 10) && AllDigits(p[..|p| - 1], 10)
    requires ValueOf(p[..|p| - 1], 10) > 0 && Numeral(ValueOf(p[..|p| - 1], 10), 10) == p[..|p| - 1]
    ensures Numeral(ValueOf(p, 10), 10) == p
  {
    hide *;
    var d := ValueFront(p);
    NumeralSnoc(ValueOf(p[..|p| - 1], 10), d);
    assert p == p[..|p| - 1] + [p[|p| - 1]];
  }

  /** Decimal digits without a leading zero are the numeral of their value. */
  lemma {:induction false} DecimalExact(p: string)
    requires p != "" && AllDigits(p, 10) && (|p| > 1 ==> p[0] != '0')
    ensures Numeral(ValueOf(p, 10), 10) == p
    decreases |p|
  {
    hide *;
    if |p| == 1 {
      OneDigit(p);
    } else {
      FrontDigits(p);
      DecimalExact(p[..|p| - 1]);
      LongDecimal(p);
    }
  }

  lemma OctetExact(part: string, b: Byte)
    requires ParseOctet(part) == Some(b)
    ensures part == Numeral(b, 10)
  {
    DecimalExact(part);
    hide Numeral;
    hide ValueOf;
  }

  lemma {:induction false} OctetsExact(parts: seq<string>, bytes: Bytes)
    requires ParseOctets(parts) == Some(bytes)
    ensures parts == OctetTexts(bytes)
  {
    hide ParseOctet;
    hide Numeral;
    if parts != [] {
      var n := |parts| - 1;
      assert ParseOctets(parts[..n]).Some? && ParseOctet(parts[n]).Some?;
      var rest, b := ParseOctets(parts[..n]).value, ParseOctet(parts[n]).value;
      OctetsExact(parts[..n], rest);
      OctetExact(parts[n], b);
      assert bytes == rest + [b];
      assert OctetTexts(bytes) == OctetTexts(rest) + [Numeral(b, 10)];
      assert parts == parts[..n] + [parts[n]];
    }
  }

  lemma JoinPrefixed(c: char, rest: seq<string>, sep: string)
    requires rest != []
    ensures Join([[c] + rest[0]] + rest[1..], sep) == [c] + Join(rest, sep)
  {
    var parts := [[c] + rest[0]] + rest[1..];
    assert parts[1..] == rest[1..];
    if |rest| > 1 {
      assert [c] + rest[0] + sep + Join(rest[1..], sep) == [c] + (rest[0] + sep + Join(rest[1..], sep));
    }
  }

  lemma JoinEmptyFirst(rest: seq<string>, sep: string)
    requires rest != []
    ensures Join([""] + rest, sep) == sep + Join(rest, sep)
  {
    assert ([""] + rest)[1..] == rest;
  }

  lemma {:induction false} SplitJoins(s: string, sep: char)
    ensures SplitChar(s, sep) != [] && Join(SplitChar(s, sep), [sep]) == s
  {
    if s != "" {
      SplitJoins(s[1..], sep);
      var rest := SplitChar(s[1..], sep);
      hide Join;
      if s[0] == sep {
        JoinEmptyFirst(rest, [sep]);
      } else {
        JoinPrefixed(s[0], rest, [sep]);
      }
      assert s == [s[0]] + s[1..];
    } else {
      assert SplitChar(s, sep) == [""];
    }
  }

  /** The parser takes exactly the printed forms: one text per address, one address per text. */
  lemma ParsesExactlyPrinted(s: string, bytes: Bytes)
    ensures ParseV4(s) == Some(bytes) <==> |bytes| == 4 && s == Printed(bytes)
  {
    if ParseV4(s) == Some(bytes) {
      OctetsExact(SplitChar(s, '.'), bytes);
      SplitJoins(s, '.');
      assert "." == ['.'];
    } else if |bytes| == 4 {
      V4ReadsBack(bytes);
    }
    hide SplitChar;
    hide ParseOctets;
    hide OctetTexts;
    hide Join;
  }
}
