// Numbers as digits, in base ten and base sixteen.
module Numerals {
  import opened Options

  const DIGITS := "0123456789abcdef"

  type Base = b: nat | 2 <= b <= 16 witness 10

  /** Number.prototype.toString: lower case, no leading zero. */
  function Numeral(n: nat, base: Base): string
    decreases n
  {
    if n < base then [DIGITS[n]] else Numeral(n / base, base) + [DIGITS[n % base]]
  }

  function DigitValue(c: char): Option<nat> {
    if '0' <= c <= '9' then Some((c - '0') as nat)
    else if 'a' <= c <= 'f' then Some((c - 'a') as nat + 10)
    else if 'A' <= c <= 'F' then Some((c - 'A') as nat + 10)
    else None
  }

  predicate IsDigit(c: char, base: Base) {
    DigitValue(c).Some? && DigitValue(c).value < base
  }

  predicate AllDigits(s: string, base: Base) {
    forall i :: 0 <= i < |s| ==> IsDigit(s[i], base)
  }

  function ValueOf(s: string, base: Base): nat
    requires AllDigits(s, base)
  {
    if s == "" then 0
    else
      var n := |s| - 1;
      assert IsDigit(s[n], base);
      ValueOf(s[..n], base) * base + DigitValue(s[n]).value
  }

  lemma DigitBack(d: nat, base: Base)
    requires d < base
    ensures DigitValue(DIGITS[d]) == Some(d)
    ensures '0' <= DIGITS[d] <= '9' || 'a' <= DIGITS[d] <= 'f'
  {
  }

  lemma ValueSnoc(s: string, d: nat, base: Base)
    requires AllDigits(s, base) && d < base
    ensures AllDigits(s + [DIGITS[d]], base)
    ensures ValueOf(s + [DIGITS[d]], base) == ValueOf(s, base) * base + d
  {
    DigitBack(d, base);
    assert (s + [DIGITS[d]])[..|s|] == s;
  }

  lemma EmptyValue(base: Base)
    ensures AllDigits("", base) && ValueOf("", base) == 0
  {
  }

  lemma Quotient(n: nat, base: Base)
    ensures n == n / base * base + n % base && (n >= base ==> n / base < n)
  {
  }

  /** Written digits read back as the number. */
  lemma {:induction false} NumeralReadsBack(n: nat, base: Base)
    ensures AllDigits(Numeral(n, base), base)
    ensures ValueOf(Numeral(n, base), base) == n
    decreases n
  {
    hide ValueOf;
    hide AllDigits;
    if n < base {
      EmptyValue(base);
      ValueSnoc("", n, base);
      assert "" + [DIGITS[n]] == [DIGITS[n]];
    } else {
      var q, d := n / base, n % base;
      Quotient(n, base);
      NumeralReadsBack(q, base);
      ValueSnoc(Numeral(q, base), d, base);
      assert Numeral(n, base) == Numeral(q, base) + [DIGITS[d]];
    }
  }

  lemma {:induction false} NumeralLowerCase(n: nat, base: Base)
    ensures forall c :: c in Numeral(n, base) ==> '0' <= c <= '9' || 'a' <= c <= 'f'
    decreases n
  {
    if n < base {
      DigitBack(n, base);
    } else {
      NumeralLowerCase(n / base, base);
      DigitBack(n % base, base);
    }
  }

  /** Only zero starts with a zero. */
  lemma {:induction false} NumeralLead(n: nat, base: Base)
    ensures Numeral(n, base) != ""
    ensures Numeral(n, base)[0] == '0' <==> n == 0
    decreases n
  {
    if n < base {
      DigitBack(n, base);
    } else {
      Shrinks(n, base);
      NumeralLead(n / base, base);
    }
  }

  lemma Shrinks(n: nat, base: Base)
    requires n >= base
    ensures 0 < n / base < n
  {
  }

  function Power(base: Base, k: nat): nat {
    if k == 0 then 1 else base * Power(base, k - 1)
  }

  lemma {:induction false} NumeralLength(n: nat, base: Base, k: nat)
    requires k > 0 && n < Power(base, k)
    ensures |Numeral(n, base)| <= k
    decreases k
  {
    if n >= base {
      assert k > 1;
      DivideBelow(n, base, Power(base, k - 1));
      NumeralLength(n / base, base, k - 1);
    }
  }

  lemma DivideBelow(n: nat, base: Base, m: nat)
    requires n < base * m
    ensures n / base < m
  {
  }

  lemma NumeralInjective(m: nat, n: nat, base: Base)
    requires Numeral(m, base) == Numeral(n, base)
    ensures m == n
  {
    NumeralReadsBack(m, base);
    NumeralReadsBack(n, base);
  }
}
