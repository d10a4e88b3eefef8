/**
 * Decimal rendering of integers, as PHP's `sprintf('%s', $n)` prints an int,
 * together with the parser that inverts it. The parser is what shows that
 * distinct numbers give distinct strings, which the cache layout relies on.
 */
module Decimal {

  predicate IsDigit(c: char) {
    '0' <= c <= '9'
  }

  function DigitValue(c: char): (d: nat)
    requires IsDigit(c)
    ensures d < 10
  {
    c as int - '0' as int
  }

  function DigitChar(d: nat): (c: char)
    requires d < 10
    ensures IsDigit(c) && DigitValue(c) == d
  {
    ('0' as int + d) as char
  }

  /** Every character is a digit, except possibly a leading minus sign. */
  predicate IsNumeral(s: string) {
    forall k :: 0 <= k < |s| ==> IsDigit(s[k]) || (k == 0 && s[k] == '-')
  }

  /** The decimal digits of `n`, most significant first, without leading zeros. */
  function NatToString(n: nat): (s: string)
    ensures |s| > 0
    ensures forall k :: 0 <= k < |s| ==> IsDigit(s[k])
    ensures s[0] == '0' <==> n == 0
    ensures s[0] == '0' ==> |s| == 1
    decreases n
  {
    if n < 10 then [DigitChar(n)] else NatToString(n / 10) + [DigitChar(n % 10)]
  }

  /** How PHP prints an int: a minus sign for negative numbers, then the digits. */
  function IntToString(i: int): (s: string)
    ensures |s| > 0 && IsNumeral(s)
    ensures s[0] == '-' <==> i < 0
    ensures i < 0 ==> |s| > 1 && s[1] != '0'
    ensures s[0] == '0' ==> |s| == 1
    ensures '/' !in s && '_' !in s && '.' !in s
  {
    if i < 0 then "-" + NatToString(-i) else NatToString(i)
  }

  function ParseNat(s: string): nat
    requires forall k :: 0 <= k < |s| ==> IsDigit(s[k])
  {
    if |s| == 0 then 0 else ParseNat(s[..|s| - 1]) * 10 + DigitValue(s[|s| - 1])
  }

  function ParseInt(s: string): int
    requires IsNumeral(s)
  {
    if |s| > 0 && s[0] == '-' then -(ParseNat(s[1..]) as int) else ParseNat(s)
  }

  lemma {:induction false} ParseNatToString(n: nat)
    ensures ParseNat(NatToString(n)) == n
    decreases n
  {
    var s := NatToString(n);
    if n >= 10 {
      ParseNatToString(n / 10);
      assert s[..|s| - 1] == NatToString(n / 10);
    }
  }

  /** Parsing inverts printing. */
  lemma ParseIntToString(i: int)
    ensures ParseInt(IntToString(i)) == i
  {
    var s := IntToString(i);
    if i < 0 {
      assert s[1..] == NatToString(-i);
      ParseNatToString(-i);
    } else {
      ParseNatToString(i);
    }
  }

  /** Distinct integers are printed differently. */
  lemma IntToStringInjective(a: int, b: int)
    ensures IntToString(a) == IntToString(b) <==> a == b
  {
    if IntToString(a) == IntToString(b) {
      ParseIntToString(a);
      ParseIntToString(b);
    }
  }

  /** A numeral as PHP prints one: no leading zeros, and no "-0". */
  ghost predicate IsCanonicalNumeral(s: string) {
    && |s| > 0 && IsNumeral(s)
    && (s[0] == '0' ==> |s| == 1)
    && (s[0] == '-' ==> |s| > 1 && s[1] != '0')
  }

  lemma {:induction false} ParseNatPositive(s: string)
    requires |s| > 0 && s[0] != '0'
    requires forall k :: 0 <= k < |s| ==> IsDigit(s[k])
    ensures ParseNat(s) > 0
    decreases |s|
  {
    if |s| > 1 {
      ParseNatPositive(s[..|s| - 1]);
    }
  }

  lemma {:induction false} CanonicalDigitsUnique(s: string, n: nat)
    requires |s| > 0 && (s[0] == '0' ==> |s| == 1)
    requires forall k :: 0 <= k < |s| ==> IsDigit(s[k])
    requires ParseNat(s) == n
    ensures s == NatToString(n)
    decreases |s|
  {
    var init := s[..|s| - 1];
    if |s| == 1 {
      assert init == [];
    } else {
      ParseNatPositive(init);
      var m := ParseNat(init);
      assert n / 10 == m && n % 10 == DigitValue(s[|s| - 1]);
      CanonicalDigitsUnique(init, m);
      assert s == init + [s[|s| - 1]];
    }
  }

  /** `IntToString(i)` is the only canonical numeral that denotes `i`. */
  lemma CanonicalNumeralUnique(s: string, i: int)
    requires IsCanonicalNumeral(s) && ParseInt(s) == i
    ensures s == IntToString(i)
  {
    if s[0] == '-' {
      CanonicalDigitsUnique(s[1..], -i);
      assert s == "-" + s[1..];
    } else {
      CanonicalDigitsUnique(s, i);
    }
  }
}
