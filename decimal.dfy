/** Decimal text of integers, as `n.toString()` and template literals `${n}`
    produce it, together with the parser that inverts it. */
module Decimal {
  import opened Wrappers

  predicate IsDigit(c: char) {
    '0' <= c <= '9'
  }

  predicate AllDigits(s: string) {
    forall i :: 0 <= i < |s| ==> IsDigit(s[i])
  }

  function DigitChar(d: nat): (c: char)
    requires d < 10
    ensures IsDigit(c) && DigitValue(c) == d
  {
    ((d + '0' as int) as char)
  }

  function DigitValue(c: char): nat
    requires IsDigit(c)
  {
    (c as int) - ('0' as int)
  }

  /** Shortest decimal text of a natural number: "0", or no leading zero. */
  function NatToString(n: nat): (s: string)
    ensures |s| >= 1 && AllDigits(s)
    ensures n >= 10 ==> s[0] != '0'
    decreases n
  {
    if n < 10 then [DigitChar(n)] else NatToString(n / 10) + [DigitChar(n % 10)]
  }

  /** `String(i)` for an integer i. */
  function IntToString(i: int): (s: string)
    ensures |s| >= 1
    ensures i >= 0 ==> AllDigits(s)
    ensures i < 0 ==> s[0] == '-' && AllDigits(s[1..])
  {
    if i < 0 then "-" + NatToString(-i) else NatToString(i)
  }

  /** Every character of an integer's text is a digit or the minus sign. */
  lemma IntToStringChars(i: int)
    ensures forall j :: 0 <= j < |IntToString(i)| ==> IsDigit(IntToString(i)[j]) || IntToString(i)[j] == '-'
  {
    var s := IntToString(i);
    forall j | 0 <= j < |s| ensures IsDigit(s[j]) || s[j] == '-' {
      if i < 0 && j > 0 {
        assert s[j] == s[1..][j - 1];
      }
    }
  }

  /** Value of a string of digits; leading zeros are allowed. */
  function ParseNat(s: string): nat
    requires AllDigits(s)
    decreases |s|
  {
    if s == [] then 0 else ParseNat(s[..|s| - 1]) * 10 + DigitValue(s[|s| - 1])
  }

  /** Partial inverse of IntToString: an optional '-' followed by at least one digit. */
  function ParseInt(s: string): Option<int> {
    if |s| >= 2 && s[0] == '-' && AllDigits(s[1..]) then Some(0 - (ParseNat(s[1..]) as int))
    else if |s| >= 1 && AllDigits(s) then Some(ParseNat(s))
    else None
  }

  lemma {:induction false} ParseNatToString(n: nat)
    ensures ParseNat(NatToString(n)) == n
    decreases n
  {
    var s := NatToString(n);
    if n >= 10 {
      ParseNatToString(n / 10);
      assert s[..|s| - 1] == NatToString(n / 10);
    }
  }

  /** The decimal text of an integer parses back to it. */
  lemma ParseIntToString(i: int)
    ensures ParseInt(IntToString(i)) == Some(i)
  {
    if i < 0 {
      ParseNatToString(-i);
      assert IntToString(i)[1..] == NatToString(-i);
    } else {
      ParseNatToString(i);
      var s := NatToString(i);
      assert !(|s| >= 2 && s[0] == '-');
    }
  }

  /** Distinct integers have distinct decimal texts. */
  lemma IntToStringInjective(a: int, b: int)
    requires IntToString(a) == IntToString(b)
    ensures a == b
  {
    ParseIntToString(a);
    ParseIntToString(b);
  }

  /** Leading zeros do not change the parsed value. */
  lemma {:induction false} ParseNatLeadingZeros(z: string, s: string)
    requires forall i :: 0 <= i < |z| ==> z[i] == '0'
    requires AllDigits(s)
    ensures AllDigits(z + s)
    ensures ParseNat(z + s) == ParseNat(s)
    decreases |s|
  {
    var t := z + s;
    if s == [] {
      assert t == z;
      ParseNatZeros(z);
    } else {
      assert t[..|t| - 1] == z + s[..|s| - 1];
      ParseNatLeadingZeros(z, s[..|s| - 1]);
    }
  }

  lemma {:induction false} ParseNatZeros(z: string)
    requires forall i :: 0 <= i < |z| ==> z[i] == '0'
    ensures AllDigits(z) && ParseNat(z) == 0
    decreases |z|
  {
    if z != [] {
      ParseNatZeros(z[..|z| - 1]);
    }
  }

  function Pow10(k: nat): (p: nat)
    ensures p >= 1
  {
    if k == 0 then 1 else 10 * Pow10(k - 1)
  }

  /** A natural number has at most k digits exactly when it is below 10^k. */
  lemma {:induction false} NatToStringLength(n: nat, k: nat)
    requires k >= 1
    ensures |NatToString(n)| <= k <==> n < Pow10(k)
    decreases n
  {
    if n >= 10 {
      if k == 1 {
        assert |NatToString(n)| >= 2 by { assert NatToString(n) == NatToString(n / 10) + [DigitChar(n % 10)]; }
      } else {
        NatToStringLength(n / 10, k - 1);
        assert n < Pow10(k) <==> n / 10 < Pow10(k - 1);
      }
    } else {
      Pow10AtLeast(k);
    }
  }

  lemma {:induction false} Pow10AtLeast(k: nat)
    requires k >= 1
    ensures Pow10(k) >= 10
  {
    if k > 1 {
      Pow10AtLeast(k - 1);
    }
  }
}
