/** Decimal rendering of non-negative integers, as `strconv.Itoa` produces it
    for the exporter's label values, together with its inverse. */
module Decimal {

  predicate IsDigit(c: char) {
    '0' <= c <= '9'
  }

  predicate AllDigits(s: string) {
    forall i :: 0 <= i < |s| ==> IsDigit(s[i])
  }

  /** A non-empty digit string without leading zeros ("0" itself allowed):
      exactly the strings `strconv.Itoa` yields for a non-negative value. */
  predicate IsCanonicalDecimal(s: string) {
    && |s| >= 1
    && AllDigits(s)
    && (s[0] == '0' ==> |s| == 1)
  }

  function DigitValue(c: char): (d: nat)
    requires IsDigit(c)
    ensures d < 10
  {
    c as int - '0' as int
  }

  function DigitChar(d: nat): (c: char)
    requires d < 10
    ensures IsDigit(c) && DigitValue(c) == d
  {
    ('0' as int + d) as char
  }

  lemma DigitCharOfValue(c: char)
    requires IsDigit(c)
    ensures DigitChar(DigitValue(c)) == c
  {
  }

  /** The value of a digit string, most significant digit first. */
  function ParseDecimal(s: string): nat
    requires AllDigits(s)
    decreases |s|
  {
    if |s| == 0 then 0
    else 10 * ParseDecimal(s[..|s| - 1]) + DigitValue(s[|s| - 1])
  }

  /** `strconv.Itoa` on a non-negative value: a canonical decimal that
      reads back as the value, and starts with '0' only for zero. */
  function Itoa(n: nat): (s: string)
    ensures IsCanonicalDecimal(s)
    ensures ParseDecimal(s) == n
    ensures s[0] == '0' <==> n == 0
    decreases n
  {
    if n < 10 then
      [DigitChar(n)]
    else
      var prefix := Itoa(n / 10);
      var s := prefix + [DigitChar(n % 10)];
      assert s[..|s| - 1] == prefix;
      s
  }

  /** A canonical decimal is determined by its value: `Itoa` is the only
      rendering of a number in that form. */
  lemma {:induction false} ItoaUnique(s: string)
    requires IsCanonicalDecimal(s)
    ensures Itoa(ParseDecimal(s)) == s
    decreases |s|
  {
    var n := ParseDecimal(s);
    if |s| == 1 {
      assert s[..0] == [];
      DigitCharOfValue(s[0]);
    } else {
      var prefix := s[..|s| - 1];
      assert prefix[0] == s[0];
      LeadingDigitBound(prefix);
      ItoaUnique(prefix);
      assert n / 10 == ParseDecimal(prefix) && n % 10 == DigitValue(s[|s| - 1]);
      DigitCharOfValue(s[|s| - 1]);
      assert s == prefix + [s[|s| - 1]];
    }
  }

  /** A digit string that does not start with '0' has a positive value. */
  lemma {:induction false} LeadingDigitBound(s: string)
    requires |s| >= 1 && AllDigits(s) && s[0] != '0'
    ensures ParseDecimal(s) >= 1
    decreases |s|
  {
    if |s| > 1 {
      var prefix := s[..|s| - 1];
      assert prefix[0] == s[0];
      LeadingDigitBound(prefix);
    }
  }

  /** Distinct values render to distinct strings. */
  lemma ItoaInjective(a: nat, b: nat)
    ensures Itoa(a) == Itoa(b) <==> a == b
  {
  }

  function Pow10(k: nat): (p: nat)
    ensures p >= 1
  {
    if k == 0 then 1 else 10 * Pow10(k - 1)
  }

  /** `Itoa(n)` has at most `k` digits exactly when `n` is below `10^k`. */
  lemma {:induction false} ItoaLengthBound(n: nat, k: nat)
    requires k >= 1
    ensures |Itoa(n)| <= k <==> n < Pow10(k)
    decreases k
  {
    if n >= 10 {
      assert |Itoa(n)| == |Itoa(n / 10)| + 1;
      var p := Pow10(k - 1);
      assert n == 10 * (n / 10) + n % 10;
      assert n / 10 < p <==> n < 10 * p;
      if k == 1 {
        assert |Itoa(n / 10)| >= 1;
      } else {
        ItoaLengthBound(n / 10, k - 1);
      }
    } else if k > 1 {
      assert Pow10(k) == 10 * Pow10(k - 1);
    }
  }

  /** The number of digits `Itoa` produces for values below 1000. */
  lemma ItoaWidth(n: nat)
    ensures |Itoa(n)| == 1 <==> n < 10
    ensures |Itoa(n)| == 2 <==> 10 <= n < 100
    ensures |Itoa(n)| == 3 <==> 100 <= n < 1000
  {
    ItoaLengthBound(n, 1);
    ItoaLengthBound(n, 2);
    ItoaLengthBound(n, 3);
  }
}
