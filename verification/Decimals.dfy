/** Numerals as the source formats them: `to_string`, `{:o}`, and `from_str_radix`. */
module Decimals {

  const DIGITS: string := "0123456789"

  function Pow(base: nat, exponent: nat): (p: nat)
    ensures base >= 1 ==> p >= 1
  {
    if exponent == 0 then 1 else
    var p := Pow(base, exponent - 1);
    assert base >= 1 ==> base * p >= 1;
    base * p
  }

  /** Shortest numeral of `n` in `base`, most significant digit first. */
  function Numeral(n: nat, base: nat): (s: string)
    requires 2 <= base <= 10
    ensures |s| >= 1
    ensures forall c | c in s :: c in DIGITS
    decreases n
  {
    if n < base then [DIGITS[n]] else Numeral(n / base, base) + [DIGITS[n % base]]
  }

  function Decimal(n: nat): string { Numeral(n, 10) }

  function DigitValue(c: char): (d: nat)
    ensures d < 10
  {
    if '0' <= c <= '9' then (c - '0') as nat else 0
  }

  function NumeralValue(s: string, base: nat): nat
  {
    if s == [] then 0 else NumeralValue(s[..|s| - 1], base) * base + DigitValue(s[|s| - 1])
  }

  lemma {:induction false} NumeralRoundTrip(n: nat, base: nat)
    requires 2 <= base <= 10
    ensures NumeralValue(Numeral(n, base), base) == n
    decreases n
  {
    if n < base {
      assert [DIGITS[n]][..0] == [];
      DigitRoundTrip(n);
    } else {
      NumeralRoundTrip(n / base, base);
      DigitRoundTrip(n % base);
      var rest := Numeral(n / base, base);
      assert (rest + [DIGITS[n % base]])[..|rest|] == rest;
      DivMod(n, base);
    }
  }

  lemma DigitRoundTrip(d: nat)
    requires d < 10
    ensures DigitValue(DIGITS[d]) == d
  {
  }

  lemma DivMod(n: nat, base: nat)
    requires base >= 1
    ensures n / base * base + n % base == n
  {
  }

  lemma NumeralInjective(m: nat, n: nat, base: nat)
    requires 2 <= base <= 10
    ensures Numeral(m, base) == Numeral(n, base) <==> m == n
  {
    NumeralRoundTrip(m, base);
    NumeralRoundTrip(n, base);
  }

  /** A number has at most `digits` digits exactly when it is below that power of the base. */
  lemma {:induction false} NumeralLength(n: nat, base: nat, digits: nat)
    requires 2 <= base <= 10 && digits >= 1
    ensures |Numeral(n, base)| <= digits <==> n < Pow(base, digits)
    decreases digits
  {
    if digits == 1 {
      assert Pow(base, 1) == base * Pow(base, 0) == base;
    } else if n < base {
      assert Pow(base, digits) == base * Pow(base, digits - 1);
      var p := Pow(base, digits - 1);
      assert base * p >= base * 1;
    } else {
      NumeralLength(n / base, base, digits - 1);
      DivBelow(n, base, Pow(base, digits - 1));
    }
  }

  lemma DivBelow(n: nat, base: nat, p: nat)
    requires base >= 1
    ensures n / base < p <==> n < base * p
  {
    var q := n / base;
    assert n == base * q + n % base;
    if q < p {
      assert base * (q + 1) <= base * p;
    } else {
      assert base * q >= base * p;
    }
  }

  lemma {:induction false} NumeralMonotone(m: nat, n: nat, base: nat)
    requires 2 <= base <= 10 && m <= n
    ensures |Numeral(m, base)| <= |Numeral(n, base)|
  {
    NumeralLength(n, base, |Numeral(n, base)|);
    NumeralLength(m, base, |Numeral(n, base)|);
  }
}
