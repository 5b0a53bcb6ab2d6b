/** Decimal amounts rounded to two places, held as an integer number of cents. */
module Cents {
  import opened Text

  /** Two-place rounding, halves away from zero (the decimal library's default mode). */
  function Round2(x: real): int {
    if x >= 0.0 then (x * 100.0 + 0.5).Floor else -((-x * 100.0 + 0.5).Floor)
  }

  /** Rounding moves an amount by at most half a cent, and is odd. */
  lemma Round2Nearest(x: real)
    ensures -0.5 <= Round2(x) as real - x * 100.0 <= 0.5
    ensures Round2(-x) == -Round2(x)
  {
    if x == 0.0 {
      assert (0.5 as real).Floor == 0;
    }
  }

  /** The cents nearest to an amount, halves away from zero. */
  ghost predicate NearestCents(x: real, c: int) {
    if x >= 0.0 then c as real - 0.5 <= x * 100.0 < c as real + 0.5
    else c as real - 0.5 < x * 100.0 <= c as real + 0.5
  }

  lemma NearestUnique(x: real, c: int, d: int)
    requires NearestCents(x, c) && NearestCents(x, d)
    ensures c == d
  {
    var y := x * 100.0;
    assert -1.0 < c as real - d as real < 1.0;
  }

  lemma RoundedNearest(x: real)
    ensures NearestCents(x, Round2(x))
  {
    if x < 0.0 {
      var f := (-x * 100.0 + 0.5).Floor;
      assert f as real <= -x * 100.0 + 0.5 < f as real + 1.0;
    }
  }

  function Abs(n: int): nat {
    if n < 0 then -n else n
  }

  function AbsReal(x: real): real {
    if x < 0.0 then -x else x
  }

  /** `toFixed(2)`: sign, whole part, point, two digits. */
  function MoneyText(c: int): string {
    (if c < 0 then "-" else "") + NatText(Abs(c) / 100) + "." + [Digit(Abs(c) % 100 / 10), Digit(Abs(c) % 10)]
  }

  lemma MoneyTextParts(c: int)
    ensures var t := MoneyText(c); var n := |t|;
            && n > 3
            && (t[0] == '-' <==> c < 0)
            && t[n - 2] == Digit(Abs(c) % 100 / 10) && t[n - 1] == Digit(Abs(c) % 10)
            && t[if c < 0 then 1 else 0..n - 3] == NatText(Abs(c) / 100)
  {
    var t := MoneyText(c);
    assert IsDigit(NatText(Abs(c) / 100)[0]);
  }

  lemma MoneyTextInjective(c: int, d: int)
    requires MoneyText(c) == MoneyText(d)
    ensures c == d
  {
    MoneyTextParts(c);
    MoneyTextParts(d);
    var m, n := Abs(c), Abs(d);
    SameDigits(m / 100, n / 100, m % 100 / 10, n % 100 / 10, m % 10, n % 10);
    SameCents(m, n);
  }

  lemma SameDigits(a: nat, b: nat, t: nat, u: nat, x: nat, y: nat)
    requires t < 10 && u < 10 && x < 10 && y < 10
    requires NatText(a) == NatText(b) && Digit(t) == Digit(u) && Digit(x) == Digit(y)
    ensures a == b && t == u && x == y
  {
    assert Value(NatText(a)) == a && Value(NatText(b)) == b;
    assert DigitValue(Digit(t)) == t && DigitValue(Digit(u)) == u && DigitValue(Digit(x)) == x && DigitValue(Digit(y)) == y;
  }

  lemma SameCents(m: nat, n: nat)
    requires m / 100 == n / 100 && m % 100 / 10 == n % 100 / 10 && m % 10 == n % 10
    ensures m == n
  {
    Recomposed(m);
    Recomposed(n);
  }

  lemma Recomposed(m: nat)
    ensures m == 100 * (m / 100) + (10 * (m % 100 / 10) + m % 10)
  {
    var q, r := m / 100, m % 100;
    assert m == 100 * q + r && r == 10 * (r / 10) + r % 10;
    ByTen(m, 10 * q + r / 10, r % 10);
  }

  lemma LastTwo(m: nat, q: nat, x: nat, y: nat)
    requires x < 10 && y < 10 && m == 100 * q + (x * 10 + y)
    ensures m % 100 / 10 == x && m % 10 == y
  {
    ByHundred(m, q, x * 10 + y);
    ByTen(x * 10 + y, x, y);
    ByTen(m, 10 * q + x, y);
  }

  lemma ByTen(m: nat, q: nat, r: nat)
    requires r < 10 && m == 10 * q + r
    ensures m / 10 == q && m % 10 == r
  {
  }

  lemma ByHundred(m: nat, q: nat, r: nat)
    requires r < 100 && m == 100 * q + r
    ensures m / 100 == q && m % 100 == r
  {
  }

  lemma MoneyTextChars(c: int, x: char)
    requires x in MoneyText(c)
    ensures x == '-' || x == '.' || IsDigit(x)
  {
  }
}
