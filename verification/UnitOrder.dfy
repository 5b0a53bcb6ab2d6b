/** JavaScript's string order and property order, spelled out in UTF-16 code units and decimal digits. */
module UnitOrder {
  import opened CanonicalJson
  import opened Text

  // ---------------------------------------------------------------------
  // Code units

  /** Beyond the basic plane a character is a surrogate pair. */
  function CharUnits(c: char): seq<int> {
    var n := c as int;
    if n < 0x10000 then [n] else [0xD800 + (n - 0x10000) / 0x400, 0xDC00 + (n - 0x10000) % 0x400]
  }

  function CodeUnits(s: string): seq<int> {
    if s == [] then [] else CharUnits(s[0]) + CodeUnits(s[1..])
  }

  ghost predicate AgreeBelow(a: seq<int>, b: seq<int>, k: int) {
    forall i | 0 <= i < k && i < |a| && i < |b| :: a[i] == b[i]
  }

  ghost predicate SmallerAt(a: seq<int>, b: seq<int>, k: int) {
    0 <= k < |a| && k < |b| && AgreeBelow(a, b, k) && a[k] < b[k]
  }

  /** A prefix comes first; otherwise the first unit that differs decides. */
  ghost predicate UnitsLe(a: seq<int>, b: seq<int>) {
    a <= b || exists k :: SmallerAt(a, b, k)
  }

  lemma DecidedAt(a: seq<int>, b: seq<int>, k: nat)
    requires k < |a| && k < |b| && AgreeBelow(a, b, k) && a[k] != b[k]
    ensures UnitsLe(a, b) <==> a[k] < b[k]
  {
    if a[k] < b[k] {
      assert SmallerAt(a, b, k);
    }
  }

  lemma SameFront(u: seq<int>, x: seq<int>, y: seq<int>)
    ensures UnitsLe(u + x, u + y) <==> UnitsLe(x, y)
  {
    var a, b, n := u + x, u + y, |u|;
    if x <= y {
      assert b[..|a|] == u + y[..|x|];
    }
    if a <= b {
      assert x == b[..|a|][n..] == y[..|x|];
    }
    forall k | SmallerAt(x, y, k) ensures SmallerAt(a, b, n + k) {
    }
    forall k | SmallerAt(a, b, k) ensures k >= n && SmallerAt(x, y, k - n) {
      SmallerBehind(u, x, y, k);
    }
  }

  lemma SmallerBehind(u: seq<int>, x: seq<int>, y: seq<int>, k: int)
    requires SmallerAt(u + x, u + y, k)
    ensures k >= |u| && SmallerAt(x, y, k - |u|)
  {
    forall i | 0 <= i < k - |u| && i < |x| && i < |y| ensures x[i] == y[i] {
      assert (u + x)[|u| + i] == x[i] && (u + y)[|u| + i] == y[i];
    }
  }

  /** Two characters differ at their first unit, or share a lead surrogate and differ at the second. */
  lemma CharsDiffer(c: char, d: char) returns (k: nat)
    requires c != d
    ensures k < |CharUnits(c)| && k < |CharUnits(d)| && AgreeBelow(CharUnits(c), CharUnits(d), k)
    ensures CharUnits(c)[k] != CharUnits(d)[k]
    ensures CharUnits(c)[k] < CharUnits(d)[k] <==> UnitRank(c) < UnitRank(d)
  {
    k := if CharUnits(c)[0] == CharUnits(d)[0] then 1 else 0;
    var m, n := c as int - 0x10000, d as int - 0x10000;
    assert m == m / 0x400 * 0x400 + m % 0x400 && n == n / 0x400 * 0x400 + n % 0x400;
  }

  /** `TextLe` is the order by code units. */
  lemma {:induction false} TextLeIsUnitOrder(a: string, b: string)
    ensures TextLe(a, b) <==> UnitsLe(CodeUnits(a), CodeUnits(b))
  {
    if a == [] || b == [] {
    } else if a[0] == b[0] {
      TextLeIsUnitOrder(a[1..], b[1..]);
      SameFront(CharUnits(a[0]), CodeUnits(a[1..]), CodeUnits(b[1..]));
    } else {
      var k := CharsDiffer(a[0], b[0]);
      DecidedAt(CodeUnits(a), CodeUnits(b), k);
    }
  }

  // ---------------------------------------------------------------------
  // Property order

  /** An array index: a number below 2^32 - 1 in shortest form. */
  ghost predicate IndexKey(k: string) {
    k != "" && DecimalDigits(k) && (k == "0" || k[0] != '0') && Decimal(k) < 4294967295
  }

  /**
   * One key strictly before another: by code units alone, or, where an object enumerates its
   * properties, the array indices first and by number.
   */
  ghost predicate KeyBefore(indicesFirst: bool, a: string, b: string) {
    if indicesFirst && IndexKey(a) then IndexKey(b) ==> Decimal(a) < Decimal(b)
    else !(indicesFirst && IndexKey(b)) && a != b && UnitsLe(CodeUnits(a), CodeUnits(b))
  }

  function OrderOf(indicesFirst: bool): KeyOrder {
    if indicesFirst then PropLe else TextLe
  }

  lemma OrderIsKeyOrder(indicesFirst: bool)
    ensures IsKeyOrder(OrderOf(indicesFirst))
  {
    PropLeIsOrder();
    TextLeIsOrder();
  }

  lemma KeyBeforeExactly(indicesFirst: bool, a: string, b: string)
    ensures KeyBefore(indicesFirst, a, b) <==> OrderOf(indicesFirst)(a, b) && a != b
  {
    TextLeIsUnitOrder(a, b);
    ValueIsDecimal(a);
    ValueIsDecimal(b);
    if IsIndex(a) && IsIndex(b) && Value(a) == Value(b) {
      NatTextOfValue(a);
      NatTextOfValue(b);
    }
  }
}
