/** Strings as JavaScript orders, separates and prints them. */
module Text {
  import opened Ordering

  /**
   * The place of a character in an order by UTF-16 code units: characters beyond the
   * basic plane start with a surrogate (0xD800..0xDBFF), so they come before 0xE000.
   */
  function UnitRank(c: char): int {
    var n := c as int;
    if n < 0xD800 then n
    else if n >= 0x10000 then n - 0x10000 + 0xD800
    else n + 0x200000
  }

  lemma UnitRankInjective(c: char, d: char)
    requires UnitRank(c) == UnitRank(d)
    ensures c == d
  {
    assert c as int == d as int;
  }

  /** `a <= b` for JavaScript strings: lexicographic by UTF-16 code unit. */
  predicate TextLe(a: string, b: string) {
    if a == [] then true
    else if b == [] then false
    else if a[0] == b[0] then TextLe(a[1..], b[1..])
    else UnitRank(a[0]) < UnitRank(b[0])
  }

  lemma {:induction false} TextLeTotal(a: string, b: string)
    ensures TextLe(a, b) || TextLe(b, a)
    ensures TextLe(a, b) && TextLe(b, a) ==> a == b
  {
    if a == [] || b == [] {
    } else if a[0] == b[0] {
      TextLeTotal(a[1..], b[1..]);
      assert a == [a[0]] + a[1..] && b == [b[0]] + b[1..];
    } else {
      if UnitRank(a[0]) == UnitRank(b[0]) {
        UnitRankInjective(a[0], b[0]);
      }
    }
  }

  lemma {:induction false} TextLeTransitive(a: string, b: string, c: string)
    requires TextLe(a, b) && TextLe(b, c)
    ensures TextLe(a, c)
  {
    if a == [] || b == [] || c == [] {
    } else if a[0] == b[0] && b[0] == c[0] {
      TextLeTransitive(a[1..], b[1..], c[1..]);
    }
  }

  lemma TextLeIsOrder()
    ensures TotalPreorder(TextLe) && Antisymmetric(TextLe)
  {
    forall a, b ensures (TextLe(a, b) || TextLe(b, a)) && (TextLe(a, b) && TextLe(b, a) ==> a == b) {
      TextLeTotal(a, b);
    }
    forall a, b, c | TextLe(a, b) && TextLe(b, c) ensures TextLe(a, c) {
      TextLeTransitive(a, b, c);
    }
  }

  /** Two texts cut at the same separator agree piece by piece. */
  lemma {:induction false} CutAtFirst(c: char, a: string, b: string, x: string, y: string)
    requires c !in a && c !in b
    requires a + [c] + x == b + [c] + y
    ensures a == b && x == y
  {
    var l, r := a + [c] + x, b + [c] + y;
    assert l[|a|] == c && r[|b|] == c;
    assert a != [] ==> l[0] == a[0] != c;
    assert b != [] ==> r[0] == b[0] != c;
    if a == [] {
      assert b == [];
      assert l[1..] == x && r[1..] == y;
    } else {
      assert l[1..] == a[1..] + [c] + x && r[1..] == b[1..] + [c] + y;
      CutAtFirst(c, a[1..], b[1..], x, y);
      assert a == [a[0]] + a[1..] && b == [b[0]] + b[1..];
    }
  }

  lemma {:induction false} CutAtLast(c: char, x: string, y: string, a: string, b: string)
    requires c !in a && c !in b
    requires x + [c] + a == y + [c] + b
    ensures x == y && a == b
  {
    var l, r := x + [c] + a, y + [c] + b;
    assert l[|x|] == c && r[|y|] == c;
    assert forall k | |x| < k < |l| :: l[k] == a[k - |x| - 1];
    assert forall k | |y| < k < |r| :: r[k] == b[k - |y| - 1];
    assert l[..|x|] == x && r[..|y|] == y;
    assert l[|x| + 1..] == a && r[|y| + 1..] == b;
  }

  /** `Array.prototype.join`. */
  function Join(sep: char, parts: seq<string>): string {
    if |parts| == 0 then "" else if |parts| == 1 then parts[0] else parts[0] + [sep] + Join(sep, parts[1..])
  }

  lemma {:induction false} JoinInjective(sep: char, ps: seq<string>, qs: seq<string>)
    requires |ps| == |qs|
    requires forall i | 0 <= i < |ps| :: sep !in ps[i] && sep !in qs[i]
    requires Join(sep, ps) == Join(sep, qs)
    ensures ps == qs
  {
    if |ps| == 0 {
    } else if |ps| == 1 {
    } else {
      CutAtFirst(sep, ps[0], qs[0], Join(sep, ps[1..]), Join(sep, qs[1..]));
      JoinInjective(sep, ps[1..], qs[1..]);
      assert ps == [ps[0]] + ps[1..] && qs == [qs[0]] + qs[1..];
    }
  }

  predicate IsDigit(c: char) {
    '0' <= c <= '9'
  }

  predicate AllDigits(s: string) {
    forall i | 0 <= i < |s| :: IsDigit(s[i])
  }

  function DigitValue(c: char): (d: nat)
    requires IsDigit(c)
    ensures d < 10
  {
    c as int - '0' as int
  }

  function Digit(d: nat): (c: char)
    requires d < 10
    ensures IsDigit(c) && DigitValue(c) == d
  {
    ('0' as int + d) as char
  }

  /** The number a run of decimal digits denotes. */
  function Value(s: string): nat
    requires AllDigits(s)
  {
    if s == [] then 0 else Value(s[..|s| - 1]) * 10 + DigitValue(s[|s| - 1])
  }

  ghost predicate DecimalDigits(s: string) {
    forall c <- s :: '0' <= c <= '9'
  }

  /** The number a run of digits stands for. */
  function Decimal(s: string): int {
    if s == [] then 0 else 10 * Decimal(s[..|s| - 1]) + (s[|s| - 1] as int - '0' as int)
  }

  lemma {:induction false} ValueIsDecimal(s: string)
    ensures AllDigits(s) <==> DecimalDigits(s)
    ensures AllDigits(s) ==> Value(s) == Decimal(s)
  {
    if AllDigits(s) && s != [] {
      ValueIsDecimal(s[..|s| - 1]);
    }
    if DecimalDigits(s) {
      forall i | 0 <= i < |s| ensures IsDigit(s[i]) {
        assert s[i] in s;
      }
    }
  }

  function Pow10(n: nat): (r: nat)
    ensures r > 0
  {
    if n == 0 then 1 else 10 * Pow10(n - 1)
  }

  lemma {:induction false} ValueAppend(a: string, b: string)
    requires AllDigits(a) && AllDigits(b)
    ensures AllDigits(a + b) && Value(a + b) == Value(a) * Pow10(|b|) + Value(b)
  {
    if b == [] {
      assert a + b == a;
    } else {
      var n := |b| - 1;
      ValueAppend(a, b[..n]);
      assert (a + b)[..|a + b| - 1] == a + b[..n];
      Tenfold(Value(a), Pow10(n), Value(b[..n]));
    }
  }

  lemma Tenfold(v: nat, p: nat, w: nat)
    ensures (v * p + w) * 10 == v * (10 * p) + w * 10
  {
    assert v * (10 * p) == 10 * (v * p);
  }

  lemma {:induction false} ValueBound(s: string)
    requires AllDigits(s)
    ensures Value(s) < Pow10(|s|)
  {
    if s == [] {
    } else {
      ValueBound(s[..|s| - 1]);
    }
  }

  /** Shortest decimal text of a natural number. */
  function NatText(n: nat): (s: string)
    ensures s != [] && AllDigits(s) && Value(s) == n
  {
    if n < 10 then
      assert Value([Digit(n)][..0]) == 0;
      [Digit(n)]
    else
      var s := NatText(n / 10) + [Digit(n % 10)];
      assert s[..|s| - 1] == NatText(n / 10);
      s
  }

  /** Decimal text of an integer. */
  function IntText(n: int): (s: string)
    ensures s != []
  {
    if n < 0 then "-" + NatText(-n) else NatText(n)
  }

  lemma IntTextInjective(m: int, n: int)
    requires IntText(m) == IntText(n)
    ensures m == n
  {
    assert m < 0 ==> IntText(m)[0] == '-' && IntText(m)[1..] == NatText(-m);
    assert n < 0 ==> IntText(n)[0] == '-' && IntText(n)[1..] == NatText(-n);
    assert m >= 0 ==> IsDigit(IntText(m)[0]);
    assert n >= 0 ==> IsDigit(IntText(n)[0]);
  }

  /** The code units that `trim` removes and `\s` matches. */
  predicate SpaceUnit(n: int) {
    || 0x09 <= n <= 0x0D || n == 0x20 || n == 0xA0 || n == 0x1680 || 0x2000 <= n <= 0x200A
    || n == 0x2028 || n == 0x2029 || n == 0x202F || n == 0x205F || n == 0x3000 || n == 0xFEFF
  }

  lemma SpaceUnitExactly(n: int)
    ensures SpaceUnit(n) <==>
            n in {9, 10, 11, 12, 13, 32, 160, 5760, 8192, 8193, 8194, 8195, 8196, 8197, 8198, 8199, 8200, 8201, 8202,
                  8232, 8233, 8239, 8287, 12288, 65279}
  {
  }

  predicate IsSpace(c: char) {
    SpaceUnit(c as int)
  }

  function TrimStart(s: string): string {
    if s != [] && IsSpace(s[0]) then TrimStart(s[1..]) else s
  }

  function TrimEnd(s: string): string {
    if s != [] && IsSpace(s[|s| - 1]) then TrimEnd(s[..|s| - 1]) else s
  }

  function Trim(s: string): string {
    TrimEnd(TrimStart(s))
  }

  predicate AllSpace(s: string) {
    forall i | 0 <= i < |s| :: IsSpace(s[i])
  }

  lemma {:induction false} TrimStartExactly(s: string) returns (front: string)
    ensures s == front + TrimStart(s) && AllSpace(front)
    ensures TrimStart(s) != [] ==> !IsSpace(TrimStart(s)[0])
  {
    if s != [] && IsSpace(s[0]) {
      front := TrimStartExactly(s[1..]);
      front := [s[0]] + front;
    } else {
      front := [];
    }
  }

  lemma {:induction false} TrimEndExactly(s: string) returns (back: string)
    ensures s == TrimEnd(s) + back && AllSpace(back)
    ensures TrimEnd(s) != [] ==> !IsSpace(TrimEnd(s)[|TrimEnd(s)| - 1])
  {
    if s != [] && IsSpace(s[|s| - 1]) {
      back := TrimEndExactly(s[..|s| - 1]);
      back := back + [s[|s| - 1]];
    } else {
      back := [];
    }
  }

  /** White space goes at both ends, and nothing else. */
  lemma TrimExactly(s: string) returns (front: string, back: string)
    ensures s == front + Trim(s) + back && AllSpace(front) && AllSpace(back)
    ensures var r := Trim(s); r != [] ==> !IsSpace(r[0]) && !IsSpace(r[|r| - 1])
  {
    front := TrimStartExactly(s);
    back := TrimEndExactly(TrimStart(s));
    assert TrimStart(s) != [] && Trim(s) != [] ==> TrimStart(s)[0] == Trim(s)[0];
  }
}
