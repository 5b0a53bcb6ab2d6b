/** What canonicalising makes of a value, stated member by member. */
module CanonicalShape {
  import opened CanonicalJson
  import opened JsonText
  import opened LegacyJson
  import opened Ordering
  import opened Text
  import opened UnitOrder

  ghost predicate KeysAscend(indicesFirst: bool, ms: seq<Member>) {
    forall i, j | 0 <= i < j < |ms| :: KeyBefore(indicesFirst, ms[i].key, ms[j].key)
  }

  /** A member that assigning into a fresh object makes an own property of it. */
  predicate Survives(m: Member) {
    !m.val.Undefined? && m.key != "__proto__"
  }

  /** `r` is `v` with, at every depth, the surviving members and no others, their keys ascending. */
  ghost predicate CanonicalOf(indicesFirst: bool, v: Json, r: Json)
    decreases v
  {
    match v
    case Arr(xs) => r.Arr? && |r.items| == |xs| && forall i | 0 <= i < |xs| :: CanonicalOf(indicesFirst, xs[i], r.items[i])
    case Obj(ms) =>
      && r.Obj? && KeysAscend(indicesFirst, r.members)
      && (forall i | 0 <= i < |ms| && Survives(ms[i]) :: Arrives(indicesFirst, ms[i], r.members))
      && (forall j | 0 <= j < |r.members| :: ComesFrom(indicesFirst, ms, r.members[j]))
    case _ => r == v
  }

  ghost predicate Arrives(indicesFirst: bool, m: Member, r: seq<Member>)
    decreases m
  {
    exists j | 0 <= j < |r| :: r[j].key == m.key && CanonicalOf(indicesFirst, m.val, r[j].val)
  }

  ghost predicate ComesFrom(indicesFirst: bool, ms: seq<Member>, n: Member)
    decreases ms
  {
    exists i | 0 <= i < |ms| :: Survives(ms[i]) && n.key == ms[i].key && CanonicalOf(indicesFirst, ms[i].val, n.val)
  }

  lemma SortedMeansAscend(indicesFirst: bool, ms: seq<Member>)
    ensures Sorted(OrderOf(indicesFirst), Keys(ms)) && Distinct(Keys(ms)) <==> KeysAscend(indicesFirst, ms)
  {
    forall i, j | 0 <= i < j < |ms|
      ensures KeyBefore(indicesFirst, ms[i].key, ms[j].key) <==>
              OrderOf(indicesFirst)(Keys(ms)[i], Keys(ms)[j]) && Keys(ms)[i] != Keys(ms)[j]
    {
      KeyBeforeExactly(indicesFirst, ms[i].key, ms[j].key);
    }
  }

  lemma {:induction false} OrderKeysIsCanonical(indicesFirst: bool, v: Json)
    requires Valid(v)
    ensures CanonicalOf(indicesFirst, v, OrderKeys(OrderOf(indicesFirst), v))
  {
    match v
    case Arr(xs) =>
      forall i | 0 <= i < |xs| { OrderKeysIsCanonical(indicesFirst, xs[i]); }
    case Obj(ms) =>
      var ord := OrderOf(indicesFirst);
      var ks, r := SortedKept(ord, ms), OrderKeys(ord, v).members;
      OrderIsKeyOrder(indicesFirst);
      SortedKeptSpec(ord, ms);
      assert Keys(r) == ks;
      SortedMeansAscend(indicesFirst, r);
      forall i | 0 <= i < |ms| && Survives(ms[i]) ensures Arrives(indicesFirst, ms[i], r) {
        SurvivorValid(ms, i);
        OrderKeysIsCanonical(indicesFirst, ms[i].val);
        SurvivorArrives(indicesFirst, ms, i);
      }
      forall j | 0 <= j < |r| ensures ComesFrom(indicesFirst, ms, r[j]) {
        MemberValid(ms, ks[j]);
        var i := IndexOf(ms, ks[j]);
        OrderKeysIsCanonical(indicesFirst, ms[i].val);
        assert Survives(ms[i]) && r[j].key == ms[i].key && CanonicalOf(indicesFirst, ms[i].val, r[j].val);
      }
    case _ =>
  }

  lemma SurvivorValid(ms: seq<Member>, i: nat)
    requires Valid(Obj(ms)) && i < |ms| && Survives(ms[i])
    ensures Valid(ms[i].val)
  {
  }

  lemma SurvivorArrives(indicesFirst: bool, ms: seq<Member>, i: nat)
    requires Valid(Obj(ms)) && i < |ms| && Survives(ms[i])
    requires CanonicalOf(indicesFirst, ms[i].val, OrderKeys(OrderOf(indicesFirst), ms[i].val))
    ensures Arrives(indicesFirst, ms[i], OrderKeys(OrderOf(indicesFirst), Obj(ms)).members)
  {
    var ord := OrderOf(indicesFirst);
    OrderIsKeyOrder(indicesFirst);
    SortedKeptSpec(ord, ms);
    IndexOfDistinct(ms, i);
    assert ms[i].key in KeptKeys(false, ms);
    var ks := SortedKept(ord, ms);
    var j :| 0 <= j < |ks| && ks[j] == ms[i].key;
    assert OrderKeys(ord, Obj(ms)).members[j] == Member(ms[i].key, OrderKeys(ord, ms[i].val));
  }

  /** These conditions leave one value. */
  lemma {:induction false} CanonicalOfUnique(indicesFirst: bool, v: Json, q: Json, r: Json)
    requires CanonicalOf(indicesFirst, v, q) && CanonicalOf(indicesFirst, v, r) && Valid(v)
    ensures q == r
  {
    match v
    case Arr(xs) =>
      forall i | 0 <= i < |xs| ensures q.items[i] == r.items[i] {
        CanonicalOfUnique(indicesFirst, xs[i], q.items[i], r.items[i]);
      }
      assert q.items == r.items;
    case Obj(ms) =>
      KeysAreSurvivors(indicesFirst, ms, q.members);
      KeysAreSurvivors(indicesFirst, ms, r.members);
      SameAscendingKeys(indicesFirst, q.members, r.members);
      forall j | 0 <= j < |q.members| ensures q.members[j] == r.members[j] {
        assert Keys(q.members)[j] == Keys(r.members)[j];
        var i := OneOrigin(indicesFirst, ms, q.members[j], r.members[j]);
        CanonicalOfUnique(indicesFirst, ms[i].val, q.members[j].val, r.members[j].val);
      }
      assert q.members == r.members;
    case _ =>
  }

  /** Members of one key come from one member. */
  lemma OneOrigin(indicesFirst: bool, ms: seq<Member>, m: Member, n: Member) returns (i: nat)
    requires Valid(Obj(ms)) && m.key == n.key && ComesFrom(indicesFirst, ms, m) && ComesFrom(indicesFirst, ms, n)
    ensures i < |ms| && Valid(ms[i].val)
    ensures CanonicalOf(indicesFirst, ms[i].val, m.val) && CanonicalOf(indicesFirst, ms[i].val, n.val)
  {
    i :| 0 <= i < |ms| && Survives(ms[i]) && m.key == ms[i].key && CanonicalOf(indicesFirst, ms[i].val, m.val);
    var h :| 0 <= h < |ms| && Survives(ms[h]) && n.key == ms[h].key && CanonicalOf(indicesFirst, ms[h].val, n.val);
    assert h == i;
    SurvivorValid(ms, i);
  }

  lemma KeysAreSurvivors(indicesFirst: bool, ms: seq<Member>, r: seq<Member>)
    requires forall i | 0 <= i < |ms| && Survives(ms[i]) :: Arrives(indicesFirst, ms[i], r)
    requires forall j | 0 <= j < |r| :: ComesFrom(indicesFirst, ms, r[j])
    ensures forall k :: k in Keys(r) <==> k in KeptKeys(false, ms)
  {
    forall k ensures k in Keys(r) <==> k in KeptKeys(false, ms) {
      if k in Keys(r) {
        KeySurvives(indicesFirst, ms, r[IndexOf(r, k)]);
      }
      if k in KeptKeys(false, ms) {
        var i :| 0 <= i < |ms| && Kept(false, ms[i]) && ms[i].key == k;
        KeyArrives(indicesFirst, ms[i], r);
      }
    }
  }

  lemma KeySurvives(indicesFirst: bool, ms: seq<Member>, n: Member)
    requires ComesFrom(indicesFirst, ms, n)
    ensures n.key in KeptKeys(false, ms)
  {
    var i :| 0 <= i < |ms| && Survives(ms[i]) && n.key == ms[i].key && CanonicalOf(indicesFirst, ms[i].val, n.val);
    assert Kept(false, ms[i]);
  }

  lemma KeyArrives(indicesFirst: bool, m: Member, r: seq<Member>)
    requires Arrives(indicesFirst, m, r)
    ensures m.key in Keys(r)
  {
    var j :| 0 <= j < |r| && r[j].key == m.key && CanonicalOf(indicesFirst, m.val, r[j].val);
    assert Keys(r)[j] == m.key;
  }

  lemma SameAscendingKeys(indicesFirst: bool, q: seq<Member>, r: seq<Member>)
    requires KeysAscend(indicesFirst, q) && KeysAscend(indicesFirst, r)
    requires forall k :: k in Keys(q) <==> k in Keys(r)
    ensures Keys(q) == Keys(r)
  {
    SortedMeansAscend(indicesFirst, q);
    SortedMeansAscend(indicesFirst, r);
    OrderIsKeyOrder(indicesFirst);
    AscendingUnique(OrderOf(indicesFirst), Keys(q), Keys(r));
  }

  /**
   * Main result: the keys-only form is the one value with, in every object, the defined members
   * not named `__proto__`, array indices first by number and then the other keys by code units.
   */
  lemma KeysOnlyExactly(v: Json, r: Json)
    requires Valid(v)
    ensures r == KeysOnly(v) <==> CanonicalOf(true, v, r)
  {
    OrderKeysIsCanonical(true, v);
    if CanonicalOf(true, v, r) {
      CanonicalOfUnique(true, v, r, KeysOnly(v));
    }
  }

  // ---------------------------------------------------------------------
  // The legacy form

  /** The text an array item is sorted by: its own, with all keys ascending by code units. */
  ghost predicate SortsBy(c: Json, text: string) {
    exists w :: CanonicalOf(false, c, w) && text == Print(w)
  }

  /**
   * One level of the legacy form: an array is a permutation of its items' legacy forms, their texts
   * ascending by the collation; an object has the surviving members, each in legacy form.
   */
  ghost predicate LegacyOf(le: Collation, v: Json, r: Json) {
    match v
    case Arr(xs) =>
      && r.Arr? && multiset(r.items) == multiset(LegacyAll(le, xs))
      && (forall i, j, s, t | 0 <= i < j < |r.items| && SortsBy(r.items[i], s) && SortsBy(r.items[j], t) :: le(s, t))
    case Obj(ms) =>
      && r.Obj? && KeysAscend(true, r.members)
      && (forall i | 0 <= i < |ms| && Survives(ms[i]) :: Member(ms[i].key, Legacy(le, ms[i].val)) in r.members)
      && (forall m <- r.members :: LegacyComesFrom(le, ms, m))
    case _ => r == v
  }

  ghost predicate LegacyComesFrom(le: Collation, ms: seq<Member>, m: Member) {
    exists i | 0 <= i < |ms| :: Survives(ms[i]) && m == Member(ms[i].key, Legacy(le, ms[i].val))
  }

  lemma SortsByAscending(c: Json, text: string)
    requires Valid(c)
    ensures SortsBy(c, text) <==> text == AscendingText(c)
  {
    OrderKeysIsCanonical(false, c);
    if SortsBy(c, text) {
      var w :| CanonicalOf(false, c, w) && text == Print(w);
      CanonicalOfUnique(false, c, w, OrderKeys(TextLe, c));
    }
  }

  lemma LegacyIsPermutation(le: Collation, xs: seq<Json>)
    ensures multiset(Legacy(le, Arr(xs)).items) == multiset(LegacyAll(le, xs))
  {
    LegacyArray(le, xs);
    var ys := LegacyAll(le, xs);
    var ps := LegacyPairs(le, ys);
    var qs := Sort(KeyedLe(le), ps);
    SortMultiset(KeyedLe(le), ps);
    BagTransfer(qs, Unpair(qs), ps, ys);
  }

  lemma LegacyIsShaped(le: Collation, v: Json)
    requires TotalPreorder(le) && Valid(v)
    ensures LegacyOf(le, v, Legacy(le, v))
  {
    match v
    case Arr(xs) =>
      LegacyIsPermutation(le, xs);
      LegacyCanonical(le, v);
      var r := Legacy(le, v).items;
      forall i, j, s, t | 0 <= i < j < |r| && SortsBy(r[i], s) && SortsBy(r[j], t) ensures le(s, t) {
        CanonicalPlain(le, r[i]);
        CanonicalPlain(le, r[j]);
        SortsByAscending(r[i], s);
        SortsByAscending(r[j], t);
      }
    case Obj(ms) => LegacyObject(le, ms);
    case _ =>
  }

  ghost predicate LegacyShape(le: Collation, v: Json, r: Json) {
    TotalPreorder(le) ==> LegacyOf(le, v, r)
  }

  lemma LegacyHasShape(le: Collation, v: Json)
    requires Valid(v)
    ensures LegacyShape(le, v, Legacy(le, v))
  {
    if TotalPreorder(le) {
      LegacyIsShaped(le, v);
    }
  }

  lemma LegacyObject(le: Collation, ms: seq<Member>)
    requires Valid(Obj(ms))
    ensures LegacyOf(le, Obj(ms), Legacy(le, Obj(ms)))
  {
    PropLeIsOrder();
    SortedKeptSpec(PropLe, ms);
    var ks, r := SortedKept(PropLe, ms), Legacy(le, Obj(ms)).members;
    assert Keys(r) == ks;
    SortedMeansAscend(true, r);
    forall i | 0 <= i < |ms| && Survives(ms[i]) ensures Member(ms[i].key, Legacy(le, ms[i].val)) in r {
      LegacyMember(le, ms, i);
    }
    forall m | m in r ensures LegacyComesFrom(le, ms, m) {
      var j :| 0 <= j < |r| && r[j] == m;
      LegacyOrigin(le, ms, j);
    }
  }

  lemma LegacyMember(le: Collation, ms: seq<Member>, i: nat)
    requires Valid(Obj(ms)) && i < |ms| && Survives(ms[i])
    ensures Member(ms[i].key, Legacy(le, ms[i].val)) in Legacy(le, Obj(ms)).members
  {
    PropLeIsOrder();
    SortedKeptSpec(PropLe, ms);
    IndexOfDistinct(ms, i);
    assert ms[i].key in KeptKeys(false, ms);
    var ks := SortedKept(PropLe, ms);
    var j :| 0 <= j < |ks| && ks[j] == ms[i].key;
    assert Legacy(le, Obj(ms)).members[j] == Member(ms[i].key, Legacy(le, ms[i].val));
  }

  lemma LegacyOrigin(le: Collation, ms: seq<Member>, j: nat)
    requires Valid(Obj(ms)) && j < |Legacy(le, Obj(ms)).members|
    ensures LegacyComesFrom(le, ms, Legacy(le, Obj(ms)).members[j])
  {
    PropLeIsOrder();
    SortedKeptSpec(PropLe, ms);
    var k := SortedKept(PropLe, ms)[j];
    MemberValid(ms, k);
    assert Survives(ms[IndexOf(ms, k)]);
  }

  // ---------------------------------------------------------------------
  // The text

  function Prints(xs: seq<Json>): seq<string> {
    seq(|xs|, i requires 0 <= i < |xs| => Print(xs[i]))
  }

  function MemberPrints(ms: seq<Member>): seq<string> {
    seq(|ms|, i requires 0 <= i < |ms| => Quote(ms[i].key) + ":" + Print(ms[i].val))
  }

  /** Compact JSON: brackets, commas and colons, and nothing between them. */
  lemma PrintExactly(v: Json)
    ensures v == Null ==> Print(v) == "null"
    ensures v.Bool? ==> Print(v) == if v.b then "true" else "false"
    ensures v.Num? ==> Print(v) == v.text
    ensures v.Str? ==> Print(v) == Quote(v.s)
    ensures v.Arr? ==> Print(v) == "[" + Join(',', Prints(v.items)) + "]"
    ensures v.Obj? ==> Print(v) == "{" + Join(',', MemberPrints(v.members)) + "}"
  {
    match v
    case Arr(xs) => JoinIsPrintItems(xs, Prints(xs));
    case Obj(ms) => JoinIsPrintMembers(ms, MemberPrints(ms));
    case _ =>
  }

  /** One character inside a string, as `JSON.stringify` writes it. */
  ghost predicate Escaped(c: char, t: string) {
    var n := c as int;
    if n == 0x22 then t == "\\\""
    else if n == 0x5C then t == "\\\\"
    else if n == 0x08 then t == "\\b"
    else if n == 0x09 then t == "\\t"
    else if n == 0x0A then t == "\\n"
    else if n == 0x0C then t == "\\f"
    else if n == 0x0D then t == "\\r"
    else if n < 0x20 then t == "\\u00" + ["01"[n / 16], "0123456789abcdef"[n % 16]]
    else t == [c]
  }

  lemma EscapedExactly(c: char, t: string)
    ensures Escaped(c, t) <==> t == EscapeChar(c)
  {
    if c as int < 0x20 {
      HexDigitIs(c as int / 16);
      HexDigitIs(c as int % 16);
      assert c as int / 16 == 0 || c as int / 16 == 1;
    }
  }

  lemma HexDigitIs(d: nat)
    requires d < 16
    ensures HexDigit(d) == "0123456789abcdef"[d]
  {
  }

  /** A quoted string is its escaped characters between quotation marks. */
  lemma QuoteExactly(s: string, parts: seq<string>)
    requires |parts| == |s| && forall i | 0 <= i < |s| :: Escaped(s[i], parts[i])
    ensures Quote(s) == "\"" + Concat(parts) + "\""
  {
    EscapeIsConcat(s, parts);
  }

  function Concat(parts: seq<string>): string {
    if parts == [] then "" else parts[0] + Concat(parts[1..])
  }

  lemma {:induction false} EscapeIsConcat(s: string, parts: seq<string>)
    requires |parts| == |s| && forall i | 0 <= i < |s| :: Escaped(s[i], parts[i])
    ensures Escape(s) == Concat(parts)
  {
    if s == [] {
    } else {
      EscapedExactly(s[0], parts[0]);
      EscapeIsConcat(s[1..], parts[1..]);
    }
  }
}
