/** The loops that fill an output object key by key, proved against the canonical forms. */
module CanonicalLoops {
  import opened Ordering
  import opened Text
  import opened JsonText
  import opened CanonicalJson
  import opened CanonicalShape
  import opened LegacyJson

  function InsertIndexed(ms: seq<Member>, m: Member): seq<Member>
    requires IsIndex(m.key)
  {
    if ms == [] || !IsIndex(ms[0].key) || Value(m.key) < Value(ms[0].key) then [m] + ms
    else [ms[0]] + InsertIndexed(ms[1..], m)
  }

  /**
   * `out[k] = v` on an ordinary object whose members are listed in own-key order.
   * Assigning `__proto__` sets the prototype and adds no own property.
   */
  function Assign(ms: seq<Member>, k: string, v: Json): seq<Member> {
    if k == PROTO then ms
    else if k in Keys(ms) then ms[IndexOf(ms, k) := Member(k, v)]
    else if IsIndex(k) then InsertIndexed(ms, Member(k, v))
    else ms + [Member(k, v)]
  }

  ghost predicate OwnOrder(ms: seq<Member>) {
    forall i, j | 0 <= i < j < |ms| :: PropLe(ms[i].key, ms[j].key) && ms[i].key != ms[j].key
  }

  lemma {:induction false} InsertIndexedMembers(ms: seq<Member>, m: Member)
    requires IsIndex(m.key)
    ensures forall x :: x in InsertIndexed(ms, m) <==> x in ms || x == m
  {
    if ms == [] || !IsIndex(ms[0].key) || Value(m.key) < Value(ms[0].key) {
    } else {
      InsertIndexedMembers(ms[1..], m);
      assert ms == [ms[0]] + ms[1..];
    }
  }

  lemma {:induction false} InsertIndexedOrder(ms: seq<Member>, m: Member)
    requires IsIndex(m.key) && OwnOrder(ms)
    requires forall i | 0 <= i < |ms| :: ms[i].key != m.key
    ensures OwnOrder(InsertIndexed(ms, m))
  {
    PropLeIsOrder();
    if ms == [] || !IsIndex(ms[0].key) || Value(m.key) < Value(ms[0].key) {
      forall i | 0 <= i < |ms| ensures PropLe(m.key, ms[i].key) {
        assert i > 0 ==> PropLe(ms[0].key, ms[i].key);
        assert PropLe(m.key, ms[0].key);
      }
    } else {
      InsertIndexedOrder(ms[1..], m);
      InsertIndexedMembers(ms[1..], m);
      var r := InsertIndexed(ms[1..], m);
      forall j | 0 <= j < |r| ensures PropLe(ms[0].key, r[j].key) && ms[0].key != r[j].key {
        assert r[j] in r;
      }
    }
  }

  /** A new key that comes after every string key keeps the own-key order. */
  lemma AssignKeepsOrder(ms: seq<Member>, k: string, v: Json)
    requires OwnOrder(ms) && k != PROTO
    requires forall i | 0 <= i < |ms| :: ms[i].key != k && TextLe(ms[i].key, k)
    ensures OwnOrder(Assign(ms, k, v))
    ensures forall x :: x in Assign(ms, k, v) <==> x in ms || x == Member(k, v)
  {
    assert k !in Keys(ms);
    if IsIndex(k) {
      InsertIndexedOrder(ms, Member(k, v));
      InsertIndexedMembers(ms, Member(k, v));
    }
  }

  /** `out` holds exactly the surviving keys among `done`, each with its canonical value. */
  ghost predicate Filled(ms: seq<Member>, ks: seq<string>, form: Json -> Json, out: seq<Member>)
    requires forall k | k in ks :: k in Keys(ms)
  {
    && OwnOrder(out)
    && (forall k | k in KeptOnly(ms, ks) :: Member(k, form(ms[IndexOf(ms, k)].val)) in out)
    && (forall x | x in out :: x.key in KeptOnly(ms, ks) && x == Member(x.key, form(ms[IndexOf(ms, x.key)].val)))
  }

  lemma {:induction false} KeptOnlyAppend(ms: seq<Member>, ks: seq<string>, k: string)
    requires k in Keys(ms) && forall x | x in ks :: x in Keys(ms)
    ensures KeptOnly(ms, ks + [k]) == KeptOnly(ms, ks) + (if Kept(false, ms[IndexOf(ms, k)]) then [k] else [])
  {
    if ks == [] {
      assert ks + [k] == [k];
    } else {
      assert (ks + [k])[1..] == ks[1..] + [k];
      KeptOnlyAppend(ms, ks[1..], k);
    }
  }

  lemma FillStep(ms: seq<Member>, ks: seq<string>, k: string, form: Json -> Json, out: seq<Member>)
    requires k in Keys(ms) && forall x | x in ks + [k] :: x in Keys(ms)
    requires forall x | x in ks :: x != k && TextLe(x, k)
    requires Filled(ms, ks, form, out)
    ensures var v := ms[IndexOf(ms, k)].val;
            Filled(ms, ks + [k], form, if v.Undefined? then out else Assign(out, k, form(v)))
  {
    KeptOnlyAppend(ms, ks, k);
    var v := ms[IndexOf(ms, k)].val;
    if Kept(false, ms[IndexOf(ms, k)]) {
      FillAssign(ms, ks, k, form, out);
    }
  }

  lemma FillAssign(ms: seq<Member>, ks: seq<string>, k: string, form: Json -> Json, out: seq<Member>)
    requires k in Keys(ms) && forall x | x in ks :: x in Keys(ms)
    requires forall x | x in ks :: x != k && TextLe(x, k)
    requires Filled(ms, ks, form, out)
    requires k != PROTO && forall x | x in ks + [k] :: x in Keys(ms)
    requires KeptOnly(ms, ks + [k]) == KeptOnly(ms, ks) + [k]
    ensures Filled(ms, ks + [k], form, Assign(out, k, form(ms[IndexOf(ms, k)].val)))
  {
    var c := form(ms[IndexOf(ms, k)].val);
    forall i | 0 <= i < |out| ensures out[i].key != k && TextLe(out[i].key, k) {
      assert out[i] in out;
      assert out[i].key in ks;
    }
    AssignKeepsOrder(out, k, c);
  }

  lemma FillDone(ms: seq<Member>, form: Json -> Json, out: seq<Member>)
    requires DistinctKeys(ms)
    requires Filled(ms, SortedKeys(TextLe, ms), form, out)
    ensures |out| == |SortedKept(PropLe, ms)|
    ensures forall i | 0 <= i < |out| ::
              var k := SortedKept(PropLe, ms)[i]; out[i] == Member(k, form(ms[IndexOf(ms, k)].val))
  {
    PropLeIsOrder();
    TextLeIsOrder();
    SortedKeptSpec(PropLe, ms);
    SortedKeptSpec(TextLe, ms);
    var ks := SortedKept(PropLe, ms);
    assert Distinct(Keys(out)) && Sorted(PropLe, Keys(out));
    forall k ensures k in Keys(out) <==> k in ks {
      if k in Keys(out) {
        assert out[IndexOf(out, k)] in out;
      }
      if k in ks {
        var i :| 0 <= i < |out| && out[i] == Member(k, form(ms[IndexOf(ms, k)].val));
        assert Keys(out)[i] == k;
      }
    }
    AscendingUnique(PropLe, Keys(out), ks);
    forall i | 0 <= i < |out| ensures out[i] == Member(ks[i], form(ms[IndexOf(ms, ks[i])].val)) {
      assert out[i] in out && Keys(out)[i] == out[i].key;
    }
  }

  lemma KeysBefore(ms: seq<Member>, i: nat)
    requires DistinctKeys(ms) && i < |SortedKeys(TextLe, ms)|
    ensures var ks := SortedKeys(TextLe, ms);
            && ks[..i + 1] == ks[..i] + [ks[i]]
            && ks[i] in Keys(ms)
            && (forall x | x in ks[..i] :: x != ks[i] && TextLe(x, ks[i]))
            && (forall x | x in ks[..i] + [ks[i]] :: x in Keys(ms))
  {
    TextLeIsOrder();
    var ks := SortedKeys(TextLe, ms);
    assert Distinct(Keys(ms));
    SortSorted(TextLe, Keys(ms));
    SortMultiset(TextLe, Keys(ms));
    DistinctFromBag(Keys(ms), ks);
    assert ks[i] in ks;
    forall x | x in ks[..i] ensures x in ks {
    }
  }

  /** `canonicalizeKeysOnly` as written: one pass over the sorted keys, assigning into `out`. */
  method CanonicalizeKeysOnly(value: Json) returns (r: Json)
    requires Valid(value)
    ensures r == KeysOnly(value) && CanonicalOf(true, value, r)
    decreases value
  {
    KeysOnlyExactly(value, KeysOnly(value));
    if value.Arr? {
      var xs: seq<Json> := [];
      for i := 0 to |value.items|
        invariant |xs| == i && forall j | 0 <= j < i :: xs[j] == KeysOnly(value.items[j])
      {
        var c := CanonicalizeKeysOnly(value.items[i]);
        xs := xs + [c];
      }
      assert xs == KeysOnly(value).items;
      return Arr(xs);
    }
    if !value.Obj? {
      return value;
    }
    var ms := value.members;
    var keys := SortedKeys(TextLe, ms);
    var out: seq<Member> := [];
    for i := 0 to |keys|
      invariant forall k | k in keys[..i] :: k in Keys(ms)
      invariant Filled(ms, keys[..i], KeysOnly, out)
    {
      var k := keys[i];
      KeysBefore(ms, i);
      var v := ms[IndexOf(ms, k)].val;
      FillStep(ms, keys[..i], k, KeysOnly, out);
      if v == Undefined {
        continue;
      }
      var c := CanonicalizeKeysOnly(v);
      out := Assign(out, k, c);
    }
    assert keys[..|keys|] == keys;
    FillDone(ms, KeysOnly, out);
    assert out == KeysOnly(value).members;
    return Obj(out);
  }

  /** `canonicalizeLegacy` as written: arrays are mapped, then sorted by their elements' text. */
  method CanonicalizeLegacy(le: Collation, value: Json) returns (r: Json)
    requires Valid(value)
    ensures r == Legacy(le, value) && LegacyShape(le, value, r)
    decreases value
  {
    LegacyHasShape(le, value);
    if value.Arr? {
      var canonicalized: seq<Json> := [];
      for i := 0 to |value.items|
        invariant |canonicalized| == i && forall j | 0 <= j < i :: canonicalized[j] == Legacy(le, value.items[j])
      {
        var c := CanonicalizeLegacy(le, value.items[i]);
        canonicalized := canonicalized + [c];
      }
      assert canonicalized == LegacyAll(le, value.items);
      canonicalized := SortByText(le, SortTexts(le, canonicalized), canonicalized);
      return Arr(canonicalized);
    }
    if !value.Obj? {
      return value;
    }
    var ms := value.members;
    var keys := SortedKeys(TextLe, ms);
    ghost var form := (v: Json) => Legacy(le, v);
    var out: seq<Member> := [];
    for i := 0 to |keys|
      invariant forall k | k in keys[..i] :: k in Keys(ms)
      invariant Filled(ms, keys[..i], form, out)
    {
      var k := keys[i];
      KeysBefore(ms, i);
      var v := ms[IndexOf(ms, k)].val;
      FillStep(ms, keys[..i], k, form, out);
      if v == Undefined {
        continue;
      }
      var c := CanonicalizeLegacy(le, v);
      out := Assign(out, k, c);
    }
    assert keys[..|keys|] == keys;
    FillDone(ms, form, out);
    assert out == Legacy(le, value).members;
    return Obj(out);
  }
}
