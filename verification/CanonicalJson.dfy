/** Deterministic serialisation: key-ordered text, and the legacy form that also sorts arrays. */
module CanonicalJson {
  import opened Ordering
  import opened Text
  import opened JsonText

  type KeyOrder = (string, string) -> bool
  type Collation = (string, string) -> bool

  // ---------------------------------------------------------------------
  // Own-key order of a JavaScript object

  /** Keys that name an array index are enumerated first, in numeric order. */
  predicate IsIndex(k: string) {
    k != [] && AllDigits(k) && (k == "0" || k[0] != '0') && Value(k) < 0xFFFF_FFFF
  }

  /** The order in which an object filled in ascending key order enumerates its keys. */
  predicate PropLe(a: string, b: string) {
    if IsIndex(a) then IsIndex(b) ==> Value(a) <= Value(b)
    else !IsIndex(b) && TextLe(a, b)
  }

  lemma {:induction false} NatTextOfValue(k: string)
    requires k != [] && AllDigits(k) && (k == "0" || k[0] != '0')
    ensures NatText(Value(k)) == k
    ensures Value(k) == 0 ==> k == "0"
  {
    var p, d := k[..|k| - 1], k[|k| - 1];
    assert k == p + [d];
    if p == [] {
      assert Value(k) == DigitValue(d);
      assert Digit(DigitValue(d)) == d;
    } else {
      assert p[0] == k[0];
      NatTextOfValue(p);
      assert p != "0";
      assert Value(k) / 10 == Value(p) && Value(k) % 10 == DigitValue(d);
      assert Digit(DigitValue(d)) == d;
    }
  }

  lemma PropLeIsOrder()
    ensures TotalPreorder(PropLe) && Antisymmetric(PropLe)
  {
    TextLeIsOrder();
    forall a, b | PropLe(a, b) && PropLe(b, a) ensures a == b {
      if IsIndex(a) {
        NatTextOfValue(a);
        NatTextOfValue(b);
      }
    }
  }

  ghost predicate IsKeyOrder(ord: KeyOrder) {
    TotalPreorder(ord) && Antisymmetric(ord)
  }

  // ---------------------------------------------------------------------
  // Which members survive, and in which order

  function KeptOnly(ms: seq<Member>, ks: seq<string>): (r: seq<string>)
    requires forall k | k in ks :: k in Keys(ms)
    ensures forall k :: k in r <==> k in ks && Kept(false, ms[IndexOf(ms, k)])
  {
    if ks == [] then []
    else if Kept(false, ms[IndexOf(ms, ks[0])]) then [ks[0]] + KeptOnly(ms, ks[1..])
    else KeptOnly(ms, ks[1..])
  }

  function SortedKeys(ord: KeyOrder, ms: seq<Member>): (r: seq<string>)
    ensures forall k :: k in r <==> k in Keys(ms)
  {
    assert forall k :: k in Sort(ord, Keys(ms)) <==> k in Keys(ms) by {
      forall k ensures k in Sort(ord, Keys(ms)) <==> k in Keys(ms) {
        InSort(ord, Keys(ms), k);
      }
    }
    Sort(ord, Keys(ms))
  }

  /** Keys with a defined value, except `__proto__`, whose assignment creates no own property. */
  function SortedKept(ord: KeyOrder, ms: seq<Member>): (r: seq<string>)
    ensures forall k | k in r :: k in Keys(ms)
  {
    KeptOnly(ms, SortedKeys(ord, ms))
  }

  lemma {:induction false} KeptOnlySorted(ord: KeyOrder, ms: seq<Member>, ks: seq<string>)
    requires forall k | k in ks :: k in Keys(ms)
    requires Sorted(ord, ks) && Distinct(ks)
    ensures Sorted(ord, KeptOnly(ms, ks)) && Distinct(KeptOnly(ms, ks))
  {
    if ks == [] {
    } else {
      var rest := KeptOnly(ms, ks[1..]);
      KeptOnlySorted(ord, ms, ks[1..]);
      forall j | 0 <= j < |rest| ensures ord(ks[0], rest[j]) && ks[0] != rest[j] {
        assert rest[j] in ks[1..];
      }
    }
  }

  lemma SortedKeptSpec(ord: KeyOrder, ms: seq<Member>)
    requires IsKeyOrder(ord) && DistinctKeys(ms)
    ensures Sorted(ord, SortedKept(ord, ms)) && Distinct(SortedKept(ord, ms))
    ensures forall k :: k in SortedKept(ord, ms) <==> k in KeptKeys(false, ms)
  {
    assert Distinct(Keys(ms));
    SortSorted(ord, Keys(ms));
    SortMultiset(ord, Keys(ms));
    DistinctFromBag(Keys(ms), SortedKeys(ord, ms));
    KeptOnlySorted(ord, ms, SortedKeys(ord, ms));
    forall k ensures k in SortedKept(ord, ms) <==> k in KeptKeys(false, ms) {
      if k in KeptKeys(false, ms) {
        var i :| 0 <= i < |ms| && Kept(false, ms[i]) && ms[i].key == k;
        IndexOfDistinct(ms, i);
      }
    }
  }

  // ---------------------------------------------------------------------
  // Keys-only canonical form

  /** `canonicalizeKeysOnly`, for any enumeration order of the keys. */
  function OrderKeys(ord: KeyOrder, v: Json): Json {
    match v
    case Arr(xs) => Arr(seq(|xs|, i requires 0 <= i < |xs| => OrderKeys(ord, xs[i])))
    case Obj(ms) =>
      var ks := SortedKept(ord, ms);
      Obj(seq(|ks|, i requires 0 <= i < |ks| => Member(ks[i], OrderKeys(ord, ms[IndexOf(ms, ks[i])].val))))
    case _ => v
  }

  function KeysOnly(v: Json): Json {
    OrderKeys(PropLe, v)
  }

  /** `canonicalStringifyKeysOnly`. */
  function KeysOnlyText(v: Json): string {
    Print(KeysOnly(v))
  }

  lemma MemberValid(ms: seq<Member>, k: string)
    requires Valid(Obj(ms)) && k in KeptKeys(false, ms)
    ensures k in Keys(ms) && Kept(false, ms[IndexOf(ms, k)]) && Valid(ms[IndexOf(ms, k)].val)
  {
    var i :| 0 <= i < |ms| && Kept(false, ms[i]) && ms[i].key == k;
    IndexOfDistinct(ms, i);
  }

  lemma {:induction false} OrderKeysPlain(ord: KeyOrder, v: Json)
    requires IsKeyOrder(ord) && Valid(v)
    ensures Plain(OrderKeys(ord, v))
  {
    match v
    case Arr(xs) =>
      forall i | 0 <= i < |xs| { OrderKeysPlain(ord, xs[i]); }
    case Obj(ms) =>
      SortedKeptSpec(ord, ms);
      var ks := SortedKept(ord, ms);
      forall i | 0 <= i < |ks| ensures Plain(OrderKeys(ord, ms[IndexOf(ms, ks[i])].val)) {
        MemberValid(ms, ks[i]);
        OrderKeysPlain(ord, ms[IndexOf(ms, ks[i])].val);
      }
    case _ =>
  }

  /** Ordering the keys keeps everything but the members named `__proto__`. */
  lemma {:induction false} OrderKeysDenote(ord: KeyOrder, w: View, v: Json)
    requires IsKeyOrder(ord) && Valid(v)
    ensures Denote(w, OrderKeys(ord, v)) == Denote(View(w.ordered, false), v)
  {
    match v
    case Arr(xs) =>
      forall i | 0 <= i < |xs| { OrderKeysDenote(ord, w, xs[i]); }
      assert DenoteAll(w, OrderKeys(ord, v).items) == DenoteAll(View(w.ordered, false), xs);
    case Obj(ms) =>
      OrderKeysPlain(ord, v);
      SortedKeptSpec(ord, ms);
      var ks, out := SortedKept(ord, ms), OrderKeys(ord, v).members;
      forall i | 0 <= i < |ks|
        ensures Kept(w.proto, out[i]) && Kept(false, ms[IndexOf(ms, ks[i])])
        ensures Denote(w, out[i].val) == Denote(View(w.ordered, false), ms[IndexOf(ms, ks[i])].val)
      {
        MemberValid(ms, ks[i]);
        OrderKeysDenote(ord, w, ms[IndexOf(ms, ks[i])].val);
      }
      SameFields(w, View(w.ordered, false), out, ms, ks);
    case _ =>
  }

  ghost predicate SameMembers(w: View, w': View, out: seq<Member>, ms: seq<Member>, ks: seq<string>) {
    && DistinctKeys(out) && DistinctKeys(ms) && |out| == |ks|
    && (forall k :: k in ks <==> k in KeptKeys(w'.proto, ms))
    && (forall i | 0 <= i < |ks| :: ks[i] in Keys(ms))
    && (forall i | 0 <= i < |ks| :: out[i].key == ks[i] && Kept(w.proto, out[i]))
    && (forall i | 0 <= i < |ks| :: Denote(w, out[i].val) == Denote(w', ms[IndexOf(ms, ks[i])].val))
  }

  lemma SameField(w: View, w': View, out: seq<Member>, ms: seq<Member>, ks: seq<string>, k: string)
    requires SameMembers(w, w', out, ms, ks)
    ensures SameAt(Denote(w, Obj(out)).fields, Denote(w', Obj(ms)).fields, k)
  {
    DenoteAt(w, out, k);
    DenoteAt(w', ms, k);
    SameKept(w, w', out, ms, ks, k);
    if k in ks {
      var i :| 0 <= i < |ks| && ks[i] == k;
      DenoteField(w, out, i);
    }
  }

  /** Two member lists with the same surviving keys and equal meanings at each denote one map. */
  lemma SameFields(w: View, w': View, out: seq<Member>, ms: seq<Member>, ks: seq<string>)
    requires SameMembers(w, w', out, ms, ks)
    ensures Denote(w, Obj(out)) == Denote(w', Obj(ms))
  {
    forall k ensures SameAt(Denote(w, Obj(out)).fields, Denote(w', Obj(ms)).fields, k) {
      SameField(w, w', out, ms, ks, k);
    }
    SameMaps(Denote(w, Obj(out)).fields, Denote(w', Obj(ms)).fields);
  }

  ghost predicate SameAt(a: map<string, Meaning>, b: map<string, Meaning>, k: string) {
    (k in a <==> k in b) && (k in a ==> a[k] == b[k])
  }

  lemma SameMaps(a: map<string, Meaning>, b: map<string, Meaning>)
    requires forall k :: SameAt(a, b, k)
    ensures a == b
  {
    forall k ensures (k in a <==> k in b) && (k in a ==> a[k] == b[k]) {
      assert SameAt(a, b, k);
    }
  }

  lemma SameKept(w: View, w': View, out: seq<Member>, ms: seq<Member>, ks: seq<string>, k: string)
    requires |out| == |ks|
    requires forall k :: k in ks <==> k in KeptKeys(w'.proto, ms)
    requires forall i | 0 <= i < |ks| :: out[i].key == ks[i] && Kept(w.proto, out[i])
    ensures k in KeptKeys(w.proto, out) <==> k in KeptKeys(w'.proto, ms)
    ensures k in KeptKeys(w.proto, out) <==> k in ks
  {
    if k in KeptKeys(w.proto, out) {
      var i :| 0 <= i < |out| && Kept(w.proto, out[i]) && out[i].key == k;
      assert ks[i] in ks;
    }
    if k in ks {
      var i :| 0 <= i < |ks| && ks[i] == k;
      assert Kept(w.proto, out[i]);
    }
  }

  const EXACT := View(true, false)
  const EVERYTHING := View(true, true)

  lemma SameKeptKeys(w: View, ms: seq<Member>, ns: seq<Member>)
    requires Denote(w, Obj(ms)) == Denote(w, Obj(ns))
    ensures forall k :: k in KeptKeys(w.proto, ms) <==> k in KeptKeys(w.proto, ns)
  {
    forall k ensures k in KeptKeys(w.proto, ms) <==> k in KeptKeys(w.proto, ns) {
      DenoteAt(w, ms, k);
      DenoteAt(w, ns, k);
    }
  }

  lemma SameSortedKept(ord: KeyOrder, ordered: bool, ms: seq<Member>, ns: seq<Member>)
    requires IsKeyOrder(ord) && DistinctKeys(ms) && DistinctKeys(ns)
    requires Denote(View(ordered, false), Obj(ms)) == Denote(View(ordered, false), Obj(ns))
    ensures SortedKept(ord, ms) == SortedKept(ord, ns)
  {
    SameKeptKeys(View(ordered, false), ms, ns);
    SortedKeptSpec(ord, ms);
    SortedKeptSpec(ord, ns);
    AscendingUnique(ord, SortedKept(ord, ms), SortedKept(ord, ns));
  }

  /** The canonical form depends on the meaning alone. */
  lemma {:induction false} MeaningDeterminesForm(ord: KeyOrder, u: Json, v: Json)
    requires IsKeyOrder(ord) && Valid(u) && Valid(v)
    requires Denote(EXACT, u) == Denote(EXACT, v)
    ensures OrderKeys(ord, u) == OrderKeys(ord, v)
  {
    match u
    case Arr(xs) =>
      assert DenoteAll(EXACT, xs) == DenoteAll(EXACT, v.items);
      forall i | 0 <= i < |xs| ensures OrderKeys(ord, xs[i]) == OrderKeys(ord, v.items[i]) {
        assert DenoteAll(EXACT, xs)[i] == DenoteAll(EXACT, v.items)[i];
        MeaningDeterminesForm(ord, xs[i], v.items[i]);
      }
    case Obj(ms) =>
      var ns := v.members;
      SameSortedKept(ord, true, ms, ns);
      SortedKeptSpec(ord, ms);
      SortedKeptSpec(ord, ns);
      var ks := SortedKept(ord, ms);
      forall i | 0 <= i < |ks|
        ensures OrderKeys(ord, ms[IndexOf(ms, ks[i])].val) == OrderKeys(ord, ns[IndexOf(ns, ks[i])].val)
      {
        MemberValid(ms, ks[i]);
        MemberValid(ns, ks[i]);
        DenoteAt(EXACT, ms, ks[i]);
        DenoteAt(EXACT, ns, ks[i]);
        MeaningDeterminesForm(ord, ms[IndexOf(ms, ks[i])].val, ns[IndexOf(ns, ks[i])].val);
      }
    case _ =>
  }

  /** A parser reads the canonical value back from its text. */
  lemma KeysOnlyRoundTrip(v: Json)
    requires Valid(v)
    ensures Parse(KeysOnlyText(v)) == KeysOnly(v)
    ensures Denote(EXACT, Parse(KeysOnlyText(v))) == Denote(EXACT, v)
  {
    PropLeIsOrder();
    OrderKeysPlain(PropLe, v);
    ParseInvertsPrint(KeysOnly(v));
    OrderKeysDenote(PropLe, EXACT, v);
  }

  /**
   * Main result for keys-only text: it is a complete invariant of the value up to key
   * order and undefined members, with array order kept.
   */
  lemma KeysOnlyComplete(u: Json, v: Json)
    requires Valid(u) && Valid(v)
    ensures KeysOnlyText(u) == KeysOnlyText(v) <==> Denote(EXACT, u) == Denote(EXACT, v)
  {
    PropLeIsOrder();
    KeysOnlyRoundTrip(u);
    KeysOnlyRoundTrip(v);
    if Denote(EXACT, u) == Denote(EXACT, v) {
      MeaningDeterminesForm(PropLe, u, v);
    }
  }

  /** No object, at any depth, has a defined member named `__proto__`. */
  ghost predicate NoProto(v: Json) {
    match v
    case Arr(xs) => forall i | 0 <= i < |xs| :: NoProto(xs[i])
    case Obj(ms) => forall i | 0 <= i < |ms| && !ms[i].val.Undefined? :: ms[i].key != PROTO && NoProto(ms[i].val)
    case _ => true
  }

  lemma {:induction false} ProtoVisible(v: Json)
    requires Valid(v)
    ensures Denote(EVERYTHING, v) == Denote(EXACT, v) <==> NoProto(v)
  {
    match v
    case Arr(xs) =>
      forall i | 0 <= i < |xs| { ProtoVisible(xs[i]); }
      assert Denote(EVERYTHING, v) == MSeq(DenoteAll(EVERYTHING, xs));
      assert Denote(EXACT, v) == MSeq(DenoteAll(EXACT, xs));
      if Denote(EVERYTHING, v) == Denote(EXACT, v) {
        forall i | 0 <= i < |xs| ensures NoProto(xs[i]) {
          assert DenoteAll(EVERYTHING, xs)[i] == DenoteAll(EXACT, xs)[i];
        }
      } else {
        var i :| 0 <= i < |xs| && DenoteAll(EVERYTHING, xs)[i] != DenoteAll(EXACT, xs)[i];
        assert !NoProto(xs[i]);
      }
    case Obj(ms) =>
      forall i | 0 <= i < |ms| && !ms[i].val.Undefined? { ProtoVisible(ms[i].val); }
      if Denote(EVERYTHING, v) == Denote(EXACT, v) {
        forall i | 0 <= i < |ms| && !ms[i].val.Undefined? ensures ms[i].key != PROTO && NoProto(ms[i].val) {
          DenoteField(EVERYTHING, ms, i);
          DenoteAt(EXACT, ms, ms[i].key);
          IndexOfDistinct(ms, i);
        }
      } else if NoProto(v) {
        VisibleFields(ms);
      }
    case _ =>
  }

  lemma VisibleFields(ms: seq<Member>)
    requires DistinctKeys(ms)
    requires forall i | 0 <= i < |ms| && !ms[i].val.Undefined? :: ms[i].key != PROTO
    requires forall i | 0 <= i < |ms| && !ms[i].val.Undefined? :: Denote(EVERYTHING, ms[i].val) == Denote(EXACT, ms[i].val)
    ensures Denote(EVERYTHING, Obj(ms)) == Denote(EXACT, Obj(ms))
  {
    var a, b := Denote(EVERYTHING, Obj(ms)).fields, Denote(EXACT, Obj(ms)).fields;
    assert KeptKeys(true, ms) == KeptKeys(false, ms);
    forall k ensures (k in a <==> k in b) && (k in a ==> a[k] == b[k]) {
      DenoteAt(EVERYTHING, ms, k);
      DenoteAt(EXACT, ms, k);
      if k in a {
        var i :| 0 <= i < |ms| && Kept(true, ms[i]) && ms[i].key == k;
        IndexOfDistinct(ms, i);
      }
    }
    assert a == b;
  }

  /**
   * The text determines every member of the value exactly when no object has a defined
   * member named `__proto__`: assigning that key to the output object stores nothing.
   */
  lemma KeysOnlyFaithful(v: Json)
    requires Valid(v)
    ensures Denote(EVERYTHING, Parse(KeysOnlyText(v))) == Denote(EVERYTHING, v) <==> NoProto(v)
  {
    PropLeIsOrder();
    KeysOnlyRoundTrip(v);
    OrderKeysDenote(PropLe, EVERYTHING, v);
    ProtoVisible(v);
  }

  lemma ProtoMemberLost()
    ensures var v := Obj([Member(PROTO, Null)]);
            Valid(v) && KeysOnlyText(v) == KeysOnlyText(Obj([])) && Denote(EVERYTHING, v) != Denote(EVERYTHING, Obj([]))
  {
    var v := Obj([Member(PROTO, Null)]);
    assert KeptKeys(false, v.members) == {} == KeptKeys(false, []);
    assert Denote(EXACT, v).fields == map[] == Denote(EXACT, Obj([])).fields;
    KeysOnlyComplete(v, Obj([]));
    DenoteField(EVERYTHING, v.members, 0);
    assert Denote(EVERYTHING, Obj([])).fields == map[];
  }
}
