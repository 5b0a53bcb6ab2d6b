/** The legacy canonical form: keys ordered, and every array sorted by its elements' text. */
module LegacyJson {
  import opened Ordering
  import opened Text
  import opened JsonText
  import opened CanonicalJson

  // ---------------------------------------------------------------------
  // Termination measure: canonicalising never makes a value deeper

  ghost function Depth(v: Json): nat {
    match v
    case Arr(xs) => 1 + ItemsDepth(xs)
    case Obj(ms) => 1 + MembersDepth(ms)
    case _ => 0
  }

  ghost function ItemsDepth(xs: seq<Json>): (d: nat)
    ensures forall i | 0 <= i < |xs| :: Depth(xs[i]) <= d
  {
    if xs == [] then 0
    else
      var a, b := Depth(xs[0]), ItemsDepth(xs[1..]);
      if a < b then b else a
  }

  ghost function MembersDepth(ms: seq<Member>): (d: nat)
    ensures forall i | 0 <= i < |ms| :: Depth(ms[i].val) <= d
  {
    if ms == [] then 0
    else
      var a, b := Depth(ms[0].val), MembersDepth(ms[1..]);
      if a < b then b else a
  }

  lemma {:induction false} ItemsDepthLeast(xs: seq<Json>, d: nat)
    requires forall i | 0 <= i < |xs| :: Depth(xs[i]) <= d
    ensures ItemsDepth(xs) <= d
  {
    if xs == [] {
    } else {
      ItemsDepthLeast(xs[1..], d);
    }
  }

  lemma {:induction false} MembersDepthLeast(ms: seq<Member>, d: nat)
    requires forall i | 0 <= i < |ms| :: Depth(ms[i].val) <= d
    ensures MembersDepth(ms) <= d
  {
    if ms == [] {
    } else {
      MembersDepthLeast(ms[1..], d);
    }
  }

  // ---------------------------------------------------------------------
  // Sorting values by their texts

  datatype Keyed = Keyed(text: string, val: Json)

  function KeyedLe(le: Collation): (Keyed, Keyed) -> bool {
    (a: Keyed, b: Keyed) => le(a.text, b.text)
  }

  function Pair(texts: seq<string>, ys: seq<Json>): (ps: seq<Keyed>)
    requires |texts| == |ys|
    ensures |ps| == |ys| && forall i | 0 <= i < |ys| :: ps[i] == Keyed(texts[i], ys[i])
  {
    seq(|ys|, i requires 0 <= i < |ys| => Keyed(texts[i], ys[i]))
  }

  function Unpair(ps: seq<Keyed>): (ys: seq<Json>)
    ensures |ys| == |ps|
  {
    seq(|ps|, i requires 0 <= i < |ps| => ps[i].val)
  }

  /** Elements `ys` sorted by the collation of `texts`. */
  function SortByText(le: Collation, texts: seq<string>, ys: seq<Json>): (r: seq<Json>)
    requires |texts| == |ys|
    ensures |r| == |ys| && forall i | 0 <= i < |r| :: r[i] in ys
  {
    var ps := Pair(texts, ys);
    SortMultiset(KeyedLe(le), ps);
    var qs := Sort(KeyedLe(le), ps);
    assert forall i | 0 <= i < |qs| :: qs[i].val in ys by {
      forall i | 0 <= i < |qs| ensures qs[i].val in ys {
        InSort(KeyedLe(le), ps, qs[i]);
        var j :| 0 <= j < |ps| && ps[j] == qs[i];
        assert ys[j] == qs[i].val;
      }
    }
    Unpair(qs)
  }

  // ---------------------------------------------------------------------
  // The two mutually recursive functions

  /** `canonicalizeLegacy`. */
  function Legacy(le: Collation, v: Json): (r: Json)
    ensures Depth(r) <= Depth(v)
    decreases Depth(v), 0
  {
    match v
    case Arr(xs) =>
      var ys := seq(|xs|, i requires 0 <= i < |xs| => Legacy(le, xs[i]));
      var texts := seq(|ys|, i requires 0 <= i < |ys| => SortText(le, ys[i]));
      var r := SortByText(le, texts, ys);
      ItemsDepthLeast(r, ItemsDepth(xs));
      Arr(r)
    case Obj(ms) =>
      var ks := SortedKept(PropLe, ms);
      var out := seq(|ks|, i requires 0 <= i < |ks| => Member(ks[i], Legacy(le, ms[IndexOf(ms, ks[i])].val)));
      MembersDepthLeast(out, MembersDepth(ms));
      Obj(out)
    case _ => v
  }

  /** `deterministicStringifyLegacy`. */
  function SortText(le: Collation, v: Json): string
    decreases Depth(v), 1
  {
    match v
    case Arr(xs) =>
      var ys := seq(|xs|, i requires 0 <= i < |xs| => Legacy(le, xs[i]));
      var texts := seq(|ys|, i requires 0 <= i < |ys| => SortText(le, ys[i]));
      var sorted := SortByText(le, texts, ys);
      "[" + Join(',', seq(|sorted|, i requires 0 <= i < |sorted| => SortText(le, sorted[i]))) + "]"
    case Obj(ms) =>
      var ks := DefinedOnly(ms, SortedKeys(TextLe, ms));
      "{" + Join(',', seq(|ks|, i requires 0 <= i < |ks| =>
        Quote(ks[i]) + ":" + SortText(le, Legacy(le, ms[IndexOf(ms, ks[i])].val)))) + "}"
    case _ => Print(v)
  }

  function DefinedOnly(ms: seq<Member>, ks: seq<string>): (r: seq<string>)
    requires forall k | k in ks :: k in Keys(ms)
    ensures forall k | k in r :: k in Keys(ms)
  {
    if ks == [] then []
    else if ms[IndexOf(ms, ks[0])].val.Undefined? then DefinedOnly(ms, ks[1..])
    else [ks[0]] + DefinedOnly(ms, ks[1..])
  }

  /** `canonicalStringifyLegacy`. */
  function LegacyText(le: Collation, v: Json): string {
    Print(Legacy(le, v))
  }

  // ---------------------------------------------------------------------
  // Canonical values

  /** The text of a canonical value with its keys in plain ascending order. */
  function AscendingText(v: Json): string {
    Print(OrderKeys(TextLe, v))
  }

  ghost predicate TextSorted(le: Collation, xs: seq<Json>) {
    forall i, j | 0 <= i < j < |xs| :: le(AscendingText(xs[i]), AscendingText(xs[j]))
  }

  ghost predicate Canonical(le: Collation, v: Json) {
    match v
    case Undefined => false
    case Num(t) => NumberText(t)
    case Arr(xs) => TextSorted(le, xs) && forall i | 0 <= i < |xs| :: Canonical(le, xs[i])
    case Obj(ms) =>
      && Sorted(PropLe, Keys(ms)) && DistinctKeys(ms)
      && forall i | 0 <= i < |ms| :: ms[i].key != PROTO && Canonical(le, ms[i].val)
    case _ => true
  }

  lemma {:induction false} CanonicalPlain(le: Collation, v: Json)
    requires Canonical(le, v)
    ensures Plain(v) && Valid(v)
  {
    match v
    case Arr(xs) => forall i | 0 <= i < |xs| { CanonicalPlain(le, xs[i]); }
    case Obj(ms) => forall i | 0 <= i < |ms| { CanonicalPlain(le, ms[i].val); }
    case _ =>
  }

  /** All members of `ms` survive, so its keys in any order are the surviving keys. */
  lemma AllKept(ord: KeyOrder, ms: seq<Member>)
    requires IsKeyOrder(ord) && DistinctKeys(ms)
    requires forall i | 0 <= i < |ms| :: Kept(false, ms[i])
    ensures forall k :: k in SortedKept(ord, ms) <==> k in Keys(ms)
    ensures Sorted(ord, Keys(ms)) ==> SortedKept(ord, ms) == Keys(ms)
  {
    SortedKeptSpec(ord, ms);
    forall k ensures k in SortedKept(ord, ms) <==> k in Keys(ms) {
      if k in Keys(ms) {
        var i := IndexOf(ms, k);
        assert Kept(false, ms[i]);
      }
    }
    if Sorted(ord, Keys(ms)) {
      assert Distinct(Keys(ms));
      AscendingUnique(ord, SortedKept(ord, ms), Keys(ms));
    }
  }

  lemma {:induction false} CanonicalIsOrdered(le: Collation, v: Json)
    requires Canonical(le, v)
    ensures KeysOnly(v) == v
  {
    match v
    case Arr(xs) =>
      forall i | 0 <= i < |xs| { CanonicalIsOrdered(le, xs[i]); }
      assert KeysOnly(v).items == xs;
    case Obj(ms) =>
      PropLeIsOrder();
      AllKept(PropLe, ms);
      forall i | 0 <= i < |ms| ensures KeysOnly(v).members[i] == ms[i] {
        IndexOfDistinct(ms, i);
        CanonicalIsOrdered(le, ms[i].val);
      }
      assert KeysOnly(v).members == ms;
    case _ =>
  }

  /** On canonical values the sort text identifies the value. */
  lemma AscendingTextInjective(le: Collation, c: Json, d: Json)
    requires Canonical(le, c) && Canonical(le, d)
    requires AscendingText(c) == AscendingText(d)
    ensures c == d
  {
    TextLeIsOrder();
    PropLeIsOrder();
    CanonicalPlain(le, c);
    CanonicalPlain(le, d);
    OrderKeysPlain(TextLe, c);
    OrderKeysPlain(TextLe, d);
    ParseInvertsPrint(OrderKeys(TextLe, c));
    ParseInvertsPrint(OrderKeys(TextLe, d));
    OrderKeysDenote(TextLe, EXACT, c);
    OrderKeysDenote(TextLe, EXACT, d);
    MeaningDeterminesForm(PropLe, c, d);
    CanonicalIsOrdered(le, c);
    CanonicalIsOrdered(le, d);
  }

  lemma {:induction false} JoinIsPrintItems(xs: seq<Json>, texts: seq<string>)
    requires |texts| == |xs| && forall i | 0 <= i < |xs| :: texts[i] == Print(xs[i])
    ensures Join(',', texts) == PrintItems(xs)
  {
    if |xs| <= 1 {
    } else {
      JoinIsPrintItems(xs[1..], texts[1..]);
    }
  }

  lemma {:induction false} JoinIsPrintMembers(ms: seq<Member>, texts: seq<string>)
    requires |texts| == |ms| && forall i | 0 <= i < |ms| :: texts[i] == PrintMember(ms[i])
    ensures Join(',', texts) == PrintMembers(ms)
  {
    if |ms| <= 1 {
    } else {
      JoinIsPrintMembers(ms[1..], texts[1..]);
    }
  }

  lemma {:induction false} DefinedIsKept(ms: seq<Member>, ks: seq<string>)
    requires forall k | k in ks :: k in Keys(ms) && k != PROTO
    ensures DefinedOnly(ms, ks) == KeptOnly(ms, ks)
  {
    if ks == [] {
    } else {
      assert ks[0] in ks;
      DefinedIsKept(ms, ks[1..]);
    }
  }

  /** Sorting by text leaves an already sorted array alone. */
  lemma SortByTextFixed(le: Collation, texts: seq<string>, xs: seq<Json>)
    requires |texts| == |xs|
    requires forall i, j | 0 <= i < j < |xs| :: le(texts[i], texts[j])
    ensures SortByText(le, texts, xs) == xs
  {
    SortOfSorted(KeyedLe(le), Pair(texts, xs));
  }

  /** A canonical value is a fixed point, and its sort text is its ascending text. */
  lemma {:induction false} CanonicalFixed(le: Collation, c: Json)
    requires Canonical(le, c)
    ensures Legacy(le, c) == c
    ensures SortText(le, c) == AscendingText(c)
    decreases c
  {
    match c
    case Arr(xs) =>
      forall i | 0 <= i < |xs| { CanonicalFixed(le, xs[i]); }
      CanonicalArrayFixed(le, xs);
    case Obj(ms) =>
      forall i | 0 <= i < |ms| { CanonicalFixed(le, ms[i].val); }
      CanonicalObjectFixed(le, ms);
      CanonicalObjectText(le, ms);
    case _ =>
  }

  lemma CanonicalArrayFixed(le: Collation, xs: seq<Json>)
    requires TextSorted(le, xs)
    requires forall i | 0 <= i < |xs| :: Legacy(le, xs[i]) == xs[i] && SortText(le, xs[i]) == AscendingText(xs[i])
    ensures Legacy(le, Arr(xs)) == Arr(xs)
    ensures SortText(le, Arr(xs)) == AscendingText(Arr(xs))
  {
    var ys := seq(|xs|, i requires 0 <= i < |xs| => Legacy(le, xs[i]));
    assert ys == xs;
    var texts := seq(|ys|, i requires 0 <= i < |ys| => SortText(le, ys[i]));
    SortByTextFixed(le, texts, xs);
    JoinIsPrintItems(OrderKeys(TextLe, Arr(xs)).items, texts);
  }

  lemma CanonicalObjectFixed(le: Collation, ms: seq<Member>)
    requires Sorted(PropLe, Keys(ms)) && DistinctKeys(ms)
    requires forall i | 0 <= i < |ms| :: Kept(false, ms[i]) && Legacy(le, ms[i].val) == ms[i].val
    ensures Legacy(le, Obj(ms)) == Obj(ms)
  {
    PropLeIsOrder();
    AllKept(PropLe, ms);
    forall i | 0 <= i < |ms| ensures Legacy(le, Obj(ms)).members[i] == ms[i] {
      IndexOfDistinct(ms, i);
    }
    assert Legacy(le, Obj(ms)).members == ms;
  }

  lemma CanonicalObjectText(le: Collation, ms: seq<Member>)
    requires DistinctKeys(ms)
    requires forall i | 0 <= i < |ms| :: Kept(false, ms[i])
    requires forall i | 0 <= i < |ms| :: Legacy(le, ms[i].val) == ms[i].val && SortText(le, ms[i].val) == AscendingText(ms[i].val)
    ensures SortText(le, Obj(ms)) == AscendingText(Obj(ms))
  {
    TextLeIsOrder();
    forall k | k in SortedKeys(TextLe, ms) ensures k != PROTO {
      assert ms[IndexOf(ms, k)].key == k;
    }
    DefinedIsKept(ms, SortedKeys(TextLe, ms));
    var ks := SortedKept(TextLe, ms);
    var texts := seq(|ks|, i requires 0 <= i < |ks| =>
      Quote(ks[i]) + ":" + SortText(le, Legacy(le, ms[IndexOf(ms, ks[i])].val)));
    var out := OrderKeys(TextLe, Obj(ms)).members;
    forall i | 0 <= i < |ks| ensures texts[i] == PrintMember(out[i]) {
    }
    JoinIsPrintMembers(out, texts);
  }

  // ---------------------------------------------------------------------
  // The canonical form is canonical, and canonicalising is idempotent

  function LegacyAll(le: Collation, xs: seq<Json>): seq<Json> {
    seq(|xs|, i requires 0 <= i < |xs| => Legacy(le, xs[i]))
  }

  function SortTexts(le: Collation, ys: seq<Json>): seq<string> {
    seq(|ys|, i requires 0 <= i < |ys| => SortText(le, ys[i]))
  }

  function LegacyPairs(le: Collation, ys: seq<Json>): seq<Keyed> {
    Pair(SortTexts(le, ys), ys)
  }

  lemma LegacyArray(le: Collation, xs: seq<Json>)
    ensures Legacy(le, Arr(xs)) == Arr(Unpair(Sort(KeyedLe(le), LegacyPairs(le, LegacyAll(le, xs)))))
  {
  }

  lemma KeyedLeIsOrder(le: Collation)
    requires TotalPreorder(le)
    ensures TotalPreorder(KeyedLe(le))
  {
    var kle := KeyedLe(le);
    forall a, b ensures kle(a, b) || kle(b, a) {
      assert le(a.text, b.text) || le(b.text, a.text);
    }
    forall a, b, c | kle(a, b) && kle(b, c) ensures kle(a, c) {
      assert le(a.text, b.text) && le(b.text, c.text);
    }
  }

  lemma SortedArrayCanonical(le: Collation, ys: seq<Json>)
    requires TotalPreorder(le)
    requires forall i | 0 <= i < |ys| :: Canonical(le, ys[i])
    ensures Canonical(le, Arr(Unpair(Sort(KeyedLe(le), LegacyPairs(le, ys)))))
  {
    KeyedLeIsOrder(le);
    var ps := LegacyPairs(le, ys);
    var qs := Sort(KeyedLe(le), ps);
    SortSorted(KeyedLe(le), ps);
    forall i | 0 <= i < |qs| ensures Canonical(le, qs[i].val) && qs[i].text == AscendingText(qs[i].val) {
      InSort(KeyedLe(le), ps, qs[i]);
      var j :| 0 <= j < |ps| && ps[j] == qs[i];
      CanonicalFixed(le, ys[j]);
    }
    var zs := Unpair(qs);
    forall i, j | 0 <= i < j < |zs| ensures le(AscendingText(zs[i]), AscendingText(zs[j])) {
      assert KeyedLe(le)(qs[i], qs[j]);
    }
  }

  lemma {:induction false} LegacyCanonical(le: Collation, v: Json)
    requires TotalPreorder(le) && Valid(v)
    ensures Canonical(le, Legacy(le, v))
  {
    match v
    case Arr(xs) =>
      forall i | 0 <= i < |xs| { LegacyCanonical(le, xs[i]); }
      LegacyArray(le, xs);
      SortedArrayCanonical(le, LegacyAll(le, xs));
    case Obj(ms) =>
      PropLeIsOrder();
      SortedKeptSpec(PropLe, ms);
      var ks, out := SortedKept(PropLe, ms), Legacy(le, v).members;
      forall i | 0 <= i < |ks| ensures out[i].key == ks[i] != PROTO && Canonical(le, out[i].val) {
        MemberValid(ms, ks[i]);
        LegacyCanonical(le, ms[IndexOf(ms, ks[i])].val);
      }
      assert Keys(out) == ks;
    case _ =>
  }

  /** Canonicalising twice is canonicalising once. */
  lemma LegacyIdempotent(le: Collation, v: Json)
    requires TotalPreorder(le) && Valid(v)
    ensures Legacy(le, Legacy(le, v)) == Legacy(le, v)
    ensures SortText(le, Legacy(le, v)) == AscendingText(Legacy(le, v))
  {
    LegacyCanonical(le, v);
    CanonicalFixed(le, Legacy(le, v));
  }

  // ---------------------------------------------------------------------
  // What the legacy text identifies

  const BAGS := View(false, false)

  /** No tie in the collation joins two different canonical values. */
  ghost predicate TellsApart(le: Collation) {
    forall c, d | Canonical(le, c) && Canonical(le, d) && Tied(le, AscendingText(c), AscendingText(d)) :: c == d
  }

  lemma UnpairBag(w: View, le: Collation, ys: seq<Json>)
    ensures multiset(DenoteAll(w, Unpair(Sort(KeyedLe(le), LegacyPairs(le, ys))))) == multiset(DenoteAll(w, ys))
  {
    var ps := LegacyPairs(le, ys);
    var qs := Sort(KeyedLe(le), ps);
    SortMultiset(KeyedLe(le), ps);
    BagTransfer(qs, DenoteAll(w, Unpair(qs)), ps, DenoteAll(w, ys));
  }

  /** Canonicalising keeps the value up to array permutation. */
  lemma {:induction false} LegacyDenote(le: Collation, v: Json)
    requires TotalPreorder(le) && Valid(v)
    ensures Denote(BAGS, Legacy(le, v)) == Denote(BAGS, v)
  {
    match v
    case Arr(xs) =>
      forall i | 0 <= i < |xs| { LegacyDenote(le, xs[i]); }
      LegacyArray(le, xs);
      var ys := LegacyAll(le, xs);
      assert DenoteAll(BAGS, ys) == DenoteAll(BAGS, xs);
      UnpairBag(BAGS, le, ys);
    case Obj(ms) =>
      LegacyCanonical(le, v);
      PropLeIsOrder();
      SortedKeptSpec(PropLe, ms);
      var ks, out := SortedKept(PropLe, ms), Legacy(le, v).members;
      forall i | 0 <= i < |ks|
        ensures Kept(false, out[i]) && Denote(BAGS, out[i].val) == Denote(BAGS, ms[IndexOf(ms, ks[i])].val)
      {
        MemberValid(ms, ks[i]);
        LegacyDenote(le, ms[IndexOf(ms, ks[i])].val);
        assert Canonical(le, out[i].val);
      }
      SameFields(BAGS, BAGS, out, ms, ks);
    case _ =>
  }

  lemma SortedBagsEqual(le: Collation, ys: seq<Json>, zs: seq<Json>)
    requires TotalPreorder(le) && TellsApart(le)
    requires forall i | 0 <= i < |ys| :: Canonical(le, ys[i])
    requires forall i | 0 <= i < |zs| :: Canonical(le, zs[i])
    requires multiset(ys) == multiset(zs)
    ensures Sort(KeyedLe(le), LegacyPairs(le, ys)) == Sort(KeyedLe(le), LegacyPairs(le, zs))
  {
    KeyedLeIsOrder(le);
    var ps, qs := LegacyPairs(le, ys), LegacyPairs(le, zs);
    BagTransfer(ys, ps, zs, qs);
    forall i, j | 0 <= i < |ps| && 0 <= j < |ps| && Tied(KeyedLe(le), ps[i], ps[j]) ensures ps[i] == ps[j] {
      CanonicalFixed(le, ys[i]);
      CanonicalFixed(le, ys[j]);
      assert Tied(le, AscendingText(ys[i]), AscendingText(ys[j]));
    }
    SortForgetsOrder(KeyedLe(le), ps, qs);
  }

  lemma ItemsDetermineForm(le: Collation, xs: seq<Json>, zs: seq<Json>)
    requires TotalPreorder(le) && TellsApart(le)
    requires Valid(Arr(xs)) && Valid(Arr(zs)) && Denote(BAGS, Arr(xs)) == Denote(BAGS, Arr(zs))
    requires forall i, j | 0 <= i < |xs| && 0 <= j < |zs| && Denote(BAGS, xs[i]) == Denote(BAGS, zs[j]) ::
               Legacy(le, xs[i]) == Legacy(le, zs[j])
    ensures Legacy(le, Arr(xs)) == Legacy(le, Arr(zs))
  {
    var ys, ws := LegacyAll(le, xs), LegacyAll(le, zs);
    assert multiset(DenoteAll(BAGS, xs)) == multiset(DenoteAll(BAGS, zs));
    BagTransfer(DenoteAll(BAGS, xs), ys, DenoteAll(BAGS, zs), ws);
    forall i | 0 <= i < |xs| { LegacyCanonical(le, xs[i]); }
    forall i | 0 <= i < |zs| { LegacyCanonical(le, zs[i]); }
    SortedBagsEqual(le, ys, ws);
    LegacyArray(le, xs);
    LegacyArray(le, zs);
  }

  /** Objects of one meaning keep the same keys, with values of one meaning. */
  lemma SameMemberMeanings(ms: seq<Member>, ns: seq<Member>, k: string)
    requires Valid(Obj(ms)) && Valid(Obj(ns)) && Denote(BAGS, Obj(ms)) == Denote(BAGS, Obj(ns))
    requires k in SortedKept(PropLe, ms)
    ensures SortedKept(PropLe, ms) == SortedKept(PropLe, ns) && k in Keys(ms) && k in Keys(ns)
    ensures Valid(ms[IndexOf(ms, k)].val) && Valid(ns[IndexOf(ns, k)].val)
    ensures Denote(BAGS, ms[IndexOf(ms, k)].val) == Denote(BAGS, ns[IndexOf(ns, k)].val)
  {
    PropLeIsOrder();
    SameSortedKept(PropLe, false, ms, ns);
    SortedKeptSpec(PropLe, ms);
    SortedKeptSpec(PropLe, ns);
    MemberValid(ms, k);
    MemberValid(ns, k);
    DenoteAt(BAGS, ms, k);
    DenoteAt(BAGS, ns, k);
  }

  /** The form depends on the value up to array permutation, when the collation tells values apart. */
  lemma {:induction false} BagsDetermineForm(le: Collation, u: Json, v: Json)
    requires TotalPreorder(le) && TellsApart(le)
    requires Valid(u) && Valid(v)
    requires Denote(BAGS, u) == Denote(BAGS, v)
    ensures Legacy(le, u) == Legacy(le, v)
  {
    match u
    case Arr(xs) =>
      forall i, j | 0 <= i < |xs| && 0 <= j < |v.items| && Denote(BAGS, xs[i]) == Denote(BAGS, v.items[j])
        ensures Legacy(le, xs[i]) == Legacy(le, v.items[j])
      {
        BagsDetermineForm(le, xs[i], v.items[j]);
      }
      ItemsDetermineForm(le, xs, v.items);
    case Obj(ms) =>
      var ns := v.members;
      PropLeIsOrder();
      SameSortedKept(PropLe, false, ms, ns);
      forall k | k in SortedKept(PropLe, ms)
        ensures k in Keys(ms) && k in Keys(ns) && Legacy(le, ms[IndexOf(ms, k)].val) == Legacy(le, ns[IndexOf(ns, k)].val)
      {
        SameMemberMeanings(ms, ns, k);
        BagsDetermineForm(le, ms[IndexOf(ms, k)].val, ns[IndexOf(ns, k)].val);
      }
    case _ =>
  }

  lemma LegacyTextSound(le: Collation, u: Json, v: Json)
    requires TotalPreorder(le) && Valid(u) && Valid(v)
    requires LegacyText(le, u) == LegacyText(le, v)
    ensures Legacy(le, u) == Legacy(le, v)
    ensures Denote(BAGS, u) == Denote(BAGS, v)
  {
    LegacyCanonical(le, u);
    LegacyCanonical(le, v);
    CanonicalPlain(le, Legacy(le, u));
    CanonicalPlain(le, Legacy(le, v));
    ParseInvertsPrint(Legacy(le, u));
    ParseInvertsPrint(Legacy(le, v));
    LegacyDenote(le, u);
    LegacyDenote(le, v);
  }

  /**
   * Main result for legacy text: equal texts exactly for values equal up to key order,
   * undefined members and array permutation at every depth.
   */
  lemma LegacyComplete(le: Collation, u: Json, v: Json)
    requires TotalPreorder(le) && TellsApart(le)
    requires Valid(u) && Valid(v)
    ensures LegacyText(le, u) == LegacyText(le, v) <==> Denote(BAGS, u) == Denote(BAGS, v)
  {
    if LegacyText(le, u) == LegacyText(le, v) {
      LegacyTextSound(le, u, v);
    }
    if Denote(BAGS, u) == Denote(BAGS, v) {
      BagsDetermineForm(le, u, v);
    }
  }

  lemma SwappedBag(w: View, c: Json, d: Json)
    ensures multiset(DenoteAll(w, [c, d])) == multiset(DenoteAll(w, [d, c]))
  {
    assert DenoteAll(w, [c, d]) == [Denote(w, c), Denote(w, d)];
    assert DenoteAll(w, [d, c]) == [Denote(w, d), Denote(w, c)];
  }

  lemma PairFixed(le: Collation, c: Json, d: Json)
    requires Canonical(le, c) && Canonical(le, d) && le(AscendingText(c), AscendingText(d))
    ensures Valid(Arr([c, d])) && Legacy(le, Arr([c, d])) == Arr([c, d])
  {
    assert Canonical(le, Arr([c, d]));
    CanonicalPlain(le, Arr([c, d]));
    CanonicalFixed(le, Arr([c, d]));
  }

  lemma TwoTiedItems(le: Collation, c: Json, d: Json)
    requires TotalPreorder(le)
    requires Canonical(le, c) && Canonical(le, d) && Tied(le, AscendingText(c), AscendingText(d)) && c != d
    ensures Valid(Arr([c, d])) && Valid(Arr([d, c]))
    ensures Denote(BAGS, Arr([c, d])) == Denote(BAGS, Arr([d, c]))
    ensures LegacyText(le, Arr([c, d])) != LegacyText(le, Arr([d, c]))
  {
    PairFixed(le, c, d);
    PairFixed(le, d, c);
    SwappedBag(BAGS, c, d);
    assert [c, d][0] != [d, c][0];
    if LegacyText(le, Arr([c, d])) == LegacyText(le, Arr([d, c])) {
      LegacyTextSound(le, Arr([c, d]), Arr([d, c]));
    }
  }

  /** The collation condition is exact: without it, some array keeps its input order. */
  lemma LegacyCompleteExactly(le: Collation)
    requires TotalPreorder(le)
    ensures TellsApart(le) <==>
            forall u, v | Valid(u) && Valid(v) :: Denote(BAGS, u) == Denote(BAGS, v) ==> LegacyText(le, u) == LegacyText(le, v)
  {
    if TellsApart(le) {
      forall u, v | Valid(u) && Valid(v) && Denote(BAGS, u) == Denote(BAGS, v) ensures LegacyText(le, u) == LegacyText(le, v) {
        LegacyComplete(le, u, v);
      }
    } else {
      var c, d :| Canonical(le, c) && Canonical(le, d) && Tied(le, AscendingText(c), AscendingText(d)) && c != d;
      TwoTiedItems(le, c, d);
    }
  }

  /** A collation that ties only identical strings tells canonical values apart. */
  lemma TotalOrderTellsApart(le: Collation)
    requires TotalPreorder(le) && Antisymmetric(le)
    ensures TellsApart(le)
  {
    forall c, d | Canonical(le, c) && Canonical(le, d) && Tied(le, AscendingText(c), AscendingText(d)) ensures c == d {
      AscendingTextInjective(le, c, d);
    }
  }

  // ---------------------------------------------------------------------
  // Facts used for sort keys

  lemma ItemsOfKeysOnly(le: Collation, xs: seq<Json>)
    requires forall i | 0 <= i < |xs| :: Legacy(le, KeysOnly(xs[i])) == Legacy(le, xs[i])
    ensures Legacy(le, KeysOnly(Arr(xs))) == Legacy(le, Arr(xs))
  {
    assert LegacyAll(le, KeysOnly(Arr(xs)).items) == LegacyAll(le, xs);
    LegacyArray(le, xs);
    LegacyArray(le, KeysOnly(Arr(xs)).items);
  }

  /** The members of the keys-only object, and what survives of them: all. */
  lemma KeysOnlyMembers(ms: seq<Member>)
    requires Valid(Obj(ms))
    ensures var ks, out := SortedKept(PropLe, ms), KeysOnly(Obj(ms)).members;
            && |out| == |ks| && DistinctKeys(out) && SortedKept(PropLe, out) == ks
            && forall i | 0 <= i < |ks| :: ks[i] in Keys(ms) && out[i] == Member(ks[i], KeysOnly(ms[IndexOf(ms, ks[i])].val))
  {
    PropLeIsOrder();
    SortedKeptSpec(PropLe, ms);
    var ks, out := SortedKept(PropLe, ms), KeysOnly(Obj(ms)).members;
    OrderKeysPlain(PropLe, Obj(ms));
    forall i | 0 <= i < |ks| ensures Kept(false, out[i]) {
      MemberValid(ms, ks[i]);
    }
    assert Keys(out) == ks;
    AllKept(PropLe, out);
  }

  lemma MembersOfKeysOnly(le: Collation, ms: seq<Member>)
    requires Valid(Obj(ms))
    requires forall i | 0 <= i < |ms| && Valid(ms[i].val) :: Legacy(le, KeysOnly(ms[i].val)) == Legacy(le, ms[i].val)
    ensures Legacy(le, KeysOnly(Obj(ms))) == Legacy(le, Obj(ms))
  {
    KeysOnlyMembers(ms);
    var ks, out := SortedKept(PropLe, ms), KeysOnly(Obj(ms)).members;
    PropLeIsOrder();
    SortedKeptSpec(PropLe, ms);
    forall i | 0 <= i < |ks| ensures Legacy(le, Obj(out)).members[i] == Legacy(le, Obj(ms)).members[i] {
      MemberValid(ms, ks[i]);
      IndexOfDistinct(out, i);
    }
    assert Legacy(le, Obj(out)).members == Legacy(le, Obj(ms)).members;
  }

  /** Legacy canonicalisation sees only the keys-only canonical value. */
  lemma {:induction false} LegacyOfKeysOnly(le: Collation, v: Json)
    requires Valid(v)
    ensures Legacy(le, KeysOnly(v)) == Legacy(le, v)
  {
    match v
    case Arr(xs) =>
      forall i | 0 <= i < |xs| { LegacyOfKeysOnly(le, xs[i]); }
      ItemsOfKeysOnly(le, xs);
    case Obj(ms) =>
      forall i | 0 <= i < |ms| && Valid(ms[i].val) { LegacyOfKeysOnly(le, ms[i].val); }
      MembersOfKeysOnly(le, ms);
    case _ =>
  }

  ghost predicate ArrayFree(v: Json) {
    match v
    case Arr(xs) => false
    case Obj(ms) => forall i | 0 <= i < |ms| :: ArrayFree(ms[i].val)
    case _ => true
  }

  lemma {:induction false} LegacyWithoutArrays(le: Collation, v: Json)
    requires ArrayFree(v)
    ensures Legacy(le, v) == KeysOnly(v)
  {
    match v
    case Obj(ms) =>
      var ks := SortedKept(PropLe, ms);
      forall i | 0 <= i < |ks| ensures Legacy(le, v).members[i] == KeysOnly(v).members[i] {
        LegacyWithoutArrays(le, ms[IndexOf(ms, ks[i])].val);
      }
      assert Legacy(le, v).members == KeysOnly(v).members;
    case _ =>
  }
}
