/** The hash input as it is built: fields assigned to and deleted from one object. */
module SnapshotBuild {
  import opened Ordering
  import opened Text
  import opened JsonText
  import opened CanonicalJson
  import opened CanonicalLoops
  import opened HashContents
  import opened SnapshotHash
  import opened SnapshotParts

  /** Reading a property: `Undefined` when there is none. */
  function Get(ms: seq<Member>, k: string): Json {
    if k in Keys(ms) then ms[IndexOf(ms, k)].val else Undefined
  }

  /** The `delete` operator. */
  function Delete(ms: seq<Member>, k: string): seq<Member> {
    if ms == [] then []
    else if ms[0].key == k then Delete(ms[1..], k)
    else [ms[0]] + Delete(ms[1..], k)
  }

  lemma GetOfMember(ms: seq<Member>, i: nat)
    requires DistinctKeys(ms) && i < |ms|
    ensures Get(ms, ms[i].key) == ms[i].val
  {
    IndexOfDistinct(ms, i);
  }

  lemma AssignGet(ms: seq<Member>, k: string, v: Json)
    requires DistinctKeys(ms) && k != PROTO && !IsIndex(k)
    ensures DistinctKeys(Assign(ms, k, v))
    ensures forall x :: Get(Assign(ms, k, v), x) == if x == k then v else Get(ms, x)
  {
    var r := Assign(ms, k, v);
    if k in Keys(ms) {
      var i := IndexOf(ms, k);
      assert r == ms[i := Member(k, v)];
    } else {
      forall i | 0 <= i < |ms| ensures ms[i].key != k {
        assert Keys(ms)[i] == ms[i].key;
      }
    }
    forall x ensures Get(r, x) == if x == k then v else Get(ms, x) {
      AssignGetAt(ms, k, v, x);
    }
  }

  lemma AssignGetAt(ms: seq<Member>, k: string, v: Json, x: string)
    requires DistinctKeys(ms) && DistinctKeys(Assign(ms, k, v)) && k != PROTO && !IsIndex(k)
    ensures Get(Assign(ms, k, v), x) == if x == k then v else Get(ms, x)
  {
    var r := Assign(ms, k, v);
    assert Keys(r) == if k in Keys(ms) then Keys(ms) else Keys(ms) + [k];
    if x == k {
      var i := if k in Keys(ms) then IndexOf(ms, k) else |ms|;
      assert r[i] == Member(k, v);
      GetOfMember(r, i);
    } else if x in Keys(ms) {
      var i := IndexOf(ms, x);
      assert r[i] == ms[i];
      GetOfMember(r, i);
    }
  }

  lemma KeyOfSome(ms: seq<Member>, x: string)
    ensures x in Keys(ms) <==> exists m :: m in ms && m.key == x
  {
    if x in Keys(ms) {
      assert ms[IndexOf(ms, x)] in ms;
    }
    if m :| m in ms && m.key == x {
      var i :| 0 <= i < |ms| && ms[i] == m;
      assert Keys(ms)[i] == x;
    }
  }

  lemma {:induction false} DeleteMembers(ms: seq<Member>, k: string)
    requires DistinctKeys(ms)
    ensures DistinctKeys(Delete(ms, k))
    ensures forall m :: m in Delete(ms, k) <==> m in ms && m.key != k
  {
    if ms == [] {
    } else {
      DeleteMembers(ms[1..], k);
      assert ms == [ms[0]] + ms[1..];
      forall j | 0 <= j < |Delete(ms[1..], k)| ensures Delete(ms[1..], k)[j].key != ms[0].key {
        assert Delete(ms[1..], k)[j] in ms[1..];
      }
    }
  }

  lemma DeleteGet(ms: seq<Member>, k: string)
    requires DistinctKeys(ms)
    ensures DistinctKeys(Delete(ms, k))
    ensures forall x :: Get(Delete(ms, k), x) == if x == k then Undefined else Get(ms, x)
  {
    DeleteMembers(ms, k);
    var r := Delete(ms, k);
    forall x ensures Get(r, x) == if x == k then Undefined else Get(ms, x) {
      KeyOfSome(ms, x);
      KeyOfSome(r, x);
      if x in Keys(r) {
        var i := IndexOf(r, x);
        assert r[i] in r;
        var j :| 0 <= j < |ms| && ms[j] == r[i];
        GetOfMember(ms, j);
      }
    }
  }

  lemma KeptAt(ms: seq<Member>, k: string)
    requires DistinctKeys(ms)
    ensures k in KeptKeys(false, ms) <==> k != PROTO && Get(ms, k) != Undefined
  {
    if k in Keys(ms) {
      var i := IndexOf(ms, k);
      if k != PROTO && Get(ms, k) != Undefined {
        assert Kept(false, ms[i]);
      }
    }
    if k in KeptKeys(false, ms) {
      var i :| 0 <= i < |ms| && Kept(false, ms[i]) && ms[i].key == k;
      GetOfMember(ms, i);
    }
  }

  /** Objects with the same properties mean the same, however they were filled. */
  lemma SameProperties(ms: seq<Member>, ns: seq<Member>)
    requires DistinctKeys(ms) && DistinctKeys(ns)
    requires forall k :: Get(ms, k) == Get(ns, k)
    ensures Denote(EXACT, Obj(ms)) == Denote(EXACT, Obj(ns))
  {
    forall k ensures SameAt(Denote(EXACT, Obj(ms)).fields, Denote(EXACT, Obj(ns)).fields, k) {
      KeptAt(ms, k);
      KeptAt(ns, k);
      DenoteAt(EXACT, ms, k);
      DenoteAt(EXACT, ns, k);
      assert Get(ms, k) == Get(ns, k);
    }
    SameMaps(Denote(EXACT, Obj(ms)).fields, Denote(EXACT, Obj(ns)).fields);
  }

  lemma SameText(ms: seq<Member>, ks: seq<string>, vs: seq<Json>)
    requires |ks| == |vs| && RecordKeys(ks)
    requires Valid(Record(ks, vs)) && DistinctKeys(ms)
    requires forall i | 0 <= i < |ks| :: Get(ms, ks[i]) == vs[i]
    requires forall k | k !in ks :: Get(ms, k) == Undefined
    ensures KeysOnlyText(Obj(ms)) == KeysOnlyText(Record(ks, vs))
  {
    var ns := Record(ks, vs).members;
    forall k ensures Get(ms, k) == Get(ns, k) {
      if k in ks {
        var i :| 0 <= i < |ks| && ks[i] == k;
        GetOfMember(ns, i);
      } else {
        assert Keys(ns) == ks;
      }
    }
    forall i | 0 <= i < |ms| ensures ms[i].val.Undefined? || Valid(ms[i].val) {
      GetOfMember(ms, i);
      if ms[i].key in ks {
        var j :| 0 <= j < |ks| && ks[j] == ms[i].key;
        assert ns[j].val == vs[j];
      }
    }
    SameProperties(ms, ns);
    KeysOnlyComplete(Obj(ms), Obj(ns));
  }

  lemma TopKeysAreNames()
    ensures RecordKeys(TOP_KEYS)
    ensures forall i | 0 <= i < |TOP_KEYS| :: !IsIndex(TOP_KEYS[i])
    ensures forall i, j | 0 <= i < j < |TOP_KEYS| :: TOP_KEYS[i] != TOP_KEYS[j]
  {
    LiteralKeys();
    forall i | 0 <= i < |TOP_KEYS| ensures !IsIndex(TOP_KEYS[i]) {
      assert !IsDigit(TOP_KEYS[i][0]);
    }
  }

  /** What has been assigned so far: field `i` of the payload's top fields, or nothing. */
  ghost predicate Holds(ms: seq<Member>, vs: seq<Json>)
    requires |vs| == |TOP_KEYS|
  {
    && DistinctKeys(ms)
    && (forall i | 0 <= i < |TOP_KEYS| :: Get(ms, TOP_KEYS[i]) == vs[i])
    && (forall k | k !in TOP_KEYS :: Get(ms, k) == Undefined)
  }

  lemma AssignTop(ms: seq<Member>, vs: seq<Json>, n: nat, v: Json)
    requires |vs| == |TOP_KEYS| && n < |TOP_KEYS| && Holds(ms, vs)
    ensures Holds(Assign(ms, TOP_KEYS[n], v), vs[n := v])
  {
    TopKeysAreNames();
    AssignGet(ms, TOP_KEYS[n], v);
    assert TOP_KEYS[n] in TOP_KEYS;
  }

  lemma DeleteTop(ms: seq<Member>, vs: seq<Json>, n: nat)
    requires |vs| == |TOP_KEYS| && n < |TOP_KEYS| && Holds(ms, vs)
    ensures Holds(Delete(ms, TOP_KEYS[n]), vs[n := Undefined])
  {
    TopKeysAreNames();
    DeleteGet(ms, TOP_KEYS[n]);
    assert TOP_KEYS[n] in TOP_KEYS;
  }

  function SevenFields(a: Json, b: Json, c: Json, d: Json, e: Json, f: Json, g: Json): (r: seq<Json>)
    ensures |r| == |TOP_KEYS|
  {
    [a, b, c, d, e, f, g]
  }

  ghost predicate HoldsSeven(ms: seq<Member>, a: Json, b: Json, c: Json, d: Json, e: Json, f: Json, g: Json) {
    Holds(ms, SevenFields(a, b, c, d, e, f, g))
  }

  /** `out.k = v` for a top-level key. */
  function Put(ms: seq<Member>, n: nat, v: Json): seq<Member>
    requires n < |TOP_KEYS|
  {
    Assign(ms, TOP_KEYS[n], v)
  }

  lemma SevenUpdate(a: Json, b: Json, c: Json, d: Json, e: Json, f: Json, g: Json, n: nat, v: Json)
    requires n < 7
    ensures SevenFields(a, b, c, d, e, f, g)[n := v] ==
            SevenFields(if n == 0 then v else a, if n == 1 then v else b, if n == 2 then v else c,
                        if n == 3 then v else d, if n == 4 then v else e, if n == 5 then v else f, if n == 6 then v else g)
  {
    var l := SevenFields(a, b, c, d, e, f, g)[n := v];
    var r := SevenFields(if n == 0 then v else a, if n == 1 then v else b, if n == 2 then v else c,
                         if n == 3 then v else d, if n == 4 then v else e, if n == 5 then v else f, if n == 6 then v else g);
    assert l[0] == r[0] && l[1] == r[1] && l[2] == r[2] && l[3] == r[3];
    assert l[4] == r[4] && l[5] == r[5] && l[6] == r[6];
  }

  lemma PutSeven(ms: seq<Member>, a: Json, b: Json, c: Json, d: Json, e: Json, f: Json, g: Json, n: nat, v: Json)
    requires n < 7 && HoldsSeven(ms, a, b, c, d, e, f, g)
    ensures HoldsSeven(Put(ms, n, v), if n == 0 then v else a, if n == 1 then v else b, if n == 2 then v else c,
                       if n == 3 then v else d, if n == 4 then v else e, if n == 5 then v else f, if n == 6 then v else g)
  {
    AssignTop(ms, SevenFields(a, b, c, d, e, f, g), n, v);
    SevenUpdate(a, b, c, d, e, f, g, n, v);
  }

  lemma DropContext(ms: seq<Member>, a: Json, b: Json, c: Json, d: Json, e: Json, f: Json, g: Json)
    requires HoldsSeven(ms, a, b, c, d, e, f, g)
    ensures HoldsSeven(Delete(Delete(ms, TOP_KEYS[5]), TOP_KEYS[6]), a, b, c, d, e, Undefined, Undefined)
  {
    var vs := SevenFields(a, b, c, d, e, f, g);
    DeleteTop(ms, vs, 5);
    DeleteTop(Delete(ms, TOP_KEYS[5]), vs[5 := Undefined], 6);
    assert vs[5 := Undefined][6 := Undefined] == SevenFields(a, b, c, d, e, Undefined, Undefined);
  }

  const U := Undefined

  /** What the object holds, each section under its own name and read in canonical form. */
  ghost predicate ShowsMoney(le: Collation, p: Payload, ms: seq<Member>) {
    && DistinctKeys(ms) && Get(ms, "hash_version") == Str("v1")
    && ShowsBalance(le, KeysOnly(Get(ms, "trialBalance")), p.trialBalance)
    && Only(KeysOnly(Get(ms, "trialBalance")), {"entries", "totalDebits", "totalCredits"})
    && (if p.entries.Some? && p.entries.value != [] then ShowsEntries(le, KeysOnly(Get(ms, "entries")), p.entries.value)
        else Get(ms, "entries") == Undefined)
    && (if p.comparative.Some? then ShowsComparative(le, KeysOnly(Get(ms, "comparativeTrialBalance")), p.comparative.value)
        else Get(ms, "comparativeTrialBalance") == Undefined)
    && (if p.standard.Some? then ShowsContext(KeysOnly(Get(ms, "accountingContext")), p.standard.value)
        else Get(ms, "accountingContext") == Undefined)
  }

  lemma HeldFields(ms: seq<Member>, a: Json, b: Json, c: Json, d: Json, e: Json, f: Json, g: Json)
    requires HoldsSeven(ms, a, b, c, d, e, f, g)
    ensures Get(ms, "hash_version") == a && Get(ms, "trialBalance") == b && Get(ms, "entries") == c
    ensures Get(ms, "comparativeTrialBalance") == f && Get(ms, "accountingContext") == g
  {
    var vs := SevenFields(a, b, c, d, e, f, g);
    assert Get(ms, TOP_KEYS[0]) == vs[0] && Get(ms, TOP_KEYS[1]) == vs[1] && Get(ms, TOP_KEYS[2]) == vs[2];
    assert Get(ms, TOP_KEYS[5]) == vs[5] && Get(ms, TOP_KEYS[6]) == vs[6];
  }

  lemma MoneyObjectSays(le: Collation, p: Payload, ms: seq<Member>)
    requires TotalPreorder(le) && ValidPayload(p)
    requires HoldsSeven(ms, Str("v1"), Record(BALANCE_KEYS, BalanceFields(le, p.trialBalance)), EntriesField(le, p),
                        U, U, ComparativeField(le, 5, p), StandardField(5, p))
    ensures ShowsMoney(le, p, ms)
  {
    HeldFields(ms, Str("v1"), Record(BALANCE_KEYS, BalanceFields(le, p.trialBalance)), EntriesField(le, p),
               U, U, ComparativeField(le, 5, p), StandardField(5, p));
    BalanceSays(le, p.trialBalance);
    EntriesSay(le, Listed(p.entries));
    ContextFieldsSay(le, 5, p);
  }

  /** `toCanonicalMoneyPayload`: optional sections are assigned only when present. */
  method CanonicalMoneyObject(le: Collation, p: Payload) returns (result: seq<Member>)
    ensures HoldsSeven(result, Str("v1"), Record(BALANCE_KEYS, BalanceFields(le, p.trialBalance)), EntriesField(le, p),
                       U, U, ComparativeField(le, 5, p), StandardField(5, p))
    ensures TotalPreorder(le) && ValidPayload(p) ==> ShowsMoney(le, p, result)
  {
    var version := Str("v1");
    var trialBalance := Record(BALANCE_KEYS, BalanceFields(le, p.trialBalance));
    result := [];
    PutSeven(result, U, U, U, U, U, U, U, 0, version);
    result := Put(result, 0, version);
    PutSeven(result, version, U, U, U, U, U, U, 1, trialBalance);
    result := Put(result, 1, trialBalance);
    ghost var rows, comparative := EntriesField(le, p), ComparativeField(le, 5, p);
    if p.entries.Some? && |p.entries.value| > 0 {
      PutSeven(result, version, trialBalance, U, U, U, U, U, 2, rows);
      result := Put(result, 2, Arr(Map(RowJson, SortEntries(le, p.entries.value))));
    }
    assert HoldsSeven(result, version, trialBalance, rows, U, U, U, U);
    if p.comparative.Some? {
      PutSeven(result, version, trialBalance, rows, U, U, U, U, 5, comparative);
      result := Put(result, 5, Record(COMPARATIVE_KEYS, ComparativeFields(le, p.comparative.value)));
    }
    assert HoldsSeven(result, version, trialBalance, rows, U, U, comparative, U);
    if p.standard.Some? {
      PutSeven(result, version, trialBalance, rows, U, U, comparative, U, 6, StandardField(5, p));
      result := Put(result, 6, Record(["standard"], [Str(p.standard.value)]));
    }
    if TotalPreorder(le) && ValidPayload(p) {
      MoneyObjectSays(le, p, result);
    }
  }

  /**
   * `hashSnapshotPayload` up to the digest: the manifest and ledger are assigned by
   * version, and the certified context is deleted again below version 5.
   */
  method BuildHashText(le: Collation, version: MoneyVersion, p: Payload) returns (json: string)
    requires ValidPayload(p)
    ensures json == HashText(le, version, p)
    ensures TotalPreorder(le) ==> ShowsPayload(le, version, p, Parse(json))
  {
    if TotalPreorder(le) {
      HashTextSays(le, version, p);
    }
    var hashInput := CanonicalMoneyObject(le, p);
    ghost var head, balance := Str("v1"), Record(BALANCE_KEYS, BalanceFields(le, p.trialBalance));
    ghost var rows, comparative, standard := EntriesField(le, p), ComparativeField(le, 5, p), StandardField(5, p);
    ghost var manifest, ledger := ManifestField(version, p), LedgerField(le, version, p);
    if version >= 3 {
      PutSeven(hashInput, head, balance, rows, U, U, comparative, standard, 3, manifest);
      hashInput := Put(hashInput, 3, Manifest(p));
    }
    assert HoldsSeven(hashInput, head, balance, rows, manifest, U, comparative, standard);
    if version >= 4 && p.generalLedger.Some? && |p.generalLedger.value| > 0 {
      PutSeven(hashInput, head, balance, rows, manifest, U, comparative, standard, 4, ledger);
      hashInput := Put(hashInput, 4, Arr(Map(GLJson, SortLedger(le, p.generalLedger.value))));
    }
    assert HoldsSeven(hashInput, head, balance, rows, manifest, ledger, comparative, standard);
    if version < 5 {
      DropContext(hashInput, head, balance, rows, manifest, ledger, comparative, standard);
      hashInput := Delete(Delete(hashInput, TOP_KEYS[5]), TOP_KEYS[6]);
    }
    FinishedText(le, version, p, hashInput);
    json := KeysOnlyText(Obj(hashInput));
  }

  lemma FinishedText(le: Collation, version: MoneyVersion, p: Payload, ms: seq<Member>)
    requires ValidPayload(p)
    requires HoldsSeven(ms, Str("v1"), Record(BALANCE_KEYS, BalanceFields(le, p.trialBalance)), EntriesField(le, p),
                        ManifestField(version, p), LedgerField(le, version, p), ComparativeField(le, version, p),
                        StandardField(version, p))
    ensures KeysOnlyText(Obj(ms)) == HashText(le, version, p)
  {
    TopValid(le, version, p);
    TopKeysAreNames();
    SameText(ms, TOP_KEYS, TopFields(le, version, p));
  }
}
