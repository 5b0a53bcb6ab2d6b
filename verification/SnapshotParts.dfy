/** The hashed text of a snapshot stands for its sorted parts, field by field. */
module SnapshotParts {
  import opened Wrappers
  import opened Ordering
  import opened Text
  import opened Cents
  import opened JsonText
  import opened CanonicalJson
  import opened SnapshotHash

  // ---------------------------------------------------------------------
  // Records with fixed keys

  ghost predicate RecordKeys(ks: seq<string>) {
    Distinct(ks) && PROTO !in ks
  }

  ghost predicate FieldValues(vs: seq<Json>) {
    forall i | 0 <= i < |vs| :: vs[i].Undefined? || Valid(vs[i])
  }

  lemma RecordValid(ks: seq<string>, vs: seq<Json>)
    requires |ks| == |vs| && RecordKeys(ks) && FieldValues(vs)
    ensures Valid(Record(ks, vs))
  {
  }

  lemma RecordField(ks: seq<string>, vs: seq<Json>, i: nat)
    requires |ks| == |vs| && RecordKeys(ks) && i < |ks|
    ensures var fields := Denote(EXACT, Record(ks, vs)).fields;
            && (ks[i] in fields <==> !vs[i].Undefined?)
            && (!vs[i].Undefined? ==> fields[ks[i]] == Denote(EXACT, vs[i]))
  {
    var ms := Record(ks, vs).members;
    assert ms[i].key == ks[i] && ks[i] != PROTO;
    DenoteAt(EXACT, ms, ks[i]);
    if vs[i].Undefined? {
      forall j | 0 <= j < |ms| && Kept(false, ms[j]) ensures ms[j].key != ks[i] {
        assert j != i;
      }
    } else {
      DenoteField(EXACT, ms, i);
    }
  }

  lemma RecordDomain(ks: seq<string>, vs: seq<Json>, k: string)
    requires |ks| == |vs|
    ensures k in Denote(EXACT, Record(ks, vs)).fields ==> k in ks
  {
    var ms := Record(ks, vs).members;
    DenoteAt(EXACT, ms, k);
    if k in KeptKeys(false, ms) {
      var i :| 0 <= i < |ms| && Kept(false, ms[i]) && ms[i].key == k;
      assert ks[i] == k;
    }
  }

  ghost predicate SameFieldMeanings(us: seq<Json>, vs: seq<Json>)
    requires |us| == |vs|
  {
    forall i | 0 <= i < |us| :: Denote(EXACT, us[i]) == Denote(EXACT, vs[i])
  }

  lemma RecordFieldsAgree(ks: seq<string>, us: seq<Json>, vs: seq<Json>, k: string)
    requires |ks| == |us| == |vs| && RecordKeys(ks)
    requires SameFieldMeanings(us, vs)
    ensures SameAt(Denote(EXACT, Record(ks, us)).fields, Denote(EXACT, Record(ks, vs)).fields, k)
  {
    RecordDomain(ks, us, k);
    RecordDomain(ks, vs, k);
    if k in ks {
      var i :| 0 <= i < |ks| && ks[i] == k;
      RecordFieldAgrees(ks, us, vs, i);
    }
  }

  lemma RecordFieldAgrees(ks: seq<string>, us: seq<Json>, vs: seq<Json>, i: nat)
    requires |ks| == |us| == |vs| && RecordKeys(ks) && i < |ks|
    requires Denote(EXACT, us[i]) == Denote(EXACT, vs[i])
    ensures SameAt(Denote(EXACT, Record(ks, us)).fields, Denote(EXACT, Record(ks, vs)).fields, ks[i])
  {
    RecordField(ks, us, i);
    RecordField(ks, vs, i);
  }

  /** Two records over one key list mean the same exactly when their fields do. */
  lemma RecordMeaning(ks: seq<string>, us: seq<Json>, vs: seq<Json>)
    requires |ks| == |us| == |vs| && RecordKeys(ks)
    ensures Denote(EXACT, Record(ks, us)) == Denote(EXACT, Record(ks, vs)) <==> SameFieldMeanings(us, vs)
  {
    if Denote(EXACT, Record(ks, us)) == Denote(EXACT, Record(ks, vs)) {
      forall i | 0 <= i < |us| ensures Denote(EXACT, us[i]) == Denote(EXACT, vs[i]) {
        RecordField(ks, us, i);
        RecordField(ks, vs, i);
      }
    }
    if SameFieldMeanings(us, vs) {
      forall k ensures SameAt(Denote(EXACT, Record(ks, us)).fields, Denote(EXACT, Record(ks, vs)).fields, k) {
        RecordFieldsAgree(ks, us, vs, k);
      }
      SameMaps(Denote(EXACT, Record(ks, us)).fields, Denote(EXACT, Record(ks, vs)).fields);
    }
  }

  lemma LiteralKeys()
    ensures RecordKeys(ROW_KEYS) && RecordKeys(BALANCE_KEYS) && RecordKeys(["standard"])
    ensures RecordKeys(LINE_KEYS) && RecordKeys(GL_KEYS) && RecordKeys(COMPARATIVE_KEYS) && RecordKeys(TOP_KEYS)
  {
    assert |"debit"| == 5 && |"accountName"| == 11 && |"credit"| == 6 && |"lineId"| == 6 && |"accountCode"| == 11;
    assert "credit"[0] != "lineId"[0] && "accountName"[7] != "accountCode"[7] && "accountName"[7] != "description"[7];
  }

  // ---------------------------------------------------------------------
  // Lines, entries and lists of them

  lemma OptStrMeaning(a: Option<string>, b: Option<string>)
    ensures Denote(EXACT, OptStr(a)) == Denote(EXACT, OptStr(b)) <==> a == b
  {
  }

  lemma MoneyMeaning(a: Amount, b: Amount)
    ensures Denote(EXACT, Money(a)) == Denote(EXACT, Money(b)) <==> CentsOf(a) == CentsOf(b)
  {
    if MoneyText(CentsOf(a)) == MoneyText(CentsOf(b)) {
      MoneyTextInjective(CentsOf(a), CentsOf(b));
    }
  }

  lemma JsonMeaning(u: Json, v: Json)
    requires Valid(u) && Valid(v)
    ensures Denote(EXACT, u) == Denote(EXACT, v) <==> KeysOnly(u) == KeysOnly(v)
  {
    PropLeIsOrder();
    OrderKeysDenote(PropLe, EXACT, u);
    OrderKeysDenote(PropLe, EXACT, v);
    if Denote(EXACT, u) == Denote(EXACT, v) {
      MeaningDeterminesForm(PropLe, u, v);
    }
  }

  lemma ProvenanceMeaning(e: Entry, f: Entry)
    requires ValidEntry(e) && ValidEntry(f)
    ensures Denote(EXACT, RowFields(e)[6]) == Denote(EXACT, RowFields(f)[6]) <==> RowOf(e).provenance == RowOf(f).provenance
  {
    if e.provenance.Some? && f.provenance.Some? {
      JsonMeaning(e.provenance.value, f.provenance.value);
    }
  }

  /** What each field of a serialised line says, taken together. */
  predicate SameRowParts(e: Entry, f: Entry) {
    var x, y := RowOf(e), RowOf(f);
    && x.debit == y.debit && x.credit == y.credit && x.lineId == y.lineId && x.accountName == y.accountName
    && x.accountCode == y.accountCode && x.description == y.description && x.provenance == y.provenance
  }

  lemma FieldMeaning(us: seq<Json>, vs: seq<Json>, i: nat)
    requires i < |us| == |vs| && SameFieldMeanings(us, vs)
    ensures Denote(EXACT, us[i]) == Denote(EXACT, vs[i])
  {
  }

  lemma SevenMeanings(us: seq<Json>, vs: seq<Json>)
    requires |us| == |vs| == 7
    ensures SameFieldMeanings(us, vs) <==>
            && Denote(EXACT, us[0]) == Denote(EXACT, vs[0]) && Denote(EXACT, us[1]) == Denote(EXACT, vs[1])
            && Denote(EXACT, us[2]) == Denote(EXACT, vs[2]) && Denote(EXACT, us[3]) == Denote(EXACT, vs[3])
            && Denote(EXACT, us[4]) == Denote(EXACT, vs[4]) && Denote(EXACT, us[5]) == Denote(EXACT, vs[5])
            && Denote(EXACT, us[6]) == Denote(EXACT, vs[6])
  {
    if SameFieldMeanings(us, vs) {
      FieldMeaning(us, vs, 0);
      FieldMeaning(us, vs, 1);
      FieldMeaning(us, vs, 2);
      FieldMeaning(us, vs, 3);
      FieldMeaning(us, vs, 4);
      FieldMeaning(us, vs, 5);
      FieldMeaning(us, vs, 6);
    } else {
      var i :| 0 <= i < |us| && Denote(EXACT, us[i]) != Denote(EXACT, vs[i]);
      assert i == 0 || i == 1 || i == 2 || i == 3 || i == 4 || i == 5 || i == 6;
    }
  }

  lemma StrMeaning(a: string, b: string)
    ensures Denote(EXACT, Str(a)) == Denote(EXACT, Str(b)) <==> a == b
  {
  }

  lemma RowFieldsMeaning(e: Entry, f: Entry)
    requires ValidEntry(e) && ValidEntry(f)
    ensures SameFieldMeanings(RowFields(e), RowFields(f)) <==> SameRowParts(e, f)
  {
    SevenMeanings(RowFields(e), RowFields(f));
    StrMeaning(Text0(e.accountName), Text0(f.accountName));
    MoneyMeaning(e.debit, f.debit);
    MoneyMeaning(e.credit, f.credit);
    OptStrMeaning(NonEmpty(e.lineId), NonEmpty(f.lineId));
    OptStrMeaning(e.accountCode, f.accountCode);
    OptStrMeaning(NonEmpty(e.description), NonEmpty(f.description));
    ProvenanceMeaning(e, f);
  }

  /** A serialised line stands for its row: nothing else of the entry reaches the text. */
  lemma RowMeaning(e: Entry, f: Entry)
    requires ValidEntry(e) && ValidEntry(f)
    ensures Denote(EXACT, RowJson(e)) == Denote(EXACT, RowJson(f)) <==> RowOf(e) == RowOf(f)
  {
    LiteralKeys();
    RecordMeaning(ROW_KEYS, RowFields(e), RowFields(f));
    RowFieldsMeaning(e, f);
  }

  lemma ArrMeaning(xs: seq<Json>, ys: seq<Json>)
    ensures Denote(EXACT, Arr(xs)) == Denote(EXACT, Arr(ys)) <==>
            |xs| == |ys| && forall i | 0 <= i < |xs| :: Denote(EXACT, xs[i]) == Denote(EXACT, ys[i])
  {
    var ds, es := DenoteAll(EXACT, xs), DenoteAll(EXACT, ys);
    assert Denote(EXACT, Arr(xs)) == MSeq(ds) && Denote(EXACT, Arr(ys)) == MSeq(es);
    if ds == es {
      forall i | 0 <= i < |xs| ensures Denote(EXACT, xs[i]) == Denote(EXACT, ys[i]) {
        assert ds[i] == es[i];
      }
    }
  }

  lemma RowsMeaning(es: seq<Entry>, fs: seq<Entry>)
    requires ValidEntries(es) && ValidEntries(fs)
    ensures Denote(EXACT, Arr(Map(RowJson, es))) == Denote(EXACT, Arr(Map(RowJson, fs))) <==> Rows(es) == Rows(fs)
  {
    ArrMeaning(Map(RowJson, es), Map(RowJson, fs));
    if Denote(EXACT, Arr(Map(RowJson, es))) == Denote(EXACT, Arr(Map(RowJson, fs))) {
      forall i | 0 <= i < |es| ensures RowOf(es[i]) == RowOf(fs[i]) {
        assert Denote(EXACT, Map(RowJson, es)[i]) == Denote(EXACT, Map(RowJson, fs)[i]);
        RowMeaning(es[i], fs[i]);
      }
    }
    if Rows(es) == Rows(fs) {
      assert |es| == |Rows(es)| == |fs|;
      forall i | 0 <= i < |es| ensures Denote(EXACT, Map(RowJson, es)[i]) == Denote(EXACT, Map(RowJson, fs)[i]) {
        assert Rows(es)[i] == Rows(fs)[i];
        RowMeaning(es[i], fs[i]);
      }
    }
  }

  lemma LineMeaning(k: GLLine, l: GLLine)
    ensures Denote(EXACT, LineJson(k)) == Denote(EXACT, LineJson(l)) <==> k == l
  {
    LiteralKeys();
    var us, vs := LineFields(k), LineFields(l);
    RecordMeaning(LINE_KEYS, us, vs);
    OptStrMeaning(k.description, l.description);
    if SameFieldMeanings(us, vs) {
      assert Denote(EXACT, us[0]) == Denote(EXACT, vs[0]);
      assert Denote(EXACT, us[1]) == Denote(EXACT, vs[1]);
      assert Denote(EXACT, us[2]) == Denote(EXACT, vs[2]);
      assert Denote(EXACT, us[3]) == Denote(EXACT, vs[3]);
      assert Denote(EXACT, us[4]) == Denote(EXACT, vs[4]);
      if k.number.Some? && l.number.Some? {
        IntTextInjective(k.number.value, l.number.value);
      }
    }
  }

  lemma GLMeaning(g: GLEntry, h: GLEntry)
    ensures Denote(EXACT, GLJson(g)) == Denote(EXACT, GLJson(h)) <==> g == h
  {
    LiteralKeys();
    var us, vs := GLFields(g), GLFields(h);
    RecordMeaning(GL_KEYS, us, vs);
    OptStrMeaning(g.description, h.description);
    if SameFieldMeanings(us, vs) {
      assert Denote(EXACT, us[0]) == Denote(EXACT, vs[0]);
      assert Denote(EXACT, us[1]) == Denote(EXACT, vs[1]);
      assert Denote(EXACT, us[2]) == Denote(EXACT, vs[2]);
      assert Denote(EXACT, us[3]) == Denote(EXACT, vs[3]);
      LinesMeaning(g.lines, h.lines);
    }
  }

  lemma LinesMeaning(ks: seq<GLLine>, ls: seq<GLLine>)
    requires Denote(EXACT, Arr(Map(LineJson, ks))) == Denote(EXACT, Arr(Map(LineJson, ls)))
    ensures ks == ls
  {
    ArrMeaning(Map(LineJson, ks), Map(LineJson, ls));
    forall i | 0 <= i < |ks| ensures ks[i] == ls[i] {
      assert Denote(EXACT, Map(LineJson, ks)[i]) == Denote(EXACT, Map(LineJson, ls)[i]);
      LineMeaning(ks[i], ls[i]);
    }
  }

  lemma LedgerMeaning(gs: seq<GLEntry>, hs: seq<GLEntry>)
    ensures Denote(EXACT, Arr(Map(GLJson, gs))) == Denote(EXACT, Arr(Map(GLJson, hs))) <==> gs == hs
  {
    ArrMeaning(Map(GLJson, gs), Map(GLJson, hs));
    if Denote(EXACT, Arr(Map(GLJson, gs))) == Denote(EXACT, Arr(Map(GLJson, hs))) {
      forall i | 0 <= i < |gs| ensures gs[i] == hs[i] {
        assert Denote(EXACT, Map(GLJson, gs)[i]) == Denote(EXACT, Map(GLJson, hs)[i]);
        GLMeaning(gs[i], hs[i]);
      }
    }
  }

  // ---------------------------------------------------------------------
  // The parts of a payload, as sorted lists

  datatype BalancePart = BalancePart(rows: seq<Row>, debits: int, credits: int)

  datatype ComparativePart =
    ComparativePart(periodLabel: string, snapshotId: string, snapshotHash: string, balance: BalancePart)

  datatype Parts = Parts(
    balance: BalancePart,
    entries: seq<Row>,
    manifest: Option<Json>,
    ledger: seq<GLEntry>,
    comparative: Option<ComparativePart>,
    standard: Option<string>
  )

  function SortedRows(le: Collation, es: seq<Entry>): seq<Row> {
    Rows(SortEntries(le, es))
  }

  function BalancePartOf(le: Collation, b: Balance): BalancePart {
    BalancePart(SortedRows(le, b.entries), CentsOf(b.totalDebits), CentsOf(b.totalCredits))
  }

  function ComparativePartOf(le: Collation, c: Comparative): ComparativePart {
    ComparativePart(c.periodLabel, c.snapshotId, c.snapshotHash, BalancePartOf(le, c.balance))
  }

  function PartsOf(le: Collation, version: MoneyVersion, p: Payload): Parts {
    Parts(
      BalancePartOf(le, p.trialBalance),
      SortedRows(le, Listed(p.entries)),
      if version < 3 then None else Some(KeysOnly(Manifest(p))),
      if version < 4 then [] else SortLedger(le, Listed(p.generalLedger)),
      if version < 5 || p.comparative.None? then None else Some(ComparativePartOf(le, p.comparative.value)),
      if version < 5 then None else p.standard
    )
  }

  lemma SortEntriesValid(le: Collation, es: seq<Entry>)
    requires ValidEntries(es)
    ensures ValidEntries(SortEntries(le, es)) && |SortEntries(le, es)| == |es|
  {
    SortMultiset(EntryLe(le), es);
    var s := SortEntries(le, es);
    forall i | 0 <= i < |s| ensures ValidEntry(s[i]) {
      InSort(EntryLe(le), es, s[i]);
      assert s[i] in s;
    }
  }

  lemma RowJsonValid(e: Entry)
    requires ValidEntry(e)
    ensures Valid(RowJson(e))
  {
    LiteralKeys();
    RecordValid(ROW_KEYS, RowFields(e));
  }

  lemma RowsValid(le: Collation, es: seq<Entry>)
    requires ValidEntries(es)
    ensures Valid(Arr(Map(RowJson, SortEntries(le, es))))
  {
    SortEntriesValid(le, es);
    var s := SortEntries(le, es);
    forall i | 0 <= i < |s| ensures Valid(Map(RowJson, s)[i]) {
      RowJsonValid(s[i]);
    }
  }

  lemma BalanceMeaning(le: Collation, a: Balance, b: Balance)
    requires ValidEntries(a.entries) && ValidEntries(b.entries)
    ensures SameFieldMeanings(BalanceFields(le, a), BalanceFields(le, b)) <==> BalancePartOf(le, a) == BalancePartOf(le, b)
    ensures FieldValues(BalanceFields(le, a))
  {
    SortEntriesValid(le, a.entries);
    SortEntriesValid(le, b.entries);
    RowsValid(le, a.entries);
    RowsMeaning(SortEntries(le, a.entries), SortEntries(le, b.entries));
    MoneyMeaning(a.totalDebits, b.totalDebits);
    MoneyMeaning(a.totalCredits, b.totalCredits);
    var us, vs := BalanceFields(le, a), BalanceFields(le, b);
    if SameFieldMeanings(us, vs) {
      assert Denote(EXACT, us[0]) == Denote(EXACT, vs[0]);
      assert Denote(EXACT, us[1]) == Denote(EXACT, vs[1]);
      assert Denote(EXACT, us[2]) == Denote(EXACT, vs[2]);
    }
  }

  lemma ComparativeMeaning(le: Collation, c: Comparative, d: Comparative)
    requires ValidEntries(c.balance.entries) && ValidEntries(d.balance.entries)
    ensures SameFieldMeanings(ComparativeFields(le, c), ComparativeFields(le, d)) <==>
            ComparativePartOf(le, c) == ComparativePartOf(le, d)
  {
    BalanceMeaning(le, c.balance, d.balance);
    var us, vs := ComparativeFields(le, c), ComparativeFields(le, d);
    assert us[3..] == BalanceFields(le, c.balance) && vs[3..] == BalanceFields(le, d.balance);
    if SameFieldMeanings(us, vs) {
      assert Denote(EXACT, us[0]) == Denote(EXACT, vs[0]);
      assert Denote(EXACT, us[1]) == Denote(EXACT, vs[1]);
      assert Denote(EXACT, us[2]) == Denote(EXACT, vs[2]);
      forall i | 0 <= i < 3 ensures Denote(EXACT, us[3..][i]) == Denote(EXACT, vs[3..][i]) {
        assert Denote(EXACT, us[3 + i]) == Denote(EXACT, vs[3 + i]);
      }
      assert SameFieldMeanings(us[3..], vs[3..]);
    }
    if ComparativePartOf(le, c) == ComparativePartOf(le, d) {
      forall i | 0 <= i < |us| ensures Denote(EXACT, us[i]) == Denote(EXACT, vs[i]) {
        if i >= 3 {
          assert us[i] == us[3..][i - 3] && vs[i] == vs[3..][i - 3];
        }
      }
    }
  }

  lemma ComparativeValues(le: Collation, c: Comparative)
    requires ValidEntries(c.balance.entries)
    ensures FieldValues(ComparativeFields(le, c))
  {
    BalanceMeaning(le, c.balance, c.balance);
    var us := ComparativeFields(le, c);
    assert us[3..] == BalanceFields(le, c.balance);
    forall i | 0 <= i < |us| ensures us[i].Undefined? || Valid(us[i]) {
      if i >= 3 {
        assert us[i] == us[3..][i - 3];
      }
    }
  }

  lemma LineValid(l: GLLine)
    requires ValidLine(l)
    ensures Valid(LineJson(l))
  {
    LiteralKeys();
    if l.number.Some? {
      IntTextIsNumber(l.number.value);
    }
    RecordValid(LINE_KEYS, LineFields(l));
  }

  lemma IntTextIsNumber(n: int)
    ensures NumberText(IntText(n))
  {
  }

  lemma GLValid(g: GLEntry)
    requires forall j | 0 <= j < |g.lines| :: ValidLine(g.lines[j])
    ensures Valid(GLJson(g))
  {
    LiteralKeys();
    forall j | 0 <= j < |g.lines| ensures Valid(Map(LineJson, g.lines)[j]) {
      LineValid(g.lines[j]);
    }
    RecordValid(GL_KEYS, GLFields(g));
  }

  lemma LedgerValid(le: Collation, gs: seq<GLEntry>)
    requires ValidLedger(gs)
    ensures |SortLedger(le, gs)| == |gs|
    ensures Valid(Arr(Map(GLJson, SortLedger(le, gs))))
  {
    SortMultiset(LedgerLe(le), gs);
    var s := Sort(LedgerLe(le), gs);
    forall i | 0 <= i < |s| ensures Valid(GLJson(SortLines(s[i]))) {
      InSort(LedgerLe(le), gs, s[i]);
      assert s[i] in s;
      var j :| 0 <= j < |gs| && gs[j] == s[i];
      var ls := SortLines(s[i]).lines;
      forall n | 0 <= n < |ls| ensures ValidLine(ls[n]) {
        InSort(LINE_LE, s[i].lines, ls[n]);
        assert ls[n] in ls;
      }
      GLValid(SortLines(s[i]));
    }
  }

  // ---------------------------------------------------------------------
  // The whole hash input

  lemma ManifestValid(p: Payload)
    requires ValidPayload(p)
    ensures Valid(Manifest(p))
  {
    assert Valid(Arr([]));
  }

  lemma TopValid(le: Collation, version: MoneyVersion, p: Payload)
    requires ValidPayload(p)
    ensures Valid(HashInput(le, version, p))
  {
    LiteralKeys();
    BalanceMeaning(le, p.trialBalance, p.trialBalance);
    RecordValid(BALANCE_KEYS, BalanceFields(le, p.trialBalance));
    RowsValid(le, Listed(p.entries));
    ManifestValid(p);
    LedgerValid(le, Listed(p.generalLedger));
    if p.comparative.Some? {
      ComparativeValues(le, p.comparative.value);
      RecordValid(COMPARATIVE_KEYS, ComparativeFields(le, p.comparative.value));
    }
    if p.standard.Some? {
      RecordValid(["standard"], [Str(p.standard.value)]);
    }
    RecordValid(TOP_KEYS, TopFields(le, version, p));
  }

  lemma EntriesFieldMeaning(le: Collation, version: MoneyVersion, p: Payload, q: Payload)
    requires ValidPayload(p) && ValidPayload(q)
    ensures Denote(EXACT, EntriesField(le, p)) == Denote(EXACT, EntriesField(le, q)) <==>
            PartsOf(le, version, p).entries == PartsOf(le, version, q).entries
  {
    var es, fs := Listed(p.entries), Listed(q.entries);
    SortEntriesValid(le, es);
    SortEntriesValid(le, fs);
    RowsMeaning(SortEntries(le, es), SortEntries(le, fs));
    assert |SortedRows(le, es)| == |es| && |SortedRows(le, fs)| == |fs|;
  }

  lemma LedgerFieldMeaning(le: Collation, version: MoneyVersion, p: Payload, q: Payload)
    requires ValidPayload(p) && ValidPayload(q)
    ensures Denote(EXACT, LedgerField(le, version, p)) == Denote(EXACT, LedgerField(le, version, q)) <==>
            PartsOf(le, version, p).ledger == PartsOf(le, version, q).ledger
  {
    var gs, hs := Listed(p.generalLedger), Listed(q.generalLedger);
    LedgerValid(le, gs);
    LedgerValid(le, hs);
    LedgerMeaning(SortLedger(le, gs), SortLedger(le, hs));
  }

  lemma ComparativeFieldMeaning(le: Collation, version: MoneyVersion, p: Payload, q: Payload)
    requires ValidPayload(p) && ValidPayload(q)
    ensures Denote(EXACT, ComparativeField(le, version, p)) == Denote(EXACT, ComparativeField(le, version, q)) <==>
            PartsOf(le, version, p).comparative == PartsOf(le, version, q).comparative
  {
    if p.comparative.Some? && q.comparative.Some? {
      ComparativeRecordMeaning(le, p.comparative.value, q.comparative.value);
    }
  }

  lemma ComparativeRecordMeaning(le: Collation, c: Comparative, d: Comparative)
    requires ValidEntries(c.balance.entries) && ValidEntries(d.balance.entries)
    ensures (Denote(EXACT, Record(COMPARATIVE_KEYS, ComparativeFields(le, c))) ==
             Denote(EXACT, Record(COMPARATIVE_KEYS, ComparativeFields(le, d))))
            <==> ComparativePartOf(le, c) == ComparativePartOf(le, d)
  {
    LiteralKeys();
    ComparativeMeaning(le, c, d);
    RecordMeaning(COMPARATIVE_KEYS, ComparativeFields(le, c), ComparativeFields(le, d));
  }

  lemma StandardFieldMeaning(le: Collation, version: MoneyVersion, p: Payload, q: Payload)
    ensures Denote(EXACT, StandardField(version, p)) == Denote(EXACT, StandardField(version, q)) <==>
            PartsOf(le, version, p).standard == PartsOf(le, version, q).standard
  {
    if p.standard.Some? && q.standard.Some? {
      StandardRecordMeaning(p.standard.value, q.standard.value);
    }
  }

  lemma StandardRecordMeaning(a: string, b: string)
    ensures Denote(EXACT, Record(["standard"], [Str(a)])) == Denote(EXACT, Record(["standard"], [Str(b)])) <==> a == b
  {
    LiteralKeys();
    RecordMeaning(["standard"], [Str(a)], [Str(b)]);
    assert SameFieldMeanings([Str(a)], [Str(b)]) ==> Denote(EXACT, [Str(a)][0]) == Denote(EXACT, [Str(b)][0]);
  }

  lemma BalanceRecordMeaning(le: Collation, a: Balance, b: Balance)
    requires ValidEntries(a.entries) && ValidEntries(b.entries)
    ensures (Denote(EXACT, Record(BALANCE_KEYS, BalanceFields(le, a))) ==
             Denote(EXACT, Record(BALANCE_KEYS, BalanceFields(le, b))))
            <==> BalancePartOf(le, a) == BalancePartOf(le, b)
  {
    LiteralKeys();
    BalanceMeaning(le, a, b);
    RecordMeaning(BALANCE_KEYS, BalanceFields(le, a), BalanceFields(le, b));
  }

  lemma ManifestFieldMeaning(le: Collation, version: MoneyVersion, p: Payload, q: Payload)
    requires ValidPayload(p) && ValidPayload(q)
    ensures Denote(EXACT, ManifestField(version, p)) == Denote(EXACT, ManifestField(version, q)) <==>
            PartsOf(le, version, p).manifest == PartsOf(le, version, q).manifest
  {
    ManifestValid(p);
    ManifestValid(q);
    JsonMeaning(Manifest(p), Manifest(q));
  }

  lemma PartsMeaning(le: Collation, version: MoneyVersion, p: Payload, q: Payload)
    requires ValidPayload(p) && ValidPayload(q)
    ensures SameFieldMeanings(TopFields(le, version, p), TopFields(le, version, q)) <==>
            PartsOf(le, version, p) == PartsOf(le, version, q)
  {
    BalanceRecordMeaning(le, p.trialBalance, q.trialBalance);
    EntriesFieldMeaning(le, version, p, q);
    ManifestFieldMeaning(le, version, p, q);
    LedgerFieldMeaning(le, version, p, q);
    ComparativeFieldMeaning(le, version, p, q);
    StandardFieldMeaning(le, version, p, q);
    TopFieldsAt(le, version, p);
    TopFieldsAt(le, version, q);
    CombineFields(TopFields(le, version, p), TopFields(le, version, q), PartsOf(le, version, p), PartsOf(le, version, q));
  }

  lemma TopFieldsAt(le: Collation, version: MoneyVersion, p: Payload)
    ensures var vs := TopFields(le, version, p);
            && vs[0] == Str("v1") && vs[1] == Record(BALANCE_KEYS, BalanceFields(le, p.trialBalance))
            && vs[2] == EntriesField(le, p) && vs[3] == ManifestField(version, p) && vs[4] == LedgerField(le, version, p)
            && vs[5] == ComparativeField(le, version, p) && vs[6] == StandardField(version, p)
  {
  }

  lemma CombineFields(us: seq<Json>, vs: seq<Json>, p: Parts, q: Parts)
    requires |us| == |vs| == 7 && us[0] == vs[0]
    requires Denote(EXACT, us[1]) == Denote(EXACT, vs[1]) <==> p.balance == q.balance
    requires Denote(EXACT, us[2]) == Denote(EXACT, vs[2]) <==> p.entries == q.entries
    requires Denote(EXACT, us[3]) == Denote(EXACT, vs[3]) <==> p.manifest == q.manifest
    requires Denote(EXACT, us[4]) == Denote(EXACT, vs[4]) <==> p.ledger == q.ledger
    requires Denote(EXACT, us[5]) == Denote(EXACT, vs[5]) <==> p.comparative == q.comparative
    requires Denote(EXACT, us[6]) == Denote(EXACT, vs[6]) <==> p.standard == q.standard
    ensures SameFieldMeanings(us, vs) <==> p == q
  {
  }

  /** Equal hashed texts mean exactly equal sorted parts. */
  lemma TextIsParts(le: Collation, version: MoneyVersion, p: Payload, q: Payload)
    requires ValidPayload(p) && ValidPayload(q)
    ensures HashText(le, version, p) == HashText(le, version, q) <==>
            PartsOf(le, version, p) == PartsOf(le, version, q)
  {
    TopValid(le, version, p);
    TopValid(le, version, q);
    KeysOnlyComplete(HashInput(le, version, p), HashInput(le, version, q));
    LiteralKeys();
    RecordMeaning(TOP_KEYS, TopFields(le, version, p), TopFields(le, version, q));
    PartsMeaning(le, version, p, q);
  }
}
