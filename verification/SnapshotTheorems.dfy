/** Which payloads share a snapshot hash. */
module SnapshotTheorems {
  import opened Wrappers
  import opened Ordering
  import opened Text
  import opened Cents
  import opened JsonText
  import opened CanonicalJson
  import opened LegacyJson
  import opened SnapshotHash
  import opened SnapshotParts

  // ---------------------------------------------------------------------
  // Sorting entries is sorting rows

  lemma RowKeyIsSortKey(le: Collation, e: Entry)
    requires ValidEntry(e)
    ensures RowKey(le, RowOf(e)) == SortKey(le, e)
  {
    if e.provenance.Some? {
      LegacyOfKeysOnly(le, e.provenance.value);
    }
  }

  lemma SortedRowsAreSorted(le: Collation, es: seq<Entry>)
    requires ValidEntries(es)
    ensures SortedRows(le, es) == Sort(RowLe(le), Rows(es))
  {
    forall a, b | a in es && b in es ensures EntryLe(le)(a, b) == RowLe(le)(RowOf(a), RowOf(b)) {
      RowKeyIsSortKey(le, a);
      RowKeyIsSortKey(le, b);
    }
    SortMap(EntryLe(le), RowLe(le), RowOf, es);
  }

  lemma RowLeIsOrder(le: Collation)
    requires TotalPreorder(le)
    ensures TotalPreorder(RowLe(le))
  {
    var rle := RowLe(le);
    forall a, b, c | rle(a, b) && rle(b, c) ensures rle(a, c) {
      assert le(RowKey(le, a), RowKey(le, b)) && le(RowKey(le, b), RowKey(le, c));
    }
    forall a, b ensures rle(a, b) || rle(b, a) {
      assert le(RowKey(le, a), RowKey(le, b)) || le(RowKey(le, b), RowKey(le, a));
    }
  }

  lemma RowsForgetOrder(le: Collation, es: seq<Entry>, fs: seq<Entry>)
    requires TotalPreorder(le) && ValidEntries(es) && ValidEntries(fs)
    ensures SortedRows(le, es) == SortedRows(le, fs) ==> multiset(Rows(es)) == multiset(Rows(fs))
    ensures Separated(RowLe(le), Rows(es)) && multiset(Rows(es)) == multiset(Rows(fs)) ==>
              SortedRows(le, es) == SortedRows(le, fs)
  {
    RowLeIsOrder(le);
    SortedRowsAreSorted(le, es);
    SortedRowsAreSorted(le, fs);
    SortMultiset(RowLe(le), Rows(es));
    SortMultiset(RowLe(le), Rows(fs));
    if Separated(RowLe(le), Rows(es)) && multiset(Rows(es)) == multiset(Rows(fs)) {
      SortForgetsOrder(RowLe(le), Rows(es), Rows(fs));
    }
  }

  // ---------------------------------------------------------------------
  // Sorting the general ledger

  ghost predicate LinesSeparated(gs: seq<GLEntry>) {
    forall i | 0 <= i < |gs| :: Separated(LINE_LE, gs[i].lines)
  }

  ghost predicate LedgerSeparated(le: Collation, gs: seq<GLEntry>) {
    LinesSeparated(gs) && Separated(GLRowLe(le), Map(GLRowOf, gs))
  }

  lemma LineLeIsOrder()
    ensures TotalPreorder(LINE_LE)
  {
  }

  lemma LedgerLeIsOrder(le: Collation)
    requires TotalPreorder(le)
    ensures TotalPreorder(LedgerLe(le))
  {
    var gle := LedgerLe(le);
    forall a, b, c | gle(a, b) && gle(b, c) ensures gle(a, c) {
      assert le(a.id, b.id) && le(b.id, c.id);
    }
    forall a, b ensures gle(a, b) || gle(b, a) {
      assert le(a.id, b.id) || le(b.id, a.id);
    }
  }

  /** The entries with their lines sorted, in input order. */
  function Normal(gs: seq<GLEntry>): seq<GLEntry> {
    Map(SortLines, gs)
  }

  lemma SortedLedgerIsSorted(le: Collation, gs: seq<GLEntry>)
    ensures SortLedger(le, gs) == Sort(LedgerLe(le), Normal(gs))
  {
    SortMap(LedgerLe(le), LedgerLe(le), SortLines, gs);
  }

  lemma NormalRow(g: GLEntry)
    ensures GLRowOf(SortLines(g)) == GLRowOf(g)
  {
    SortMultiset(LINE_LE, g.lines);
  }

  lemma NormalRows(gs: seq<GLEntry>)
    ensures Map(GLRowOf, Normal(gs)) == Map(GLRowOf, gs)
  {
    forall i | 0 <= i < |gs| ensures Map(GLRowOf, Normal(gs))[i] == Map(GLRowOf, gs)[i] {
      NormalRow(gs[i]);
    }
  }

  lemma RowDeterminesNormal(g: GLEntry, h: GLEntry)
    requires Separated(LINE_LE, g.lines) && GLRowOf(g) == GLRowOf(h)
    ensures SortLines(g) == SortLines(h)
  {
    LineLeIsOrder();
    SortForgetsOrder(LINE_LE, g.lines, h.lines);
  }

  lemma LedgerSound(le: Collation, gs: seq<GLEntry>, hs: seq<GLEntry>)
    requires SortLedger(le, gs) == SortLedger(le, hs)
    ensures multiset(Normal(gs)) == multiset(Normal(hs))
    ensures multiset(Map(GLRowOf, gs)) == multiset(Map(GLRowOf, hs))
  {
    SortedLedgerIsSorted(le, gs);
    SortedLedgerIsSorted(le, hs);
    SortMultiset(LedgerLe(le), Normal(gs));
    SortMultiset(LedgerLe(le), Normal(hs));
    NormalRows(gs);
    NormalRows(hs);
    BagTransfer(Normal(gs), Map(GLRowOf, Normal(gs)), Normal(hs), Map(GLRowOf, Normal(hs)));
  }

  lemma LedgerForgetsOrder(le: Collation, gs: seq<GLEntry>, hs: seq<GLEntry>)
    requires TotalPreorder(le) && LedgerSeparated(le, gs)
    requires multiset(Map(GLRowOf, gs)) == multiset(Map(GLRowOf, hs))
    ensures SortLedger(le, gs) == SortLedger(le, hs)
  {
    var rs, ts := Map(GLRowOf, gs), Map(GLRowOf, hs);
    forall i, j | 0 <= i < |rs| && 0 <= j < |ts| && rs[i] == ts[j] ensures Normal(gs)[i] == Normal(hs)[j] {
      RowDeterminesNormal(gs[i], hs[j]);
    }
    BagTransfer(rs, Normal(gs), ts, Normal(hs));
    NormalSeparated(le, gs);
    LedgerLeIsOrder(le);
    SortForgetsOrder(LedgerLe(le), Normal(gs), Normal(hs));
    SortedLedgerIsSorted(le, gs);
    SortedLedgerIsSorted(le, hs);
  }

  lemma NormalSeparated(le: Collation, gs: seq<GLEntry>)
    requires LinesSeparated(gs)
    ensures Separated(LedgerLe(le), Normal(gs)) <==> Separated(GLRowLe(le), Map(GLRowOf, gs))
  {
    var ns, rs := Normal(gs), Map(GLRowOf, gs);
    if Separated(GLRowLe(le), rs) {
      forall i, j | 0 <= i < |ns| && 0 <= j < |ns| && Tied(LedgerLe(le), ns[i], ns[j]) ensures ns[i] == ns[j] {
        TiesAgree(le, gs, i, j);
        RowDeterminesNormal(gs[i], gs[j]);
      }
    }
    if Separated(LedgerLe(le), ns) {
      forall i, j | 0 <= i < |rs| && 0 <= j < |rs| && Tied(GLRowLe(le), rs[i], rs[j]) ensures rs[i] == rs[j] {
        TiesAgree(le, gs, i, j);
        NormalRow(gs[i]);
        NormalRow(gs[j]);
      }
    }
  }

  /** Entries and their rows are compared by the same id. */
  lemma TiesAgree(le: Collation, gs: seq<GLEntry>, i: nat, j: nat)
    requires i < |gs| && j < |gs|
    ensures Normal(gs)[i] == SortLines(gs[i]) && Normal(gs)[j] == SortLines(gs[j])
    ensures Map(GLRowOf, gs)[i] == GLRowOf(gs[i]) && Map(GLRowOf, gs)[j] == GLRowOf(gs[j])
    ensures Tied(LedgerLe(le), Normal(gs)[i], Normal(gs)[j]) <==> Tied(GLRowLe(le), Map(GLRowOf, gs)[i], Map(GLRowOf, gs)[j])
  {
    var a, b := SortLines(gs[i]), SortLines(gs[j]);
    var x, y := GLRowOf(gs[i]), GLRowOf(gs[j]);
    assert a.id == x.id && b.id == y.id;
    assert LedgerLe(le)(a, b) == GLRowLe(le)(x, y) && LedgerLe(le)(b, a) == GLRowLe(le)(y, x);
  }

  // ---------------------------------------------------------------------
  // The main results

  /** The guard a caller can evaluate: wherever a sort key ties, the tied lines serialise alike. */
  ghost predicate OrderFree(le: Collation, version: MoneyVersion, p: Payload) {
    && Separated(RowLe(le), Rows(p.trialBalance.entries))
    && Separated(RowLe(le), Rows(Listed(p.entries)))
    && (version >= 4 ==> LedgerSeparated(le, Listed(p.generalLedger)))
    && (version >= 5 && p.comparative.Some? ==> Separated(RowLe(le), Rows(p.comparative.value.balance.entries)))
  }

  /** Equal text means equal covered content, whatever the collation ties. */
  lemma HashSound(le: Collation, version: MoneyVersion, p: Payload, q: Payload)
    requires TotalPreorder(le) && ValidPayload(p) && ValidPayload(q)
    requires HashText(le, version, p) == HashText(le, version, q)
    ensures Cover(version, p) == Cover(version, q)
  {
    TextIsParts(le, version, p, q);
    RowsForgetOrder(le, p.trialBalance.entries, q.trialBalance.entries);
    RowsForgetOrder(le, Listed(p.entries), Listed(q.entries));
    if version >= 4 {
      LedgerSound(le, Listed(p.generalLedger), Listed(q.generalLedger));
    }
    if version >= 5 && p.comparative.Some? {
      RowsForgetOrder(le, p.comparative.value.balance.entries, q.comparative.value.balance.entries);
    }
  }

  lemma HashComplete(le: Collation, version: MoneyVersion, p: Payload, q: Payload)
    requires TotalPreorder(le) && ValidPayload(p) && ValidPayload(q)
    requires OrderFree(le, version, p)
    requires Cover(version, p) == Cover(version, q)
    ensures HashText(le, version, p) == HashText(le, version, q)
  {
    RowsForgetOrder(le, p.trialBalance.entries, q.trialBalance.entries);
    RowsForgetOrder(le, Listed(p.entries), Listed(q.entries));
    if version >= 4 {
      LedgerForgetsOrder(le, Listed(p.generalLedger), Listed(q.generalLedger));
    }
    if version >= 5 && p.comparative.Some? {
      RowsForgetOrder(le, p.comparative.value.balance.entries, q.comparative.value.balance.entries);
    }
    TextIsParts(le, version, p, q);
  }

  /**
   * Main result: when ties serialise alike, two payloads hash the same text exactly when
   * they agree on everything the version covers.
   */
  lemma HashIdentifiesContent(le: Collation, version: MoneyVersion, p: Payload, q: Payload)
    requires TotalPreorder(le) && ValidPayload(p) && ValidPayload(q)
    requires OrderFree(le, version, p)
    ensures HashText(le, version, p) == HashText(le, version, q) <==> Cover(version, p) == Cover(version, q)
  {
    if HashText(le, version, p) == HashText(le, version, q) {
      HashSound(le, version, p, q);
    }
    if Cover(version, p) == Cover(version, q) {
      HashComplete(le, version, p, q);
    }
  }

  // ---------------------------------------------------------------------
  // The guard is exact

  lemma RowsRememberOrder(le: Collation, es: seq<Entry>) returns (fs: seq<Entry>)
    requires TotalPreorder(le) && ValidEntries(es)
    requires !Separated(RowLe(le), Rows(es))
    ensures ValidEntries(fs) && multiset(fs) == multiset(es)
    ensures multiset(Rows(fs)) == multiset(Rows(es))
    ensures SortedRows(le, fs) != SortedRows(le, es)
  {
    RowLeIsOrder(le);
    var ys := TiesRememberOrder(RowLe(le), Rows(es));
    fs := RearrangeImages(RowOf, es, ys);
    forall i | 0 <= i < |fs| ensures ValidEntry(fs[i]) {
      SameElements(es, fs, fs[i]);
    }
    SortedRowsAreSorted(le, es);
    SortedRowsAreSorted(le, fs);
  }

  lemma LinesRememberOrder(le: Collation, gs: seq<GLEntry>) returns (hs: seq<GLEntry>)
    requires !LinesSeparated(gs) && ValidLedger(gs)
    ensures ValidLedger(hs) && multiset(Map(GLRowOf, hs)) == multiset(Map(GLRowOf, gs))
    ensures SortLedger(le, hs) != SortLedger(le, gs)
  {
    var i :| 0 <= i < |gs| && !Separated(LINE_LE, gs[i].lines);
    LineLeIsOrder();
    var ls := TiesRememberOrder(LINE_LE, gs[i].lines);
    hs := gs[i := gs[i].(lines := ls)];
    forall j | 0 <= j < |ls| ensures ValidLine(ls[j]) {
      SameElements(gs[i].lines, ls, ls[j]);
    }
    assert Map(GLRowOf, hs) == Map(GLRowOf, gs);
    assert Normal(hs) == Normal(gs)[i := SortLines(hs[i])];
    assert Normal(gs)[i] == SortLines(gs[i]) != SortLines(hs[i]);
    ChangedBag(Normal(gs), i, SortLines(hs[i]));
    if SortLedger(le, hs) == SortLedger(le, gs) {
      LedgerSound(le, hs, gs);
    }
  }

  lemma ChangedBag<T>(xs: seq<T>, i: nat, x: T)
    requires i < |xs| && xs[i] != x
    ensures multiset(xs[i := x]) != multiset(xs)
  {
    RemoveBag(xs, i);
    RemoveBag(xs[i := x], i);
    assert Without(xs, i) == Without(xs[i := x], i);
    assert multiset(xs)[x] == multiset(Without(xs, i))[x];
    assert multiset(xs[i := x])[x] == multiset(Without(xs, i))[x] + 1;
  }

  lemma IdsRememberOrder(le: Collation, gs: seq<GLEntry>) returns (hs: seq<GLEntry>)
    requires TotalPreorder(le) && ValidLedger(gs)
    requires LinesSeparated(gs) && !LedgerSeparated(le, gs)
    ensures ValidLedger(hs) && multiset(Map(GLRowOf, hs)) == multiset(Map(GLRowOf, gs))
    ensures SortLedger(le, hs) != SortLedger(le, gs)
  {
    NormalSeparated(le, gs);
    LedgerLeIsOrder(le);
    var ys := TiesRememberOrder(LedgerLe(le), Normal(gs));
    hs := RearrangeImages(SortLines, gs, ys);
    forall i | 0 <= i < |hs| ensures forall j | 0 <= j < |hs[i].lines| :: ValidLine(hs[i].lines[j]) {
      SameElements(gs, hs, hs[i]);
    }
    SortedLedgerIsSorted(le, gs);
    SortedLedgerIsSorted(le, hs);
    BagTransfer(hs, Map(GLRowOf, hs), gs, Map(GLRowOf, gs));
  }

  lemma LedgerRemembersOrder(le: Collation, gs: seq<GLEntry>) returns (hs: seq<GLEntry>)
    requires TotalPreorder(le) && ValidLedger(gs)
    requires !LedgerSeparated(le, gs)
    ensures ValidLedger(hs) && multiset(Map(GLRowOf, hs)) == multiset(Map(GLRowOf, gs))
    ensures SortLedger(le, hs) != SortLedger(le, gs)
  {
    if LinesSeparated(gs) {
      hs := IdsRememberOrder(le, gs);
    } else {
      hs := LinesRememberOrder(le, gs);
    }
  }

  lemma BalanceRemembersOrder(le: Collation, b: Balance) returns (c: Balance)
    requires TotalPreorder(le) && ValidEntries(b.entries)
    requires !Separated(RowLe(le), Rows(b.entries))
    ensures ValidEntries(c.entries) && CoverBalance(c) == CoverBalance(b)
    ensures BalancePartOf(le, c) != BalancePartOf(le, b)
  {
    var fs := RowsRememberOrder(le, b.entries);
    c := b.(entries := fs);
  }

  ghost predicate Rearranged(le: Collation, version: MoneyVersion, p: Payload, q: Payload) {
    ValidPayload(q) && Cover(version, q) == Cover(version, p) && PartsOf(le, version, q) != PartsOf(le, version, p)
  }

  lemma BalanceRearranged(le: Collation, version: MoneyVersion, p: Payload) returns (q: Payload)
    requires TotalPreorder(le) && ValidPayload(p)
    requires !Separated(RowLe(le), Rows(p.trialBalance.entries))
    ensures Rearranged(le, version, p, q)
  {
    var b := BalanceRemembersOrder(le, p.trialBalance);
    q := p.(trialBalance := b);
    assert Listed(q.entries) == Listed(p.entries) && Listed(q.generalLedger) == Listed(p.generalLedger);
  }

  lemma EntriesRearranged(le: Collation, version: MoneyVersion, p: Payload) returns (q: Payload)
    requires TotalPreorder(le) && ValidPayload(p)
    requires !Separated(RowLe(le), Rows(Listed(p.entries)))
    ensures Rearranged(le, version, p, q)
  {
    var fs := RowsRememberOrder(le, Listed(p.entries));
    q := p.(entries := Some(fs));
    assert Listed(q.entries) == fs && Listed(q.generalLedger) == Listed(p.generalLedger);
  }

  lemma LedgerRearranged(le: Collation, version: MoneyVersion, p: Payload) returns (q: Payload)
    requires TotalPreorder(le) && ValidPayload(p)
    requires version >= 4 && !LedgerSeparated(le, Listed(p.generalLedger))
    ensures Rearranged(le, version, p, q)
  {
    var hs := LedgerRemembersOrder(le, Listed(p.generalLedger));
    q := p.(generalLedger := Some(hs));
    assert Listed(q.entries) == Listed(p.entries) && Listed(q.generalLedger) == hs;
  }

  lemma ComparativeRearranged(le: Collation, version: MoneyVersion, p: Payload) returns (q: Payload)
    requires TotalPreorder(le) && ValidPayload(p)
    requires version >= 5 && p.comparative.Some?
    requires !Separated(RowLe(le), Rows(p.comparative.value.balance.entries))
    ensures Rearranged(le, version, p, q)
  {
    var c := p.comparative.value;
    var b := BalanceRemembersOrder(le, c.balance);
    q := p.(comparative := Some(c.(balance := b)));
    assert Listed(q.entries) == Listed(p.entries) && Listed(q.generalLedger) == Listed(p.generalLedger);
    assert PartsOf(le, version, q).comparative.value.balance == BalancePartOf(le, b);
  }

  /** Without the guard, some rearrangement with the same covered content hashes another text. */
  lemma HashRemembersOrder(le: Collation, version: MoneyVersion, p: Payload) returns (q: Payload)
    requires TotalPreorder(le) && ValidPayload(p)
    requires !OrderFree(le, version, p)
    ensures ValidPayload(q) && Cover(version, q) == Cover(version, p)
    ensures HashText(le, version, q) != HashText(le, version, p)
  {
    if !Separated(RowLe(le), Rows(p.trialBalance.entries)) {
      q := BalanceRearranged(le, version, p);
    } else if !Separated(RowLe(le), Rows(Listed(p.entries))) {
      q := EntriesRearranged(le, version, p);
    } else if version >= 4 && !LedgerSeparated(le, Listed(p.generalLedger)) {
      q := LedgerRearranged(le, version, p);
    } else {
      q := ComparativeRearranged(le, version, p);
    }
    TextIsParts(le, version, q, p);
  }

  /** The hash ignores the order of a payload's lines exactly when ties serialise alike. */
  lemma OrderFreeExactly(le: Collation, version: MoneyVersion, p: Payload)
    requires TotalPreorder(le) && ValidPayload(p)
    ensures OrderFree(le, version, p) <==>
            forall q | ValidPayload(q) && Cover(version, q) == Cover(version, p) ::
              HashText(le, version, q) == HashText(le, version, p)
  {
    if OrderFree(le, version, p) {
      forall q | ValidPayload(q) && Cover(version, q) == Cover(version, p)
        ensures HashText(le, version, q) == HashText(le, version, p)
      {
        HashComplete(le, version, p, q);
      }
    } else {
      var q := HashRemembersOrder(le, version, p);
    }
  }

  // ---------------------------------------------------------------------
  // When ties serialise alike

  const NUL := '\0'

  /** Text fields without NUL, no empty account code, and provenance without arrays. */
  ghost predicate PlainEntry(e: Entry) {
    && ValidEntry(e)
    && NUL !in Text0(e.accountName) && NUL !in Text0(e.lineId)
    && NUL !in Text0(e.accountCode) && NUL !in Text0(e.description)
    && e.accountCode != Some("")
    && (e.provenance.Some? ==> ArrayFree(e.provenance.value))
  }

  lemma {:induction false} EscapeHasNoNul(s: string)
    ensures NUL !in Escape(s)
  {
    if s == [] {
    } else {
      EscapeHasNoNul(s[1..]);
    }
  }

  lemma {:induction false} PrintHasNoNul(v: Json)
    requires Plain(v)
    ensures NUL !in Print(v) && Print(v) != ""
    decreases v, 0
  {
    match v
    case Str(s) => EscapeHasNoNul(s);
    case Arr(xs) => ItemsHaveNoNul(xs);
    case Obj(ms) => MembersHaveNoNul(ms);
    case _ =>
  }

  lemma {:induction false} ItemsHaveNoNul(xs: seq<Json>)
    requires forall i | 0 <= i < |xs| :: Plain(xs[i])
    ensures NUL !in PrintItems(xs)
    decreases xs, 1
  {
    if xs == [] {
    } else {
      PrintHasNoNul(xs[0]);
      ItemsHaveNoNul(xs[1..]);
    }
  }

  lemma {:induction false} MembersHaveNoNul(ms: seq<Member>)
    requires forall i | 0 <= i < |ms| :: Plain(ms[i].val)
    ensures NUL !in PrintMembers(ms)
    decreases ms, 1
  {
    if ms == [] {
    } else {
      EscapeHasNoNul(ms[0].key);
      PrintHasNoNul(ms[0].val);
      MembersHaveNoNul(ms[1..]);
    }
  }

  lemma MoneyHasNoNul(c: int)
    ensures NUL !in MoneyText(c)
  {
    if NUL in MoneyText(c) {
      MoneyTextChars(c, NUL);
    }
  }

  function ProvenanceText(le: Collation, e: Entry): string {
    if e.provenance.Some? then LegacyText(le, e.provenance.value) else ""
  }

  lemma ProvenanceHasNoNul(le: Collation, e: Entry)
    requires TotalPreorder(le) && ValidEntry(e)
    ensures NUL !in ProvenanceText(le, e)
    ensures e.provenance.Some? ==> ProvenanceText(le, e) != ""
  {
    if e.provenance.Some? {
      LegacyCanonical(le, e.provenance.value);
      CanonicalPlain(le, Legacy(le, e.provenance.value));
      PrintHasNoNul(Legacy(le, e.provenance.value));
    }
  }

  lemma SameProvenance(le: Collation, e: Entry, f: Entry)
    requires TotalPreorder(le) && PlainEntry(e) && PlainEntry(f)
    requires ProvenanceText(le, e) == ProvenanceText(le, f)
    ensures RowOf(e).provenance == RowOf(f).provenance
  {
    ProvenanceHasNoNul(le, e);
    ProvenanceHasNoNul(le, f);
    if e.provenance.Some? {
      var u, v := e.provenance.value, f.provenance.value;
      LegacyTextSound(le, u, v);
      LegacyWithoutArrays(le, u);
      LegacyWithoutArrays(le, v);
    }
  }

  function KeyParts(le: Collation, e: Entry): seq<string> {
    [
      Text0(e.accountName), MoneyText(CentsOf(e.debit)), MoneyText(CentsOf(e.credit)),
      Text0(e.lineId), Text0(e.accountCode), Text0(e.description), ProvenanceText(le, e)
    ]
  }

  /** For plain entries the sort key identifies the serialised row. */
  lemma SortKeyIdentifiesRow(le: Collation, e: Entry, f: Entry)
    requires TotalPreorder(le) && PlainEntry(e) && PlainEntry(f)
    requires SortKey(le, e) == SortKey(le, f)
    ensures RowOf(e) == RowOf(f)
  {
    var ps, qs := KeyParts(le, e), KeyParts(le, f);
    forall i | 0 <= i < |ps| ensures NUL !in ps[i] && NUL !in qs[i] {
      MoneyHasNoNul(CentsOf(e.debit));
      MoneyHasNoNul(CentsOf(e.credit));
      MoneyHasNoNul(CentsOf(f.debit));
      MoneyHasNoNul(CentsOf(f.credit));
      ProvenanceHasNoNul(le, e);
      ProvenanceHasNoNul(le, f);
    }
    assert Join(NUL, ps) == SortKey(le, e) && Join(NUL, qs) == SortKey(le, f);
    JoinInjective(NUL, ps, qs);
    assert ps[0] == qs[0] && ps[1] == qs[1] && ps[2] == qs[2] && ps[3] == qs[3];
    assert ps[4] == qs[4] && ps[5] == qs[5] && ps[6] == qs[6];
    MoneyTextInjective(CentsOf(e.debit), CentsOf(f.debit));
    MoneyTextInjective(CentsOf(e.credit), CentsOf(f.credit));
    SameProvenance(le, e, f);
  }

  lemma PlainEntriesSeparated(le: Collation, es: seq<Entry>)
    requires TotalPreorder(le) && Antisymmetric(le)
    requires forall i | 0 <= i < |es| :: PlainEntry(es[i])
    ensures Separated(RowLe(le), Rows(es))
  {
    var rs := Rows(es);
    forall i, j | 0 <= i < |rs| && 0 <= j < |rs| && Tied(RowLe(le), rs[i], rs[j]) ensures rs[i] == rs[j] {
      RowKeyIsSortKey(le, es[i]);
      RowKeyIsSortKey(le, es[j]);
      SortKeyIdentifiesRow(le, es[i], es[j]);
    }
  }

  /** Distinct line numbers within an entry and distinct entry ids. */
  ghost predicate Numbered(gs: seq<GLEntry>) {
    && (forall i, j | 0 <= i < j < |gs| :: gs[i].id != gs[j].id)
    && (forall i | 0 <= i < |gs| ::
          forall m, n | 0 <= m < n < |gs[i].lines| :: LineNumber(gs[i].lines[m]) != LineNumber(gs[i].lines[n]))
  }

  ghost predicate PlainEntries(es: seq<Entry>) {
    forall i | 0 <= i < |es| :: PlainEntry(es[i])
  }

  lemma NumberedSeparated(le: Collation, gs: seq<GLEntry>)
    requires Antisymmetric(le) && Numbered(gs)
    ensures LedgerSeparated(le, gs)
  {
    forall i | 0 <= i < |gs| ensures Separated(LINE_LE, gs[i].lines) {
      var ls := gs[i].lines;
      forall m, n | 0 <= m < |ls| && 0 <= n < |ls| && Tied(LINE_LE, ls[m], ls[n]) ensures ls[m] == ls[n] {
        assert LineNumber(ls[m]) == LineNumber(ls[n]);
      }
    }
    var rs := Map(GLRowOf, gs);
    forall i, j | 0 <= i < |rs| && 0 <= j < |rs| && Tied(GLRowLe(le), rs[i], rs[j]) ensures rs[i] == rs[j] {
      assert rs[i] == GLRowOf(gs[i]) && rs[j] == GLRowOf(gs[j]);
      assert rs[i].id == gs[i].id && rs[j].id == gs[j].id;
      assert GLRowLe(le)(rs[i], rs[j]) && GLRowLe(le)(rs[j], rs[i]);
      assert gs[i].id == gs[j].id;
    }
  }

  /** With a collation that ties only equal strings, ordinary payloads meet the guard. */
  lemma OrdinaryPayloadsOrderFree(le: Collation, version: MoneyVersion, p: Payload)
    requires TotalPreorder(le) && Antisymmetric(le)
    requires PlainEntries(p.trialBalance.entries) && PlainEntries(Listed(p.entries))
    requires Numbered(Listed(p.generalLedger))
    requires p.comparative.Some? ==> PlainEntries(p.comparative.value.balance.entries)
    ensures OrderFree(le, version, p)
  {
    PlainEntriesSeparated(le, p.trialBalance.entries);
    PlainEntriesSeparated(le, Listed(p.entries));
    NumberedSeparated(le, Listed(p.generalLedger));
    if p.comparative.Some? {
      PlainEntriesSeparated(le, p.comparative.value.balance.entries);
    }
  }

  /**
   * An empty account code and an absent one tie in the sort key but serialise differently: a
   * payload with two lines that differ only so has a rearrangement with the same covered content
   * and another text.
   */
  lemma EmptyCodeBreaksTheTie(le: Collation, version: MoneyVersion, p: Payload, i: nat, j: nat) returns (q: Payload)
    requires TotalPreorder(le) && ValidPayload(p)
    requires i < |p.trialBalance.entries| && j < |p.trialBalance.entries|
    requires p.trialBalance.entries[i].accountCode == Some("")
    requires p.trialBalance.entries[j] == p.trialBalance.entries[i].(accountCode := None)
    ensures ValidPayload(q) && Cover(version, q) == Cover(version, p) && HashText(le, version, q) != HashText(le, version, p)
  {
    EmptyCodeTies(le, p.trialBalance.entries, i, j);
    q := HashRemembersOrder(le, version, p);
  }

  lemma EmptyCodeTies(le: Collation, es: seq<Entry>, i: nat, j: nat)
    requires TotalPreorder(le) && i < |es| && j < |es|
    requires es[i].accountCode == Some("") && es[j] == es[i].(accountCode := None)
    ensures !Separated(RowLe(le), Rows(es))
  {
    var rs := Rows(es);
    assert rs[i] == RowOf(es[i]) && rs[j] == RowOf(es[j]);
    assert rs[i].accountCode == Some("") && rs[j].accountCode == None;
    assert RowKey(le, rs[i]) == RowKey(le, rs[j]);
    assert le(RowKey(le, rs[i]), RowKey(le, rs[i]));
    assert Tied(RowLe(le), rs[i], rs[j]);
  }

  /** The digest adds nothing and loses nothing, as long as the two texts do not collide. */
  lemma DigestIdentifiesContent(sha: string -> string, le: Collation, version: MoneyVersion, p: Payload, q: Payload)
    requires TotalPreorder(le) && ValidPayload(p) && ValidPayload(q)
    requires OrderFree(le, version, p)
    requires var x, y := HashText(le, version, p), HashText(le, version, q); sha(x) == sha(y) ==> x == y
    ensures sha(HashText(le, version, p)) == sha(HashText(le, version, q)) <==> Cover(version, p) == Cover(version, q)
  {
    HashIdentifiesContent(le, version, p, q);
  }
}
