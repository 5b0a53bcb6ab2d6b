/** What the hashed text of a snapshot says, member by member, under the names it is written with. */
module HashContents {
  import opened CanonicalJson
  import opened CanonicalShape
  import opened Cents
  import opened JsonText
  import opened LegacyJson
  import opened Ordering
  import opened SnapshotHash
  import opened SnapshotParts
  import opened Text
  import opened UnitOrder
  import opened Wrappers

  // ---------------------------------------------------------------------
  // Reading an object

  function Property(j: Json, k: string): Json {
    if j.Obj? && k in Keys(j.members) then j.members[IndexOf(j.members, k)].val else Undefined
  }

  /** An object with no member outside `ks`, and none twice. */
  ghost predicate Only(j: Json, ks: set<string>) {
    j.Obj? && DistinctKeys(j.members) && forall m <- j.members :: m.key in ks
  }

  // ---------------------------------------------------------------------
  // Numbers and amounts

  /** A missing amount, or one that is not a number, counts as zero. */
  ghost predicate AmountIs(a: Amount, c: int) {
    match a
    case Finite(x) => NearestCents(x, c)
    case _ => c == 0
  }

  ghost predicate Natural(t: string, n: int) {
    t != "" && DecimalDigits(t) && (t == "0" || t[0] != '0') && Decimal(t) == n
  }

  /** Sign, whole units, a point and two digits. */
  ghost predicate MoneyParts(t: string, c: int, whole: string, tens: char, ones: char) {
    && t == (if c < 0 then "-" else "") + whole + "." + [tens, ones]
    && '0' <= tens <= '9' && '0' <= ones <= '9'
    && Natural(whole, (if c < 0 then -c else c) / 100)
    && Decimal(whole) * 100 + Decimal([tens, ones]) == if c < 0 then -c else c
  }

  ghost predicate MoneyShown(t: string, c: int) {
    exists whole, tens, ones :: MoneyParts(t, c, whole, tens, ones)
  }

  ghost predicate ShowsCents(j: Json, a: Amount, c: int) {
    AmountIs(a, c) && j.Str? && MoneyShown(j.s, c)
  }

  ghost predicate ShowsAmount(j: Json, a: Amount) {
    exists c :: ShowsCents(j, a, c)
  }

  ghost predicate ShowsNumber(j: Json, n: int) {
    && j.Num?
    && if n < 0 then j.text != "" && j.text[0] == '-' && Natural(j.text[1..], -n) else Natural(j.text, n)
  }

  /** An absent text is an absent member. */
  predicate ShowsText(j: Json, o: Option<string>) {
    j == if o.Some? then Str(o.value) else Undefined
  }

  lemma NaturalText(n: nat)
    ensures Natural(NatText(n), n)
  {
    ValueIsDecimal(NatText(n));
    NoLeadingZero(n);
  }

  lemma {:induction false} NoLeadingZero(n: nat)
    ensures NatText(n) == "0" || NatText(n)[0] != '0'
    ensures n > 0 ==> NatText(n)[0] != '0'
  {
    if n >= 10 {
      NoLeadingZero(n / 10);
    }
  }

  lemma TwoDigits(a: char, b: char)
    requires IsDigit(a) && IsDigit(b)
    ensures Decimal([a, b]) == DigitValue(a) * 10 + DigitValue(b)
  {
    assert [a, b][..1] == [a] && [a][..0] == [];
    assert Decimal([a]) == DigitValue(a);
  }

  lemma MoneyTextShown(c: int)
    ensures MoneyShown(MoneyText(c), c)
  {
    var m := Abs(c);
    var tens, ones := Digit(m % 100 / 10), Digit(m % 10);
    NaturalText(m / 100);
    TwoDigits(tens, ones);
    assert m % 100 == m % 100 / 10 * 10 + m % 10;
    assert MoneyParts(MoneyText(c), c, NatText(m / 100), tens, ones);
  }

  lemma MoneyShows(a: Amount)
    ensures ShowsAmount(Money(a), a)
  {
    if a.Finite? {
      RoundedNearest(a.value);
    }
    MoneyTextShown(CentsOf(a));
    assert ShowsCents(Money(a), a, CentsOf(a));
  }

  lemma IntShows(n: int)
    ensures ShowsNumber(Num(IntText(n)), n)
  {
    NaturalText(if n < 0 then -n else n);
  }

  // ---------------------------------------------------------------------
  // Records, canonicalised

  lemma RecordSays(ks: seq<string>, vs: seq<Json>, i: nat)
    requires |ks| == |vs| && RecordKeys(ks) && Valid(Record(ks, vs)) && i < |ks|
    ensures Property(KeysOnly(Record(ks, vs)), ks[i]) == if vs[i].Undefined? then Undefined else KeysOnly(vs[i])
  {
    PropLeIsOrder();
    var ms := Record(ks, vs).members;
    var r := KeysOnly(Record(ks, vs)).members;
    var order := SortedKept(PropLe, ms);
    SortedKeptSpec(PropLe, ms);
    assert Keys(r) == order;
    IndexOfDistinct(ms, i);
    if vs[i].Undefined? {
      forall h | 0 <= h < |ms| && Kept(false, ms[h]) ensures ms[h].key != ks[i] {
        assert h != i;
      }
    } else {
      assert Kept(false, ms[i]);
      var j := IndexOf(r, ks[i]);
      assert order[j] == ks[i];
    }
  }

  lemma RecordOnly(ks: seq<string>, vs: seq<Json>, names: set<string>)
    requires |ks| == |vs| && RecordKeys(ks) && Valid(Record(ks, vs)) && forall i | 0 <= i < |ks| :: ks[i] in names
    ensures Only(KeysOnly(Record(ks, vs)), names)
  {
    PropLeIsOrder();
    OrderKeysPlain(PropLe, Record(ks, vs));
    var ms := Record(ks, vs).members;
    var r := KeysOnly(Record(ks, vs)).members;
    assert Keys(r) == SortedKept(PropLe, ms) && Keys(ms) == ks;
    forall m | m in r ensures m.key in names {
      var j :| 0 <= j < |r| && r[j] == m;
      assert Keys(r)[j] in Keys(ms);
    }
  }

  // ---------------------------------------------------------------------
  // Trial balance lines

  ghost predicate ShowsJson(j: Json, o: Option<Json>) {
    match o
    case None => j == Undefined
    case Some(v) => CanonicalOf(true, v, j)
  }

  /** An empty text is left out where the code tests for it. */
  predicate ShowsNonEmpty(j: Json, o: Option<string>) {
    j == if o.Some? && o.value != "" then Str(o.value) else Undefined
  }

  ghost predicate ShowsEntry(j: Json, e: Entry) {
    && Only(j, {"accountName", "debit", "credit", "lineId", "accountCode", "description", "amountProvenance"})
    && Property(j, "accountName") == Str(if e.accountName.Some? then e.accountName.value else "")
    && ShowsAmount(Property(j, "debit"), e.debit)
    && ShowsAmount(Property(j, "credit"), e.credit)
    && ShowsNonEmpty(Property(j, "lineId"), e.lineId)
    && ShowsText(Property(j, "accountCode"), e.accountCode)
    && ShowsNonEmpty(Property(j, "description"), e.description)
    && ShowsJson(Property(j, "amountProvenance"), e.provenance)
  }

  lemma EntrySays(e: Entry)
    requires ValidEntry(e)
    ensures ShowsEntry(KeysOnly(RowJson(e)), e)
  {
    LiteralKeys();
    RowJsonValid(e);
    RecordOnly(ROW_KEYS, RowFields(e),
               {"accountName", "debit", "credit", "lineId", "accountCode", "description", "amountProvenance"});
    RowTexts(e);
    RowAmounts(e);
    RowProvenance(e);
  }

  lemma MoneyStays(a: Amount)
    ensures KeysOnly(Money(a)) == Money(a) && !Money(a).Undefined?
  {
  }

  lemma RowSays(e: Entry, i: nat)
    requires ValidEntry(e) && i < 7
    ensures Property(KeysOnly(RowJson(e)), ROW_KEYS[i]) ==
            if RowFields(e)[i].Undefined? then Undefined else KeysOnly(RowFields(e)[i])
  {
    LiteralKeys();
    RowJsonValid(e);
    RecordSays(ROW_KEYS, RowFields(e), i);
  }

  lemma AmountFields(e: Entry)
    ensures ROW_KEYS[1] == "debit" && ROW_KEYS[2] == "credit"
    ensures RowFields(e)[1] == Money(e.debit) && RowFields(e)[2] == Money(e.credit)
  {
  }

  lemma MoneyProperty(e: Entry, i: nat, a: Amount)
    requires ValidEntry(e) && i < 7 && RowFields(e)[i] == Money(a)
    ensures Property(KeysOnly(RowJson(e)), ROW_KEYS[i]) == Money(a)
  {
    RowSays(e, i);
    MoneyStays(a);
  }

  lemma RowAmounts(e: Entry)
    requires ValidEntry(e)
    ensures var j := KeysOnly(RowJson(e));
            ShowsAmount(Property(j, "debit"), e.debit) && ShowsAmount(Property(j, "credit"), e.credit)
  {
    AmountFields(e);
    MoneyProperty(e, 1, e.debit);
    MoneyProperty(e, 2, e.credit);
    MoneyShows(e.debit);
    MoneyShows(e.credit);
  }

  lemma RowProvenance(e: Entry)
    requires ValidEntry(e)
    ensures ShowsJson(Property(KeysOnly(RowJson(e)), "amountProvenance"), e.provenance)
  {
    RowSays(e, 6);
    if e.provenance.Some? {
      KeysOnlyExactly(e.provenance.value, KeysOnly(e.provenance.value));
    }
  }

  lemma RowTexts(e: Entry)
    requires ValidEntry(e)
    ensures var j := KeysOnly(RowJson(e));
            && Property(j, "accountName") == Str(if e.accountName.Some? then e.accountName.value else "")
            && ShowsNonEmpty(Property(j, "lineId"), e.lineId)
            && ShowsText(Property(j, "accountCode"), e.accountCode)
            && ShowsNonEmpty(Property(j, "description"), e.description)
  {
    RowSays(e, 0);
    RowSays(e, 3);
    RowSays(e, 4);
    RowSays(e, 5);
  }

  /** The seven parts of a sort key, between NULs. */
  ghost predicate KeyShown(le: Collation, e: Entry, key: string) {
    exists debit, credit :: KeyParts(le, e, key, debit, credit)
  }

  ghost predicate KeyParts(le: Collation, e: Entry, key: string, debit: string, credit: string) {
    && ShowsAmount(Str(debit), e.debit) && ShowsAmount(Str(credit), e.credit)
    && key == (if e.accountName.Some? then e.accountName.value else "") + "\0" + debit + "\0" + credit + "\0"
              + (if e.lineId.Some? then e.lineId.value else "") + "\0"
              + (if e.accountCode.Some? then e.accountCode.value else "") + "\0"
              + (if e.description.Some? then e.description.value else "") + "\0"
              + (if e.provenance.Some? then LegacyText(le, e.provenance.value) else "")
  }

  lemma {:induction false} JoinStep(sep: char, front: string, part: string, rest: seq<string>)
    requires rest != []
    ensures front + Join(sep, [part] + rest) == front + part + [sep] + Join(sep, rest)
  {
    assert ([part] + rest)[1..] == rest;
  }

  lemma JoinSeven(a: string, b: string, c: string, d: string, e: string, f: string, g: string)
    ensures Join('\0', [a, b, c, d, e, f, g]) ==
            a + "\0" + b + "\0" + c + "\0" + d + "\0" + e + "\0" + f + "\0" + g
  {
    assert [a, b, c, d, e, f, g] == [a] + [b, c, d, e, f, g];
    assert [b, c, d, e, f, g] == [b] + [c, d, e, f, g];
    assert [c, d, e, f, g] == [c] + [d, e, f, g];
    assert [d, e, f, g] == [d] + [e, f, g] && [e, f, g] == [e] + [f, g] && [f, g] == [f] + [g];
    JoinStep('\0', "", a, [b, c, d, e, f, g]);
    JoinStep('\0', a + "\0", b, [c, d, e, f, g]);
    JoinStep('\0', a + "\0" + b + "\0", c, [d, e, f, g]);
    JoinStep('\0', a + "\0" + b + "\0" + c + "\0", d, [e, f, g]);
    JoinStep('\0', a + "\0" + b + "\0" + c + "\0" + d + "\0", e, [f, g]);
    JoinStep('\0', a + "\0" + b + "\0" + c + "\0" + d + "\0" + e + "\0", f, [g]);
  }

  /** `entrySortKey` is the joined text. */
  lemma SortKeyShown(le: Collation, e: Entry)
    ensures KeyShown(le, e, SortKey(le, e))
  {
    var debit, credit := MoneyText(CentsOf(e.debit)), MoneyText(CentsOf(e.credit));
    MoneyShows(e.debit);
    MoneyShows(e.credit);
    JoinSeven(Text0(e.accountName), debit, credit, Text0(e.lineId), Text0(e.accountCode), Text0(e.description),
              if e.provenance.Some? then LegacyText(le, e.provenance.value) else "");
    assert KeyParts(le, e, SortKey(le, e), debit, credit);
  }

  // ---------------------------------------------------------------------
  // Sorted lists

  /** Equal under an order. */
  function TiedWith<T>(le: (T, T) -> bool, c: T): T -> bool {
    (y: T) => Tied(le, c, y)
  }

  /** A stable sort: a rearrangement in order, ties in their old order. */
  ghost predicate StablySorted<T(!new)>(le: (T, T) -> bool, xs: seq<T>, sorted: seq<T>) {
    && multiset(sorted) == multiset(xs)
    && (forall i, j | 0 <= i < j < |sorted| :: le(sorted[i], sorted[j]))
    && (forall c: T :: Filter(TiedWith(le, c), sorted) == Filter(TiedWith(le, c), xs))
  }

  lemma SortIsStable<T(!new)>(le: (T, T) -> bool, xs: seq<T>)
    requires TotalPreorder(le)
    ensures StablySorted(le, xs, Sort(le, xs)) && |Sort(le, xs)| == |xs|
  {
    SortMultiset(le, xs);
    SortSorted(le, xs);
    assert |multiset(Sort(le, xs))| == |multiset(xs)|;
    forall c: T ensures Filter(TiedWith(le, c), Sort(le, xs)) == Filter(TiedWith(le, c), xs) {
      SortStable(le, TiedWith(le, c), c, xs);
    }
  }

  /** The order of entries is the collation on their sort keys. */
  ghost predicate EntryOrder(le: Collation, ord: (Entry, Entry) -> bool) {
    forall a, b, s, t | KeyShown(le, a, s) && KeyShown(le, b, t) :: ord(a, b) <==> le(s, t)
  }

  lemma NaturalIsText(t: string, n: int)
    requires Natural(t, n)
    ensures n >= 0 && t == NatText(n)
  {
    ValueIsDecimal(t);
    NatTextOfValue(t);
  }

  lemma MoneyShownIsText(t: string, c: int)
    requires MoneyShown(t, c)
    ensures t == MoneyText(c)
  {
    var whole, tens, ones :| MoneyParts(t, c, whole, tens, ones);
    NaturalIsText(whole, Abs(c) / 100);
    TwoDigits(tens, ones);
    LastDigits(Abs(c), tens, ones);
  }

  lemma LastDigits(m: nat, tens: char, ones: char)
    requires IsDigit(tens) && IsDigit(ones) && m % 100 == DigitValue(tens) * 10 + DigitValue(ones)
    ensures Digit(m % 100 / 10) == tens && Digit(m % 10) == ones
  {
    LastTwo(m, m / 100, DigitValue(tens), DigitValue(ones));
    assert Digit(DigitValue(tens)) == tens && Digit(DigitValue(ones)) == ones;
  }

  lemma AmountTextUnique(a: Amount, t: string)
    requires ShowsAmount(Str(t), a)
    ensures t == MoneyText(CentsOf(a))
  {
    var c :| ShowsCents(Str(t), a, c);
    MoneyShownIsText(t, c);
    if a.Finite? {
      RoundedNearest(a.value);
      NearestUnique(a.value, c, Round2(a.value));
    }
  }

  lemma KeyUnique(le: Collation, e: Entry, key: string)
    requires KeyShown(le, e, key)
    ensures key == SortKey(le, e)
  {
    var debit, credit :| KeyParts(le, e, key, debit, credit);
    AmountTextUnique(e.debit, debit);
    AmountTextUnique(e.credit, credit);
    JoinSeven(Text0(e.accountName), debit, credit, Text0(e.lineId), Text0(e.accountCode), Text0(e.description),
              if e.provenance.Some? then LegacyText(le, e.provenance.value) else "");
  }

  lemma EntryLeIsOrder(le: Collation)
    ensures EntryOrder(le, EntryLe(le))
  {
    forall a, b, s, t | KeyShown(le, a, s) && KeyShown(le, b, t) ensures EntryLe(le)(a, b) <==> le(s, t) {
      KeyUnique(le, a, s);
      KeyUnique(le, b, t);
    }
  }

  ghost predicate ShowsInOrder(j: Json, es: seq<Entry>, ord: (Entry, Entry) -> bool, sorted: seq<Entry>) {
    && StablySorted(ord, es, sorted)
    && j.Arr? && |j.items| == |sorted| && forall i | 0 <= i < |sorted| :: ShowsEntry(j.items[i], sorted[i])
  }

  /** The array lists the entries, sorted. */
  ghost predicate ShowsEntries(le: Collation, j: Json, es: seq<Entry>) {
    exists ord, sorted :: EntryOrder(le, ord) && ShowsInOrder(j, es, ord, sorted)
  }

  lemma EntriesSay(le: Collation, es: seq<Entry>)
    requires TotalPreorder(le) && ValidEntries(es)
    ensures ShowsEntries(le, KeysOnly(Arr(Map(RowJson, SortEntries(le, es)))), es)
  {
    EntryLeIsOrder(le);
    EntryLePreorder(le);
    SortIsStable(EntryLe(le), es);
    SortEntriesValid(le, es);
    var sorted := SortEntries(le, es);
    forall i | 0 <= i < |sorted| ensures ShowsEntry(KeysOnly(RowJson(sorted[i])), sorted[i]) {
      EntrySays(sorted[i]);
    }
    assert ShowsInOrder(KeysOnly(Arr(Map(RowJson, sorted))), es, EntryLe(le), sorted);
  }

  lemma EntryLePreorder(le: Collation)
    requires TotalPreorder(le)
    ensures TotalPreorder(EntryLe(le))
  {
    var ord := EntryLe(le);
    forall a, b ensures ord(a, b) || ord(b, a) {
      assert le(SortKey(le, a), SortKey(le, b)) || le(SortKey(le, b), SortKey(le, a));
    }
    forall a, b, c | ord(a, b) && ord(b, c) ensures ord(a, c) {
      assert le(SortKey(le, a), SortKey(le, b)) && le(SortKey(le, b), SortKey(le, c));
    }
  }

  // ---------------------------------------------------------------------
  // Balances

  ghost predicate ShowsBalance(le: Collation, j: Json, b: Balance) {
    && ShowsEntries(le, Property(j, "entries"), b.entries)
    && ShowsAmount(Property(j, "totalDebits"), b.totalDebits)
    && ShowsAmount(Property(j, "totalCredits"), b.totalCredits)
  }

  lemma BalanceSays(le: Collation, b: Balance)
    requires TotalPreorder(le) && ValidEntries(b.entries)
    ensures var j := KeysOnly(Record(BALANCE_KEYS, BalanceFields(le, b)));
            ShowsBalance(le, j, b) && Only(j, {"entries", "totalDebits", "totalCredits"})
  {
    LiteralKeys();
    BalanceMeaning(le, b, b);
    var vs := BalanceFields(le, b);
    RecordValid(BALANCE_KEYS, vs);
    RecordOnly(BALANCE_KEYS, vs, {"entries", "totalDebits", "totalCredits"});
    EntriesSay(le, b.entries);
    MoneyShows(b.totalDebits);
    MoneyShows(b.totalCredits);
    RecordSays(BALANCE_KEYS, vs, 0);
    RecordSays(BALANCE_KEYS, vs, 1);
    RecordSays(BALANCE_KEYS, vs, 2);
  }

  ghost predicate ShowsComparative(le: Collation, j: Json, c: Comparative) {
    && Only(j, {"periodLabel", "sourceSnapshotId", "sourceSnapshotHash", "entries", "totalDebits", "totalCredits"})
    && Property(j, "periodLabel") == Str(c.periodLabel)
    && Property(j, "sourceSnapshotId") == Str(c.snapshotId)
    && Property(j, "sourceSnapshotHash") == Str(c.snapshotHash)
    && ShowsBalance(le, j, c.balance)
  }

  lemma ComparativeFieldsAre(le: Collation, c: Comparative)
    requires ValidEntries(c.balance.entries)
    ensures RecordKeys(COMPARATIVE_KEYS) && Valid(Record(COMPARATIVE_KEYS, ComparativeFields(le, c)))
    ensures ComparativeFields(le, c) ==
            [Str(c.periodLabel), Str(c.snapshotId), Str(c.snapshotHash), BalanceFields(le, c.balance)[0],
             Money(c.balance.totalDebits), Money(c.balance.totalCredits)]
  {
    LiteralKeys();
    BalanceMeaning(le, c.balance, c.balance);
    var vs := ComparativeFields(le, c);
    forall i | 0 <= i < |vs| ensures vs[i].Undefined? || Valid(vs[i]) {
      if i >= 3 {
        assert vs[i] == BalanceFields(le, c.balance)[i - 3];
      }
    }
    RecordValid(COMPARATIVE_KEYS, vs);
  }

  lemma ComparativeSays(le: Collation, c: Comparative)
    requires TotalPreorder(le) && ValidEntries(c.balance.entries)
    ensures ShowsComparative(le, KeysOnly(Record(COMPARATIVE_KEYS, ComparativeFields(le, c))), c)
  {
    ComparativeFieldsAre(le, c);
    var vs := ComparativeFields(le, c);
    RecordOnly(COMPARATIVE_KEYS, vs,
               {"periodLabel", "sourceSnapshotId", "sourceSnapshotHash", "entries", "totalDebits", "totalCredits"});
    RecordSays(COMPARATIVE_KEYS, vs, 0);
    RecordSays(COMPARATIVE_KEYS, vs, 1);
    RecordSays(COMPARATIVE_KEYS, vs, 2);
    ComparativeBalance(le, c);
  }

  lemma ComparativeBalance(le: Collation, c: Comparative)
    requires TotalPreorder(le) && ValidEntries(c.balance.entries)
    ensures ShowsBalance(le, KeysOnly(Record(COMPARATIVE_KEYS, ComparativeFields(le, c))), c.balance)
  {
    ComparativeFieldsAre(le, c);
    var vs := ComparativeFields(le, c);
    EntriesSay(le, c.balance.entries);
    MoneyShows(c.balance.totalDebits);
    MoneyShows(c.balance.totalCredits);
    RecordSays(COMPARATIVE_KEYS, vs, 3);
    RecordSays(COMPARATIVE_KEYS, vs, 4);
    RecordSays(COMPARATIVE_KEYS, vs, 5);
  }

  // ---------------------------------------------------------------------
  // The general ledger

  ghost predicate ShowsLine(j: Json, l: GLLine) {
    && Only(j, {"line_number", "account_code", "debit", "credit", "description"})
    && (if l.number.Some? then ShowsNumber(Property(j, "line_number"), l.number.value)
        else Property(j, "line_number") == Undefined)
    && Property(j, "account_code") == Str(l.account)
    && Property(j, "debit") == Num(l.debit) && Property(j, "credit") == Num(l.credit)
    && ShowsText(Property(j, "description"), l.description)
  }

  lemma LineSays(l: GLLine)
    requires ValidLine(l)
    ensures ShowsLine(KeysOnly(LineJson(l)), l)
  {
    LiteralKeys();
    LineValid(l);
    var vs := LineFields(l);
    RecordOnly(LINE_KEYS, vs, {"line_number", "account_code", "debit", "credit", "description"});
    RecordSays(LINE_KEYS, vs, 0);
    RecordSays(LINE_KEYS, vs, 1);
    RecordSays(LINE_KEYS, vs, 2);
    RecordSays(LINE_KEYS, vs, 3);
    RecordSays(LINE_KEYS, vs, 4);
    if l.number.Some? {
      IntShows(l.number.value);
    }
  }

  /** Lines go by number, a missing one counting as zero. */
  ghost predicate LineOrder(ord: (GLLine, GLLine) -> bool) {
    forall a, b :: ord(a, b) <==>
      (if a.number.Some? then a.number.value else 0) <= (if b.number.Some? then b.number.value else 0)
  }

  ghost predicate ShowsLinesInOrder(j: Json, ls: seq<GLLine>, ord: (GLLine, GLLine) -> bool, sorted: seq<GLLine>) {
    && StablySorted(ord, ls, sorted)
    && j.Arr? && |j.items| == |sorted| && forall i | 0 <= i < |sorted| :: ShowsLine(j.items[i], sorted[i])
  }

  ghost predicate ShowsLines(j: Json, ls: seq<GLLine>) {
    exists ord, sorted :: LineOrder(ord) && ShowsLinesInOrder(j, ls, ord, sorted)
  }

  ghost predicate ShowsLedgerEntry(j: Json, g: GLEntry) {
    && Only(j, {"entry_id", "entry_date", "description", "lines"})
    && Property(j, "entry_id") == Str(g.id) && Property(j, "entry_date") == Str(g.date)
    && ShowsText(Property(j, "description"), g.description)
    && ShowsLines(Property(j, "lines"), g.lines)
  }

  ghost predicate ValidLines(g: GLEntry) {
    forall j | 0 <= j < |g.lines| :: ValidLine(g.lines[j])
  }

  lemma SortedLinesValid(g: GLEntry)
    requires ValidLines(g)
    ensures ValidLines(SortLines(g))
  {
    var s := SortLines(g).lines;
    forall j | 0 <= j < |s| ensures ValidLine(s[j]) {
      InSort(LINE_LE, g.lines, s[j]);
    }
  }

  lemma LinesSay(g: GLEntry)
    requires ValidLines(g)
    ensures ShowsLines(KeysOnly(Arr(Map(LineJson, SortLines(g).lines))), g.lines)
  {
    SortIsStable(LINE_LE, g.lines);
    SortedLinesValid(g);
    var sorted := SortLines(g).lines;
    forall i | 0 <= i < |sorted| ensures ShowsLine(KeysOnly(LineJson(sorted[i])), sorted[i]) {
      LineSays(sorted[i]);
    }
    assert LineOrder(LINE_LE);
    assert ShowsLinesInOrder(KeysOnly(Arr(Map(LineJson, sorted))), g.lines, LINE_LE, sorted);
  }

  lemma LedgerEntrySays(g: GLEntry)
    requires ValidLines(g)
    ensures ShowsLedgerEntry(KeysOnly(GLJson(SortLines(g))), g)
  {
    LiteralKeys();
    SortedLinesValid(g);
    var h := SortLines(g);
    GLValid(h);
    var vs := GLFields(h);
    RecordOnly(GL_KEYS, vs, {"entry_id", "entry_date", "description", "lines"});
    LinesSay(g);
    RecordSays(GL_KEYS, vs, 0);
    RecordSays(GL_KEYS, vs, 1);
    RecordSays(GL_KEYS, vs, 2);
    RecordSays(GL_KEYS, vs, 3);
  }

  ghost predicate LedgerOrder(le: Collation, ord: (GLEntry, GLEntry) -> bool) {
    forall a, b :: ord(a, b) <==> le(a.id, b.id)
  }

  ghost predicate ShowsLedgerInOrder(j: Json, gs: seq<GLEntry>, ord: (GLEntry, GLEntry) -> bool, sorted: seq<GLEntry>) {
    && StablySorted(ord, gs, sorted)
    && j.Arr? && |j.items| == |sorted| && forall i | 0 <= i < |sorted| :: ShowsLedgerEntry(j.items[i], sorted[i])
  }

  ghost predicate ShowsLedger(le: Collation, j: Json, gs: seq<GLEntry>) {
    exists ord, sorted :: LedgerOrder(le, ord) && ShowsLedgerInOrder(j, gs, ord, sorted)
  }

  lemma LedgerPreorder(le: Collation)
    requires TotalPreorder(le)
    ensures TotalPreorder(LedgerLe(le)) && LedgerOrder(le, LedgerLe(le))
  {
    var ord := LedgerLe(le);
    forall a, b ensures ord(a, b) || ord(b, a) {
      assert le(a.id, b.id) || le(b.id, a.id);
    }
    forall a, b, c | ord(a, b) && ord(b, c) ensures ord(a, c) {
      assert le(a.id, b.id) && le(b.id, c.id);
    }
  }

  lemma LedgerSays(le: Collation, gs: seq<GLEntry>)
    requires TotalPreorder(le) && ValidLedger(gs)
    ensures ShowsLedger(le, KeysOnly(Arr(Map(GLJson, SortLedger(le, gs)))), gs)
  {
    LedgerPreorder(le);
    SortIsStable(LedgerLe(le), gs);
    var sorted := Sort(LedgerLe(le), gs);
    forall i | 0 <= i < |sorted| ensures ShowsLedgerEntry(KeysOnly(GLJson(SortLines(sorted[i]))), sorted[i]) {
      InSort(LedgerLe(le), gs, sorted[i]);
      assert ValidLines(sorted[i]);
      LedgerEntrySays(sorted[i]);
    }
    assert ShowsLedgerInOrder(KeysOnly(Arr(Map(GLJson, SortLedger(le, gs)))), gs, LedgerLe(le), sorted);
  }

  // ---------------------------------------------------------------------
  // The whole text

  /** The manifest, or one without entries. */
  ghost predicate ShowsManifest(j: Json, manifest: Option<Json>) {
    CanonicalOf(true, if manifest.Some? then manifest.value else Obj([Member("journalEntries", Arr([]))]), j)
  }

  ghost predicate ShowsContext(j: Json, standard: string) {
    Only(j, {"standard"}) && Property(j, "standard") == Str(standard)
  }

  /** What a version's text says of a payload. */
  ghost predicate ShowsPayload(le: Collation, version: MoneyVersion, p: Payload, j: Json) {
    && Only(j, {"hash_version", "trialBalance", "entries", "evidenceManifest", "generalLedger",
                "comparativeTrialBalance", "accountingContext"})
    && Property(j, "hash_version") == Str("v1")
    && Only(Property(j, "trialBalance"), {"entries", "totalDebits", "totalCredits"})
    && ShowsBalance(le, Property(j, "trialBalance"), p.trialBalance)
    && (if p.entries.Some? && p.entries.value != [] then ShowsEntries(le, Property(j, "entries"), p.entries.value)
        else Property(j, "entries") == Undefined)
    && (if version >= 3 then ShowsManifest(Property(j, "evidenceManifest"), p.manifest)
        else Property(j, "evidenceManifest") == Undefined)
    && (if version >= 4 && p.generalLedger.Some? && p.generalLedger.value != []
        then ShowsLedger(le, Property(j, "generalLedger"), p.generalLedger.value)
        else Property(j, "generalLedger") == Undefined)
    && (if version >= 5 && p.comparative.Some?
        then ShowsComparative(le, Property(j, "comparativeTrialBalance"), p.comparative.value)
        else Property(j, "comparativeTrialBalance") == Undefined)
    && (if version >= 5 && p.standard.Some? then ShowsContext(Property(j, "accountingContext"), p.standard.value)
        else Property(j, "accountingContext") == Undefined)
  }

  lemma TopSays(le: Collation, version: MoneyVersion, p: Payload)
    requires ValidPayload(p)
    ensures var j, vs := KeysOnly(HashInput(le, version, p)), TopFields(le, version, p);
            && Only(j, {"hash_version", "trialBalance", "entries", "evidenceManifest", "generalLedger",
                        "comparativeTrialBalance", "accountingContext"})
            && Property(j, "hash_version") == KeysOnly(vs[0])
            && Property(j, "trialBalance") == KeysOnly(vs[1])
            && Property(j, "entries") == KeysOnly(vs[2])
            && Property(j, "evidenceManifest") == KeysOnly(vs[3])
            && Property(j, "generalLedger") == KeysOnly(vs[4])
            && Property(j, "comparativeTrialBalance") == KeysOnly(vs[5])
            && Property(j, "accountingContext") == KeysOnly(vs[6])
  {
    LiteralKeys();
    TopValid(le, version, p);
    var vs := TopFields(le, version, p);
    RecordOnly(TOP_KEYS, vs, {"hash_version", "trialBalance", "entries", "evidenceManifest", "generalLedger",
                              "comparativeTrialBalance", "accountingContext"});
    RecordSays(TOP_KEYS, vs, 0);
    RecordSays(TOP_KEYS, vs, 1);
    RecordSays(TOP_KEYS, vs, 2);
    RecordSays(TOP_KEYS, vs, 3);
    RecordSays(TOP_KEYS, vs, 4);
    RecordSays(TOP_KEYS, vs, 5);
    RecordSays(TOP_KEYS, vs, 6);
  }

  lemma ManifestSays(p: Payload)
    requires ValidPayload(p)
    ensures ShowsManifest(KeysOnly(Manifest(p)), p.manifest)
  {
    ManifestValid(p);
    KeysOnlyExactly(Manifest(p), KeysOnly(Manifest(p)));
  }

  lemma ContextSays(standard: string)
    ensures ShowsContext(KeysOnly(Record(["standard"], [Str(standard)])), standard)
  {
    LiteralKeys();
    RecordValid(["standard"], [Str(standard)]);
    RecordOnly(["standard"], [Str(standard)], {"standard"});
    RecordSays(["standard"], [Str(standard)], 0);
  }

  /**
   * Main result: read back, the text of every version says exactly this of the payload, each
   * member under its own name.
   */
  lemma HashTextSays(le: Collation, version: MoneyVersion, p: Payload)
    requires TotalPreorder(le) && ValidPayload(p)
    ensures ShowsPayload(le, version, p, Parse(HashText(le, version, p)))
  {
    TopValid(le, version, p);
    KeysOnlyRoundTrip(HashInput(le, version, p));
    TopSays(le, version, p);
    TopFieldsAt(le, version, p);
    BalanceSays(le, p.trialBalance);
    EntriesSay(le, Listed(p.entries));
    ManifestSays(p);
    LedgerSays(le, Listed(p.generalLedger));
    ContextFieldsSay(le, version, p);
  }

  lemma ContextFieldsSay(le: Collation, version: MoneyVersion, p: Payload)
    requires TotalPreorder(le) && ValidPayload(p)
    ensures var j := KeysOnly(ComparativeField(le, version, p));
            if version >= 5 && p.comparative.Some? then ShowsComparative(le, j, p.comparative.value) else j == Undefined
    ensures var j := KeysOnly(StandardField(version, p));
            if version >= 5 && p.standard.Some? then ShowsContext(j, p.standard.value) else j == Undefined
  {
    if version >= 5 && p.comparative.Some? {
      ComparativeSays(le, p.comparative.value);
    }
    StandardSays(version, p);
  }

  lemma StandardSays(version: MoneyVersion, p: Payload)
    ensures var j := KeysOnly(StandardField(version, p));
            if version >= 5 && p.standard.Some? then ShowsContext(j, p.standard.value) else j == Undefined
  {
    if version >= 5 && p.standard.Some? {
      ContextSays(p.standard.value);
    }
  }
}
