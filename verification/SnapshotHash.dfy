/** The text that is hashed for a certified ledger snapshot, and exactly what it identifies. */
module SnapshotHash {
  import opened Wrappers
  import opened Ordering
  import opened Text
  import opened Cents
  import opened JsonText
  import opened CanonicalJson
  import opened LegacyJson

  // ---------------------------------------------------------------------
  // Payloads

  /** An amount as found in a payload: absent or blank, not a finite number, or a number. */
  datatype Amount = Missing | NotFinite | Finite(value: real)

  /** `normalizeMoney`, as cents. */
  function CentsOf(a: Amount): int {
    match a
    case Missing => 0
    case NotFinite => 0
    case Finite(x) => Round2(x)
  }

  /** The hash versions that use canonical money: all but 1, whose input is built another way. */
  type MoneyVersion = v: int | v != 1 witness 2

  /** One ledger line. `None` stands for a null or undefined field. */
  datatype Entry = Entry(
    accountName: Option<string>,
    debit: Amount,
    credit: Amount,
    lineId: Option<string>,
    accountCode: Option<string>,
    accountType: Option<string>,
    description: Option<string>,
    provenance: Option<Json>
  )

  datatype Balance = Balance(entries: seq<Entry>, totalDebits: Amount, totalCredits: Amount)

  datatype GLLine = GLLine(number: Option<int>, account: string, debit: string, credit: string, description: Option<string>)

  datatype GLEntry = GLEntry(id: string, date: string, description: Option<string>, lines: seq<GLLine>)

  datatype Comparative = Comparative(periodLabel: string, snapshotId: string, snapshotHash: string, balance: Balance)

  datatype Payload = Payload(
    trialBalance: Balance,
    entries: Option<seq<Entry>>,
    manifest: Option<Json>,
    generalLedger: Option<seq<GLEntry>>,
    comparative: Option<Comparative>,
    standard: Option<string>
  )

  ghost predicate ValidEntry(e: Entry) {
    e.provenance.Some? ==> Valid(e.provenance.value)
  }

  ghost predicate ValidEntries(es: seq<Entry>) {
    forall i | 0 <= i < |es| :: ValidEntry(es[i])
  }

  predicate ValidLine(l: GLLine) {
    NumberText(l.debit) && NumberText(l.credit)
  }

  predicate ValidLedger(gs: seq<GLEntry>) {
    forall i | 0 <= i < |gs| :: forall j | 0 <= j < |gs[i].lines| :: ValidLine(gs[i].lines[j])
  }

  ghost predicate ValidPayload(p: Payload) {
    && ValidEntries(p.trialBalance.entries)
    && ValidEntries(Listed(p.entries))
    && ValidLedger(Listed(p.generalLedger))
    && (p.manifest.Some? ==> Valid(p.manifest.value))
    && (p.comparative.Some? ==> ValidEntries(p.comparative.value.balance.entries))
  }

  function Listed<T>(o: Option<seq<T>>): seq<T> {
    if o.Some? then o.value else []
  }

  // ---------------------------------------------------------------------
  // Sorting

  function Text0(o: Option<string>): string {
    if o.Some? then o.value else ""
  }

  /** `entrySortKey`. */
  function SortKey(le: Collation, e: Entry): string {
    Join('\0', [
      Text0(e.accountName), MoneyText(CentsOf(e.debit)), MoneyText(CentsOf(e.credit)),
      Text0(e.lineId), Text0(e.accountCode), Text0(e.description),
      if e.provenance.Some? then LegacyText(le, e.provenance.value) else ""
    ])
  }

  function EntryLe(le: Collation): (Entry, Entry) -> bool {
    (a: Entry, b: Entry) => le(SortKey(le, a), SortKey(le, b))
  }

  function SortEntries(le: Collation, es: seq<Entry>): seq<Entry> {
    Sort(EntryLe(le), es)
  }

  function LineNumber(l: GLLine): int {
    if l.number.Some? then l.number.value else 0
  }

  const LINE_LE: (GLLine, GLLine) -> bool := (a: GLLine, b: GLLine) => LineNumber(a) <= LineNumber(b)

  function SortLines(g: GLEntry): GLEntry {
    g.(lines := Sort(LINE_LE, g.lines))
  }

  function LedgerLe(le: Collation): (GLEntry, GLEntry) -> bool {
    (a: GLEntry, b: GLEntry) => le(a.id, b.id)
  }

  /** `sortGLEntries`. */
  function SortLedger(le: Collation, gs: seq<GLEntry>): seq<GLEntry> {
    Map(SortLines, Sort(LedgerLe(le), gs))
  }

  // ---------------------------------------------------------------------
  // The object that is serialised. A field that is never assigned holds `Undefined`.

  function OptStr(o: Option<string>): Json {
    if o.Some? then Str(o.value) else Undefined
  }

  function NonEmpty(o: Option<string>): Option<string> {
    if o == Some("") then None else o
  }

  function Record(ks: seq<string>, vs: seq<Json>): Json
    requires |ks| == |vs|
  {
    Obj(seq(|ks|, i requires 0 <= i < |ks| => Member(ks[i], vs[i])))
  }

  function Money(a: Amount): Json {
    Str(MoneyText(CentsOf(a)))
  }

  const ROW_KEYS := ["accountName", "debit", "credit", "lineId", "accountCode", "description", "amountProvenance"]

  function RowFields(e: Entry): (r: seq<Json>)
    ensures |r| == |ROW_KEYS|
  {
    [
      Str(Text0(e.accountName)), Money(e.debit), Money(e.credit), OptStr(NonEmpty(e.lineId)),
      OptStr(e.accountCode), OptStr(NonEmpty(e.description)),
      if e.provenance.Some? then e.provenance.value else Undefined
    ]
  }

  /** `mapEntry`. */
  function RowJson(e: Entry): Json {
    Record(ROW_KEYS, RowFields(e))
  }

  const BALANCE_KEYS := ["entries", "totalDebits", "totalCredits"]

  function BalanceFields(le: Collation, b: Balance): (r: seq<Json>)
    ensures |r| == |BALANCE_KEYS|
  {
    [Arr(Map(RowJson, SortEntries(le, b.entries))), Money(b.totalDebits), Money(b.totalCredits)]
  }

  const LINE_KEYS := ["line_number", "account_code", "debit", "credit", "description"]

  function LineFields(l: GLLine): (r: seq<Json>)
    ensures |r| == |LINE_KEYS|
  {
    [
      if l.number.Some? then Num(IntText(l.number.value)) else Undefined,
      Str(l.account), Num(l.debit), Num(l.credit), OptStr(l.description)
    ]
  }

  function LineJson(l: GLLine): Json {
    Record(LINE_KEYS, LineFields(l))
  }

  const GL_KEYS := ["entry_id", "entry_date", "description", "lines"]

  function GLFields(g: GLEntry): (r: seq<Json>)
    ensures |r| == |GL_KEYS|
  {
    [Str(g.id), Str(g.date), OptStr(g.description), Arr(Map(LineJson, g.lines))]
  }

  function GLJson(g: GLEntry): Json {
    Record(GL_KEYS, GLFields(g))
  }

  const COMPARATIVE_KEYS :=
    ["periodLabel", "sourceSnapshotId", "sourceSnapshotHash", "entries", "totalDebits", "totalCredits"]

  function ComparativeFields(le: Collation, c: Comparative): (r: seq<Json>)
    ensures |r| == |COMPARATIVE_KEYS|
  {
    [Str(c.periodLabel), Str(c.snapshotId), Str(c.snapshotHash)] + BalanceFields(le, c.balance)
  }

  const TOP_KEYS :=
    ["hash_version", "trialBalance", "entries", "evidenceManifest", "generalLedger", "comparativeTrialBalance", "accountingContext"]

  const EMPTY_MANIFEST := Obj([Member("journalEntries", Arr([]))])

  function Manifest(p: Payload): Json {
    if p.manifest.Some? then p.manifest.value else EMPTY_MANIFEST
  }

  function EntriesField(le: Collation, p: Payload): Json {
    if Listed(p.entries) == [] then Undefined else Arr(Map(RowJson, SortEntries(le, p.entries.value)))
  }

  function ManifestField(version: MoneyVersion, p: Payload): Json {
    if version < 3 then Undefined else Manifest(p)
  }

  function LedgerField(le: Collation, version: MoneyVersion, p: Payload): Json {
    if version < 4 || Listed(p.generalLedger) == [] then Undefined
    else Arr(Map(GLJson, SortLedger(le, p.generalLedger.value)))
  }

  function ComparativeField(le: Collation, version: MoneyVersion, p: Payload): Json {
    if version < 5 || p.comparative.None? then Undefined
    else Record(COMPARATIVE_KEYS, ComparativeFields(le, p.comparative.value))
  }

  function StandardField(version: MoneyVersion, p: Payload): Json {
    if version < 5 || p.standard.None? then Undefined else Record(["standard"], [Str(p.standard.value)])
  }

  function TopFields(le: Collation, version: MoneyVersion, p: Payload): (r: seq<Json>)
    ensures |r| == |TOP_KEYS|
  {
    [
      Str("v1"), Record(BALANCE_KEYS, BalanceFields(le, p.trialBalance)), EntriesField(le, p),
      ManifestField(version, p), LedgerField(le, version, p), ComparativeField(le, version, p), StandardField(version, p)
    ]
  }

  function HashInput(le: Collation, version: MoneyVersion, p: Payload): Json {
    Record(TOP_KEYS, TopFields(le, version, p))
  }

  /** The text handed to SHA-256. */
  function HashText(le: Collation, version: MoneyVersion, p: Payload): string {
    KeysOnlyText(HashInput(le, version, p))
  }

  // ---------------------------------------------------------------------
  // What a version covers

  datatype Row = Row(
    accountName: string,
    debit: int,
    credit: int,
    lineId: Option<string>,
    accountCode: Option<string>,
    description: Option<string>,
    provenance: Option<Json>
  )

  function RowOf(e: Entry): Row {
    Row(Text0(e.accountName), CentsOf(e.debit), CentsOf(e.credit), NonEmpty(e.lineId), e.accountCode,
        NonEmpty(e.description), if e.provenance.Some? then Some(KeysOnly(e.provenance.value)) else None)
  }

  function Rows(es: seq<Entry>): seq<Row> {
    Map(RowOf, es)
  }

  function RowKey(le: Collation, r: Row): string {
    Join('\0', [
      r.accountName, MoneyText(r.debit), MoneyText(r.credit),
      Text0(r.lineId), Text0(r.accountCode), Text0(r.description),
      if r.provenance.Some? then LegacyText(le, r.provenance.value) else ""
    ])
  }

  function RowLe(le: Collation): (Row, Row) -> bool {
    (a: Row, b: Row) => le(RowKey(le, a), RowKey(le, b))
  }

  /** A general-ledger entry with its lines as a bag. */
  datatype GLRow = GLRow(id: string, date: string, description: Option<string>, lines: multiset<GLLine>)

  function GLRowOf(g: GLEntry): GLRow {
    GLRow(g.id, g.date, g.description, multiset(g.lines))
  }

  function GLRowLe(le: Collation): (GLRow, GLRow) -> bool {
    (a: GLRow, b: GLRow) => le(a.id, b.id)
  }

  datatype CoveredBalance = CoveredBalance(rows: multiset<Row>, debits: int, credits: int)

  function CoverBalance(b: Balance): CoveredBalance {
    CoveredBalance(multiset(Rows(b.entries)), CentsOf(b.totalDebits), CentsOf(b.totalCredits))
  }

  datatype CoveredComparative =
    CoveredComparative(periodLabel: string, snapshotId: string, snapshotHash: string, balance: CoveredBalance)

  datatype Covered = Covered(
    balance: CoveredBalance,
    entries: multiset<Row>,
    manifest: Option<Json>,
    ledger: multiset<GLRow>,
    comparative: Option<CoveredComparative>,
    standard: Option<string>
  )

  /** The fields a hash version answers for: lists as bags, money in cents, JSON up to key order. */
  function Cover(version: MoneyVersion, p: Payload): Covered {
    Covered(
      CoverBalance(p.trialBalance),
      multiset(Rows(Listed(p.entries))),
      if version < 3 then None else Some(KeysOnly(Manifest(p))),
      if version < 4 then multiset{} else multiset(Map(GLRowOf, Listed(p.generalLedger))),
      if version < 5 || p.comparative.None? then None
      else
        var c := p.comparative.value;
        Some(CoveredComparative(c.periodLabel, c.snapshotId, c.snapshotHash, CoverBalance(c.balance))),
      if version < 5 then None else p.standard
    )
  }
}
