/**
 * The command bridge, one step per database call. A command looks up what it touches, checks
 * the period lock, writes through a service and appends an audit event; any call may fail.
 */
module Bridge {
  import opened Cents
  import opened Text
  import opened Wrappers

  // ---------------------------------------------------------------------
  // Stored state

  /** Rows are kept per tenant. */
  datatype Key = Key(tenant: string, name: string)

  datatype Line = Line(account: string, code: Option<string>, debit: real, credit: real)

  datatype EntryStatus = Draft | Proposed | Approved | Posted | Rejected

  datatype Entry = Entry(session: string, status: EntryStatus, createdBy: string, approvedBy: Option<string>)

  datatype AdjustmentStatus = Pending | Accepted | Declined | Pushed

  datatype Adjustment = Adjustment(period: string, text: string, status: AdjustmentStatus)

  datatype Staged = Staged(kind: string, rows: Option<seq<Line>>, approvedBy: Option<string>)

  /** A `bridge_command` event of the audit ledger. */
  datatype Event = Event(tenant: string, period: Option<string>, command: Command, actor: string)

  datatype Ledger = Ledger(
    locks: map<Key, string>,
    books: map<Key, seq<Line>>,
    entries: map<Key, Entry>,
    adjustments: map<Key, Adjustment>,
    staging: map<Key, Staged>,
    log: seq<Event>
  )

  /** What commands read and never change: `sessions` gives each close session's period end. */
  datatype Config = Config(tolerance: real, sessions: map<Key, string>, sameUserApproves: bool)

  // ---------------------------------------------------------------------
  // Commands and results

  datatype Role = Preparer | Reviewer | Approver

  datatype Context = Context(tenant: string, actor: string, role: Option<Role>)

  datatype Command =
    | SaveTrialBalance(period: string, lines: seq<Line>, synced: bool, connection: string)
    | CreateDraftJE(session: string, memo: string, createdBy: Option<string>)
    | ProposeJE(entry: string)
    | ApproveJE(entry: string, approvedBy: string)
    | PostJE(entry: string)
    | ApplyHitlAdjustment(staged: string, period: string, lines: seq<Line>)
    | CreateAdjustments(period: string, suggestions: seq<string>, fromJE: bool)
    | UpdateAdjustment(adjustment: string, status: AdjustmentStatus)
    | LockPeriod(period: string, lockedBy: string)

  datatype Code =
    | InvalidCommand | PeriodLocked | Validation | Service
    | NotFound | InvalidStatus | Segregation | ShadowAuditBlock

  /** `Thrown`: the AI boundary assertion escapes to the caller. */
  datatype Result = Ok | Err(code: Code) | Thrown

  /** A write: `Refused` has no effect, `Broke` takes effect and then throws. */
  datatype Outcome = Went | Refused(code: Code) | Broke

  datatype Append = Acknowledged | ReplyLost | NotAppended

  /** Everything a command does not decide itself. */
  datatype Oracle = Oracle(
    inAi: bool,
    schemaOk: bool,
    lookupFails: bool,
    checkFails: bool,
    recheckFails: bool,
    lateFails: bool,
    markFails: bool,
    provenanceOk: bool,
    workflow: bool,
    parsed: Option<seq<Line>>,
    ids: seq<string>,
    writes: seq<Outcome>,
    append: Append
  )

  /** `Late`: the session read after an approval. `Mark`: the staging item's status. */
  datatype Pc = Start | Lookup | Check | Recheck | Write | Late | Mark | Audit | Done(result: Result)

  datatype Proc = Proc(
    ctx: Context,
    cmd: Command,
    o: Oracle,
    pc: Pc,
    period: Option<string>,
    rows: seq<Line>,
    writes: nat,
    appended: bool
  )

  function Begin(ctx: Context, cmd: Command, o: Oracle): Proc {
    Proc(ctx, cmd, o, Start, None, [], 0, false)
  }

  // ---------------------------------------------------------------------
  // Rules

  function Debits(ls: seq<Line>): real {
    if ls == [] then 0.0 else Debits(ls[..|ls| - 1]) + ls[|ls| - 1].debit
  }

  function Credits(ls: seq<Line>): real {
    if ls == [] then 0.0 else Credits(ls[..|ls| - 1]) + ls[|ls| - 1].credit
  }

  /** Rounded totals within the tolerance. */
  predicate Balanced(cfg: Config, ls: seq<Line>) {
    AbsReal((Round2(Debits(ls)) - Round2(Credits(ls))) as real / 100.0) <= cfg.tolerance
  }

  /** `toPeriodLabel`: the leading year and month of a date text. */
  function PeriodLabel(text: string): (r: Option<string>)
    ensures r.Some? ==> |r.value| == 7
  {
    var s := Trim(text);
    if |s| >= 7 && AllDigits(s[..4]) && s[4] == '-' && AllDigits(s[5..7]) then Some(s[..7]) else None
  }

  function SessionPeriod(cfg: Config, tenant: string, session: string): Option<string> {
    var k := Key(tenant, session);
    if k in cfg.sessions then PeriodLabel(cfg.sessions[k]) else None
  }

  predicate LinesOk(ls: seq<Line>) {
    ls != [] && forall l <- ls :: l.account != "" && l.debit >= 0.0 && l.credit >= 0.0
  }

  /** The schema: `schemaOk` stands for the types, enumerations and identifier formats. */
  predicate Parses(cmd: Command, o: Oracle) {
    && o.schemaOk
    && match cmd
       case SaveTrialBalance(p, ls, _, _) => p != "" && LinesOk(ls)
       case CreateDraftJE(_, memo, _) => |memo| >= 5
       case ApproveJE(_, who) => who != ""
       case ApplyHitlAdjustment(st, p, ls) => st != "" && p != "" && LinesOk(ls)
       case CreateAdjustments(p, ss, _) => p != "" && ss != []
       case UpdateAdjustment(a, _) => a != ""
       case LockPeriod(p, who) => p != "" && who != ""
       case _ => true
  }

  predicate MayLock(role: Option<Role>) {
    role == None || role == Some(Approver)
  }

  predicate MayDecide(role: Option<Role>, status: AdjustmentStatus) {
    status.Accepted? || status.Pushed? ==> role == Some(Approver)
  }

  // ---------------------------------------------------------------------
  // Steps of one command

  function End(p: Proc, r: Result): Proc {
    p.(pc := Done(r))
  }

  function At(p: Proc, name: string): Key {
    Key(p.ctx.tenant, name)
  }

  /** The steps a command can be at, and what it knows there. */
  predicate WellPlaced(p: Proc) {
    match p.pc
    case Start => p.writes == 0 && !p.appended
    case Lookup =>
      && (p.cmd.CreateDraftJE? || p.cmd.ProposeJE? || p.cmd.PostJE? || p.cmd.UpdateAdjustment? || p.cmd.ApplyHitlAdjustment?)
      && p.writes == 0 && !p.appended
    case Check => !p.cmd.LockPeriod? && !p.cmd.ApproveJE? && p.writes == 0 && !p.appended
    case Recheck => p.cmd.UpdateAdjustment? && p.writes == 0 && !p.appended
    case Write => (p.cmd.CreateAdjustments? || p.writes == 0) && !p.appended
    case Late => p.cmd.ApproveJE? && p.writes == 1 && !p.appended
    case Mark => p.cmd.ApplyHitlAdjustment? && p.writes == 1 && !p.appended
    case Audit => p.writes > 0 && !p.appended
    case Done(r) =>
      && (r.Ok? ==> p.appended)
      && (p.appended ==> p.writes > 0 && !p.o.append.NotAppended? && (r.Ok? <==> p.o.append.Acknowledged?))
  }

  /** `q` is the same command one step on. */
  predicate Follows(p: Proc, q: Proc) {
    q.ctx == p.ctx && q.cmd == p.cmd && q.o == p.o && q.pc != Start && WellPlaced(q)
  }

  /** The boundary assertion, the schema, and a lock's role check. */
  function OnStart(p: Proc): (q: Proc)
    requires WellPlaced(p) && p.pc.Start?
    ensures Follows(p, q) && !q.appended
  {
    if p.o.inAi then End(p, Thrown)
    else if !Parses(p.cmd, p.o) then End(p, Err(InvalidCommand))
    else match p.cmd
      case SaveTrialBalance(period, ls, _, _) => p.(pc := Check, period := Some(period), rows := ls)
      case ApplyHitlAdjustment(_, period, _) => p.(pc := Check, period := Some(period))
      case CreateAdjustments(period, _, _) => p.(pc := Check, period := Some(period))
      case LockPeriod(period, _) =>
        if MayLock(p.ctx.role) then p.(pc := Write, period := Some(period)) else End(p, Err(Validation))
      case ApproveJE(_, _) => p.(pc := Write)
      case _ => p.(pc := Lookup)
  }

  function OnLookup(cfg: Config, s: Ledger, p: Proc): (q: Proc)
    requires WellPlaced(p) && p.pc.Lookup?
    ensures Follows(p, q) && !q.appended
  {
    if p.o.lookupFails then End(p, Err(Service))
    else match p.cmd
      case CreateDraftJE(session, _, _) =>
        if At(p, session) !in cfg.sessions then End(p, Err(Validation))
        else
          var month := SessionPeriod(cfg, p.ctx.tenant, session);
          p.(pc := Check, period := if month.Some? then month else Some(""))
      case ProposeJE(id) => EntryFound(cfg, s, p, id)
      case PostJE(id) => EntryFound(cfg, s, p, id)
      case UpdateAdjustment(id, _) =>
        if At(p, id) !in s.adjustments then End(p, Err(Validation))
        else p.(pc := Check, period := Some(s.adjustments[At(p, id)].period))
      case ApplyHitlAdjustment(id, _, ls) => StagedFound(cfg, s, p, id, ls)
      case _ => p
  }

  /** Without a period label the lock check is skipped. */
  function EntryFound(cfg: Config, s: Ledger, p: Proc, id: string): Proc {
    if At(p, id) !in s.entries then End(p, Err(Validation))
    else
      var month := SessionPeriod(cfg, p.ctx.tenant, s.entries[At(p, id)].session);
      p.(pc := if month.Some? then Check else Write, period := month)
  }

  function StagedFound(cfg: Config, s: Ledger, p: Proc, id: string, ls: seq<Line>): Proc {
    if At(p, id) !in s.staging then End(p, Err(Validation))
    else
      var item := s.staging[At(p, id)];
      if item.kind != "trial_balance_ingest" || item.rows.None? then End(p, Err(Validation))
      else if p.o.parsed.None? then End(p, Err(Service))
      else if !Balanced(cfg, p.o.parsed.value + ls) then End(p, Err(Validation))
      else p.(pc := Write, rows := p.o.parsed.value + ls)
  }

  predicate Locked(s: Ledger, p: Proc) {
    p.period.Some? && At(p, p.period.value) in s.locks
  }

  /** `assertPeriodNotLocked`, then the checks that need no further read. */
  function OnCheck(cfg: Config, s: Ledger, p: Proc): (q: Proc)
    requires WellPlaced(p) && p.pc.Check?
    ensures Follows(p, q) && !q.appended
  {
    if p.o.checkFails then End(p, Err(Service))
    else if Locked(s, p) then End(p, Err(PeriodLocked))
    else match p.cmd
      case SaveTrialBalance(_, _, synced, connection) =>
        if !Balanced(cfg, p.rows) then End(p, Err(Validation))
        else if synced && Trim(connection) == "" then End(p, Err(Validation))
        else p.(pc := Write)
      case ApplyHitlAdjustment(_, _, _) => p.(pc := Lookup)
      case CreateAdjustments(_, _, fromJE) =>
        if fromJE && !p.o.provenanceOk then End(p, Err(Validation)) else p.(pc := Write)
      case UpdateAdjustment(_, _) => p.(pc := Recheck)
      case _ => p.(pc := Write)
  }

  /** The adjustment service checks the lock again, then the workflow and the role. */
  function OnRecheck(s: Ledger, p: Proc): (q: Proc)
    requires WellPlaced(p) && p.pc.Recheck?
    ensures Follows(p, q) && !q.appended
  {
    if p.o.recheckFails then End(p, Err(Service))
    else if At(p, p.cmd.adjustment) !in s.adjustments then End(p, Err(Validation))
    else if Locked(s, p) then End(p, Err(if p.period == Some("") then Validation else PeriodLocked))
    else if p.o.workflow && (p.cmd.status.Accepted? || p.cmd.status.Pushed?) then End(p, Err(Validation))
    else if !MayDecide(p.ctx.role, p.cmd.status) then End(p, Err(Validation))
    else p.(pc := Write)
  }

  datatype Attempt = Stored(ledger: Ledger) | Turned(code: Code)

  /** A conditional status update: the row must be in the expected status. */
  function Move(s: Ledger, k: Key, from: EntryStatus, to: EntryStatus, who: Option<string>): Attempt {
    if k !in s.entries then Turned(NotFound)
    else if s.entries[k].status != from then Turned(InvalidStatus)
    else
      var e := s.entries[k];
      Stored(s.(entries := s.entries[k := e.(status := to, approvedBy := if who.Some? then who else e.approvedBy)]))
  }

  predicate SelfApproval(cfg: Config, s: Ledger, k: Key, who: string) {
    !cfg.sameUserApproves && k in s.entries && s.entries[k].createdBy != "" && s.entries[k].createdBy == who
  }

  /** The `n`-th write of a command. */
  function Attempted(cfg: Config, s: Ledger, p: Proc): Attempt {
    match p.cmd
    case SaveTrialBalance(period, _, _, _) => Stored(s.(books := s.books[At(p, period) := p.rows]))
    case ApplyHitlAdjustment(_, period, _) => Stored(s.(books := s.books[At(p, period) := p.rows]))
    case CreateDraftJE(session, _, who) =>
      if |p.o.ids| == 0 || At(p, p.o.ids[0]) in s.entries then Turned(Service)
      else
        var author := if who.Some? then who.value else p.ctx.actor;
        Stored(s.(entries := s.entries[At(p, p.o.ids[0]) := Entry(session, Draft, author, None)]))
    case ProposeJE(id) => Move(s, At(p, id), Draft, Proposed, None)
    case ApproveJE(id, who) =>
      var m := Move(s, At(p, id), Proposed, Approved, Some(who));
      if m.Stored? && SelfApproval(cfg, s, At(p, id), who) then Turned(Segregation) else m
    case PostJE(id) => Move(s, At(p, id), Approved, Posted, None)
    case CreateAdjustments(period, texts, _) =>
      if p.writes >= |p.o.ids| || p.writes >= |texts| || At(p, p.o.ids[p.writes]) in s.adjustments then Turned(Service)
      else
        var a := Adjustment(period, texts[p.writes], Pending);
        Stored(s.(adjustments := s.adjustments[At(p, p.o.ids[p.writes]) := a]))
    case UpdateAdjustment(id, status) =>
      if At(p, id) !in s.adjustments then Turned(Validation)
      else Stored(s.(adjustments := s.adjustments[At(p, id) := s.adjustments[At(p, id)].(status := status)]))
    case LockPeriod(period, who) => Stored(s.(locks := s.locks[At(p, period) := who]))
  }

  function NextOutcome(p: Proc): Outcome {
    if p.writes < |p.o.writes| then p.o.writes[p.writes] else Went
  }

  function AfterWrite(p: Proc): Pc {
    match p.cmd
    case CreateAdjustments(_, texts, _) => if p.writes < |texts| then Write else Audit
    case ApplyHitlAdjustment(_, _, _) => Mark
    case ApproveJE(_, _) => Late
    case _ => Audit
  }

  function OnWrite(cfg: Config, s: Ledger, p: Proc): (r: (Ledger, Proc))
    requires WellPlaced(p) && p.pc.Write?
    ensures Follows(p, r.1) && !r.1.appended
  {
    if NextOutcome(p).Refused? then (s, End(p, Err(NextOutcome(p).code)))
    else
      var a := Attempted(cfg, s, p);
      if a.Turned? then (s, End(p, Err(a.code)))
      else
        var q := p.(writes := p.writes + 1);
        (a.ledger, if NextOutcome(p).Broke? then End(q, Err(Service)) else q.(pc := AfterWrite(q)))
  }

  function OnLate(cfg: Config, s: Ledger, p: Proc): (q: Proc)
    requires WellPlaced(p) && p.pc.Late?
    ensures Follows(p, q) && !q.appended
  {
    if p.o.lateFails || At(p, p.cmd.entry) !in s.entries then End(p, Err(Service))
    else p.(pc := Audit, period := SessionPeriod(cfg, p.ctx.tenant, s.entries[At(p, p.cmd.entry)].session))
  }

  function OnMark(s: Ledger, p: Proc): (r: (Ledger, Proc))
    requires WellPlaced(p) && p.pc.Mark?
    ensures Follows(p, r.1) && !r.1.appended && r.0.log == s.log
  {
    if p.o.markFails then (s, End(p, Err(Service)))
    else
      var k := At(p, p.cmd.staged);
      (if k in s.staging then s.(staging := s.staging[k := s.staging[k].(approvedBy := Some(p.ctx.actor))]) else s,
       p.(pc := Audit))
  }

  function EventOf(p: Proc): Event {
    Event(p.ctx.tenant, p.period, p.cmd, p.ctx.actor)
  }

  function OnAudit(s: Ledger, p: Proc): (r: (Ledger, Proc))
    requires WellPlaced(p) && p.pc.Audit?
    ensures Follows(p, r.1) && r.0 == s.(log := r.0.log)
    ensures r.0.log == if r.1.appended then s.log + [EventOf(r.1)] else s.log
  {
    if p.o.append.NotAppended? then (s, End(p, Err(Service)))
    else (s.(log := s.log + [EventOf(p)]),
          End(p.(appended := true), if p.o.append.Acknowledged? then Ok else Err(Service)))
  }

  function Step(cfg: Config, s: Ledger, p: Proc): (r: (Ledger, Proc))
    requires WellPlaced(p) && !p.pc.Done?
    ensures Follows(p, r.1)
  {
    match p.pc
    case Start => (s, OnStart(p))
    case Lookup => (s, OnLookup(cfg, s, p))
    case Check => (s, OnCheck(cfg, s, p))
    case Recheck => (s, OnRecheck(s, p))
    case Write => OnWrite(cfg, s, p)
    case Late => (s, OnLate(cfg, s, p))
    case Mark => OnMark(s, p)
    case Audit => OnAudit(s, p)
  }

  // ---------------------------------------------------------------------
  // What one step may touch

  /** The period a command's write falls in, as far as the stored rows say. */
  ghost predicate Knows(cfg: Config, s: Ledger, p: Proc) {
    p.pc.Check? || p.pc.Recheck? || p.pc.Write? || (p.pc.Lookup? && p.cmd.ApplyHitlAdjustment?) ==>
      match p.cmd
      case SaveTrialBalance(period, _, _, _) => p.period == Some(period)
      case ApplyHitlAdjustment(_, period, _) => p.period == Some(period)
      case CreateAdjustments(period, _, _) => p.period == Some(period)
      case LockPeriod(period, _) => p.period == Some(period)
      case CreateDraftJE(session, _, _) =>
        p.period == SessionPeriod(cfg, p.ctx.tenant, session) || SessionPeriod(cfg, p.ctx.tenant, session) == None
      case ProposeJE(id) => EntryKnown(cfg, s, p, id)
      case PostJE(id) => EntryKnown(cfg, s, p, id)
      case UpdateAdjustment(id, _) =>
        At(p, id) in s.adjustments && p.period == Some(s.adjustments[At(p, id)].period)
      case ApproveJE(_, _) => true
  }

  ghost predicate EntryKnown(cfg: Config, s: Ledger, p: Proc, id: string) {
    At(p, id) in s.entries && SessionPeriod(cfg, p.ctx.tenant, s.entries[At(p, id)].session) == p.period
  }

  /** Rows never move to another period. */
  ghost predicate Anchored(a: Ledger, b: Ledger) {
    && (forall k <- a.entries :: k in b.entries && b.entries[k].session == a.entries[k].session
                              && b.entries[k].createdBy == a.entries[k].createdBy)
    && (forall k <- a.adjustments :: k in b.adjustments && b.adjustments[k].period == a.adjustments[k].period)
    && (forall k <- a.locks :: k in b.locks)
  }

  /** Reads, and steps after the write, leave what periods hold alone. */
  lemma OtherStep(cfg: Config, s: Ledger, p: Proc)
    requires WellPlaced(p) && !p.pc.Done? && !p.pc.Write?
    ensures var t := Step(cfg, s, p).0; t == s.(staging := t.staging, log := t.log)
  {
  }

  lemma WriteStep(cfg: Config, s: Ledger, p: Proc)
    requires WellPlaced(p) && p.pc.Write?
    ensures var t := Step(cfg, s, p).0; t == s || (Attempted(cfg, s, p).Stored? && t == Attempted(cfg, s, p).ledger)
  {
  }

  lemma StepAnchored(cfg: Config, s: Ledger, p: Proc)
    requires WellPlaced(p) && !p.pc.Done?
    ensures Anchored(s, Step(cfg, s, p).0)
  {
    if !p.pc.Write? {
      OtherStep(cfg, s, p);
    } else {
      WriteStep(cfg, s, p);
      if Attempted(cfg, s, p).Stored? {
        WriteAnchored(cfg, s, p);
      }
    }
  }

  lemma EntryAnchored(s: Ledger, e: Key, x: Entry)
    requires e in s.entries ==> x.session == s.entries[e].session && x.createdBy == s.entries[e].createdBy
    ensures Anchored(s, s.(entries := s.entries[e := x]))
  {
  }

  lemma AdjustmentAnchored(s: Ledger, j: Key, x: Adjustment)
    requires j in s.adjustments ==> x.period == s.adjustments[j].period
    ensures Anchored(s, s.(adjustments := s.adjustments[j := x]))
  {
  }

  /** The row a write puts in, for the commands that write entries and adjustments. */
  function NewEntry(cfg: Config, s: Ledger, p: Proc): (Key, Entry)
    requires p.cmd.CreateDraftJE? || p.cmd.ProposeJE? || p.cmd.ApproveJE? || p.cmd.PostJE?
    requires Attempted(cfg, s, p).Stored?
  {
    var k := At(p, match p.cmd
                   case CreateDraftJE(_, _, _) => p.o.ids[0]
                   case ProposeJE(id) => id
                   case ApproveJE(id, _) => id
                   case PostJE(id) => id);
    (k, Attempted(cfg, s, p).ledger.entries[k])
  }

  function NewAdjustment(cfg: Config, s: Ledger, p: Proc): (Key, Adjustment)
    requires p.cmd.CreateAdjustments? || p.cmd.UpdateAdjustment?
    requires Attempted(cfg, s, p).Stored?
  {
    var k := At(p, if p.cmd.CreateAdjustments? then p.o.ids[p.writes] else p.cmd.adjustment);
    (k, Attempted(cfg, s, p).ledger.adjustments[k])
  }

  lemma WriteIsEntry(cfg: Config, s: Ledger, p: Proc)
    requires p.cmd.CreateDraftJE? || p.cmd.ProposeJE? || p.cmd.ApproveJE? || p.cmd.PostJE?
    requires Attempted(cfg, s, p).Stored?
    ensures var (e, x) := NewEntry(cfg, s, p); Attempted(cfg, s, p) == Stored(s.(entries := s.entries[e := x]))
  {
  }

  lemma WriteIsAdjustment(cfg: Config, s: Ledger, p: Proc)
    requires p.cmd.CreateAdjustments? || p.cmd.UpdateAdjustment?
    requires Attempted(cfg, s, p).Stored?
    ensures var (j, x) := NewAdjustment(cfg, s, p); Attempted(cfg, s, p) == Stored(s.(adjustments := s.adjustments[j := x]))
  {
  }

  lemma WriteAnchored(cfg: Config, s: Ledger, p: Proc)
    requires Attempted(cfg, s, p).Stored?
    ensures Anchored(s, Attempted(cfg, s, p).ledger)
  {
    if p.cmd.CreateDraftJE? || p.cmd.ProposeJE? || p.cmd.ApproveJE? || p.cmd.PostJE? {
      var (e, x) := NewEntry(cfg, s, p);
      WriteIsEntry(cfg, s, p);
      EntryAnchored(s, e, x);
    } else if p.cmd.CreateAdjustments? || p.cmd.UpdateAdjustment? {
      var (j, x) := NewAdjustment(cfg, s, p);
      WriteIsAdjustment(cfg, s, p);
      AdjustmentAnchored(s, j, x);
    } else {
      OtherWrite(cfg, s, p);
    }
  }

  /** The remaining commands write a trial balance or a lock. */
  lemma OtherWrite(cfg: Config, s: Ledger, p: Proc)
    requires p.cmd.SaveTrialBalance? || p.cmd.ApplyHitlAdjustment? || p.cmd.LockPeriod?
    ensures Attempted(cfg, s, p).Stored? && Anchored(s, Attempted(cfg, s, p).ledger)
  {
  }

  lemma StartKnows(cfg: Config, s: Ledger, p: Proc)
    requires WellPlaced(p) && p.pc.Start?
    ensures Step(cfg, s, p).0 == s && Knows(cfg, s, Step(cfg, s, p).1)
  {
  }

  lemma LookupKnows(cfg: Config, s: Ledger, p: Proc)
    requires WellPlaced(p) && p.pc.Lookup? && Knows(cfg, s, p)
    ensures Step(cfg, s, p).0 == s && Knows(cfg, s, Step(cfg, s, p).1)
  {
  }

  lemma CheckKnows(cfg: Config, s: Ledger, p: Proc)
    requires WellPlaced(p) && (p.pc.Check? || p.pc.Recheck?) && Knows(cfg, s, p)
    ensures Step(cfg, s, p).0 == s && Knows(cfg, s, Step(cfg, s, p).1)
  {
  }

  /** From its write on, only `CreateAdjustments` is ever back at a write. */
  lemma LaterKnows(cfg: Config, s: Ledger, p: Proc)
    requires WellPlaced(p) && (p.pc.Write? || p.pc.Late? || p.pc.Mark? || p.pc.Audit?) && Knows(cfg, s, p)
    ensures Knows(cfg, Step(cfg, s, p).0, Step(cfg, s, p).1)
  {
    var q := Step(cfg, s, p).1;
    assert q.period == p.period || q.pc.Audit?;
    assert q.pc.Write? ==> p.pc.Write? && q.cmd.CreateAdjustments?;
  }

  lemma StepKnows(cfg: Config, s: Ledger, p: Proc)
    requires WellPlaced(p) && !p.pc.Done? && Knows(cfg, s, p)
    ensures Knows(cfg, Step(cfg, s, p).0, Step(cfg, s, p).1)
  {
    if p.pc.Start? {
      StartKnows(cfg, s, p);
    } else if p.pc.Lookup? {
      LookupKnows(cfg, s, p);
    } else if p.pc.Check? || p.pc.Recheck? {
      CheckKnows(cfg, s, p);
    } else {
      LaterKnows(cfg, s, p);
    }
  }

  ghost predicate InPeriod(cfg: Config, k: Key, e: Key, entry: Entry) {
    e.tenant == k.tenant && SessionPeriod(cfg, e.tenant, entry.session) == Some(k.name)
  }

  /** Only an approval may touch an entry, and no entry may appear. */
  ghost predicate EntriesFrozen(cfg: Config, k: Key, a: Ledger, b: Ledger) {
    forall e <- b.entries | InPeriod(cfg, k, e, b.entries[e]) ::
      && e in a.entries
      && (b.entries[e] != a.entries[e] ==>
            && a.entries[e].status.Proposed?
            && b.entries[e] == a.entries[e].(status := Approved, approvedBy := b.entries[e].approvedBy))
  }

  ghost predicate AdjustmentsFrozen(k: Key, a: Ledger, b: Ledger) {
    && (forall j <- a.adjustments | j.tenant == k.tenant && a.adjustments[j].period == k.name ::
          j in b.adjustments && b.adjustments[j] == a.adjustments[j])
    && (forall j <- b.adjustments | j.tenant == k.tenant && b.adjustments[j].period == k.name :: j in a.adjustments)
  }

  ghost predicate BookFrozen(k: Key, a: Ledger, b: Ledger) {
    (k in a.books <==> k in b.books) && (k in a.books ==> b.books[k] == a.books[k])
  }

  /** From `a` to `b` nothing of period `k` changed except approvals. */
  ghost predicate Frozen(cfg: Config, k: Key, a: Ledger, b: Ledger) {
    BookFrozen(k, a, b) && AdjustmentsFrozen(k, a, b) && EntriesFrozen(cfg, k, a, b)
  }

  /** A step changes a period only by a write of a command that holds that period. */
  lemma StepTouches(cfg: Config, s: Ledger, p: Proc, k: Key)
    requires WellPlaced(p) && !p.pc.Done? && Knows(cfg, s, p)
    requires !(p.pc.Write? && !p.cmd.ApproveJE? && !p.cmd.LockPeriod? && p.ctx.tenant == k.tenant && p.period == Some(k.name))
    ensures Frozen(cfg, k, s, Step(cfg, s, p).0)
  {
    if !p.pc.Write? {
      OtherStep(cfg, s, p);
    } else {
      WriteStep(cfg, s, p);
      if Attempted(cfg, s, p).Stored? {
        WriteTouches(cfg, s, p, k);
      }
    }
  }

  lemma EntryWrite(cfg: Config, k: Key, s: Ledger, e: Key, x: Entry)
    requires InPeriod(cfg, k, e, x) ==>
               && e in s.entries && s.entries[e].status.Proposed?
               && x == s.entries[e].(status := Approved, approvedBy := x.approvedBy)
    ensures Frozen(cfg, k, s, s.(entries := s.entries[e := x]))
  {
  }

  lemma AdjustmentWrite(cfg: Config, k: Key, s: Ledger, j: Key, x: Adjustment)
    requires j.tenant == k.tenant ==> x.period != k.name
    requires j in s.adjustments ==> s.adjustments[j].period == x.period
    ensures Frozen(cfg, k, s, s.(adjustments := s.adjustments[j := x]))
  {
  }

  lemma WriteTouches(cfg: Config, s: Ledger, p: Proc, k: Key)
    requires p.pc.Write? && Knows(cfg, s, p)
    requires !(!p.cmd.ApproveJE? && !p.cmd.LockPeriod? && p.ctx.tenant == k.tenant && p.period == Some(k.name))
    requires Attempted(cfg, s, p).Stored?
    ensures Frozen(cfg, k, s, Attempted(cfg, s, p).ledger)
  {
    if p.cmd.CreateDraftJE? || p.cmd.ProposeJE? || p.cmd.ApproveJE? || p.cmd.PostJE? {
      var (e, x) := NewEntry(cfg, s, p);
      WriteIsEntry(cfg, s, p);
      EntryOutside(cfg, s, p, k);
      EntryWrite(cfg, k, s, e, x);
    } else if p.cmd.CreateAdjustments? || p.cmd.UpdateAdjustment? {
      var (j, x) := NewAdjustment(cfg, s, p);
      WriteIsAdjustment(cfg, s, p);
      AdjustmentWrite(cfg, k, s, j, x);
    }
  }

  lemma EntryOutside(cfg: Config, s: Ledger, p: Proc, k: Key)
    requires p.pc.Write? && Knows(cfg, s, p)
    requires p.cmd.CreateDraftJE? || p.cmd.ProposeJE? || p.cmd.ApproveJE? || p.cmd.PostJE?
    requires Attempted(cfg, s, p).Stored?
    requires p.cmd.ApproveJE? || p.ctx.tenant != k.tenant || p.period != Some(k.name)
    ensures var (e, x) := NewEntry(cfg, s, p);
            InPeriod(cfg, k, e, x) ==>
              && e in s.entries && s.entries[e].status.Proposed?
              && x == s.entries[e].(status := Approved, approvedBy := x.approvedBy)
  {
  }

  lemma FrozenChain(cfg: Config, k: Key, a: Ledger, b: Ledger, c: Ledger)
    requires Frozen(cfg, k, a, b) && Frozen(cfg, k, b, c) && Anchored(b, c)
    ensures Frozen(cfg, k, a, c)
  {
  }

  // ---------------------------------------------------------------------
  // Invariants of the store

  ghost predicate AllBalanced(cfg: Config, s: Ledger) {
    forall k <- s.books :: Balanced(cfg, s.books[k])
  }

  ghost predicate RowsReady(cfg: Config, p: Proc) {
    p.pc.Write? && (p.cmd.SaveTrialBalance? || p.cmd.ApplyHitlAdjustment?) ==> Balanced(cfg, p.rows)
  }

  lemma BooksKept(cfg: Config, s: Ledger, p: Proc)
    requires !p.cmd.SaveTrialBalance? && !p.cmd.ApplyHitlAdjustment? && Attempted(cfg, s, p).Stored?
    ensures Attempted(cfg, s, p).ledger.books == s.books
  {
  }

  lemma WriteBalanced(cfg: Config, s: Ledger, p: Proc)
    requires p.pc.Write? && Attempted(cfg, s, p).Stored? && AllBalanced(cfg, s) && RowsReady(cfg, p)
    ensures AllBalanced(cfg, Attempted(cfg, s, p).ledger)
  {
    var b := Attempted(cfg, s, p).ledger.books;
    if p.cmd.SaveTrialBalance? || p.cmd.ApplyHitlAdjustment? {
      var k := At(p, p.cmd.period);
      assert b == s.books[k := p.rows];
    } else {
      BooksKept(cfg, s, p);
    }
  }

  /** Rows reach a write only through the balance check. */
  lemma StepRows(cfg: Config, s: Ledger, p: Proc)
    requires WellPlaced(p) && !p.pc.Done?
    ensures RowsReady(cfg, Step(cfg, s, p).1)
  {
  }

  lemma StepBalanced(cfg: Config, s: Ledger, p: Proc)
    requires WellPlaced(p) && !p.pc.Done? && AllBalanced(cfg, s) && RowsReady(cfg, p)
    ensures AllBalanced(cfg, Step(cfg, s, p).0) && RowsReady(cfg, Step(cfg, s, p).1)
  {
    StepRows(cfg, s, p);
    if !p.pc.Write? {
      OtherStep(cfg, s, p);
    } else {
      WriteStep(cfg, s, p);
      if Attempted(cfg, s, p).Stored? {
        WriteBalanced(cfg, s, p);
      }
    }
  }

  /** An entry past proposal has an approver, who is not its named creator. */
  predicate ProperlyApproved(e: Entry) {
    e.status.Approved? || e.status.Posted? ==>
      && e.approvedBy.Some?
      && (e.createdBy != "" ==> e.approvedBy.value != e.createdBy)
  }

  ghost predicate Segregated(s: Ledger) {
    forall k <- s.entries :: ProperlyApproved(s.entries[k])
  }

  lemma EntryProper(cfg: Config, s: Ledger, p: Proc)
    requires p.cmd.CreateDraftJE? || p.cmd.ProposeJE? || p.cmd.ApproveJE? || p.cmd.PostJE?
    requires Attempted(cfg, s, p).Stored? && Segregated(s) && !cfg.sameUserApproves
    ensures ProperlyApproved(NewEntry(cfg, s, p).1)
  {
  }

  lemma StepSegregated(cfg: Config, s: Ledger, p: Proc)
    requires WellPlaced(p) && !p.pc.Done? && Segregated(s) && !cfg.sameUserApproves
    ensures Segregated(Step(cfg, s, p).0)
  {
    if p.pc.Write? && Attempted(cfg, s, p).Stored? {
      if p.cmd.CreateDraftJE? || p.cmd.ProposeJE? || p.cmd.ApproveJE? || p.cmd.PostJE? {
        var (e, x) := NewEntry(cfg, s, p);
        WriteIsEntry(cfg, s, p);
        EntryProper(cfg, s, p);
        SegregatedWith(s, e, x);
      } else {
        EntriesKept(cfg, s, p);
      }
    }
  }

  lemma SegregatedWith(s: Ledger, e: Key, x: Entry)
    requires Segregated(s) && ProperlyApproved(x)
    ensures Segregated(s.(entries := s.entries[e := x]))
  {
  }

  lemma EntriesKept(cfg: Config, s: Ledger, p: Proc)
    requires !(p.cmd.CreateDraftJE? || p.cmd.ProposeJE? || p.cmd.ApproveJE? || p.cmd.PostJE?)
    requires Attempted(cfg, s, p).Stored?
    ensures Attempted(cfg, s, p).ledger.entries == s.entries
  {
  }
}
