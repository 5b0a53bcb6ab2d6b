/** `executeBridgeCommand` over stored state that it updates in place. */
module BridgeService {
  import opened Bridge
  import opened BridgeRuns
  import opened Text
  import opened Wrappers

  /** Running `p` alone from `s` leaves `t` and returns `r`. */
  ghost predicate Reaches(cfg: Config, s: Ledger, p: Proc, t: Ledger, r: Result) {
    WellPlaced(p) && Finish(cfg, s, p).0 == t && Finish(cfg, s, p).1.pc == Done(r)
  }

  lemma StepReaches(cfg: Config, s: Ledger, p: Proc, m: Ledger, q: Proc, t: Ledger, r: Result)
    requires WellPlaced(p) && !p.pc.Done? && Step(cfg, s, p) == (m, q) && Reaches(cfg, m, q, t, r)
    ensures Reaches(cfg, s, p, t, r)
  {
  }

  lemma StepEnds(cfg: Config, s: Ledger, p: Proc, t: Ledger, r: Result)
    requires WellPlaced(p) && !p.pc.Done?
    requires Step(cfg, s, p).0 == t && Step(cfg, s, p).1.pc == Done(r)
    ensures Reaches(cfg, s, p, t, r)
  {
    assert Finish(cfg, Step(cfg, s, p).0, Step(cfg, s, p).1) == Step(cfg, s, p);
  }

  class CommandBridge {
    const cfg: Config
    var locks: map<Key, string>
    var books: map<Key, seq<Line>>
    var entries: map<Key, Entry>
    var adjustments: map<Key, Adjustment>
    var staging: map<Key, Staged>
    var log: seq<Event>

    ghost function State(): Ledger
      reads this
    {
      Ledger(locks, books, entries, adjustments, staging, log)
    }

    constructor (config: Config)
      ensures cfg == config
      ensures State() == Ledger(map[], map[], map[], map[], map[], [])
    {
      cfg := config;
      locks, books, entries, adjustments, staging, log := map[], map[], map[], map[], map[], [];
    }

    /** `recordBridgeMutation` and the return after it. */
    method RecordBridgeMutation(ctx: Context, cmd: Command, period: Option<string>, append: Append, ghost p: Proc)
      returns (r: Result)
      requires WellPlaced(p) && p.pc.Audit? && p.ctx == ctx && p.cmd == cmd && p.period == period && p.o.append == append
      modifies this`log
      ensures Reaches(cfg, old(State()), p, State(), r)
    {
      if append.NotAppended? {
        r := Err(Service);
      } else {
        log := log + [Event(ctx.tenant, period, cmd, ctx.actor)];
        r := if append.Acknowledged? then Ok else Err(Service);
      }
      StepEnds(cfg, old(State()), p, State(), r);
    }

    /** The first write's outcome. */
    method FirstOutcome(o: Oracle) returns (w: Outcome)
      ensures w == if |o.writes| > 0 then o.writes[0] else Went
    {
      if |o.writes| > 0 {
        w := o.writes[0];
      } else {
        w := Went;
      }
    }

    method SaveTrialBalance(ctx: Context, cmd: Command, o: Oracle, ghost p: Proc) returns (r: Result)
      requires cmd.SaveTrialBalance?
      requires p == Begin(ctx, cmd, o).(pc := Check, period := Some(cmd.period), rows := cmd.lines)
      modifies this
      ensures Reaches(cfg, old(State()), p, State(), r)
    {
      if o.checkFails {
        StepEnds(cfg, State(), p, State(), Err(Service));
        return Err(Service);
      }
      if Key(ctx.tenant, cmd.period) in locks {
        StepEnds(cfg, State(), p, State(), Err(PeriodLocked));
        return Err(PeriodLocked);
      }
      if !Balanced(cfg, cmd.lines) || (cmd.synced && Trim(cmd.connection) == "") {
        StepEnds(cfg, State(), p, State(), Err(Validation));
        return Err(Validation);
      }
      ghost var p1 := p.(pc := Write);
      r := StoreBook(ctx, cmd, cmd.period, cmd.lines, o, p1);
      StepReaches(cfg, old(State()), p, old(State()), p1, State(), r);
    }

    /** `saveUnadjustedFromUpload` or `saveUnadjustedFromSync`, then what follows it. */
    method StoreBook(ctx: Context, cmd: Command, period: string, lines: seq<Line>, o: Oracle, ghost p: Proc) returns (r: Result)
      requires cmd.SaveTrialBalance? || cmd.ApplyHitlAdjustment?
      requires period == cmd.period
      requires p == Begin(ctx, cmd, o).(pc := Write, period := Some(period), rows := lines)
      modifies this
      ensures Reaches(cfg, old(State()), p, State(), r)
    {
      var w := FirstOutcome(o);
      if w.Refused? {
        StepEnds(cfg, State(), p, State(), Err(w.code));
        return Err(w.code);
      }
      books := books[Key(ctx.tenant, period) := lines];
      if w.Broke? {
        StepEnds(cfg, old(State()), p, State(), Err(Service));
        return Err(Service);
      }
      ghost var m := State();
      if cmd.ApplyHitlAdjustment? {
        ghost var p1 := p.(writes := 1, pc := Mark);
        r := MarkStaged(ctx, cmd, o, p1);
        StepReaches(cfg, old(State()), p, m, p1, State(), r);
      } else {
        ghost var p1 := p.(writes := 1, pc := Audit);
        r := RecordBridgeMutation(ctx, cmd, Some(period), o.append, p1);
        StepReaches(cfg, old(State()), p, m, p1, State(), r);
      }
    }

    /** `updateStagingStatus`: a missing item is left alone. */
    method MarkStaged(ctx: Context, cmd: Command, o: Oracle, ghost p: Proc) returns (r: Result)
      requires cmd.ApplyHitlAdjustment? && WellPlaced(p)
      requires p.ctx == ctx && p.cmd == cmd && p.o == o && p.pc == Mark && p.period == Some(cmd.period)
      modifies this
      ensures Reaches(cfg, old(State()), p, State(), r)
    {
      if o.markFails {
        StepEnds(cfg, State(), p, State(), Err(Service));
        return Err(Service);
      }
      var k := Key(ctx.tenant, cmd.staged);
      if k in staging {
        staging := staging[k := staging[k].(approvedBy := Some(ctx.actor))];
      }
      ghost var m := State();
      ghost var p1 := p.(pc := Audit);
      r := RecordBridgeMutation(ctx, cmd, Some(cmd.period), o.append, p1);
      StepReaches(cfg, old(State()), p, m, p1, State(), r);
    }

    method ApplyHitlAdjustment(ctx: Context, cmd: Command, o: Oracle, ghost p: Proc) returns (r: Result)
      requires cmd.ApplyHitlAdjustment?
      requires p == Begin(ctx, cmd, o).(pc := Check, period := Some(cmd.period))
      modifies this
      ensures Reaches(cfg, old(State()), p, State(), r)
    {
      if o.checkFails {
        StepEnds(cfg, State(), p, State(), Err(Service));
        return Err(Service);
      }
      if Key(ctx.tenant, cmd.period) in locks {
        StepEnds(cfg, State(), p, State(), Err(PeriodLocked));
        return Err(PeriodLocked);
      }
      ghost var p1 := p.(pc := Lookup);
      r := CombineStaged(ctx, cmd, o, p1);
      StepReaches(cfg, old(State()), p, old(State()), p1, State(), r);
    }

    /** The staged rows with the adjustment after them, stored when together they balance. */
    method CombineStaged(ctx: Context, cmd: Command, o: Oracle, ghost p: Proc) returns (r: Result)
      requires cmd.ApplyHitlAdjustment?
      requires p == Begin(ctx, cmd, o).(pc := Lookup, period := Some(cmd.period))
      modifies this
      ensures Reaches(cfg, old(State()), p, State(), r)
    {
      var k := Key(ctx.tenant, cmd.staged);
      if o.lookupFails {
        StepEnds(cfg, State(), p, State(), Err(Service));
        return Err(Service);
      }
      if k !in staging || staging[k].kind != "trial_balance_ingest" || staging[k].rows.None? {
        StepEnds(cfg, State(), p, State(), Err(Validation));
        return Err(Validation);
      }
      if o.parsed.None? {
        StepEnds(cfg, State(), p, State(), Err(Service));
        return Err(Service);
      }
      var combined := o.parsed.value + cmd.lines;
      if !Balanced(cfg, combined) {
        StepEnds(cfg, State(), p, State(), Err(Validation));
        return Err(Validation);
      }
      ghost var p1 := p.(pc := Write, rows := combined);
      r := StoreBook(ctx, cmd, cmd.period, combined, o, p1);
      StepReaches(cfg, old(State()), p, old(State()), p1, State(), r);
    }

    method CreateDraftJE(ctx: Context, cmd: Command, o: Oracle, ghost p: Proc) returns (r: Result)
      requires cmd.CreateDraftJE? && p == Begin(ctx, cmd, o).(pc := Lookup)
      modifies this
      ensures Reaches(cfg, old(State()), p, State(), r)
    {
      if o.lookupFails {
        StepEnds(cfg, State(), p, State(), Err(Service));
        return Err(Service);
      }
      if Key(ctx.tenant, cmd.session) !in cfg.sessions {
        StepEnds(cfg, State(), p, State(), Err(Validation));
        return Err(Validation);
      }
      var period := PeriodLabel(cfg.sessions[Key(ctx.tenant, cmd.session)]);
      if period.None? {
        period := Some("");
      }
      ghost var p1 := p.(pc := Check, period := period);
      r := CheckThenWriteEntry(ctx, cmd, period, o, p1);
      StepReaches(cfg, old(State()), p, old(State()), p1, State(), r);
    }

    /** `ProposeJE` and `PostJE` up to the lock check, which an entry without a period skips. */
    method MoveEntry(ctx: Context, cmd: Command, o: Oracle, ghost p: Proc) returns (r: Result)
      requires (cmd.ProposeJE? || cmd.PostJE?) && p == Begin(ctx, cmd, o).(pc := Lookup)
      modifies this
      ensures Reaches(cfg, old(State()), p, State(), r)
    {
      if o.lookupFails {
        StepEnds(cfg, State(), p, State(), Err(Service));
        return Err(Service);
      }
      var k := Key(ctx.tenant, cmd.entry);
      if k !in entries {
        StepEnds(cfg, State(), p, State(), Err(Validation));
        return Err(Validation);
      }
      var period := SessionPeriod(cfg, ctx.tenant, entries[k].session);
      if period.Some? {
        ghost var p1 := p.(pc := Check, period := period);
        r := CheckThenWriteEntry(ctx, cmd, period, o, p1);
        StepReaches(cfg, old(State()), p, old(State()), p1, State(), r);
      } else {
        ghost var p1 := p.(pc := Write, period := period);
        r := WriteEntry(ctx, cmd, period, o, p1);
        StepReaches(cfg, old(State()), p, old(State()), p1, State(), r);
      }
    }

    method CheckThenWriteEntry(ctx: Context, cmd: Command, period: Option<string>, o: Oracle, ghost p: Proc) returns (r: Result)
      requires (cmd.CreateDraftJE? || cmd.ProposeJE? || cmd.PostJE?) && period.Some?
      requires p == Begin(ctx, cmd, o).(pc := Check, period := period)
      modifies this
      ensures Reaches(cfg, old(State()), p, State(), r)
    {
      if o.checkFails {
        StepEnds(cfg, State(), p, State(), Err(Service));
        return Err(Service);
      }
      if Key(ctx.tenant, period.value) in locks {
        StepEnds(cfg, State(), p, State(), Err(PeriodLocked));
        return Err(PeriodLocked);
      }
      ghost var p1 := p.(pc := Write);
      r := WriteEntry(ctx, cmd, period, o, p1);
      StepReaches(cfg, old(State()), p, old(State()), p1, State(), r);
    }

    /** The journal entry service: an insert, or an update that expects a status. */
    method WriteEntry(ctx: Context, cmd: Command, period: Option<string>, o: Oracle, ghost p: Proc) returns (r: Result)
      requires cmd.CreateDraftJE? || cmd.ProposeJE? || cmd.PostJE? || cmd.ApproveJE?
      requires p == Begin(ctx, cmd, o).(pc := Write, period := period)
      modifies this
      ensures Reaches(cfg, old(State()), p, State(), r)
    {
      var w := FirstOutcome(o);
      if w.Refused? {
        StepEnds(cfg, State(), p, State(), Err(w.code));
        return Err(w.code);
      }
      var refused := StoreEntry(ctx, cmd, o, p);
      if refused.Some? {
        StepEnds(cfg, old(State()), p, State(), Err(refused.value));
        return Err(refused.value);
      }
      if w.Broke? {
        StepEnds(cfg, old(State()), p, State(), Err(Service));
        return Err(Service);
      }
      ghost var m := State();
      if cmd.ApproveJE? {
        ghost var p1 := p.(writes := 1, pc := Late);
        r := ReadSession(ctx, cmd, o, p1);
        StepReaches(cfg, old(State()), p, m, p1, State(), r);
      } else {
        ghost var p1 := p.(writes := 1, pc := Audit);
        r := RecordBridgeMutation(ctx, cmd, period, o.append, p1);
        StepReaches(cfg, old(State()), p, m, p1, State(), r);
      }
    }

    method StoreEntry(ctx: Context, cmd: Command, o: Oracle, ghost p: Proc) returns (refused: Option<Code>)
      requires cmd.CreateDraftJE? || cmd.ProposeJE? || cmd.PostJE? || cmd.ApproveJE?
      requires p.ctx == ctx && p.cmd == cmd && p.o == o
      modifies this`entries
      ensures match Attempted(cfg, old(State()), p)
              case Stored(t) => refused == None && State() == t
              case Turned(code) => refused == Some(code) && State() == old(State())
    {
      refused := None;
      if cmd.CreateDraftJE? {
        if |o.ids| == 0 || Key(ctx.tenant, o.ids[0]) in entries {
          return Some(Service);
        }
        var author := if cmd.createdBy.Some? then cmd.createdBy.value else ctx.actor;
        entries := entries[Key(ctx.tenant, o.ids[0]) := Entry(cmd.session, Draft, author, None)];
        return;
      }
      var k := Key(ctx.tenant, cmd.entry);
      if k !in entries {
        return Some(NotFound);
      }
      var e := entries[k];
      if e.status != (if cmd.ProposeJE? then Draft else if cmd.ApproveJE? then Proposed else EntryStatus.Approved) {
        return Some(InvalidStatus);
      }
      if cmd.ProposeJE? {
        entries := entries[k := e.(status := Proposed)];
      } else if cmd.PostJE? {
        entries := entries[k := e.(status := Posted)];
      } else if !cfg.sameUserApproves && e.createdBy != "" && e.createdBy == cmd.approvedBy {
        return Some(Segregation);
      } else {
        entries := entries[k := e.(status := EntryStatus.Approved, approvedBy := Some(cmd.approvedBy))];
      }
    }

    /** After an approval the session gives the event its period. */
    method ReadSession(ctx: Context, cmd: Command, o: Oracle, ghost p: Proc) returns (r: Result)
      requires cmd.ApproveJE? && WellPlaced(p) && p.ctx == ctx && p.cmd == cmd && p.o == o && p.pc == Late
      modifies this
      ensures Reaches(cfg, old(State()), p, State(), r)
    {
      var k := Key(ctx.tenant, cmd.entry);
      if o.lateFails || k !in entries {
        StepEnds(cfg, State(), p, State(), Err(Service));
        return Err(Service);
      }
      var period := SessionPeriod(cfg, ctx.tenant, entries[k].session);
      ghost var p1 := p.(pc := Audit, period := period);
      r := RecordBridgeMutation(ctx, cmd, period, o.append, p1);
      StepReaches(cfg, old(State()), p, old(State()), p1, State(), r);
    }

    method CreateAdjustments(ctx: Context, cmd: Command, o: Oracle, ghost p: Proc) returns (r: Result)
      requires cmd.CreateAdjustments?
      requires cmd.suggestions != []
      requires p == Begin(ctx, cmd, o).(pc := Check, period := Some(cmd.period))
      modifies this
      ensures Reaches(cfg, old(State()), p, State(), r)
    {
      if o.checkFails {
        StepEnds(cfg, State(), p, State(), Err(Service));
        return Err(Service);
      }
      if Key(ctx.tenant, cmd.period) in locks {
        StepEnds(cfg, State(), p, State(), Err(PeriodLocked));
        return Err(PeriodLocked);
      }
      if cmd.fromJE && !o.provenanceOk {
        StepEnds(cfg, State(), p, State(), Err(Validation));
        return Err(Validation);
      }
      ghost var p1 := p.(pc := Write);
      r := AddEach(ctx, cmd, o, p1);
      StepReaches(cfg, old(State()), p, old(State()), p1, State(), r);
    }

    /** The service's loop: one insert a suggestion, those before a failure staying. */
    method AddEach(ctx: Context, cmd: Command, o: Oracle, ghost p: Proc) returns (r: Result)
      requires cmd.CreateAdjustments? && cmd.suggestions != []
      requires p == Begin(ctx, cmd, o).(pc := Write, period := Some(cmd.period))
      modifies this
      ensures Reaches(cfg, old(State()), p, State(), r)
    {
      ghost var q := p;
      for n := 0 to |cmd.suggestions|
        invariant q == p.(writes := n, pc := if n < |cmd.suggestions| then Write else Audit)
        invariant WellPlaced(q) && Finish(cfg, State(), q) == Finish(cfg, old(State()), p)
      {
        var w := if n < |o.writes| then o.writes[n] else Went;
        if w.Refused? {
          StepEnds(cfg, State(), q, State(), Err(w.code));
          return Err(w.code);
        }
        if n >= |o.ids| || Key(ctx.tenant, o.ids[n]) in adjustments {
          StepEnds(cfg, State(), q, State(), Err(Service));
          return Err(Service);
        }
        ghost var before := State();
        adjustments := adjustments[Key(ctx.tenant, o.ids[n]) := Adjustment(cmd.period, cmd.suggestions[n], Pending)];
        if w.Broke? {
          StepEnds(cfg, before, q, State(), Err(Service));
          return Err(Service);
        }
        ghost var q1 := q.(writes := n + 1, pc := if n + 1 < |cmd.suggestions| then Write else Audit);
        assert Step(cfg, before, q) == (State(), q1);
        q := q1;
      }
      r := RecordBridgeMutation(ctx, cmd, Some(cmd.period), o.append, q);
    }

    method UpdateAdjustment(ctx: Context, cmd: Command, o: Oracle, ghost p: Proc) returns (r: Result)
      requires cmd.UpdateAdjustment? && p == Begin(ctx, cmd, o).(pc := Lookup)
      modifies this
      ensures Reaches(cfg, old(State()), p, State(), r)
    {
      var k := Key(ctx.tenant, cmd.adjustment);
      if o.lookupFails {
        StepEnds(cfg, State(), p, State(), Err(Service));
        return Err(Service);
      }
      if k !in adjustments {
        StepEnds(cfg, State(), p, State(), Err(Validation));
        return Err(Validation);
      }
      var period := adjustments[k].period;
      ghost var p1 := p.(pc := Check, period := Some(period));
      if o.checkFails {
        StepEnds(cfg, State(), p1, State(), Err(Service));
        StepReaches(cfg, State(), p, State(), p1, State(), Err(Service));
        return Err(Service);
      }
      if Key(ctx.tenant, period) in locks {
        StepEnds(cfg, State(), p1, State(), Err(PeriodLocked));
        StepReaches(cfg, State(), p, State(), p1, State(), Err(PeriodLocked));
        return Err(PeriodLocked);
      }
      ghost var p2 := p1.(pc := Recheck);
      r := DecideAdjustment(ctx, cmd, period, o, p2);
      StepReaches(cfg, old(State()), p1, old(State()), p2, State(), r);
      StepReaches(cfg, old(State()), p, old(State()), p1, State(), r);
    }

    /** `updateCloseAdjustmentStatus`: its own lock check, the workflow, the role, the update. */
    method DecideAdjustment(ctx: Context, cmd: Command, period: string, o: Oracle, ghost p: Proc) returns (r: Result)
      requires cmd.UpdateAdjustment? && Key(ctx.tenant, cmd.adjustment) in adjustments
      requires p == Begin(ctx, cmd, o).(pc := Recheck, period := Some(period))
      modifies this
      ensures Reaches(cfg, old(State()), p, State(), r)
    {
      var k := Key(ctx.tenant, cmd.adjustment);
      if o.recheckFails {
        StepEnds(cfg, State(), p, State(), Err(Service));
        return Err(Service);
      }
      if Key(ctx.tenant, period) in locks {
        r := Err(if period == "" then Validation else PeriodLocked);
        StepEnds(cfg, State(), p, State(), r);
        return;
      }
      if (o.workflow && (cmd.status.Accepted? || cmd.status.Pushed?)) || !MayDecide(ctx.role, cmd.status) {
        StepEnds(cfg, State(), p, State(), Err(Validation));
        return Err(Validation);
      }
      ghost var p1 := p.(pc := Write);
      r := WriteAdjustment(ctx, cmd, period, o, p1);
      StepReaches(cfg, old(State()), p, old(State()), p1, State(), r);
    }

    method WriteAdjustment(ctx: Context, cmd: Command, period: string, o: Oracle, ghost p: Proc) returns (r: Result)
      requires cmd.UpdateAdjustment? && Key(ctx.tenant, cmd.adjustment) in adjustments
      requires p == Begin(ctx, cmd, o).(pc := Write, period := Some(period))
      modifies this
      ensures Reaches(cfg, old(State()), p, State(), r)
    {
      var k := Key(ctx.tenant, cmd.adjustment);
      var w := FirstOutcome(o);
      if w.Refused? {
        StepEnds(cfg, State(), p, State(), Err(w.code));
        return Err(w.code);
      }
      adjustments := adjustments[k := adjustments[k].(status := cmd.status)];
      if w.Broke? {
        StepEnds(cfg, old(State()), p, State(), Err(Service));
        return Err(Service);
      }
      ghost var m := State();
      ghost var p1 := p.(writes := 1, pc := Audit);
      r := RecordBridgeMutation(ctx, cmd, Some(period), o.append, p1);
      StepReaches(cfg, old(State()), p, m, p1, State(), r);
    }

    method LockPeriod(ctx: Context, cmd: Command, o: Oracle, ghost p: Proc) returns (r: Result)
      requires cmd.LockPeriod? && p == Begin(ctx, cmd, o).(pc := Write, period := Some(cmd.period))
      modifies this
      ensures Reaches(cfg, old(State()), p, State(), r)
    {
      var w := FirstOutcome(o);
      if w.Refused? {
        StepEnds(cfg, State(), p, State(), Err(w.code));
        return Err(w.code);
      }
      locks := locks[Key(ctx.tenant, cmd.period) := cmd.lockedBy];
      if w.Broke? {
        StepEnds(cfg, old(State()), p, State(), Err(Service));
        return Err(Service);
      }
      ghost var m := State();
      ghost var p1 := p.(writes := 1, pc := Audit);
      r := RecordBridgeMutation(ctx, cmd, Some(cmd.period), o.append, p1);
      StepReaches(cfg, old(State()), p, m, p1, State(), r);
    }

    /** One bridge command, alone: exactly the run of its steps. */
    method ExecuteBridgeCommand(ctx: Context, cmd: Command, o: Oracle) returns (r: Result)
      modifies this
      ensures Reaches(cfg, old(State()), Begin(ctx, cmd, o), State(), r)
    {
      ghost var p := Begin(ctx, cmd, o);
      if o.inAi {
        StepEnds(cfg, State(), p, State(), Thrown);
        return Thrown;
      }
      if !Parses(cmd, o) {
        StepEnds(cfg, State(), p, State(), Err(InvalidCommand));
        return Err(InvalidCommand);
      }
      ghost var p1 := OnStart(p);
      match cmd {
        case SaveTrialBalance(_, _, _, _) => r := SaveTrialBalance(ctx, cmd, o, p1);
        case CreateDraftJE(_, _, _) => r := CreateDraftJE(ctx, cmd, o, p1);
        case ProposeJE(_) => r := MoveEntry(ctx, cmd, o, p1);
        case PostJE(_) => r := MoveEntry(ctx, cmd, o, p1);
        case ApproveJE(_, _) => r := WriteEntry(ctx, cmd, None, o, p1);
        case ApplyHitlAdjustment(_, _, _) => r := ApplyHitlAdjustment(ctx, cmd, o, p1);
        case CreateAdjustments(_, _, _) => r := CreateAdjustments(ctx, cmd, o, p1);
        case UpdateAdjustment(_, _) => r := UpdateAdjustment(ctx, cmd, o, p1);
        case LockPeriod(_, _) =>
          if !MayLock(ctx.role) {
            StepEnds(cfg, State(), p, State(), Err(Validation));
            return Err(Validation);
          }
          r := LockPeriod(ctx, cmd, o, p1);
      }
      StepReaches(cfg, old(State()), p, old(State()), p1, State(), r);
    }
  }
}
