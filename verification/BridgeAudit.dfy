/** Exactly when a bridge command leaves a mutation without its audit event. */
module BridgeAudit {
  import opened Bridge
  import opened BridgeCommands
  import opened BridgeRuns
  import opened Text

  // ---------------------------------------------------------------------
  // The conditions, in terms of the command, the stored rows and the oracle

  predicate Unlocked(s: Ledger, p: Proc, period: string) {
    At(p, period) !in s.locks
  }

  /** The item `ApplyHitlAdjustment` needs: staged rows that parse and balance with the adjustment. */
  predicate StagedFits(cfg: Config, s: Ledger, p: Proc)
    requires p.cmd.ApplyHitlAdjustment?
  {
    var k := At(p, p.cmd.staged);
    && k in s.staging && s.staging[k].kind == "trial_balance_ingest" && s.staging[k].rows.Some?
    && p.o.parsed.Some? && Balanced(cfg, p.o.parsed.value + p.cmd.lines)
  }

  /** The check before a proposal or a posting is skipped without a period, so it cannot fail then. */
  predicate MoveChecked(cfg: Config, s: Ledger, p: Proc, id: string) {
    && MoveAllowed(cfg, s, At(p, id))
    && (SessionPeriod(cfg, p.ctx.tenant, s.entries[At(p, id)].session).Some? ==> !p.o.checkFails)
  }

  /** The command gets as far as its first write. */
  predicate Admitted(cfg: Config, s: Ledger, p: Proc) {
    && !p.o.inAi && Parses(p.cmd, p.o)
    && match p.cmd
       case SaveTrialBalance(period, ls, synced, connection) =>
         !p.o.checkFails && Unlocked(s, p, period) && Balanced(cfg, ls) && (synced ==> Trim(connection) != "")
       case CreateDraftJE(session, _, _) =>
         var found := SessionPeriod(cfg, p.ctx.tenant, session);
         && !p.o.lookupFails && !p.o.checkFails && At(p, session) in cfg.sessions
         && Unlocked(s, p, if found.Some? then found.value else "")
       case ProposeJE(id) => !p.o.lookupFails && MoveChecked(cfg, s, p, id)
       case PostJE(id) => !p.o.lookupFails && MoveChecked(cfg, s, p, id)
       case ApproveJE(_, _) => true
       case ApplyHitlAdjustment(_, period, _) =>
         !p.o.checkFails && Unlocked(s, p, period) && !p.o.lookupFails && StagedFits(cfg, s, p)
       case CreateAdjustments(period, _, fromJE) =>
         !p.o.checkFails && Unlocked(s, p, period) && (fromJE ==> p.o.provenanceOk)
       case UpdateAdjustment(id, status) =>
         && !p.o.lookupFails && !p.o.checkFails && !p.o.recheckFails
         && At(p, id) in s.adjustments && Unlocked(s, p, s.adjustments[At(p, id)].period)
         && !(p.o.workflow && (status.Accepted? || status.Pushed?)) && MayDecide(p.ctx.role, status)
       case LockPeriod(_, _) => MayLock(p.ctx.role)
  }

  /** Its first write then takes effect. */
  predicate Stores(cfg: Config, s: Ledger, p: Proc) {
    && !OutcomeOf(p, 0).Refused?
    && match p.cmd
       case CreateDraftJE(_, _, _) => |p.o.ids| > 0 && At(p, p.o.ids[0]) !in s.entries
       case ProposeJE(id) => At(p, id) in s.entries && s.entries[At(p, id)].status == Draft
       case PostJE(id) => At(p, id) in s.entries && s.entries[At(p, id)].status == EntryStatus.Approved
       case ApproveJE(id, who) =>
         At(p, id) in s.entries && s.entries[At(p, id)].status == Proposed && !SelfApproval(cfg, s, At(p, id), who)
       case CreateAdjustments(_, _, _) => |p.o.ids| > 0 && At(p, p.o.ids[0]) !in s.adjustments
       case UpdateAdjustment(id, _) => At(p, id) in s.adjustments
       case _ => true
  }

  function OutcomeOf(p: Proc, n: nat): Outcome {
    if n < |p.o.writes| then p.o.writes[n] else Went
  }

  /** The `m`-th insert goes through, the inserts from the `n`-th on being still to come. */
  predicate Inserts(s: Ledger, p: Proc, n: nat, m: nat) {
    && OutcomeOf(p, m).Went? && m < |p.o.ids| && At(p, p.o.ids[m]) !in s.adjustments
    && forall j | n <= j < m && j < |p.o.ids| :: p.o.ids[j] != p.o.ids[m]
  }

  predicate AllInsert(s: Ledger, p: Proc, n: nat)
    requires p.cmd.CreateAdjustments?
  {
    forall m | n <= m < |p.cmd.suggestions| :: Inserts(s, p, n, m)
  }

  /** Something after the first write goes wrong before the event is stored. */
  predicate FailsLater(s: Ledger, p: Proc) {
    || p.o.append.NotAppended?
    || (match p.cmd
        case CreateAdjustments(_, _, _) => !AllInsert(s, p, 0)
        case ApplyHitlAdjustment(_, _, _) => OutcomeOf(p, 0).Broke? || p.o.markFails
        case ApproveJE(_, _) => OutcomeOf(p, 0).Broke? || p.o.lateFails
        case _ => OutcomeOf(p, 0).Broke?)
  }

  // ---------------------------------------------------------------------
  // From the first write to the end

  lemma AuditTail(cfg: Config, s: Ledger, p: Proc)
    requires WellPlaced(p) && p.pc.Audit?
    ensures Finish(cfg, s, p).1.appended <==> !p.o.append.NotAppended?
    ensures Finish(cfg, s, p).1.writes == p.writes
  {
    var (m, q) := Step(cfg, s, p);
    Forward(cfg, s, p, m, q);
    Stops(cfg, m, q);
  }

  /** What one insert does to the inserts after it. */
  lemma InsertsShift(s: Ledger, p: Proc, n: nat, a: Adjustment)
    requires p.cmd.CreateAdjustments? && n < |p.cmd.suggestions| && Inserts(s, p, n, n)
    ensures AllInsert(s, p, n) <==> AllInsert(s.(adjustments := s.adjustments[At(p, p.o.ids[n]) := a]), p, n + 1)
  {
    var t := s.(adjustments := s.adjustments[At(p, p.o.ids[n]) := a]);
    forall m | n < m < |p.cmd.suggestions| ensures Inserts(s, p, n, m) <==> Inserts(t, p, n + 1, m) {
      if m < |p.o.ids| {
        assert At(p, p.o.ids[m]) in t.adjustments <==> At(p, p.o.ids[m]) in s.adjustments || p.o.ids[m] == p.o.ids[n];
      }
    }
    if AllInsert(t, p, n + 1) {
      forall m | n <= m < |p.cmd.suggestions| ensures Inserts(s, p, n, m) {
        assert m > n ==> Inserts(t, p, n + 1, m);
      }
    }
    if AllInsert(s, p, n) {
      var next := n + 1;
      forall m | next <= m < |p.cmd.suggestions| ensures Inserts(t, p, next, m) {
        assert Inserts(s, p, n, m);
      }
    }
  }

  lemma SameInserts(s: Ledger, p: Proc, q: Proc, n: nat)
    requires p.cmd.CreateAdjustments? && q.cmd == p.cmd && q.o == p.o && q.ctx == p.ctx
    ensures AllInsert(s, p, n) <==> AllInsert(s, q, n)
  {
    forall m | n <= m < |p.cmd.suggestions| ensures Inserts(s, p, n, m) <==> Inserts(s, q, n, m) {
    }
  }

  lemma {:induction false} InsertTail(cfg: Config, s: Ledger, p: Proc)
    requires WellPlaced(p) && p.pc.Write? && p.cmd.CreateAdjustments? && p.writes < |p.cmd.suggestions|
    ensures Finish(cfg, s, p).1.appended <==> AllInsert(s, p, p.writes) && !p.o.append.NotAppended?
    ensures Finish(cfg, s, p).1.writes >= p.writes
    decreases |p.cmd.suggestions| - p.writes
  {
    var (m, q) := Step(cfg, s, p);
    var n := p.writes;
    Forward(cfg, s, p, m, q);
    if q.pc.Done? {
      Stops(cfg, m, q);
      assert !Inserts(s, p, n, n);
    } else {
      InsertsShift(s, p, n, Adjustment(p.cmd.period, p.cmd.suggestions[n], Pending));
      SameInserts(m, p, q, n + 1);
      if q.pc.Audit? {
        AuditTail(cfg, m, q);
      } else {
        InsertTail(cfg, m, q);
      }
    }
  }

  /** What the final state of `p` says about its mutation, as far as `FailsLater` predicts it. */
  ghost predicate Ends(cfg: Config, s: Ledger, p: Proc, stores: bool)
    requires WellPlaced(p)
  {
    var (t, q) := Finish(cfg, s, p);
    && (q.writes > 0 <==> stores)
    && (stores ==> (q.appended <==> !FailsLater(s, p)))
    && (!stores ==> t == s && !q.appended)
  }

  lemma WriteRefused(cfg: Config, s: Ledger, p: Proc)
    requires WellPlaced(p) && p.pc.Write? && p.writes == 0 && !Stores(cfg, s, p)
    requires p.cmd.CreateAdjustments? ==> p.cmd.suggestions != []
    ensures Ends(cfg, s, p, false)
  {
    var (m, q) := Step(cfg, s, p);
    Forward(cfg, s, p, m, q);
    Stops(cfg, m, q);
  }

  lemma InsertsEnd(cfg: Config, s: Ledger, p: Proc)
    requires WellPlaced(p) && p.pc.Write? && p.writes == 0 && Stores(cfg, s, p) && p.cmd.CreateAdjustments?
    requires p.cmd.suggestions != []
    ensures Ends(cfg, s, p, true)
  {
    InsertTail(cfg, s, p);
    FirstInsertStays(cfg, s, p);
  }

  lemma FirstInsertStays(cfg: Config, s: Ledger, p: Proc)
    requires WellPlaced(p) && p.pc.Write? && p.writes == 0 && Stores(cfg, s, p) && p.cmd.CreateAdjustments?
    requires p.cmd.suggestions != []
    ensures Finish(cfg, s, p).1.writes > 0
  {
    var (m, q) := Step(cfg, s, p);
    Forward(cfg, s, p, m, q);
    assert q.writes == 1;
    if q.pc.Done? {
      Stops(cfg, m, q);
    } else if q.pc.Audit? {
      AuditTail(cfg, m, q);
    } else {
      InsertTail(cfg, m, q);
    }
  }

  lemma SingleWriteEnds(cfg: Config, s: Ledger, p: Proc)
    requires WellPlaced(p) && p.pc.Write? && p.writes == 0 && Stores(cfg, s, p) && !p.cmd.CreateAdjustments?
    ensures Ends(cfg, s, p, true)
  {
    var (m, q) := Step(cfg, s, p);
    Forward(cfg, s, p, m, q);
    if q.pc.Done? {
      Stops(cfg, m, q);
    } else if q.pc.Audit? {
      AuditTail(cfg, m, q);
    } else {
      var (n, r) := Step(cfg, m, q);
      Forward(cfg, m, q, n, r);
      if r.pc.Done? {
        Stops(cfg, n, r);
      } else {
        AuditTail(cfg, n, r);
      }
    }
  }

  lemma WriteEndsExactly(cfg: Config, s: Ledger, p: Proc)
    requires WellPlaced(p) && p.pc.Write? && p.writes == 0
    requires p.cmd.CreateAdjustments? ==> p.cmd.suggestions != []
    ensures Ends(cfg, s, p, Stores(cfg, s, p))
  {
    if !Stores(cfg, s, p) {
      WriteRefused(cfg, s, p);
    } else if p.cmd.CreateAdjustments? {
      InsertsEnd(cfg, s, p);
    } else {
      SingleWriteEnds(cfg, s, p);
    }
  }

  // ---------------------------------------------------------------------
  // From the start to the first write

  /** `q` is the same command further on, with nothing written yet. */
  predicate Onward(p: Proc, q: Proc) {
    q.ctx == p.ctx && q.cmd == p.cmd && q.o == p.o && q.writes == 0 && !q.appended && WellPlaced(q)
  }

  /** A step before the first write leaves the ledger alone. */
  lemma QuietStep(cfg: Config, s: Ledger, p: Proc)
    requires WellPlaced(p) && (p.pc.Start? || p.pc.Lookup? || p.pc.Check? || p.pc.Recheck?)
    ensures Step(cfg, s, p).0 == s && Onward(p, Step(cfg, s, p).1)
    ensures Finish(cfg, s, p) == Finish(cfg, s, Step(cfg, s, p).1)
  {
    Forward(cfg, s, p, s, Step(cfg, s, p).1);
  }

  lemma SameConditions(cfg: Config, s: Ledger, p: Proc, q: Proc)
    requires Onward(p, q)
    ensures Stores(cfg, s, p) <==> Stores(cfg, s, q)
    ensures FailsLater(s, p) <==> FailsLater(s, q)
  {
    if p.cmd.CreateAdjustments? {
      SameInserts(s, p, q, 0);
    }
  }

  // Which of the two it is, command by command

  /** The place the walk from `p` stops, as a function. */
  function Front(cfg: Config, s: Ledger, p: Proc): (w: Proc)
    requires WellPlaced(p) && (p.pc.Start? || p.pc.Lookup? || p.pc.Check? || p.pc.Recheck? || p.pc.Write? || p.pc.Done?)
    requires p.writes == 0 && !p.appended
    ensures Onward(p, w) && (w.pc.Write? || w.pc.Done?) && Finish(cfg, s, w) == Finish(cfg, s, p)
    decreases Rank(p)
  {
    if p.pc.Write? || p.pc.Done? then p
    else
      QuietStep(cfg, s, p);
      RankDrops(cfg, s, p);
      Front(cfg, s, Step(cfg, s, p).1)
  }

  /** The schema gives `CreateAdjustments` something to insert. */
  lemma FrontParses(cfg: Config, s: Ledger, p: Proc)
    requires New(p) && WellPlaced(p)
    ensures Front(cfg, s, p).pc.Write? ==> !p.o.inAi && Parses(p.cmd, p.o)
  {
    var q := Step(cfg, s, p).1;
    if q.pc.Done? {
      assert Front(cfg, s, p) == Front(cfg, s, q) == q;
    }
  }

  lemma EndsAtFront(cfg: Config, s: Ledger, p: Proc)
    requires New(p) && WellPlaced(p)
    ensures Ends(cfg, s, p, Front(cfg, s, p).pc.Write? && Stores(cfg, s, p))
  {
    var w := Front(cfg, s, p);
    SameConditions(cfg, s, p, w);
    FrontParses(cfg, s, p);
    if w.pc.Write? {
      WriteEndsExactly(cfg, s, w);
    } else {
      Stops(cfg, s, w);
    }
  }

  lemma FrontStep(cfg: Config, s: Ledger, p: Proc)
    requires WellPlaced(p) && (p.pc.Start? || p.pc.Lookup? || p.pc.Check? || p.pc.Recheck?) && p.writes == 0 && !p.appended
    ensures Onward(p, Step(cfg, s, p).1) && Front(cfg, s, p) == Front(cfg, s, Step(cfg, s, p).1)
  {
    QuietStep(cfg, s, p);
  }

  lemma FrontOfEntry(cfg: Config, s: Ledger, p: Proc)
    requires New(p) && WellPlaced(p)
    requires p.cmd.CreateDraftJE? || p.cmd.ProposeJE? || p.cmd.PostJE?
    ensures Front(cfg, s, p).pc.Write? <==> Admitted(cfg, s, p)
  {
    var p1 := Step(cfg, s, p).1;
    FrontStep(cfg, s, p);
    if !p1.pc.Done? {
      var p2 := Step(cfg, s, p1).1;
      FrontStep(cfg, s, p1);
      if p2.pc.Check? {
        FrontStep(cfg, s, p2);
      }
    }
  }

  lemma FrontOfUpdate(cfg: Config, s: Ledger, p: Proc)
    requires New(p) && WellPlaced(p) && p.cmd.UpdateAdjustment?
    ensures Front(cfg, s, p).pc.Write? <==> Admitted(cfg, s, p)
  {
    var p1 := Step(cfg, s, p).1;
    FrontStep(cfg, s, p);
    if !p1.pc.Done? {
      var p2 := Step(cfg, s, p1).1;
      FrontStep(cfg, s, p1);
      if !p2.pc.Done? {
        var p3 := Step(cfg, s, p2).1;
        FrontStep(cfg, s, p2);
        if !p3.pc.Done? {
          FrontStep(cfg, s, p3);
        }
      }
    }
  }

  lemma FrontOfStaged(cfg: Config, s: Ledger, p: Proc)
    requires New(p) && WellPlaced(p) && p.cmd.ApplyHitlAdjustment?
    ensures Front(cfg, s, p).pc.Write? <==> Admitted(cfg, s, p)
  {
    var p1 := Step(cfg, s, p).1;
    FrontStep(cfg, s, p);
    if !p1.pc.Done? {
      var p2 := Step(cfg, s, p1).1;
      FrontStep(cfg, s, p1);
      if !p2.pc.Done? {
        FrontStep(cfg, s, p2);
      }
    }
  }

  lemma FrontOfOther(cfg: Config, s: Ledger, p: Proc)
    requires New(p) && WellPlaced(p)
    requires p.cmd.SaveTrialBalance? || p.cmd.CreateAdjustments? || p.cmd.ApproveJE? || p.cmd.LockPeriod?
    ensures Front(cfg, s, p).pc.Write? <==> Admitted(cfg, s, p)
  {
    var p1 := Step(cfg, s, p).1;
    FrontStep(cfg, s, p);
    if p1.pc.Check? {
      FrontStep(cfg, s, p1);
    }
  }

  /**
   * For every command, every store and every way its calls can fail: it writes exactly when it is
   * admitted and its first write takes effect, and it then leaves no audit event exactly when
   * something later fails. A command that writes nothing changes nothing.
   */
  lemma UnauditedExactly(cfg: Config, s: Ledger, p: Proc)
    requires New(p)
    ensures WellPlaced(p)
    ensures var (t, q) := Finish(cfg, s, p);
            && (q.writes > 0 <==> Admitted(cfg, s, p) && Stores(cfg, s, p))
            && (q.writes > 0 && !q.appended <==> Admitted(cfg, s, p) && Stores(cfg, s, p) && FailsLater(s, p))
            && (q.writes == 0 ==> t == s)
  {
    NewPlaced(p);
    EndsAtFront(cfg, s, p);
    match p.cmd
    case CreateDraftJE(_, _, _) => FrontOfEntry(cfg, s, p);
    case ProposeJE(_) => FrontOfEntry(cfg, s, p);
    case PostJE(_) => FrontOfEntry(cfg, s, p);
    case UpdateAdjustment(_, _) => FrontOfUpdate(cfg, s, p);
    case ApplyHitlAdjustment(_, _, _) => FrontOfStaged(cfg, s, p);
    case _ => FrontOfOther(cfg, s, p);
  }

  // ---------------------------------------------------------------------
  // The same under interleaving

  /** The last write so far did not throw. */
  predicate LastWent(p: Proc) {
    p.writes > 0 ==> !OutcomeOf(p, p.writes - 1).Broke?
  }

  /** All inserts, the staging mark and the read after an approval went through. */
  predicate GotThrough(p: Proc) {
    && (p.cmd.CreateAdjustments? ==> p.writes >= |p.cmd.suggestions|)
    && (p.cmd.ApplyHitlAdjustment? ==> !p.o.markFails)
    && (p.cmd.ApproveJE? ==> !p.o.lateFails)
  }

  /** What the place of a command says about the calls behind it. */
  predicate Told(s: Ledger, p: Proc) {
    match p.pc
    case Write => LastWent(p) && (p.cmd.CreateAdjustments? && p.writes > 0 ==> p.writes < |p.cmd.suggestions|)
    case Late => LastWent(p) && (p.cmd.ApproveJE? ==> At(p, p.cmd.entry) in s.entries)
    case Mark => LastWent(p)
    case Audit => LastWent(p) && GotThrough(p)
    case Done(_) => p.writes > 0 ==> (p.appended <==> !p.o.append.NotAppended? && LastWent(p) && GotThrough(p))
    case _ => true
  }

  lemma WriteTold(cfg: Config, s: Ledger, p: Proc)
    requires WellPlaced(p) && p.pc.Write? && Told(s, p)
    ensures Told(Step(cfg, s, p).0, Step(cfg, s, p).1)
  {
  }

  lemma LaterTold(cfg: Config, s: Ledger, p: Proc)
    requires WellPlaced(p) && (p.pc.Late? || p.pc.Mark? || p.pc.Audit?) && Told(s, p)
    ensures Told(Step(cfg, s, p).0, Step(cfg, s, p).1)
  {
  }

  lemma EarlierTold(cfg: Config, s: Ledger, p: Proc)
    requires WellPlaced(p) && (p.pc.Start? || p.pc.Lookup? || p.pc.Check? || p.pc.Recheck?)
    ensures Told(Step(cfg, s, p).0, Step(cfg, s, p).1)
  {
    QuietStep(cfg, s, p);
  }

  lemma StepTold(cfg: Config, s: Ledger, p: Proc)
    requires WellPlaced(p) && !p.pc.Done? && Told(s, p)
    ensures Told(Step(cfg, s, p).0, Step(cfg, s, p).1)
  {
    if p.pc.Write? {
      WriteTold(cfg, s, p);
    } else if p.pc.Late? || p.pc.Mark? || p.pc.Audit? {
      LaterTold(cfg, s, p);
    } else {
      EarlierTold(cfg, s, p);
    }
  }

  ghost predicate AllTold(y: Sys) {
    forall i | 0 <= i < |y.procs| :: Told(y.s, y.procs[i])
  }

  lemma {:induction false} ToldAlways(cfg: Config, trace: seq<Sys>, sched: seq<nat>, t: nat)
    requires Run(cfg, trace, sched) && t <= |sched|
    ensures AllTold(trace[t])
  {
    if t == 0 {
    } else {
      ToldAlways(cfg, trace, sched, t - 1);
      NextTold(cfg, trace[t - 1], sched[t - 1]);
    }
  }

  lemma NextTold(cfg: Config, y: Sys, i: nat)
    requires Enabled(y, i) && AllTold(y)
    ensures AllTold(Next(cfg, y, i))
  {
    var z := Next(cfg, y, i);
    StepAnchored(cfg, y.s, y.procs[i]);
    forall j | 0 <= j < |z.procs| ensures Told(z.s, z.procs[j]) {
      if j == i {
        StepTold(cfg, y.s, y.procs[i]);
      } else {
        assert Told(y.s, y.procs[j]);
      }
    }
  }

  /** At step `u` the insert after the command's last write was refused, or its id was missing or taken. */
  ghost predicate TurnedDownAt(cfg: Config, trace: seq<Sys>, sched: seq<nat>, i: nat, u: nat, writes: nat) {
    && u < |sched| && u < |trace| && sched[u] == i && i < |trace[u].procs|
    && var p := trace[u].procs[i];
       && p.pc.Write? && p.writes == writes
       && (NextOutcome(p).Refused? || Attempted(cfg, trace[u].s, p).Turned?)
  }

  /** A command that is done with inserts missing was turned down at one, or its last one threw. */
  lemma {:induction false} MissingInserts(cfg: Config, trace: seq<Sys>, sched: seq<nat>, t: nat, i: nat)
    requires Run(cfg, trace, sched) && t <= |sched| && i < |trace[t].procs|
    requires var q := trace[t].procs[i];
             && q.pc.Done? && q.cmd.CreateAdjustments? && 0 < q.writes < |q.cmd.suggestions| && LastWent(q)
    ensures exists u | 0 <= u < t :: TurnedDownAt(cfg, trace, sched, i, u, trace[t].procs[i].writes)
  {
    if t == 0 {
    } else {
      PlacedAlways(cfg, trace, sched, t - 1);
      var p, q := trace[t - 1].procs[i], trace[t].procs[i];
      if p.pc.Done? {
        assert p == q;
        MissingInserts(cfg, trace, sched, t - 1, i);
        var u :| 0 <= u < t - 1 && TurnedDownAt(cfg, trace, sched, i, u, q.writes);
      } else {
        assert sched[t - 1] == i;
        ToldAlways(cfg, trace, sched, t - 1);
        EndsTurnedDown(cfg, trace[t - 1].s, p);
        assert TurnedDownAt(cfg, trace, sched, i, t - 1, q.writes);
      }
    }
  }

  lemma EndsTurnedDown(cfg: Config, s: Ledger, p: Proc)
    requires WellPlaced(p) && !p.pc.Done? && Told(s, p) && p.cmd.CreateAdjustments?
    requires var q := Step(cfg, s, p).1; q.pc.Done? && 0 < q.writes < |q.cmd.suggestions| && LastWent(q)
    ensures p.pc.Write? && p.writes == Step(cfg, s, p).1.writes
    ensures NextOutcome(p).Refused? || Attempted(cfg, s, p).Turned?
  {
    if !p.pc.Write? && !p.pc.Audit? {
      QuietStep(cfg, s, p);
    }
  }

  /**
   * Whatever the interleaving: a finished command that has written leaves no audit event exactly
   * when its append was not stored, its last write threw, its staging mark failed, the read after
   * its approval failed, or one of its inserts was turned down by the rows stored at that moment.
   */
  lemma UnauditedInRuns(cfg: Config, trace: seq<Sys>, sched: seq<nat>, t: nat, i: nat)
    requires Run(cfg, trace, sched) && t <= |sched| && i < |trace[t].procs|
    requires trace[t].procs[i].pc.Done? && trace[t].procs[i].writes > 0
    ensures var q := trace[t].procs[i];
            i !in trace[t].audited <==>
              || q.o.append.NotAppended?
              || OutcomeOf(q, q.writes - 1).Broke?
              || (q.cmd.ApplyHitlAdjustment? && q.o.markFails)
              || (q.cmd.ApproveJE? && q.o.lateFails)
              || (q.cmd.CreateAdjustments? && q.writes < |q.cmd.suggestions|
                  && exists u | 0 <= u < t :: TurnedDownAt(cfg, trace, sched, i, u, q.writes))
  {
    var q := trace[t].procs[i];
    ToldAlways(cfg, trace, sched, t);
    LedgeredAlways(cfg, trace, sched, t);
    assert Told(trace[t].s, q);
    assert q.appended <==> i in trace[t].audited;
    if q.cmd.CreateAdjustments? && q.writes < |q.cmd.suggestions| && LastWent(q) {
      MissingInserts(cfg, trace, sched, t, i);
    }
  }

  /** A step that changes the ledger leaves its command counted as one that has written. */
  lemma ChangeIsWrite(cfg: Config, s: Ledger, p: Proc)
    requires WellPlaced(p) && !p.pc.Done?
    ensures Step(cfg, s, p).0 != s ==> Step(cfg, s, p).1.writes > 0
    ensures Step(cfg, s, p).1.writes >= p.writes
  {
  }
}
