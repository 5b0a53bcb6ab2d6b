/** When each bridge command succeeds on its own, and what it then leaves behind. */
module BridgeCommands {
  import opened Bridge
  import opened BridgeRuns
  import opened Text
  import opened Wrappers

  /** The command returned ok and left `t`, or failed and left everything as it was. */
  ghost predicate Exactly(cfg: Config, s: Ledger, p: Proc, ok: bool, t: Ledger) {
    && New(p)
    && (NewPlaced(p); Finish(cfg, s, p).0 == (if ok then t else s) && (Finish(cfg, s, p).1.pc == Done(Ok) <==> ok))
  }

  // ---------------------------------------------------------------------
  // Running to the end

  lemma Forward(cfg: Config, s: Ledger, p: Proc, m: Ledger, q: Proc)
    requires WellPlaced(p) && !p.pc.Done? && Step(cfg, s, p) == (m, q)
    ensures Finish(cfg, s, p) == Finish(cfg, m, q)
  {
  }

  lemma Stops(cfg: Config, s: Ledger, p: Proc)
    requires WellPlaced(p) && p.pc.Done?
    ensures Finish(cfg, s, p) == (s, p)
  {
  }

  /** What an acknowledged append adds. */
  function Logged(s: Ledger, p: Proc, period: Option<string>): Ledger {
    s.(log := s.log + [Event(p.ctx.tenant, period, p.cmd, p.ctx.actor)])
  }

  lemma AuditEnds(cfg: Config, s: Ledger, p: Proc)
    requires WellPlaced(p) && p.pc.Audit? && p.o.append.Acknowledged?
    ensures Finish(cfg, s, p).0 == Logged(s, p, p.period) && Finish(cfg, s, p).1.pc == Done(Ok)
  {
    var q := Step(cfg, s, p).1;
    Forward(cfg, s, p, Logged(s, p, p.period), q);
    Stops(cfg, Logged(s, p, p.period), q);
  }

  /** No call fails; what the workflow and the provenance check say is left open. */
  predicate Answered(o: Oracle) {
    Smooth(o.(provenanceOk := true, workflow := false))
  }

  /** A write that nothing disturbs, in a command whose audit comes right after it. */
  lemma WriteEnds(cfg: Config, s: Ledger, p: Proc)
    requires WellPlaced(p) && p.pc.Write? && p.writes == 0 && Answered(p.o)
    requires !p.cmd.CreateAdjustments? && !p.cmd.ApplyHitlAdjustment? && !p.cmd.ApproveJE?
    ensures var a := Attempted(cfg, s, p); var (t, q) := Finish(cfg, s, p);
            if a.Stored? then t == Logged(a.ledger, p, p.period) && q.pc == Done(Ok)
            else t == s && q.pc == Done(Err(a.code))
  {
    var a := Attempted(cfg, s, p);
    var (m, q) := Step(cfg, s, p);
    Forward(cfg, s, p, m, q);
    if a.Stored? {
      AuditEnds(cfg, m, q);
    } else {
      Stops(cfg, m, q);
    }
  }

  /** A trial balance is stored exactly when the period is unlocked, it balances, and a sync names its connection. */
  lemma SaveExactly(cfg: Config, s: Ledger, p: Proc)
    requires New(p) && p.cmd.SaveTrialBalance? && Answered(p.o)
    ensures var k := At(p, p.cmd.period);
            Exactly(cfg, s, p,
              && Parses(p.cmd, p.o) && k !in s.locks && Balanced(cfg, p.cmd.lines)
              && (p.cmd.synced ==> Trim(p.cmd.connection) != ""),
              Logged(s.(books := s.books[k := p.cmd.lines]), p, Some(p.cmd.period)))
  {
    var (_, p1) := Step(cfg, s, p);
    Forward(cfg, s, p, s, p1);
    if p1.pc.Done? {
      Stops(cfg, s, p1);
    } else {
      var (_, p2) := Step(cfg, s, p1);
      Forward(cfg, s, p1, s, p2);
      if p2.pc.Done? {
        Stops(cfg, s, p2);
      } else {
        WriteEnds(cfg, s, p2);
      }
    }
  }

  /** A period is locked exactly by an approver, or by a caller without a role. */
  lemma LockExactly(cfg: Config, s: Ledger, p: Proc)
    requires New(p) && p.cmd.LockPeriod? && Answered(p.o)
    ensures Exactly(cfg, s, p, Parses(p.cmd, p.o) && MayLock(p.ctx.role),
                    Logged(s.(locks := s.locks[At(p, p.cmd.period) := p.cmd.lockedBy]), p, Some(p.cmd.period)))
  {
    var (_, p1) := Step(cfg, s, p);
    Forward(cfg, s, p, s, p1);
    if p1.pc.Done? {
      Stops(cfg, s, p1);
    } else {
      WriteEnds(cfg, s, p1);
    }
  }

  /** The entry's period, and whether its lock lets a move through: no period, no check. */
  predicate MoveAllowed(cfg: Config, s: Ledger, k: Key) {
    k in s.entries &&
    var period := SessionPeriod(cfg, k.tenant, s.entries[k].session);
    period.Some? ==> Key(k.tenant, period.value) !in s.locks
  }

  /** A draft is proposed, and an approved entry posted, exactly in an unlocked period or in none. */
  lemma MoveExactly(cfg: Config, s: Ledger, p: Proc, from: EntryStatus, to: EntryStatus)
    requires New(p) && Smooth(p.o)
    requires (p.cmd.ProposeJE? && from == Draft && to == Proposed)
          || (p.cmd.PostJE? && from == EntryStatus.Approved && to == Posted)
    ensures var k := At(p, p.cmd.entry);
            Exactly(cfg, s, p,
              MoveAllowed(cfg, s, k) && s.entries[k].status == from,
              if k !in s.entries then s
              else Logged(s.(entries := s.entries[k := s.entries[k].(status := to)]), p,
                          SessionPeriod(cfg, k.tenant, s.entries[k].session)))
  {
    var (_, p1) := Step(cfg, s, p);
    Forward(cfg, s, p, s, p1);
    var (_, p2) := Step(cfg, s, p1);
    Forward(cfg, s, p1, s, p2);
    if p2.pc.Done? {
      Stops(cfg, s, p2);
    } else if p2.pc.Write? {
      WriteEnds(cfg, s, p2);
    } else {
      var (_, p3) := Step(cfg, s, p2);
      Forward(cfg, s, p2, s, p3);
      if p3.pc.Done? {
        Stops(cfg, s, p3);
      } else {
        WriteEnds(cfg, s, p3);
      }
    }
  }

  /** An adjustment's status changes exactly when it exists, its period is unlocked and the role allows it. */
  lemma UpdateExactly(cfg: Config, s: Ledger, p: Proc)
    requires New(p) && p.cmd.UpdateAdjustment? && Smooth(p.o)
    ensures var k := At(p, p.cmd.adjustment);
            Exactly(cfg, s, p,
              && Parses(p.cmd, p.o) && k in s.adjustments && At(p, s.adjustments[k].period) !in s.locks
              && MayDecide(p.ctx.role, p.cmd.status),
              if k !in s.adjustments then s
              else Logged(s.(adjustments := s.adjustments[k := s.adjustments[k].(status := p.cmd.status)]), p,
                          Some(s.adjustments[k].period)))
  {
    var (_, p1) := Step(cfg, s, p);
    Forward(cfg, s, p, s, p1);
    if p1.pc.Done? {
      Stops(cfg, s, p1);
    } else {
      var (_, p2) := Step(cfg, s, p1);
      Forward(cfg, s, p1, s, p2);
      if p2.pc.Done? {
        Stops(cfg, s, p2);
      } else {
        UpdateChecked(cfg, s, p2);
      }
    }
  }

  lemma UpdateChecked(cfg: Config, s: Ledger, p: Proc)
    requires WellPlaced(p) && p.cmd.UpdateAdjustment? && p.pc.Check? && Answered(p.o)
    requires At(p, p.cmd.adjustment) in s.adjustments && p.period == Some(s.adjustments[At(p, p.cmd.adjustment)].period)
    ensures var k := At(p, p.cmd.adjustment); var (t, q) := Finish(cfg, s, p);
            var ok := && At(p, p.period.value) !in s.locks && !(p.o.workflow && (p.cmd.status.Accepted? || p.cmd.status.Pushed?))
                      && MayDecide(p.ctx.role, p.cmd.status);
            && (q.pc == Done(Ok) <==> ok)
            && t == if !ok then s
                    else Logged(s.(adjustments := s.adjustments[k := s.adjustments[k].(status := p.cmd.status)]), p, p.period)
  {
    var (_, p1) := Step(cfg, s, p);
    Forward(cfg, s, p, s, p1);
    if p1.pc.Done? {
      Stops(cfg, s, p1);
    } else {
      var (_, p2) := Step(cfg, s, p1);
      Forward(cfg, s, p1, s, p2);
      if p2.pc.Done? {
        Stops(cfg, s, p2);
      } else {
        WriteEnds(cfg, s, p2);
      }
    }
  }
}
