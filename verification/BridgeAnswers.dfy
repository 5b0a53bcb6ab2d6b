/** Every answer of every bridge command when no call fails: the error of each refusal, and the rows it leaves. */
module BridgeAnswers {
  import opened Bridge
  import opened BridgeCommands
  import opened BridgeRuns
  import opened Cents
  import opened Text
  import opened Wrappers

  /** The command, run alone, returns `r` and leaves `t`. */
  ghost predicate Ends(cfg: Config, s: Ledger, p: Proc, r: Result, t: Ledger) {
    && New(p)
    && (NewPlaced(p); Finish(cfg, s, p).0 == t && Finish(cfg, s, p).1.pc == Done(r))
  }

  // ---------------------------------------------------------------------
  // The rules, spelled out

  /** Lines a schema accepts: at least one, each with an account and amounts that are not negative. */
  ghost predicate GoodLines(ls: seq<Line>) {
    ls != [] && forall l <- ls :: l.account != "" && l.debit >= 0.0 && l.credit >= 0.0
  }

  function Sum(xs: seq<real>): real {
    if xs == [] then 0.0 else xs[0] + Sum(xs[1..])
  }

  function DebitsOf(ls: seq<Line>): seq<real> {
    seq(|ls|, i requires 0 <= i < |ls| => ls[i].debit)
  }

  function CreditsOf(ls: seq<Line>): seq<real> {
    seq(|ls|, i requires 0 <= i < |ls| => ls[i].credit)
  }

  ghost predicate GapWithin(tolerance: real, d: int, c: int) {
    (if d >= c then d - c else c - d) as real / 100.0 <= tolerance
  }

  /** The rounded totals of both sides differ by no more than the tolerance. */
  ghost predicate InBalance(tolerance: real, ls: seq<Line>) {
    exists d, c :: NearestCents(Sum(DebitsOf(ls)), d) && NearestCents(Sum(CreditsOf(ls)), c) && GapWithin(tolerance, d, c)
  }

  lemma {:induction false} SumLast(xs: seq<real>, x: real)
    ensures Sum(xs + [x]) == Sum(xs) + x
  {
    if xs == [] {
      assert xs + [x] == [x];
    } else {
      assert (xs + [x])[1..] == xs[1..] + [x];
      SumLast(xs[1..], x);
    }
  }

  lemma {:induction false} TotalsAreSums(ls: seq<Line>)
    ensures Debits(ls) == Sum(DebitsOf(ls)) && Credits(ls) == Sum(CreditsOf(ls))
  {
    if ls == [] {
    } else {
      var n := |ls| - 1;
      TotalsAreSums(ls[..n]);
      assert DebitsOf(ls) == DebitsOf(ls[..n]) + [ls[n].debit];
      assert CreditsOf(ls) == CreditsOf(ls[..n]) + [ls[n].credit];
      SumLast(DebitsOf(ls[..n]), ls[n].debit);
      SumLast(CreditsOf(ls[..n]), ls[n].credit);
    }
  }

  /** `Balanced` is that rule. */
  lemma BalancedExactly(cfg: Config, ls: seq<Line>)
    ensures Balanced(cfg, ls) <==> InBalance(cfg.tolerance, ls)
  {
    TotalsAreSums(ls);
    var d, c := Round2(Debits(ls)), Round2(Credits(ls));
    RoundedNearest(Debits(ls));
    RoundedNearest(Credits(ls));
    assert Balanced(cfg, ls) <==> GapWithin(cfg.tolerance, d, c);
    if InBalance(cfg.tolerance, ls) {
      var x, y :| NearestCents(Sum(DebitsOf(ls)), x) && NearestCents(Sum(CreditsOf(ls)), y) && GapWithin(cfg.tolerance, x, y);
      NearestUnique(Debits(ls), d, x);
      NearestUnique(Credits(ls), c, y);
    }
  }

  ghost predicate YearMonth(text: string, year: string, month: string) {
    && |year| == 4 && |month| == 2 && text == year + "-" + month
    && (forall c <- year :: '0' <= c <= '9') && forall c <- month :: '0' <= c <= '9'
  }

  /** A year and month at the front of a date text without surrounding white space. */
  ghost predicate MonthOf(text: string, month: string) {
    month <= Trim(text) && exists y, m :: YearMonth(month, y, m)
  }

  lemma PeriodLabelExactly(text: string, month: string)
    ensures PeriodLabel(text) == Some(month) <==> MonthOf(text, month)
  {
    var s := Trim(text);
    if PeriodLabel(text) == Some(month) {
      assert s[..7] == s[..4] + "-" + s[5..7];
      assert YearMonth(month, s[..4], s[5..7]);
    }
    if MonthOf(text, month) {
      var y, m :| YearMonth(month, y, m);
      assert month[..4] == y && month[5..7] == m && month[4] == '-';
      assert s[..7] == month && s[..4] == month[..4] && s[5..7] == month[5..7] && s[4] == month[4];
      forall i | 0 <= i < 4 ensures IsDigit(s[..4][i]) {
        assert y[i] in y;
      }
      forall i | 0 <= i < 2 ensures IsDigit(s[5..7][i]) {
        assert m[i] in m;
      }
    }
  }

  // ---------------------------------------------------------------------
  // Every answer of every command, when no call fails

  lemma Halts(cfg: Config, s: Ledger, p: Proc, q: Proc)
    requires WellPlaced(p) && !p.pc.Done? && Step(cfg, s, p) == (s, q) && q.pc.Done?
    ensures Finish(cfg, s, p) == (s, q)
  {
    Forward(cfg, s, p, s, q);
    Stops(cfg, s, q);
  }

  /** Why a save is refused, in the order of the checks. */
  ghost predicate SaveAnswers(cfg: Config, s: Ledger, p: Proc, r: Result)
    requires p.cmd.SaveTrialBalance?
  {
    r == if p.cmd.period == "" || !GoodLines(p.cmd.lines) then Err(InvalidCommand)
         else if Key(p.ctx.tenant, p.cmd.period) in s.locks then Err(PeriodLocked)
         else if !InBalance(cfg.tolerance, p.cmd.lines) then Err(Validation)
         else if p.cmd.synced && Trim(p.cmd.connection) == "" then Err(Validation)
         else Ok
  }

  lemma SaveCompletes(cfg: Config, s: Ledger, p: Proc) returns (r: Result)
    requires New(p) && p.cmd.SaveTrialBalance? && Answered(p.o)
    ensures SaveAnswers(cfg, s, p, r)
    ensures Ends(cfg, s, p, r,
                 if r != Ok then s
                 else s.(books := s.books[Key(p.ctx.tenant, p.cmd.period) := p.cmd.lines],
                         log := s.log + [Event(p.ctx.tenant, Some(p.cmd.period), p.cmd, p.ctx.actor)]))
  {
    BalancedExactly(cfg, p.cmd.lines);
    SaveExactly(cfg, s, p);
    var (_, p1) := Step(cfg, s, p);
    if p1.pc.Done? {
      Halts(cfg, s, p, p1);
      r := p1.pc.result;
    } else {
      Forward(cfg, s, p, s, p1);
      var (_, p2) := Step(cfg, s, p1);
      if p2.pc.Done? {
        Halts(cfg, s, p1, p2);
        r := p2.pc.result;
      } else {
        r := Ok;
      }
    }
  }

  lemma LockCompletes(cfg: Config, s: Ledger, p: Proc) returns (r: Result)
    requires New(p) && p.cmd.LockPeriod? && Answered(p.o)
    ensures r == if p.cmd.period == "" || p.cmd.lockedBy == "" then Err(InvalidCommand)
                 else if p.ctx.role.Some? && p.ctx.role.value != Approver then Err(Validation)
                 else Ok
    ensures Ends(cfg, s, p, r,
                 if r != Ok then s
                 else s.(locks := s.locks[Key(p.ctx.tenant, p.cmd.period) := p.cmd.lockedBy],
                         log := s.log + [Event(p.ctx.tenant, Some(p.cmd.period), p.cmd, p.ctx.actor)]))
  {
    LockExactly(cfg, s, p);
    var (_, p1) := Step(cfg, s, p);
    if p1.pc.Done? {
      Halts(cfg, s, p, p1);
      r := p1.pc.result;
    } else {
      r := Ok;
    }
  }

  /** The period of a close session, as far as its end date names one. */
  ghost predicate SessionMonth(cfg: Config, session: Key, month: Option<string>) {
    match month
    case Some(m) => session in cfg.sessions && MonthOf(cfg.sessions[session], m)
    case None => session in cfg.sessions ==> forall m :: !MonthOf(cfg.sessions[session], m)
  }

  lemma SessionMonthIs(cfg: Config, tenant: string, session: string)
    ensures SessionMonth(cfg, Key(tenant, session), SessionPeriod(cfg, tenant, session))
  {
    if Key(tenant, session) in cfg.sessions {
      var text := cfg.sessions[Key(tenant, session)];
      forall m ensures PeriodLabel(text) == Some(m) <==> MonthOf(text, m) {
        PeriodLabelExactly(text, m);
      }
    }
  }

  /** A draft: the session exists, its period, or the empty one, is unlocked, and the id is new. */
  lemma CreateCompletes(cfg: Config, s: Ledger, p: Proc) returns (r: Result, month: Option<string>)
    requires New(p) && p.cmd.CreateDraftJE? && Answered(p.o)
    ensures SessionMonth(cfg, Key(p.ctx.tenant, p.cmd.session), month)
    ensures var period := if month.Some? then month.value else "";
            && r == (if |p.cmd.memo| < 5 then Err(InvalidCommand)
                     else if Key(p.ctx.tenant, p.cmd.session) !in cfg.sessions then Err(Validation)
                     else if Key(p.ctx.tenant, period) in s.locks then Err(PeriodLocked)
                     else if p.o.ids == [] || Key(p.ctx.tenant, p.o.ids[0]) in s.entries then Err(Service)
                     else Ok)
            && Ends(cfg, s, p, r,
                    if r != Ok then s
                    else s.(entries := s.entries[Key(p.ctx.tenant, p.o.ids[0]) :=
                              Entry(p.cmd.session, Draft, if p.cmd.createdBy.Some? then p.cmd.createdBy.value else p.ctx.actor, None)],
                            log := s.log + [Event(p.ctx.tenant, Some(period), p.cmd, p.ctx.actor)]))
  {
    month := SessionPeriod(cfg, p.ctx.tenant, p.cmd.session);
    SessionMonthIs(cfg, p.ctx.tenant, p.cmd.session);
    var (_, p1) := Step(cfg, s, p);
    Forward(cfg, s, p, s, p1);
    if p1.pc.Done? {
      Stops(cfg, s, p1);
      r := p1.pc.result;
    } else {
      var (_, p2) := Step(cfg, s, p1);
      Forward(cfg, s, p1, s, p2);
      if p2.pc.Done? {
        Stops(cfg, s, p2);
        r := p2.pc.result;
      } else {
        r := CheckThenWrite(cfg, s, p2);
      }
    }
  }

  /** From the lock check on, for a command whose write follows it and is audited at once. */
  lemma CheckThenWrite(cfg: Config, s: Ledger, p: Proc) returns (r: Result)
    requires WellPlaced(p) && (if p.pc.Check? then p.period.Some? else p.pc.Write? && p.writes == 0 && p.period.None?)
    requires Answered(p.o) && (p.cmd.CreateDraftJE? || p.cmd.ProposeJE? || p.cmd.PostJE?)
    ensures var a := Attempted(cfg, s, p);
            r == if Locked(s, p) then Err(PeriodLocked) else if a.Turned? then Err(a.code) else Ok
    ensures Finish(cfg, s, p).1.pc == Done(r)
    ensures Finish(cfg, s, p).0 == if r == Ok then Logged(Attempted(cfg, s, p).ledger, p, p.period) else s
  {
    if p.pc.Write? {
      WriteEnds(cfg, s, p);
      r := Finish(cfg, s, p).1.pc.result;
    } else {
      var (_, q) := Step(cfg, s, p);
      Forward(cfg, s, p, s, q);
      if q.pc.Done? {
        Stops(cfg, s, q);
        r := q.pc.result;
      } else {
        WriteEnds(cfg, s, q);
        r := Finish(cfg, s, q).1.pc.result;
      }
    }
  }

  /** A draft is proposed, an approved entry posted: the period's lock is checked if there is one. */
  lemma MoveCompletes(cfg: Config, s: Ledger, p: Proc) returns (r: Result, month: Option<string>)
    requires New(p) && (p.cmd.ProposeJE? || p.cmd.PostJE?) && Answered(p.o)
    ensures var k := Key(p.ctx.tenant, p.cmd.entry);
            k in s.entries ==> SessionMonth(cfg, Key(p.ctx.tenant, s.entries[k].session), month)
    ensures var k := Key(p.ctx.tenant, p.cmd.entry);
            && r == (if k !in s.entries then Err(Validation)
                     else if month.Some? && Key(p.ctx.tenant, month.value) in s.locks then Err(PeriodLocked)
                     else if s.entries[k].status != (if p.cmd.ProposeJE? then Draft else EntryStatus.Approved) then Err(InvalidStatus)
                     else Ok)
            && Ends(cfg, s, p, r,
                    if r != Ok then s
                    else var e := s.entries[k];
                         s.(entries := s.entries[k := Entry(e.session, if p.cmd.ProposeJE? then Proposed else Posted, e.createdBy, e.approvedBy)],
                            log := s.log + [Event(p.ctx.tenant, month, p.cmd, p.ctx.actor)]))
  {
    var k := At(p, p.cmd.entry);
    month := if k in s.entries then SessionPeriod(cfg, p.ctx.tenant, s.entries[k].session) else None;
    if k in s.entries {
      SessionMonthIs(cfg, p.ctx.tenant, s.entries[k].session);
    }
    var (_, p1) := Step(cfg, s, p);
    Forward(cfg, s, p, s, p1);
    var (_, p2) := Step(cfg, s, p1);
    Forward(cfg, s, p1, s, p2);
    if p2.pc.Done? {
      Stops(cfg, s, p2);
      r := p2.pc.result;
    } else {
      r := CheckThenWrite(cfg, s, p2);
    }
  }

  /** Approval looks at the entry alone: its status, and whether its creator approves it. */
  lemma ApproveCompletes(cfg: Config, s: Ledger, p: Proc) returns (r: Result, month: Option<string>)
    requires New(p) && p.cmd.ApproveJE? && Answered(p.o)
    ensures var k := Key(p.ctx.tenant, p.cmd.entry);
            k in s.entries ==> SessionMonth(cfg, Key(p.ctx.tenant, s.entries[k].session), month)
    ensures var k, who := Key(p.ctx.tenant, p.cmd.entry), p.cmd.approvedBy;
            && r == (if who == "" then Err(InvalidCommand)
                     else if k !in s.entries then Err(NotFound)
                     else if s.entries[k].status != Proposed then Err(InvalidStatus)
                     else if !cfg.sameUserApproves && s.entries[k].createdBy != "" && s.entries[k].createdBy == who then Err(Segregation)
                     else Ok)
            && Ends(cfg, s, p, r,
                    if r != Ok then s
                    else var e := s.entries[k];
                         s.(entries := s.entries[k := Entry(e.session, EntryStatus.Approved, e.createdBy, Some(who))],
                            log := s.log + [Event(p.ctx.tenant, month, p.cmd, p.ctx.actor)]))
  {
    var k := At(p, p.cmd.entry);
    month := if k in s.entries then SessionPeriod(cfg, p.ctx.tenant, s.entries[k].session) else None;
    if k in s.entries {
      SessionMonthIs(cfg, p.ctx.tenant, s.entries[k].session);
    }
    var (_, p1) := Step(cfg, s, p);
    Forward(cfg, s, p, s, p1);
    if p1.pc.Done? {
      Stops(cfg, s, p1);
      r := p1.pc.result;
    } else {
      var (m, p2) := Step(cfg, s, p1);
      Forward(cfg, s, p1, m, p2);
      if p2.pc.Done? {
        Stops(cfg, m, p2);
        r := p2.pc.result;
      } else {
        var (_, p3) := Step(cfg, m, p2);
        Forward(cfg, m, p2, m, p3);
        AuditEnds(cfg, m, p3);
        r := Ok;
      }
    }
  }

  /** An adjustment's status: twice the lock, then the role. */
  lemma UpdateCompletes(cfg: Config, s: Ledger, p: Proc) returns (r: Result)
    requires New(p) && p.cmd.UpdateAdjustment? && Answered(p.o)
    ensures var k := Key(p.ctx.tenant, p.cmd.adjustment);
            && r == (if p.cmd.adjustment == "" then Err(InvalidCommand)
                     else if k !in s.adjustments then Err(Validation)
                     else if Key(p.ctx.tenant, s.adjustments[k].period) in s.locks then Err(PeriodLocked)
                     else if (p.cmd.status == Accepted || p.cmd.status == Pushed)
                             && (p.o.workflow || p.ctx.role != Some(Approver)) then Err(Validation)
                     else Ok)
            && Ends(cfg, s, p, r,
                    if r != Ok then s
                    else var a := s.adjustments[k];
                         s.(adjustments := s.adjustments[k := Adjustment(a.period, a.text, p.cmd.status)],
                            log := s.log + [Event(p.ctx.tenant, Some(a.period), p.cmd, p.ctx.actor)]))
  {
    var (_, p1) := Step(cfg, s, p);
    Forward(cfg, s, p, s, p1);
    if p1.pc.Done? {
      Stops(cfg, s, p1);
      r := p1.pc.result;
    } else {
      var (_, p2) := Step(cfg, s, p1);
      Forward(cfg, s, p1, s, p2);
      if p2.pc.Done? {
        Stops(cfg, s, p2);
        r := p2.pc.result;
      } else {
        UpdateChecked(cfg, s, p2);
        r := UpdateCheckedEnds(cfg, s, p2);
      }
    }
  }

  lemma UpdateCheckedEnds(cfg: Config, s: Ledger, p: Proc) returns (r: Result)
    requires WellPlaced(p) && p.cmd.UpdateAdjustment? && p.pc.Check? && Answered(p.o)
    requires At(p, p.cmd.adjustment) in s.adjustments && p.period == Some(s.adjustments[At(p, p.cmd.adjustment)].period)
    ensures r == if At(p, p.period.value) in s.locks then Err(PeriodLocked)
                 else if (p.cmd.status == Accepted || p.cmd.status == Pushed)
                         && (p.o.workflow || p.ctx.role != Some(Approver)) then Err(Validation)
                 else Ok
    ensures Finish(cfg, s, p).1.pc == Done(r)
  {
    UpdateChecked(cfg, s, p);
    var (_, p1) := Step(cfg, s, p);
    Forward(cfg, s, p, s, p1);
    if p1.pc.Done? {
      Stops(cfg, s, p1);
      r := p1.pc.result;
    } else {
      var (_, p2) := Step(cfg, s, p1);
      Forward(cfg, s, p1, s, p2);
      if p2.pc.Done? {
        Stops(cfg, s, p2);
        r := p2.pc.result;
      } else {
        r := Ok;
      }
    }
  }

  /** Staged rows with an adjustment: both are stored, in this order, when together they balance. */
  lemma ApplyCompletes(cfg: Config, s: Ledger, p: Proc) returns (r: Result)
    requires New(p) && p.cmd.ApplyHitlAdjustment? && Answered(p.o)
    ensures var k := Key(p.ctx.tenant, p.cmd.staged);
            && r == (if p.cmd.staged == "" || p.cmd.period == "" || !GoodLines(p.cmd.lines) then Err(InvalidCommand)
                     else if Key(p.ctx.tenant, p.cmd.period) in s.locks then Err(PeriodLocked)
                     else if k !in s.staging || s.staging[k].kind != "trial_balance_ingest" || s.staging[k].rows.None? then Err(Validation)
                     else if p.o.parsed.None? then Err(Service)
                     else if !InBalance(cfg.tolerance, p.o.parsed.value + p.cmd.lines) then Err(Validation)
                     else Ok)
            && Ends(cfg, s, p, r,
                    if r != Ok then s
                    else s.(books := s.books[Key(p.ctx.tenant, p.cmd.period) := p.o.parsed.value + p.cmd.lines],
                            staging := s.staging[k := Staged(s.staging[k].kind, s.staging[k].rows, Some(p.ctx.actor))],
                            log := s.log + [Event(p.ctx.tenant, Some(p.cmd.period), p.cmd, p.ctx.actor)]))
  {
    if p.o.parsed.Some? {
      BalancedExactly(cfg, p.o.parsed.value + p.cmd.lines);
    }
    var (_, p1) := Step(cfg, s, p);
    Forward(cfg, s, p, s, p1);
    if p1.pc.Done? {
      Stops(cfg, s, p1);
      r := p1.pc.result;
    } else {
      var (_, p2) := Step(cfg, s, p1);
      Forward(cfg, s, p1, s, p2);
      if p2.pc.Done? {
        Stops(cfg, s, p2);
        r := p2.pc.result;
      } else {
        r := StagedEnds(cfg, s, p2);
      }
    }
  }

  lemma StagedEnds(cfg: Config, s: Ledger, p: Proc) returns (r: Result)
    requires WellPlaced(p) && p.cmd.ApplyHitlAdjustment? && p.pc.Lookup? && Answered(p.o)
    ensures var k := At(p, p.cmd.staged);
            && r == (if k !in s.staging || s.staging[k].kind != "trial_balance_ingest" || s.staging[k].rows.None? then Err(Validation)
                     else if p.o.parsed.None? then Err(Service)
                     else if !Balanced(cfg, p.o.parsed.value + p.cmd.lines) then Err(Validation)
                     else Ok)
            && Finish(cfg, s, p).1.pc == Done(r)
            && Finish(cfg, s, p).0 ==
               if r != Ok then s
               else Logged(s.(books := s.books[At(p, p.cmd.period) := p.o.parsed.value + p.cmd.lines],
                              staging := s.staging[k := s.staging[k].(approvedBy := Some(p.ctx.actor))]), p, p.period)
  {
    var (_, p1) := Step(cfg, s, p);
    Forward(cfg, s, p, s, p1);
    if p1.pc.Done? {
      Stops(cfg, s, p1);
      r := p1.pc.result;
    } else {
      var (m, p2) := Step(cfg, s, p1);
      Forward(cfg, s, p1, m, p2);
      var (n, p3) := Step(cfg, m, p2);
      Forward(cfg, m, p2, n, p3);
      AuditEnds(cfg, n, p3);
      r := Ok;
    }
  }

  // Adjustments, one insert a suggestion

  /** What decides the inserts: the tenant, the period, the suggestions, and the ids handed out. */
  datatype Batch = Batch(tenant: string, period: string, texts: seq<string>, ids: seq<string>)

  function BatchOf(p: Proc): Batch
    requires p.cmd.CreateAdjustments?
  {
    Batch(p.ctx.tenant, p.cmd.period, p.cmd.suggestions, p.o.ids)
  }

  /** The adjustments after the first `k` inserts. */
  function Inserted(adjs: map<Key, Adjustment>, b: Batch, k: nat): map<Key, Adjustment>
    requires k <= |b.texts| && k <= |b.ids|
  {
    if k == 0 then adjs
    else Inserted(adjs, b, k - 1)[Key(b.tenant, b.ids[k - 1]) := Adjustment(b.period, b.texts[k - 1], Pending)]
  }

  /** The `k`-th id is there, not in use and not given out before. */
  ghost predicate FreshId(adjs: map<Key, Adjustment>, b: Batch, k: nat) {
    k < |b.ids| && Key(b.tenant, b.ids[k]) !in adjs && forall j | 0 <= j < k :: b.ids[j] != b.ids[k]
  }

  /** `k` inserts go through: all, or those before the first id that is not fresh. */
  ghost predicate InsertCount(adjs: map<Key, Adjustment>, b: Batch, k: nat) {
    && k <= |b.texts| && k <= |b.ids|
    && (forall j | 0 <= j < k :: FreshId(adjs, b, j))
    && (k < |b.texts| ==> !FreshId(adjs, b, k))
  }

  lemma {:induction false} InsertedKeys(adjs: map<Key, Adjustment>, b: Batch, k: nat, id: string)
    requires k <= |b.texts| && k <= |b.ids|
    ensures Key(b.tenant, id) in Inserted(adjs, b, k) <==>
            Key(b.tenant, id) in adjs || exists j | 0 <= j < k :: b.ids[j] == id
  {
    if k > 0 {
      InsertedKeys(adjs, b, k - 1, id);
    }
  }

  /** One insert: it takes place exactly when its id is fresh. */
  lemma InsertStep(cfg: Config, s: Ledger, p: Proc, n: nat)
    requires WellPlaced(p) && p.cmd.CreateAdjustments? && p.pc.Write? && p.writes == n < |p.cmd.suggestions| && Answered(p.o)
    requires n <= |p.o.ids|
    ensures var b := BatchOf(p); var m := s.(adjustments := Inserted(s.adjustments, b, n));
            var (t, q) := Step(cfg, m, p);
            if FreshId(s.adjustments, b, n) then
              && t == s.(adjustments := Inserted(s.adjustments, b, n + 1))
              && q == p.(writes := n + 1, pc := if n + 1 < |p.cmd.suggestions| then Write else Audit)
            else t == m && q == End(p, Err(Service))
  {
    if n < |p.o.ids| {
      InsertedKeys(s.adjustments, BatchOf(p), n, p.o.ids[n]);
    }
  }

  /** From the insert after the `n`-th on. */
  lemma {:induction false} InsertsFrom(cfg: Config, s: Ledger, p: Proc, n: nat) returns (r: Result, k: nat)
    requires WellPlaced(p) && p.cmd.CreateAdjustments? && p.pc.Write? && p.writes == n < |p.cmd.suggestions| && Answered(p.o)
    requires n <= |p.o.ids| && (forall j | 0 <= j < n :: FreshId(s.adjustments, BatchOf(p), j))
    ensures InsertCount(s.adjustments, BatchOf(p), k) && r == (if k == |p.cmd.suggestions| then Ok else Err(Service))
    ensures var m, t := s.(adjustments := Inserted(s.adjustments, BatchOf(p), n)), s.(adjustments := Inserted(s.adjustments, BatchOf(p), k));
            && Finish(cfg, m, p).1.pc == Done(r)
            && Finish(cfg, m, p).0 == if r == Ok then Logged(t, p, p.period) else t
    decreases |p.cmd.suggestions| - n
  {
    InsertForward(cfg, s, p, n);
    if !FreshId(s.adjustments, BatchOf(p), n) {
      r, k := Err(Service), n;
    } else {
      var q := p.(writes := n + 1, pc := if n + 1 < |p.cmd.suggestions| then Write else Audit);
      if q.pc.Write? {
        r, k := InsertsFrom(cfg, s, q, n + 1);
      } else {
        AuditEnds(cfg, s.(adjustments := Inserted(s.adjustments, BatchOf(p), n + 1)), q);
        r, k := Ok, n + 1;
      }
    }
  }

  lemma InsertForward(cfg: Config, s: Ledger, p: Proc, n: nat)
    requires WellPlaced(p) && p.cmd.CreateAdjustments? && p.pc.Write? && p.writes == n < |p.cmd.suggestions| && Answered(p.o)
    requires n <= |p.o.ids|
    ensures var b := BatchOf(p); var m := s.(adjustments := Inserted(s.adjustments, b, n));
            if FreshId(s.adjustments, b, n) then
              var q := p.(writes := n + 1, pc := if n + 1 < |p.cmd.suggestions| then Write else Audit);
              WellPlaced(q) && Finish(cfg, m, p) == Finish(cfg, s.(adjustments := Inserted(s.adjustments, b, n + 1)), q)
            else Finish(cfg, m, p) == (m, End(p, Err(Service)))
  {
    var m := s.(adjustments := Inserted(s.adjustments, BatchOf(p), n));
    InsertStep(cfg, s, p, n);
    var (t, q) := Step(cfg, m, p);
    Forward(cfg, m, p, t, q);
    if q.pc.Done? {
      Stops(cfg, t, q);
    }
  }

  /**
   * Suggestions become pending adjustments in their order, under the given ids. When an id is
   * missing or taken the command stops there, the earlier ones stay and no event is written.
   */
  lemma AdjustmentsComplete(cfg: Config, s: Ledger, p: Proc) returns (r: Result, k: nat)
    requires New(p) && p.cmd.CreateAdjustments? && Answered(p.o)
    ensures k <= |p.cmd.suggestions| && k <= |p.o.ids|
    ensures var invalid, locked := p.cmd.period == "" || p.cmd.suggestions == [], Key(p.ctx.tenant, p.cmd.period) in s.locks;
            var unproven := p.cmd.fromJE && !p.o.provenanceOk;
            && (if invalid || locked || unproven then k == 0 else InsertCount(s.adjustments, BatchOf(p), k))
            && r == if invalid then Err(InvalidCommand)
                    else if locked then Err(PeriodLocked)
                    else if unproven then Err(Validation)
                    else if k < |p.cmd.suggestions| then Err(Service)
                    else Ok
    ensures var t := s.(adjustments := Inserted(s.adjustments, BatchOf(p), k));
            Ends(cfg, s, p, r,
                 if r != Ok then t else t.(log := s.log + [Event(p.ctx.tenant, Some(p.cmd.period), p.cmd, p.ctx.actor)]))
  {
    k := 0;
    assert s.(adjustments := Inserted(s.adjustments, BatchOf(p), 0)) == s;
    var (_, p1) := Step(cfg, s, p);
    Forward(cfg, s, p, s, p1);
    if p1.pc.Done? {
      Stops(cfg, s, p1);
      r := p1.pc.result;
    } else {
      var (_, p2) := Step(cfg, s, p1);
      Forward(cfg, s, p1, s, p2);
      if p2.pc.Done? {
        Stops(cfg, s, p2);
        r := p2.pc.result;
      } else {
        r, k := InsertsFrom(cfg, s, p2, 0);
      }
    }
  }

  /** What the store then holds: each suggestion under its id, and everything else as before. */
  lemma {:induction false} InsertedExactly(adjs: map<Key, Adjustment>, b: Batch, k: nat, key: Key)
    requires k <= |b.texts| && k <= |b.ids| && forall j | 0 <= j < k :: FreshId(adjs, b, j)
    ensures forall j | 0 <= j < k && key == Key(b.tenant, b.ids[j]) ::
              key in Inserted(adjs, b, k) && Inserted(adjs, b, k)[key] == Adjustment(b.period, b.texts[j], Pending)
    ensures (forall j | 0 <= j < k :: key != Key(b.tenant, b.ids[j])) ==>
              (key in Inserted(adjs, b, k) <==> key in adjs) && (key in adjs ==> Inserted(adjs, b, k)[key] == adjs[key])
  {
    if k > 0 {
      InsertedExactly(adjs, b, k - 1, key);
      assert FreshId(adjs, b, k - 1);
    }
  }

  // ---------------------------------------------------------------------
  // And when a call fails

  /** The call the command makes at this step fails, without the write having been refused. */
  ghost predicate CallFails(cfg: Config, s: Ledger, p: Proc) {
    match p.pc
    case Lookup => p.o.lookupFails
    case Check => p.o.checkFails
    case Recheck => p.o.recheckFails
    case Late => p.o.lateFails
    case Mark => p.o.markFails
    case Audit => p.o.append != Acknowledged
    case Write => (p.writes < |p.o.writes| && p.o.writes[p.writes] == Broke) && Attempted(cfg, s, p).Stored?
    case _ => false
  }

  /** A failing call ends the command with SERVICE, and only a lost reply or a broken write leaves something. */
  lemma FailureAnswers(cfg: Config, s: Ledger, p: Proc)
    requires WellPlaced(p) && !p.pc.Done? && CallFails(cfg, s, p)
    ensures Finish(cfg, s, p).1.pc == Done(Err(Service))
    ensures var t := Finish(cfg, s, p).0;
            if p.pc.Write? then t == Attempted(cfg, s, p).ledger
            else if p.pc.Audit? && p.o.append.ReplyLost? then t == s.(log := s.log + [Event(p.ctx.tenant, p.period, p.cmd, p.ctx.actor)])
            else t == s
  {
    var (t, q) := Step(cfg, s, p);
    Forward(cfg, s, p, t, q);
    Stops(cfg, t, q);
  }

  /** A refused write ends it with the code of the refusal; an AI call or a bad command, before anything is read. */
  lemma RefusalAnswers(cfg: Config, s: Ledger, p: Proc)
    requires WellPlaced(p) && !p.pc.Done?
    ensures p.pc.Write? && p.writes < |p.o.writes| && p.o.writes[p.writes].Refused? ==>
              Finish(cfg, s, p).1.pc == Done(Err(p.o.writes[p.writes].code)) && Finish(cfg, s, p).0 == s
    ensures p.pc.Recheck? && !p.o.recheckFails && Key(p.ctx.tenant, p.cmd.adjustment) in s.adjustments
            && p.period.Some? && Key(p.ctx.tenant, p.period.value) in s.locks ==>
              Finish(cfg, s, p).1.pc == Done(Err(if p.period.value == "" then Validation else PeriodLocked)) && Finish(cfg, s, p).0 == s
    ensures p.pc.Start? && p.o.inAi ==> Finish(cfg, s, p).1.pc == Done(Thrown) && Finish(cfg, s, p).0 == s
    ensures p.pc.Start? && !p.o.inAi && !p.o.schemaOk ==>
              Finish(cfg, s, p).1.pc == Done(Err(InvalidCommand)) && Finish(cfg, s, p).0 == s
  {
    var (t, q) := Step(cfg, s, p);
    Forward(cfg, s, p, t, q);
    if q.pc.Done? {
      Stops(cfg, t, q);
    }
  }
}
