/** Whole runs of bridge commands: interleaved step by step, and one after another. */
module BridgeRuns {
  import opened Bridge
  import opened Wrappers

  // ---------------------------------------------------------------------
  // Interleaved runs

  /** `audited` lists the commands in the order of their audit events. */
  datatype Sys = Sys(s: Ledger, procs: seq<Proc>, audited: seq<nat>)

  predicate Enabled(y: Sys, i: nat) {
    i < |y.procs| && WellPlaced(y.procs[i]) && !y.procs[i].pc.Done?
  }

  function Next(cfg: Config, y: Sys, i: nat): Sys
    requires Enabled(y, i)
  {
    var (s, p) := Step(cfg, y.s, y.procs[i]);
    Sys(s, y.procs[i := p], if p.appended then y.audited + [i] else y.audited)
  }

  ghost predicate Fresh(y: Sys) {
    && y.audited == []
    && forall i | 0 <= i < |y.procs| :: New(y.procs[i])
  }

  predicate New(p: Proc) {
    p == Begin(p.ctx, p.cmd, p.o)
  }

  lemma NewPlaced(p: Proc)
    requires New(p)
    ensures WellPlaced(p) && p.pc == Start
  {
  }

  ghost predicate Run(cfg: Config, trace: seq<Sys>, sched: seq<nat>) {
    && |trace| == |sched| + 1
    && Fresh(trace[0])
    && forall t | 0 <= t < |sched| :: Enabled(trace[t], sched[t]) && trace[t + 1] == Next(cfg, trace[t], sched[t])
  }

  ghost predicate Placed(y: Sys) {
    forall i | 0 <= i < |y.procs| :: WellPlaced(y.procs[i])
  }

  lemma {:induction false} PlacedAlways(cfg: Config, trace: seq<Sys>, sched: seq<nat>, t: nat)
    requires Run(cfg, trace, sched) && t <= |sched|
    ensures Placed(trace[t]) && |trace[t].procs| == |trace[0].procs|
  {
    if t == 0 {
    } else {
      PlacedAlways(cfg, trace, sched, t - 1);
      assert trace[t] == Next(cfg, trace[t - 1], sched[t - 1]);
    }
  }

  ghost predicate BalancedSys(cfg: Config, y: Sys) {
    AllBalanced(cfg, y.s) && forall i | 0 <= i < |y.procs| :: RowsReady(cfg, y.procs[i])
  }

  lemma NextBalanced(cfg: Config, y: Sys, i: nat)
    requires Enabled(y, i) && BalancedSys(cfg, y)
    ensures BalancedSys(cfg, Next(cfg, y, i))
  {
    StepBalanced(cfg, y.s, y.procs[i]);
  }

  /** Whatever the interleaving and the failures, no stored trial balance is ever out of balance. */
  lemma {:induction false} BalancedAlways(cfg: Config, trace: seq<Sys>, sched: seq<nat>, t: nat)
    requires Run(cfg, trace, sched) && t <= |sched| && AllBalanced(cfg, trace[0].s)
    ensures AllBalanced(cfg, trace[t].s) && BalancedSys(cfg, trace[t])
  {
    if t == 0 {
    } else {
      BalancedAlways(cfg, trace, sched, t - 1);
      NextBalanced(cfg, trace[t - 1], sched[t - 1]);
    }
  }

  /** No entry is ever approved or posted on its creator's own approval. */
  lemma {:induction false} SegregatedAlways(cfg: Config, trace: seq<Sys>, sched: seq<nat>, t: nat)
    requires Run(cfg, trace, sched) && t <= |sched| && Segregated(trace[0].s) && !cfg.sameUserApproves
    ensures Segregated(trace[t].s)
  {
    if t == 0 {
    } else {
      SegregatedAlways(cfg, trace, sched, t - 1);
      StepSegregated(cfg, trace[t - 1].s, trace[t - 1].procs[sched[t - 1]]);
    }
  }

  /** The events after the first `from` are those of the audited commands, each once, in order. */
  ghost predicate Ledgered(y: Sys, before: seq<Event>) {
    && |y.s.log| == |before| + |y.audited|
    && y.s.log[..|before|] == before
    && (forall n | 0 <= n < |y.audited| ::
          && y.audited[n] < |y.procs|
          && y.procs[y.audited[n]].appended
          && y.s.log[|before| + n] == EventOf(y.procs[y.audited[n]]))
    && (forall m, n | 0 <= m < n < |y.audited| :: y.audited[m] != y.audited[n])
    && (forall i | 0 <= i < |y.procs| && y.procs[i].appended :: i in y.audited)
    && (forall i | 0 <= i < |y.procs| && y.procs[i].appended :: y.procs[i].pc.Done?)
  }

  lemma WriteKeepsLog(cfg: Config, s: Ledger, p: Proc)
    requires WellPlaced(p) && p.pc.Write?
    ensures OnWrite(cfg, s, p).0.log == s.log
  {
  }

  lemma StepLog(cfg: Config, s: Ledger, p: Proc)
    requires WellPlaced(p) && !p.pc.Done?
    ensures !p.appended
    ensures var (t, q) := Step(cfg, s, p);
            && t.log == (if q.appended then s.log + [EventOf(q)] else s.log)
            && (q.appended ==> q.pc.Done?)
  {
    if p.pc.Write? {
      WriteKeepsLog(cfg, s, p);
    }
  }

  lemma NextLedgered(cfg: Config, y: Sys, i: nat, before: seq<Event>)
    requires Enabled(y, i) && Ledgered(y, before)
    ensures Ledgered(Next(cfg, y, i), before)
  {
    var p := y.procs[i];
    StepLog(cfg, y.s, p);
    var q := Step(cfg, y.s, p).1;
    var z := Next(cfg, y, i);
    assert i !in y.audited;
    if q.appended {
      assert z.s.log == y.s.log + [EventOf(q)];
      forall n | 0 <= n < |z.audited|
        ensures && z.audited[n] < |z.procs| && z.procs[z.audited[n]].appended
                && z.s.log[|before| + n] == EventOf(z.procs[z.audited[n]])
      {
        if n < |y.audited| {
          assert z.audited[n] == y.audited[n] != i;
        }
      }
      forall j | 0 <= j < |z.procs| && z.procs[j].appended ensures j in z.audited {
        assert z.audited[|y.audited|] == i;
        if j != i {
          assert j in y.audited;
        }
      }
    }
  }

  lemma {:induction false} LedgeredAlways(cfg: Config, trace: seq<Sys>, sched: seq<nat>, t: nat)
    requires Run(cfg, trace, sched) && t <= |sched|
    ensures Ledgered(trace[t], trace[0].s.log)
  {
    if t == 0 {
    } else {
      LedgeredAlways(cfg, trace, sched, t - 1);
      NextLedgered(cfg, trace[t - 1], sched[t - 1], trace[0].s.log);
    }
  }

  /** An audited command returned ok, or lost the reply of its own append. */
  lemma AuditedEnds(p: Proc)
    requires WellPlaced(p)
    ensures p.pc == Done(Ok) ==> p.appended
    ensures p.appended && p.pc.Done? ==> p.pc == Done(Ok) || p.o.append.ReplyLost?
  {
  }

  /**
   * The audit log of a run: one event for every command that returned ok, none for a command
   * that failed unless the failure was the lost reply of the append itself.
   */
  lemma AuditExactly(cfg: Config, trace: seq<Sys>, sched: seq<nat>, t: nat)
    requires Run(cfg, trace, sched) && t <= |sched|
    ensures Ledgered(trace[t], trace[0].s.log)
    ensures forall i | 0 <= i < |trace[t].procs| ::
              && (trace[t].procs[i].pc == Done(Ok) ==> i in trace[t].audited)
              && (i in trace[t].audited && !trace[t].procs[i].o.append.ReplyLost? ==> trace[t].procs[i].pc == Done(Ok))
  {
    PlacedAlways(cfg, trace, sched, t);
    LedgeredAlways(cfg, trace, sched, t);
    var y := trace[t];
    forall i | 0 <= i < |y.procs|
      ensures && (y.procs[i].pc == Done(Ok) ==> i in y.audited)
              && (i in y.audited && !y.procs[i].o.append.ReplyLost? ==> y.procs[i].pc == Done(Ok))
    {
      AuditedEnds(y.procs[i]);
    }
  }

  // ---------------------------------------------------------------------
  // Locks under interleaving

  lemma LockStays(cfg: Config, trace: seq<Sys>, sched: seq<nat>, t: nat, k: Key)
    requires Run(cfg, trace, sched) && t < |sched| && k in trace[t].s.locks
    ensures k in trace[t + 1].s.locks
  {
    StepAnchored(cfg, trace[t].s, trace[t].procs[sched[t]]);
  }

  lemma {:induction false} LocksStay(cfg: Config, trace: seq<Sys>, sched: seq<nat>, t: nat, u: nat, k: Key)
    requires Run(cfg, trace, sched) && t <= u <= |sched| && k in trace[t].s.locks
    ensures k in trace[u].s.locks
    decreases u - t
  {
    if t == u {
    } else {
      LocksStay(cfg, trace, sched, t, u - 1, k);
      LockStays(cfg, trace, sched, u - 1, k);
    }
  }

  /** The command checked the lock of its period and has yet to write. */
  predicate Cleared(p: Proc) {
    && (p.pc.Write? || p.pc.Recheck? || (p.pc.Lookup? && p.cmd.ApplyHitlAdjustment?))
    && !p.cmd.ApproveJE? && !p.cmd.LockPeriod? && p.period.Some?
  }

  /** At step `u` command `i` checked the lock of `k` and found it free. */
  ghost predicate CheckedAt(trace: seq<Sys>, sched: seq<nat>, i: nat, k: Key, u: nat) {
    && u < |sched| && u < |trace| && sched[u] == i && i < |trace[u].procs|
    && trace[u].procs[i].pc.Check? && k !in trace[u].s.locks
  }

  ghost predicate KnownSys(cfg: Config, y: Sys) {
    forall i | 0 <= i < |y.procs| :: Knows(cfg, y.s, y.procs[i])
  }

  lemma KnowsStays(cfg: Config, s: Ledger, t: Ledger, p: Proc)
    requires Knows(cfg, s, p) && Anchored(s, t)
    ensures Knows(cfg, t, p)
  {
  }

  lemma NextKnown(cfg: Config, y: Sys, i: nat)
    requires Enabled(y, i) && KnownSys(cfg, y)
    ensures KnownSys(cfg, Next(cfg, y, i))
  {
    var z := Next(cfg, y, i);
    StepAnchored(cfg, y.s, y.procs[i]);
    forall j | 0 <= j < |z.procs| ensures Knows(cfg, z.s, z.procs[j]) {
      if j == i {
        StepKnows(cfg, y.s, y.procs[i]);
      } else {
        KnowsStays(cfg, y.s, z.s, y.procs[j]);
      }
    }
  }

  lemma {:induction false} KnownAlways(cfg: Config, trace: seq<Sys>, sched: seq<nat>, t: nat)
    requires Run(cfg, trace, sched) && t <= |sched|
    ensures KnownSys(cfg, trace[t])
  {
    if t == 0 {
    } else {
      KnownAlways(cfg, trace, sched, t - 1);
      NextKnown(cfg, trace[t - 1], sched[t - 1]);
    }
  }

  /** Only a lock check clears a command, and it found the lock free. */
  lemma StepClears(cfg: Config, s: Ledger, p: Proc)
    requires WellPlaced(p) && !p.pc.Done? && Cleared(Step(cfg, s, p).1)
    ensures var q := Step(cfg, s, p).1;
            || (Cleared(p) && q.period == p.period)
            || (p.pc.Check? && At(p, q.period.value) !in s.locks)
  {
  }

  lemma {:induction false} ClearedWereChecked(cfg: Config, trace: seq<Sys>, sched: seq<nat>, t: nat, i: nat)
    requires Run(cfg, trace, sched) && t <= |sched| && i < |trace[t].procs| && Cleared(trace[t].procs[i])
    ensures exists u | 0 <= u < t ::
              CheckedAt(trace, sched, i, At(trace[t].procs[i], trace[t].procs[i].period.value), u)
  {
    if t == 0 {
    } else {
      var y, j := trace[t - 1], sched[t - 1];
      var p, q := y.procs[i], trace[t].procs[i];
      if i == j {
        StepClears(cfg, y.s, p);
      }
      if Cleared(p) && q.period == p.period {
        ClearedWereChecked(cfg, trace, sched, t - 1, i);
        var u :| 0 <= u < t - 1 && CheckedAt(trace, sched, i, At(p, p.period.value), u);
        assert At(q, q.period.value) == At(p, p.period.value);
        assert CheckedAt(trace, sched, i, At(q, q.period.value), u);
      } else {
        assert CheckedAt(trace, sched, i, At(q, q.period.value), t - 1);
      }
    }
  }

  /**
   * Every change to a period (its trial balance, its adjustments, or drafting, proposing or
   * posting an entry in it) is made by a command that had found that period unlocked.
   */
  lemma ChangesWereChecked(cfg: Config, trace: seq<Sys>, sched: seq<nat>, t: nat, k: Key)
    requires Run(cfg, trace, sched) && t < |sched|
    requires !Frozen(cfg, k, trace[t].s, trace[t + 1].s)
    ensures exists u | 0 <= u < t :: CheckedAt(trace, sched, sched[t], k, u)
  {
    var y, i := trace[t], sched[t];
    var p := y.procs[i];
    KnownAlways(cfg, trace, sched, t);
    if p.pc.Write? && !p.cmd.ApproveJE? && !p.cmd.LockPeriod? && p.ctx.tenant == k.tenant && p.period == Some(k.name) {
      assert Cleared(p) && At(p, p.period.value) == k;
      ClearedWereChecked(cfg, trace, sched, t, i);
    } else {
      StepTouches(cfg, y.s, p, k);
    }
  }

  /**
   * So a change to a period that is locked is a race: the command checked before the lock was
   * taken and wrote after it.
   */
  lemma LockedChangeIsRace(cfg: Config, trace: seq<Sys>, sched: seq<nat>, l: nat, t: nat, k: Key)
    requires Run(cfg, trace, sched) && l <= t < |sched|
    requires k in trace[l].s.locks && !Frozen(cfg, k, trace[t].s, trace[t + 1].s)
    ensures exists u | 0 <= u < l :: CheckedAt(trace, sched, sched[t], k, u)
  {
    ChangesWereChecked(cfg, trace, sched, t, k);
    var u :| 0 <= u < t && CheckedAt(trace, sched, sched[t], k, u);
    if u >= l {
      LocksStay(cfg, trace, sched, l, u, k);
    }
  }

  /** An oracle under which nothing fails. */
  predicate Smooth(o: Oracle) {
    && !o.inAi && o.schemaOk && !o.lookupFails && !o.checkFails && !o.recheckFails && !o.lateFails && !o.markFails
    && o.provenanceOk && !o.workflow && o.writes == [] && o.append.Acknowledged?
  }

  /** The next step of the command stores its write. */
  predicate AboutToStore(cfg: Config, s: Ledger, p: Proc) {
    && WellPlaced(p) && p.pc.Write? && Cleared(p)
    && !NextOutcome(p).Refused? && Attempted(cfg, s, p).Stored?
  }

  /** A lock command that nothing will stop. */
  predicate WillLock(p: Proc, k: Key) {
    New(p) && Smooth(p.o) && p.cmd.LockPeriod? && Parses(p.cmd, p.o) && MayLock(p.ctx.role) && At(p, p.cmd.period) == k
  }

  lemma LocksDoNotMatter(cfg: Config, s: Ledger, p: Proc, locks: map<Key, string>)
    requires p.pc.Write? && Cleared(p) && Attempted(cfg, s, p).Stored?
    ensures Attempted(cfg, s.(locks := locks), p) == Stored(Attempted(cfg, s, p).ledger.(locks := locks))
  {
  }

  lemma LockTakes(cfg: Config, y: Sys, j: nat, k: Key) returns (m: Sys, z: Sys)
    requires j < |y.procs| && WillLock(y.procs[j], k)
    ensures Enabled(y, j) && m == Next(cfg, y, j) && Enabled(m, j) && z == Next(cfg, m, j)
    ensures z.s == y.s.(locks := z.s.locks) && k in z.s.locks
    ensures |z.procs| == |y.procs| && forall i | 0 <= i < |y.procs| && i != j :: z.procs[i] == y.procs[i]
  {
    m := Next(cfg, y, j);
    assert m.procs[j] == y.procs[j].(pc := Write, period := Some(y.procs[j].cmd.period));
    z := Next(cfg, m, j);
  }

  /**
   * From every state with a command that has checked the lock and is about to write, whatever
   * kind of command it is, a lock of that period slips in between: the key is in the lock table,
   * and the write then takes effect exactly as if it were not.
   */
  lemma LockSlipsIn(cfg: Config, y: Sys, i: nat, j: nat) returns (m: Sys, z: Sys, w: Sys)
    requires i < |y.procs| && AboutToStore(cfg, y.s, y.procs[i])
    requires j < |y.procs| && WillLock(y.procs[j], At(y.procs[i], y.procs[i].period.value))
    ensures Enabled(y, j) && m == Next(cfg, y, j) && Enabled(m, j) && z == Next(cfg, m, j)
    ensures Enabled(z, i) && w == Next(cfg, z, i)
    ensures At(y.procs[i], y.procs[i].period.value) in z.s.locks
    ensures w.s == Attempted(cfg, y.s, y.procs[i]).ledger.(locks := z.s.locks)
  {
    var p := y.procs[i];
    m, z := LockTakes(cfg, y, j, At(p, p.period.value));
    LocksDoNotMatter(cfg, y.s, p, z.s.locks);
    w := Next(cfg, z, i);
  }

  lemma ExtendRun(cfg: Config, trace: seq<Sys>, sched: seq<nat>, i: nat)
    requires Run(cfg, trace, sched) && Enabled(trace[|sched|], i)
    ensures Run(cfg, trace + [Next(cfg, trace[|sched|], i)], sched + [i])
  {
    var more, order := trace + [Next(cfg, trace[|sched|], i)], sched + [i];
    forall t | 0 <= t < |order| ensures Enabled(more[t], order[t]) && more[t + 1] == Next(cfg, more[t], order[t]) {
      if t < |sched| {
        assert more[t] == trace[t] && more[t + 1] == trace[t + 1];
      }
    }
  }

  /** So every run that has come to such a state goes on into a race. */
  lemma RaceFollows(cfg: Config, trace: seq<Sys>, sched: seq<nat>, i: nat, j: nat) returns (more: seq<Sys>)
    requires Run(cfg, trace, sched)
    requires var y := trace[|sched|];
             && i < |y.procs| && AboutToStore(cfg, y.s, y.procs[i])
             && j < |y.procs| && WillLock(y.procs[j], At(y.procs[i], y.procs[i].period.value))
    ensures |more| == 3 && Run(cfg, trace + more, sched + [j, j, i])
    ensures var y := trace[|sched|];
            && At(y.procs[i], y.procs[i].period.value) in more[1].s.locks
            && more[2].s == Attempted(cfg, y.s, y.procs[i]).ledger.(locks := more[1].s.locks)
  {
    var m, z, w := LockSlipsIn(cfg, trace[|sched|], i, j);
    ExtendRun(cfg, trace, sched, j);
    ExtendRun(cfg, trace + [m], sched + [j], j);
    ExtendRun(cfg, trace + [m] + [z], sched + [j] + [j], i);
    more := [m, z, w];
    assert trace + [m] + [z] + [w] == trace + more;
    assert sched + [j] + [j] + [i] == sched + [j, j, i];
  }

  /** For one: every unlocked period and every balanced upload. */
  lemma RaceHappens(cfg: Config, s: Ledger, save: Proc, lock: Proc) returns (trace: seq<Sys>, sched: seq<nat>)
    requires New(save) && New(lock)
    requires Smooth(save.o) && Smooth(lock.o) && save.ctx.tenant == lock.ctx.tenant
    requires save.cmd.SaveTrialBalance? && lock.cmd.LockPeriod? && save.cmd.period == lock.cmd.period
    requires Parses(save.cmd, save.o) && Parses(lock.cmd, lock.o) && MayLock(lock.ctx.role)
    requires Balanced(cfg, save.cmd.lines) && !save.cmd.synced
    requires At(save, save.cmd.period) !in s.locks
    ensures Run(cfg, trace, sched) && trace[0] == Sys(s, [save, lock], []) && |sched| == 5
    ensures At(save, save.cmd.period) in trace[4].s.locks
    ensures trace[5].s.books == s.books[At(save, save.cmd.period) := save.cmd.lines]
  {
    var y0 := Sys(s, [save, lock], []);
    var save1 := save.(pc := Check, period := Some(save.cmd.period), rows := save.cmd.lines);
    var y1 := Next(cfg, y0, 0);
    assert y1 == Sys(s, [save1, lock], []);
    var y2 := Next(cfg, y1, 0);
    assert y2 == Sys(s, [save1.(pc := Write), lock], []);
    trace, sched := [y0, y1, y2], [0, 0];
    var more := RaceFollows(cfg, trace, sched, 0, 1);
    trace, sched := trace + more, sched + [1, 1, 0];
  }

  // ---------------------------------------------------------------------
  // Commands one after another

  function Weight(p: Proc): nat {
    if p.cmd.CreateAdjustments? then |p.cmd.suggestions| else 1
  }

  /** An upper bound on the steps a command has left. */
  function Rank(p: Proc): nat {
    match p.pc
    case Start => 9 + Weight(p)
    case Lookup => if p.cmd.ApplyHitlAdjustment? then 5 + Weight(p) else 8 + Weight(p)
    case Check => 7 + Weight(p)
    case Recheck => 5 + Weight(p)
    case Write => 4 + if p.writes < Weight(p) then Weight(p) - p.writes else 0
    case Late => 2
    case Mark => 2
    case Audit => 1
    case Done(_) => 0
  }

  lemma RankDrops(cfg: Config, s: Ledger, p: Proc)
    requires WellPlaced(p) && !p.pc.Done?
    ensures Rank(Step(cfg, s, p).1) < Rank(p)
  {
  }

  /** The command run to its end with no other command in between. */
  function Finish(cfg: Config, s: Ledger, p: Proc): (r: (Ledger, Proc))
    requires WellPlaced(p)
    ensures WellPlaced(r.1) && r.1.pc.Done? && r.1.ctx == p.ctx && r.1.cmd == p.cmd && r.1.o == p.o
    decreases Rank(p)
  {
    if p.pc.Done? then (s, p)
    else
      RankDrops(cfg, s, p);
      var (t, q) := Step(cfg, s, p);
      Finish(cfg, t, q)
  }

  /** Commands in sequence, with how each one ended. */
  function RunAll(cfg: Config, s: Ledger, ps: seq<Proc>): (r: (Ledger, seq<Proc>))
    requires forall i | 0 <= i < |ps| :: New(ps[i])
    ensures |r.1| == |ps|
    ensures forall i | 0 <= i < |ps| :: r.1[i].pc.Done? && r.1[i].ctx == ps[i].ctx && r.1[i].cmd == ps[i].cmd
  {
    if ps == [] then (s, [])
    else
      var (t, done) := RunAll(cfg, s, ps[..|ps| - 1]);
      var p := ps[|ps| - 1];
      NewPlaced(p);
      var (u, q) := Finish(cfg, t, p);
      (u, done + [q])
  }

  ghost predicate Clear(s: Ledger, p: Proc) {
    Cleared(p) ==> At(p, p.period.value) !in s.locks
  }

  lemma StepKeepsClear(cfg: Config, s: Ledger, p: Proc)
    requires WellPlaced(p) && !p.pc.Done? && Clear(s, p)
    ensures Clear(Step(cfg, s, p).0, Step(cfg, s, p).1)
  {
  }

  lemma {:induction false} FinishFrozen(cfg: Config, s: Ledger, p: Proc, k: Key)
    requires WellPlaced(p) && Knows(cfg, s, p) && Clear(s, p) && k in s.locks
    ensures Frozen(cfg, k, s, Finish(cfg, s, p).0) && Anchored(s, Finish(cfg, s, p).0)
    decreases Rank(p)
  {
    if p.pc.Done? {
    } else {
      var (t, q) := Step(cfg, s, p);
      RankDrops(cfg, s, p);
      StepTouches(cfg, s, p, k);
      StepAnchored(cfg, s, p);
      StepKnows(cfg, s, p);
      StepKeepsClear(cfg, s, p);
      FinishFrozen(cfg, t, q, k);
      FrozenChain(cfg, k, s, t, Finish(cfg, t, q).0);
    }
  }

  /**
   * With commands taken as atomic, once a period is locked nothing in it changes again except
   * that proposed entries may still be approved.
   */
  lemma {:induction false} LockFreezes(cfg: Config, s: Ledger, ps: seq<Proc>, k: Key)
    requires forall i | 0 <= i < |ps| :: New(ps[i])
    requires k in s.locks
    ensures k in RunAll(cfg, s, ps).0.locks && Frozen(cfg, k, s, RunAll(cfg, s, ps).0)
  {
    if ps == [] {
    } else {
      var n := |ps| - 1;
      LockFreezes(cfg, s, ps[..n], k);
      var t := RunAll(cfg, s, ps[..n]).0;
      NewPlaced(ps[n]);
      FinishFrozen(cfg, t, ps[n], k);
      FrozenChain(cfg, k, s, t, Finish(cfg, t, ps[n]).0);
    }
  }

  lemma {:induction false} FinishLog(cfg: Config, s: Ledger, p: Proc)
    requires WellPlaced(p) && !p.pc.Done?
    ensures var (t, q) := Finish(cfg, s, p); t.log == if q.appended then s.log + [EventOf(q)] else s.log
    decreases Rank(p)
  {
    StepLog(cfg, s, p);
    RankDrops(cfg, s, p);
    var (t, q) := Step(cfg, s, p);
    if q.pc.Done? {
    } else {
      FinishLog(cfg, t, q);
    }
  }

  /** The events of the commands that returned ok, in command order. */
  function OkEvents(ps: seq<Proc>): seq<Event> {
    if ps == [] then []
    else OkEvents(ps[..|ps| - 1]) + if ps[|ps| - 1].pc == Done(Ok) then [EventOf(ps[|ps| - 1])] else []
  }

  /** The command reached the append, which stored its event and lost the reply. */
  predicate LostReply(p: Proc) {
    p.appended && p.o.append.ReplyLost?
  }

  function LostReplies(ps: seq<Proc>): nat {
    if ps == [] then 0 else LostReplies(ps[..|ps| - 1]) + if LostReply(ps[|ps| - 1]) then 1 else 0
  }

  lemma LogStep(before: seq<Event>, t: Ledger, u: Ledger, done: seq<Proc>, q: Proc)
    requires |t.log| == |before| + |OkEvents(done)| + LostReplies(done)
    requires LostReplies(done) == 0 ==> t.log == before + OkEvents(done)
    requires u.log == if q.appended then t.log + [EventOf(q)] else t.log
    requires q.pc == Done(Ok) <==> q.appended && !q.o.append.ReplyLost?
    ensures |u.log| == |before| + |OkEvents(done + [q])| + LostReplies(done + [q])
    ensures LostReplies(done + [q]) == 0 ==> u.log == before + OkEvents(done + [q])
  {
    var out := done + [q];
    assert out[..|out| - 1] == done;
  }

  lemma OkAppended(q: Proc)
    requires WellPlaced(q) && q.pc.Done?
    ensures q.pc == Done(Ok) <==> q.appended && !q.o.append.ReplyLost?
  {
  }

  lemma RunAllLast(cfg: Config, s: Ledger, ps: seq<Proc>, t: Ledger, done: seq<Proc>, u: Ledger, q: Proc)
    requires ps != [] && forall i | 0 <= i < |ps| :: New(ps[i])
    requires RunAll(cfg, s, ps[..|ps| - 1]) == (t, done)
    requires WellPlaced(ps[|ps| - 1]) && Finish(cfg, t, ps[|ps| - 1]) == (u, q)
    ensures RunAll(cfg, s, ps) == (u, done + [q])
  {
  }

  lemma {:induction false} LogGrows(cfg: Config, s: Ledger, ps: seq<Proc>)
    requires forall i | 0 <= i < |ps| :: New(ps[i])
    ensures var (t, out) := RunAll(cfg, s, ps);
            && |t.log| == |s.log| + |OkEvents(out)| + LostReplies(out)
            && (LostReplies(out) == 0 ==> t.log == s.log + OkEvents(out))
  {
    if ps == [] {
    } else {
      var n := |ps| - 1;
      LogGrows(cfg, s, ps[..n]);
      var (t, done) := RunAll(cfg, s, ps[..n]);
      NewPlaced(ps[n]);
      FinishLog(cfg, t, ps[n]);
      var (u, q) := Finish(cfg, t, ps[n]);
      RunAllLast(cfg, s, ps, t, done, u, q);
      OkAppended(q);
      LogStep(s.log, t, u, done, q);
    }
  }

  /**
   * The log of a run is the events of the commands that returned ok, in order, exactly when no
   * reply to an append was lost.
   */
  lemma LogIsOkCommands(cfg: Config, s: Ledger, ps: seq<Proc>)
    requires forall i | 0 <= i < |ps| :: New(ps[i])
    ensures var (t, out) := RunAll(cfg, s, ps);
            t.log == s.log + OkEvents(out) <==> LostReplies(out) == 0
  {
    LogGrows(cfg, s, ps);
  }

  /** A mutation survives the failure of its own audit append: the command fails, the data stays. */
  lemma SilentMutation(cfg: Config, s: Ledger, p: Proc)
    requires New(p) && p.cmd.SaveTrialBalance? && !p.cmd.synced
    requires Smooth(p.o.(append := Acknowledged)) && p.o.append.NotAppended?
    requires Parses(p.cmd, p.o) && Balanced(cfg, p.cmd.lines) && At(p, p.cmd.period) !in s.locks
    ensures var (t, q) := Finish(cfg, s, p);
            && t == s.(books := s.books[At(p, p.cmd.period) := p.cmd.lines])
            && q.pc == Done(Err(Service))
  {
    var p1 := p.(pc := Check, period := Some(p.cmd.period), rows := p.cmd.lines);
    assert Step(cfg, s, p) == (s, p1);
    var p2 := p1.(pc := Write);
    assert Step(cfg, s, p1) == (s, p2);
    var t := s.(books := s.books[At(p, p.cmd.period) := p.cmd.lines]);
    var p3 := p2.(pc := Audit, writes := 1);
    assert Step(cfg, s, p2) == (t, p3);
    assert Step(cfg, t, p3) == (t, p3.(pc := Done(Err(Service))));
    assert Finish(cfg, t, p3) == (t, p3.(pc := Done(Err(Service))));
    assert Finish(cfg, s, p2) == Finish(cfg, t, p3);
    assert Finish(cfg, s, p1) == Finish(cfg, s, p2);
  }

  /** Approval makes no lock check: it succeeds in a locked period too. */
  lemma ApprovalIgnoresLock(cfg: Config, s: Ledger, p: Proc)
    requires New(p) && p.cmd.ApproveJE? && Smooth(p.o) && Parses(p.cmd, p.o)
    requires At(p, p.cmd.entry) in s.entries && s.entries[At(p, p.cmd.entry)].status.Proposed?
    requires !SelfApproval(cfg, s, At(p, p.cmd.entry), p.cmd.approvedBy)
    ensures var (t, q) := Finish(cfg, s, p);
            && q.pc == Done(Ok)
            && At(p, p.cmd.entry) in t.entries
            && t.entries[At(p, p.cmd.entry)].status.Approved?
            && t.locks == s.locks
  {
    var k := At(p, p.cmd.entry);
    var p1 := p.(pc := Write);
    assert Step(cfg, s, p) == (s, p1);
    var t := Attempted(cfg, s, p1).ledger;
    var p2 := p1.(pc := Late, writes := 1);
    assert Step(cfg, s, p1) == (t, p2);
    var p3 := p2.(pc := Audit, period := SessionPeriod(cfg, p.ctx.tenant, t.entries[k].session));
    assert Step(cfg, t, p2) == (t, p3);
    var u := t.(log := t.log + [EventOf(p3)]);
    assert Step(cfg, t, p3) == (u, p3.(appended := true, pc := Done(Ok)));
    assert Finish(cfg, t, p3) == (u, p3.(appended := true, pc := Done(Ok)));
    assert Finish(cfg, t, p2) == Finish(cfg, t, p3);
    assert Finish(cfg, s, p1) == Finish(cfg, t, p2);
  }
}
