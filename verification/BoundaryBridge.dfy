/** Commands issued from boundary scopes: the AI boundary and the command bridge as one system. */
module BoundaryBridge {
  import B = AiBoundary
  import opened Bridge
  import opened BridgeRuns
  import opened Wrappers

  /** `homes[i]` is the scope current in the execution chain of command `i`, if any. */
  datatype Joint = Joint(boundary: B.Sys, bridge: BridgeRuns.Sys, homes: seq<Option<nat>>)

  datatype Move = Boundary(a: B.Action) | Command(i: nat)

  /** What `assertNoAiMutationContext` finds in the store of the command's scope. */
  predicate Blocked(y: Joint, i: nat)
    requires i < |y.homes| && B.InScope(y.boundary, y.homes[i])
  {
    y.homes[i].Some? && !B.Passes(y.boundary.scopes[y.homes[i].value].depth)
  }

  function Flagged(y: BridgeRuns.Sys, i: nat, inAi: bool): BridgeRuns.Sys
    requires i < |y.procs|
  {
    y.(procs := y.procs[i := y.procs[i].(o := y.procs[i].o.(inAi := inAi))])
  }

  predicate CanMove(y: Joint, m: Move) {
    match m
    case Boundary(a) => B.Enabled(y.boundary, a)
    case Command(i) =>
      |y.homes| == |y.bridge.procs| && i < |y.homes| && B.InScope(y.boundary, y.homes[i]) && Enabled(y.bridge, i)
  }

  /** A command asks the boundary in its first step. */
  function Asked(y: Joint, i: nat): (r: BridgeRuns.Sys)
    requires CanMove(y, Command(i))
    ensures Enabled(r, i)
  {
    if y.bridge.procs[i].pc.Start? then Flagged(y.bridge, i, Blocked(y, i)) else y.bridge
  }

  function Moved(cfg: Config, y: Joint, m: Move): Joint
    requires CanMove(y, m)
  {
    match m
    case Boundary(a) => y.(boundary := B.Next(y.boundary, a))
    case Command(i) => y.(bridge := Next(cfg, Asked(y, i), i))
  }

  ghost predicate JointRun(cfg: Config, trace: seq<Joint>, moves: seq<Move>) {
    && |trace| == |moves| + 1
    && Fresh(trace[0].bridge) && trace[0].boundary == B.START && |trace[0].homes| == |trace[0].bridge.procs|
    && forall t | 0 <= t < |moves| :: CanMove(trace[t], moves[t]) && trace[t + 1] == Moved(cfg, trace[t], moves[t])
  }

  // ---------------------------------------------------------------------
  // Both parts

  ghost predicate Sound(y: Joint) {
    B.Counted(y.boundary) && Placed(y.bridge) && |y.homes| == |y.bridge.procs|
  }

  lemma MoveSound(cfg: Config, y: Joint, m: Move)
    requires Sound(y) && CanMove(y, m)
    ensures Sound(Moved(cfg, y, m))
  {
    match m
    case Boundary(a) => B.CountedStep(y.boundary, a);
    case Command(i) =>
  }

  lemma {:induction false} SoundAlways(cfg: Config, trace: seq<Joint>, moves: seq<Move>, t: nat)
    requires JointRun(cfg, trace, moves) && t <= |moves|
    ensures Sound(trace[t]) && trace[t].homes == trace[0].homes
    ensures |trace[t].bridge.procs| == |trace[0].bridge.procs|
  {
    if t == 0 {
    } else {
      SoundAlways(cfg, trace, moves, t - 1);
      MoveSound(cfg, trace[t - 1], moves[t - 1]);
    }
  }

  /** The assertion fails exactly while the command's own scope has an open AI call. */
  lemma BlockedWhileBusy(y: Joint, i: nat)
    requires Sound(y) && i < |y.homes| && B.InScope(y.boundary, y.homes[i])
    ensures Blocked(y, i) <==> y.homes[i].Some? && B.Busy(y.boundary, y.homes[i].value)
  {
    if y.homes[i].Some? {
      B.NoneOpen(y.boundary.calls, y.homes[i].value);
    }
  }

  // ---------------------------------------------------------------------
  // Which commands throw

  /** Command `i` made its first step at `u`, while its scope had an open AI call. */
  ghost predicate BegunInCall(trace: seq<Joint>, moves: seq<Move>, i: nat, u: nat) {
    && u < |moves| && u < |trace| && moves[u] == Command(i)
    && i < |trace[u].bridge.procs| && i < |trace[u].homes|
    && trace[u].bridge.procs[i].pc.Start?
    && trace[u].homes[i].Some? && B.Busy(trace[u].boundary, trace[u].homes[i].value)
  }

  ghost predicate BegunInCallBefore(trace: seq<Joint>, moves: seq<Move>, i: nat, t: nat) {
    exists u | 0 <= u < t :: BegunInCall(trace, moves, i, u)
  }

  lemma BegunNext(trace: seq<Joint>, moves: seq<Move>, i: nat, t: nat)
    ensures BegunInCallBefore(trace, moves, i, t + 1) <==> BegunInCallBefore(trace, moves, i, t) || BegunInCall(trace, moves, i, t)
  {
  }

  lemma StepThrows(cfg: Config, s: Ledger, p: Proc)
    requires WellPlaced(p) && !p.pc.Done?
    ensures Step(cfg, s, p).1.pc == Done(Thrown) <==> p.pc.Start? && p.o.inAi
    ensures Step(cfg, s, p).1.pc == Done(Thrown) ==> Step(cfg, s, p) == (s, End(p, Thrown)) && p.writes == 0 && !p.appended
  {
  }

  lemma CommandThrows(cfg: Config, y: Joint, i: nat)
    requires Sound(y) && CanMove(y, Command(i))
    ensures var p, q := y.bridge.procs[i], Moved(cfg, y, Command(i)).bridge.procs[i];
            && (q.pc == Done(Thrown) <==> p.pc.Start? && y.homes[i].Some? && B.Busy(y.boundary, y.homes[i].value))
            && (q.pc == Done(Thrown) ==> q.writes == 0 && !q.appended && Moved(cfg, y, Command(i)).bridge.s == y.bridge.s)
  {
    BlockedWhileBusy(y, i);
    StepThrows(cfg, y.bridge.s, Asked(y, i).procs[i]);
  }

  /**
   * In any interleaving of scopes, AI calls and commands: a command throws exactly when it began
   * while its own scope had an open AI call, and then it has written nothing.
   */
  lemma {:induction false} ThrownExactly(cfg: Config, trace: seq<Joint>, moves: seq<Move>, t: nat, i: nat)
    requires JointRun(cfg, trace, moves) && t <= |moves| && i < |trace[t].bridge.procs|
    ensures trace[t].bridge.procs[i].pc == Done(Thrown) <==> BegunInCallBefore(trace, moves, i, t)
    ensures trace[t].bridge.procs[i].pc == Done(Thrown) ==>
              trace[t].bridge.procs[i].writes == 0 && !trace[t].bridge.procs[i].appended
  {
    if t == 0 {
    } else {
      SoundAlways(cfg, trace, moves, t - 1);
      ThrownExactly(cfg, trace, moves, t - 1, i);
      SoundAlways(cfg, trace, moves, t);
      ThrownStep(cfg, trace, moves, t - 1, i);
      BegunNext(trace, moves, i, t - 1);
    }
  }

  lemma ThrownStep(cfg: Config, trace: seq<Joint>, moves: seq<Move>, t: nat, i: nat)
    requires JointRun(cfg, trace, moves) && t < |moves| && Sound(trace[t])
    requires i < |trace[t].bridge.procs| && |trace[t + 1].bridge.procs| == |trace[t].bridge.procs|
    ensures var p, q := trace[t].bridge.procs[i], trace[t + 1].bridge.procs[i];
            && (q.pc == Done(Thrown) <==> p.pc == Done(Thrown) || BegunInCall(trace, moves, i, t))
            && (q.pc == Done(Thrown) ==> q == p || (q.writes == 0 && !q.appended))
  {
    if moves[t] == Command(i) {
      CommandThrows(cfg, trace[t], i);
    } else {
      assert trace[t + 1].bridge.procs[i] == trace[t].bridge.procs[i];
    }
  }

  /** From a top-level scope that is any AI call around the command; from a nested one it need not be. */
  lemma TopLevelExactly(cfg: Config, y: Joint, i: nat)
    requires Sound(y) && CanMove(y, Command(i)) && y.bridge.procs[i].pc.Start? && y.homes[i].Some?
    ensures var q := Moved(cfg, y, Command(i)).bridge.procs[i];
            && (y.boundary.scopes[y.homes[i].value].parent.None? ==>
                  (q.pc == Done(Thrown) <==> B.UnderCall(y.boundary, y.homes[i].value)))
            && (!B.Busy(y.boundary, y.homes[i].value) && B.EnclosedInCall(y.boundary, y.homes[i].value) ==>
                  q.pc != Done(Thrown) && B.UnderCall(y.boundary, y.homes[i].value))
  {
    CommandThrows(cfg, y, i);
  }

  // ---------------------------------------------------------------------
  // Joint runs are runs of the bridge

  lemma {:induction false} StartedMoved(cfg: Config, trace: seq<BridgeRuns.Sys>, sched: seq<nat>, t: nat, i: nat)
    requires Run(cfg, trace, sched) && t <= |sched| && i < |trace[t].procs| && trace[t].procs[i].pc.Start?
    ensures i !in sched[..t]
  {
    if t == 0 {
    } else {
      assert trace[t] == Next(cfg, trace[t - 1], sched[t - 1]);
      assert sched[t - 1] != i;
      StartedMoved(cfg, trace, sched, t - 1, i);
      assert sched[..t] == sched[..t - 1] + [sched[t - 1]];
    }
  }

  lemma FlaggedNext(cfg: Config, y: BridgeRuns.Sys, i: nat, inAi: bool, j: nat)
    requires i < |y.procs| && j != i && Enabled(y, j)
    ensures Enabled(Flagged(y, i, inAi), j) && Next(cfg, Flagged(y, i, inAi), j) == Flagged(Next(cfg, y, j), i, inAi)
  {
    var a, b := Next(cfg, Flagged(y, i, inAi), j), Flagged(Next(cfg, y, j), i, inAi);
    assert a.procs == b.procs;
  }

  /** The flag of a command that has not begun is free. */
  lemma Reflag(cfg: Config, trace: seq<BridgeRuns.Sys>, sched: seq<nat>, i: nat, inAi: bool) returns (re: seq<BridgeRuns.Sys>)
    requires Run(cfg, trace, sched) && i < |trace[0].procs| && i !in sched
    ensures Run(cfg, re, sched)
    ensures i < |trace[|sched|].procs| && re[|sched|] == Flagged(trace[|sched|], i, inAi) && re[0] == Flagged(trace[0], i, inAi)
  {
    forall t | 0 <= t <= |sched| ensures i < |trace[t].procs| {
      PlacedAlways(cfg, trace, sched, t);
    }
    re := seq(|trace|, t requires 0 <= t < |trace| => if i < |trace[t].procs| then Flagged(trace[t], i, inAi) else trace[t]);
    forall t | 0 <= t < |sched| ensures Enabled(re[t], sched[t]) && re[t + 1] == Next(cfg, re[t], sched[t]) {
      assert sched[t] in sched;
      FlaggedNext(cfg, trace[t], i, inAi, sched[t]);
    }
    FreshFlagged(trace[0], i, inAi);
  }

  lemma FreshFlagged(y: BridgeRuns.Sys, i: nat, inAi: bool)
    requires Fresh(y) && i < |y.procs|
    ensures Fresh(Flagged(y, i, inAi))
  {
    assert New(y.procs[i]);
  }

  /** The same commands at the start, up to what the boundary will answer. */
  ghost predicate SameStart(a: BridgeRuns.Sys, b: BridgeRuns.Sys) {
    && a.s == b.s && |a.procs| == |b.procs|
    && forall i | 0 <= i < |a.procs| :: a.procs[i] == b.procs[i].(o := b.procs[i].o.(inAi := a.procs[i].o.inAi))
  }

  /** So everything proved of runs of the bridge holds of joint runs. */
  lemma {:induction false} JointRunsAreRuns(cfg: Config, trace: seq<Joint>, moves: seq<Move>, t: nat)
    returns (runs: seq<BridgeRuns.Sys>, sched: seq<nat>)
    requires JointRun(cfg, trace, moves) && t <= |moves|
    ensures Run(cfg, runs, sched) && runs[|sched|] == trace[t].bridge && SameStart(runs[0], trace[0].bridge)
  {
    if t == 0 {
      runs, sched := [trace[0].bridge], [];
    } else {
      runs, sched := JointRunsAreRuns(cfg, trace, moves, t - 1);
      var y, m := trace[t - 1], moves[t - 1];
      if m.Command? {
        runs, sched := FollowCommand(cfg, runs, sched, y, m.i);
      }
    }
  }

  /** Before a command begins, the run so far can be given the answer the boundary will give. */
  lemma AskedRun(cfg: Config, trace: seq<BridgeRuns.Sys>, sched: seq<nat>, y: Joint, i: nat) returns (runs: seq<BridgeRuns.Sys>)
    requires Run(cfg, trace, sched) && trace[|sched|] == y.bridge && CanMove(y, Command(i))
    ensures Run(cfg, runs, sched) && runs[|sched|] == Asked(y, i) && SameStart(runs[0], trace[0])
  {
    if y.bridge.procs[i].pc.Start? {
      NotYetMoved(cfg, trace, sched, i);
      runs := Reflag(cfg, trace, sched, i, Blocked(y, i));
      FlaggedStart(trace[0], i, Blocked(y, i));
    } else {
      runs := trace;
    }
  }

  lemma NotYetMoved(cfg: Config, trace: seq<BridgeRuns.Sys>, sched: seq<nat>, i: nat)
    requires Run(cfg, trace, sched) && i < |trace[|sched|].procs| && trace[|sched|].procs[i].pc.Start?
    ensures i !in sched && i < |trace[0].procs|
  {
    StartedMoved(cfg, trace, sched, |sched|, i);
    assert sched[..|sched|] == sched;
    PlacedAlways(cfg, trace, sched, |sched|);
  }

  lemma FlaggedStart(y: BridgeRuns.Sys, i: nat, inAi: bool)
    requires i < |y.procs|
    ensures SameStart(Flagged(y, i, inAi), y)
  {
  }

  lemma OneMore(cfg: Config, trace: seq<BridgeRuns.Sys>, sched: seq<nat>, i: nat)
    returns (more: seq<BridgeRuns.Sys>, order: seq<nat>)
    requires Run(cfg, trace, sched) && Enabled(trace[|sched|], i)
    ensures Run(cfg, more, order) && more[|order|] == Next(cfg, trace[|sched|], i) && more[0] == trace[0]
  {
    ExtendRun(cfg, trace, sched, i);
    more, order := trace + [Next(cfg, trace[|sched|], i)], sched + [i];
  }

  lemma FollowCommand(cfg: Config, trace: seq<BridgeRuns.Sys>, sched: seq<nat>, y: Joint, i: nat)
    returns (runs: seq<BridgeRuns.Sys>, order: seq<nat>)
    requires Run(cfg, trace, sched) && trace[|sched|] == y.bridge && CanMove(y, Command(i))
    ensures Run(cfg, runs, order) && runs[|order|] == Moved(cfg, y, Command(i)).bridge && SameStart(runs[0], trace[0])
  {
    var asked := AskedRun(cfg, trace, sched, y, i);
    runs, order := OneMore(cfg, asked, sched, i);
  }
}
