/** What holds in every run of tasks over the shared pool, and runs on which more would be too much. */
module TenantRuns {
  import opened TenantScope
  import opened Wrappers

  // ---------------------------------------------------------------------
  // Main results, for any interleaving of any tasks

  ghost predicate Inv(s: Sys) {
    PoolInv(s) && TenantInv(s) && AtomicInv(s)
  }

  lemma {:induction false} RunInv(s: Sys, actions: seq<Action>)
    requires Inv(s) && Possible(s, actions)
    ensures Inv(After(s, actions))
    decreases |actions|
  {
    if actions == [] {
    } else {
      PoolStep(s, actions[0]);
      TenantStep(s, actions[0]);
      AtomicStep(s, actions[0]);
      RunInv(Next(s, actions[0]), actions[1..]);
    }
  }

  ghost predicate Reachable(tasks: seq<Task>, s: Sys) {
    exists start: Sys, actions: seq<Action> ::
      start.tasks == tasks && Initial(start) && Possible(start, actions) && After(start, actions) == s
  }

  lemma InitialInv(s: Sys)
    requires Initial(s)
    ensures Inv(s)
  {
    assert forall t, c :: !Holds(s, t, c);
  }

  lemma ReachableInv(tasks: seq<Task>, s: Sys)
    requires Reachable(tasks, s)
    ensures Inv(s)
  {
    var start: Sys, actions: seq<Action> :|
      start.tasks == tasks && Initial(start) && Possible(start, actions) && After(start, actions) == s;
    InitialInv(start);
    RunInv(start, actions);
  }

  /** Every statement a scoped task executes runs under that task's tenant. */
  lemma StatementsSeeTheirTenant(tasks: seq<Task>, s: Sys, w: Write)
    requires Reachable(tasks, s) && w in s.log
    ensures w.task < |s.tasks|
    ensures !s.tasks[w.task].kind.Unscoped? ==> w.tenant == Some(s.tasks[w.task].scope)
  {
    ReachableInv(tasks, s);
    var i :| 0 <= i < |s.log| && s.log[i] == w;
    assert Isolated(s, s.log[i]);
  }

  /** A finished task has released its connection exactly as often as it got one: once or never. */
  lemma ReleasedExactlyOnce(tasks: seq<Task>, s: Sys, t: nat)
    requires Reachable(tasks, s) && t < |s.tasks| && s.tasks[t].pc.Finished?
    ensures s.tasks[t].releases == s.tasks[t].acquires <= 1
  {
    ReachableInv(tasks, s);
    assert Balanced(s.tasks[t]);
  }

  /** Connections are conserved: idle, checked out by exactly one task, or dead; all idle or dead at the end. */
  lemma ConnectionsConserved(tasks: seq<Task>, s: Sys, c: nat)
    requires Reachable(tasks, s) && c in s.sessions
    ensures c in s.idle || c in s.dead || Busy(s, c)
    ensures c in s.idle ==> c !in s.dead && !Busy(s, c)
    ensures forall t, u | Holds(s, t, c) && Holds(s, u, c) :: t == u
    ensures (forall t | 0 <= t < |s.tasks| :: s.tasks[t].pc.Finished?) ==> c in s.idle || c in s.dead
  {
    ReachableInv(tasks, s);
  }

  /**
   * A transaction is all or nothing unless its own ROLLBACK failed and left it open: each of its
   * executed statements is durable exactly when it committed, whatever other tasks do.
   */
  lemma AllOrNothing(tasks: seq<Task>, s: Sys, w: Write)
    requires Reachable(tasks, s)
    requires w in s.log && w.task < |s.tasks| && s.tasks[w.task].kind.Transaction? && !s.tasks[w.task].leftOpen
    ensures w in s.durable <==> s.tasks[w.task].committed
  {
    ReachableInv(tasks, s);
    var i :| 0 <= i < |s.log| && s.log[i] == w;
    assert Logged(s, s.log[i]);
    if w in s.durable {
      var j :| 0 <= j < |s.durable| && s.durable[j] == w;
      assert Durable(s, s.durable[j]);
    }
  }

  /**
   * A statement outside `withTransaction` is durable at once, unless some task left a transaction
   * open on its connection.
   */
  lemma DirectIsDurable(tasks: seq<Task>, s: Sys, w: Write)
    requires Reachable(tasks, s)
    requires w in s.log && w.task < |s.tasks| && !s.tasks[w.task].kind.Transaction?
    ensures w in s.durable || Leftover(s, w.conn)
  {
    ReachableInv(tasks, s);
    var i :| 0 <= i < |s.log| && s.log[i] == w;
    assert Logged(s, s.log[i]);
  }

  lemma DurableWasLogged(s: Sys, w: Write)
    requires WritesFit(s) && w in s.durable
    ensures w.serial < |s.log|
  {
    var j :| 0 <= j < |s.durable| && s.durable[j] == w;
    assert Durable(s, s.durable[j]);
  }

  /** When such a statement takes effect, it is durable exactly when its session has no open transaction. */
  lemma DirectExactly(tasks: seq<Task>, s: Sys, a: Action)
    requires Reachable(tasks, s) && Enabled(s, a) && a.Work? && Effective(a.o) && !s.tasks[a.t].kind.Transaction?
    ensures var n, c := Next(s, a), s.tasks[a.t].conn;
            && |n.log| == |s.log| + 1 && n.log[|s.log|].task == a.t && n.log[|s.log|].conn == c
            && (n.log[|s.log|] in n.durable <==> s.sessions[c].saved.None?)
            && (s.sessions[c].saved.Some? ==> Leftover(s, c))
  {
    ReachableInv(tasks, s);
    var n, c := Next(s, a), s.tasks[a.t].conn;
    var w := n.log[|s.log|];
    if w in s.durable {
      DurableWasLogged(s, w);
    }
    if s.sessions[c].saved.Some? {
      assert TaskFits(s.tasks[a.t]) && Holds(s, a.t, c) && Open(s.sessions[c]);
    }
  }

  /**
   * A normal return means a committed transaction exactly when the callback swallowed no error
   * that aborted the transaction.
   */
  lemma SuccessMeansCommitted(tasks: seq<Task>, s: Sys, t: nat)
    requires Reachable(tasks, s)
    requires t < |s.tasks| && s.tasks[t].success
    ensures s.tasks[t].committed <==> !s.tasks[t].swallowed
  {
    ReachableInv(tasks, s);
    assert TaskFits(s.tasks[t]);
  }

  /** In every state a successful COMMIT commits exactly when its session is not in an aborted transaction. */
  lemma CommitExactly(tasks: seq<Task>, s: Sys, t: nat)
    requires Reachable(tasks, s) && Enabled(s, Commit(t, Ok))
    ensures var n := Next(s, Commit(t, Ok));
            && n.tasks[t].success
            && (n.tasks[t].committed <==> !s.sessions[s.tasks[t].conn].aborted)
  {
    ReachableInv(tasks, s);
  }

  /** A session outside a transaction has nothing pending. */
  lemma SessionsAreTidy(tasks: seq<Task>, s: Sys, c: nat)
    requires Reachable(tasks, s) && c in s.sessions
    ensures Tidy(s.sessions[c])
  {
    ReachableInv(tasks, s);
  }

  // ---------------------------------------------------------------------
  // Runs on which a stronger claim fails

  lemma {:induction false} Extend(s: Sys, actions: seq<Action>, a: Action)
    requires Possible(s, actions) && Enabled(After(s, actions), a)
    ensures Possible(s, actions + [a]) && After(s, actions + [a]) == Next(After(s, actions), a)
    decreases |actions|
  {
    if actions == [] {
      assert [a][1..] == [];
    } else {
      assert (actions + [a])[1..] == actions[1..] + [a];
      Extend(Next(s, actions[0]), actions[1..], a);
    }
  }

  lemma ReachStep(tasks: seq<Task>, s: Sys, a: Action) returns (n: Sys)
    requires Reachable(tasks, s) && Enabled(s, a)
    ensures n == Next(s, a) && Reachable(tasks, n)
  {
    var start: Sys, actions: seq<Action> :|
      start.tasks == tasks && Initial(start) && Possible(start, actions) && After(start, actions) == s;
    Extend(start, actions, a);
    n := Next(s, a);
  }

  lemma ReachStart(tasks: seq<Task>) returns (s: Sys)
    requires forall t | 0 <= t < |tasks| :: FreshTask(tasks[t])
    ensures s == Sys(tasks, map[], {}, {}, [], []) && Reachable(tasks, s)
  {
    s := Sys(tasks, map[], {}, {}, [], []);
    var none: seq<Action> := [];
    assert Possible(s, none) && After(s, none) == s;
  }

  lemma OverwriteTask(xs: seq<Task>, t: nat, a: Task, b: Task)
    requires t < |xs|
    ensures xs[t := a][t := b] == xs[t := b]
  {
  }

  lemma OverwriteSession(m: map<nat, Session>, k: nat, a: Session, b: Session)
    ensures m[k := a][k := b] == m[k := b]
  {
  }

  /** Checking out `c` for task `t`, up to the start of its callback. */
  lemma OpenBody(tasks: seq<Task>, s: Sys, t: nat, c: nat) returns (n: Sys)
    requires Reachable(tasks, s) && t < |s.tasks| && FreshTask(s.tasks[t]) && s.tasks[t].kind.Transaction?
    requires ValidTenantId(s.tasks[t].scope) && c !in s.dead && (c in s.idle || c !in s.sessions)
    requires c in s.sessions ==> !s.sessions[c].aborted
    ensures Reachable(tasks, n)
    ensures n == s.(tasks := s.tasks[t := s.tasks[t].(pc := Body, conn := c, acquires := 1)],
                    sessions := s.sessions[c := Opened(s, c, s.tasks[t].scope)], idle := s.idle - {c})
  {
    var was := if c in s.sessions then s.sessions[c] else FRESH;
    var x := s.tasks[t].(conn := c, acquires := 1);
    n := ReachStep(tasks, s, Connect(t, c));
    assert n == s.(tasks := s.tasks[t := x.(pc := Acquired)], sessions := s.sessions[c := was], idle := s.idle - {c});
    n := ReachStep(tasks, n, SetTenant(t, Ok));
    var set1 := was.(tenant := Some(x.scope));
    OverwriteTask(s.tasks, t, x.(pc := Acquired), x.(pc := Bound));
    OverwriteSession(s.sessions, c, was, set1);
    assert n == s.(tasks := s.tasks[t := x.(pc := Bound)], sessions := s.sessions[c := set1], idle := s.idle - {c});
    n := ReachStep(tasks, n, Begin(t, Ok));
    OverwriteTask(s.tasks, t, x.(pc := Bound), x.(pc := Body));
    OverwriteSession(s.sessions, c, set1, Opened(s, c, x.scope));
  }

  function Opened(s: Sys, c: nat, scope: string): Session {
    var was := if c in s.sessions then s.sessions[c] else FRESH;
    if was.saved.Some? then was.(tenant := Some(scope))
    else was.(tenant := Some(scope), saved := Some(Some(scope)), pending := [])
  }

  /** A task inside its callback, with its transaction open on a live session. */
  ghost predicate InTransaction(s: Sys, t: nat) {
    && t < |s.tasks| && s.tasks[t].pc.Body? && s.tasks[t].kind.Transaction?
    && s.tasks[t].conn in s.sessions && s.tasks[t].conn !in s.dead
    && s.sessions[s.tasks[t].conn].saved.Some? && !s.sessions[s.tasks[t].conn].aborted
  }

  /**
   * From any point of any callback, swallowing an error that aborts the transaction leads to a
   * normal return with nothing committed, whatever the transaction had written.
   */
  lemma SwallowedErrorLosesWrites(tasks: seq<Task>, s: Sys, t: nat) returns (n: Sys)
    requires Reachable(tasks, s) && InTransaction(s, t)
    ensures Reachable(tasks, n) && n.log == s.log && n.durable == s.durable
    ensures |n.tasks| == |s.tasks| && n.tasks[t].success && !n.tasks[t].committed && n.tasks[t].pc.Releasing?
  {
    ReachableInv(tasks, s);
    n := ReachStep(tasks, s, Work(t, Failed(true), true));
    n := ReachStep(tasks, n, Commit(t, Ok));
  }

  /** A task that is rolling back, with its transaction open and not aborted on a live session. */
  ghost predicate RollingBackOpen(s: Sys, t: nat) {
    && t < |s.tasks| && s.tasks[t].pc.RollingBack? && !s.tasks[t].committed
    && s.tasks[t].conn in s.sessions && s.tasks[t].conn !in s.dead
    && s.sessions[s.tasks[t].conn].saved.Some? && !s.sessions[s.tasks[t].conn].aborted
  }

  /** A ROLLBACK leaves the transaction open exactly when it fails, without aborting it, at such a point. */
  lemma LeftOpenExactly(tasks: seq<Task>, s: Sys, t: nat, o: Outcome)
    requires Reachable(tasks, s) && Enabled(s, Rollback(t, o))
    ensures Next(s, Rollback(t, o)).tasks[t].leftOpen <==> RollingBackOpen(s, t) && o == Failed(false)
  {
    ReachableInv(tasks, s);
    assert BodyFits(s, t) && TaskFits(s.tasks[t]) && Tidy(s.sessions[s.tasks[t].conn]);
  }

  /** Any transaction task can come to be in its transaction, and from there to roll back. */
  lemma TransactionsHappen(tasks: seq<Task>, t: nat) returns (s: Sys, n: Sys)
    requires forall u | 0 <= u < |tasks| :: FreshTask(tasks[u])
    requires t < |tasks| && tasks[t].kind.Transaction? && ValidTenantId(tasks[t].scope)
    ensures Reachable(tasks, s) && InTransaction(s, t)
    ensures Reachable(tasks, n) && RollingBackOpen(n, t) && |n.tasks| == |tasks|
    ensures forall u | 0 <= u < |tasks| && u != t :: n.tasks[u] == tasks[u]
  {
    s := ReachStart(tasks);
    s := OpenBody(tasks, s, t, 0);
    n := ReachStep(tasks, s, Throw(t));
  }

  /** The rollback fails and its error is ignored: the open transaction goes back to the pool. */
  lemma LeftOpen(tasks: seq<Task>, s: Sys, t: nat) returns (n: Sys)
    requires Reachable(tasks, s) && RollingBackOpen(s, t)
    ensures Reachable(tasks, n) && n.sessions == s.sessions && n.dead == s.dead && s.tasks[t].conn in n.idle
    ensures |n.tasks| == |s.tasks| && !n.tasks[t].committed && n.tasks[t].pc.Finished? && n.tasks[t].leftOpen
    ensures n.log == s.log && n.durable == s.durable
    ensures forall u | 0 <= u < |s.tasks| && u != t :: n.tasks[u] == s.tasks[u]
  {
    var c := s.tasks[t].conn;
    n := ReachStep(tasks, s, Rollback(t, Failed(false)));
    assert n.sessions == s.sessions[c := s.sessions[c]] == s.sessions;
    n := ReachStep(tasks, n, Release(t));
  }

  /**
   * Whenever a task is rolling back an open transaction and another transaction is still to
   * start, the rollback can fail and the other task's COMMIT make all of the first task's pending
   * writes durable, although the first task never commits.
   */
  lemma LeftoverIsCommitted(tasks: seq<Task>, s: Sys, t: nat, u: nat) returns (n: Sys)
    requires Reachable(tasks, s) && RollingBackOpen(s, t)
    requires u < |s.tasks| && u != t && FreshTask(s.tasks[u]) && s.tasks[u].kind.Transaction? && ValidTenantId(s.tasks[u].scope)
    ensures Reachable(tasks, n) && |n.tasks| == |s.tasks|
    ensures n.tasks[t].pc.Finished? && n.tasks[t].leftOpen && !n.tasks[t].committed && n.tasks[u].success && n.tasks[u].committed
    ensures forall w <- s.sessions[s.tasks[t].conn].pending :: w in n.durable
  {
    var c := s.tasks[t].conn;
    n := LeftOpen(tasks, s, t);
    n := OpenBody(tasks, n, u, c);
    var m := n;
    assert m.sessions[c].pending == s.sessions[c].pending && !m.sessions[c].aborted;
    n := ReachStep(tasks, m, Commit(u, Ok));
    assert n.durable == m.durable + s.sessions[c].pending;
  }

  /**
   * The other way round, a query outside `withTransaction` that gets the connection runs inside the
   * open transaction: it returns normally and is not durable.
   */
  lemma DirectInLeftover(tasks: seq<Task>, s: Sys, t: nat, u: nat) returns (n: Sys, w: Write)
    requires Reachable(tasks, s) && RollingBackOpen(s, t)
    requires u < |s.tasks| && u != t && FreshTask(s.tasks[u]) && s.tasks[u].kind.Direct? && ValidTenantId(s.tasks[u].scope)
    ensures Reachable(tasks, n) && |n.tasks| == |s.tasks| && n.tasks[u].pc.Finished?
    ensures w.task == u && n.log == s.log + [w] && n.durable == s.durable && w !in n.durable
  {
    var c := s.tasks[t].conn;
    var m := LeftOpen(tasks, s, t);
    m := OpenQuery(tasks, m, u, c);
    n, w := QueryRuns(tasks, m, u);
  }

  lemma QueryRuns(tasks: seq<Task>, s: Sys, u: nat) returns (n: Sys, w: Write)
    requires Reachable(tasks, s) && u < |s.tasks| && s.tasks[u].pc.Bound? && s.tasks[u].kind.Direct?
    requires var c := s.tasks[u].conn; c in s.sessions && c !in s.dead && Open(s.sessions[c])
    ensures Reachable(tasks, n) && |n.tasks| == |s.tasks| && n.tasks[u].pc.Finished?
    ensures w.task == u && n.log == s.log + [w] && n.durable == s.durable && w !in n.durable
  {
    ReachableInv(tasks, s);
    n := ReachStep(tasks, s, Work(u, Ok, false));
    w := n.log[|s.log|];
    if w in s.durable {
      DurableWasLogged(s, w);
    }
    n := ReachStep(tasks, n, Release(u));
  }

  /** Checking out `c` for the query of task `t`. */
  lemma OpenQuery(tasks: seq<Task>, s: Sys, t: nat, c: nat) returns (n: Sys)
    requires Reachable(tasks, s) && t < |s.tasks| && FreshTask(s.tasks[t]) && s.tasks[t].kind.Direct?
    requires ValidTenantId(s.tasks[t].scope) && c !in s.dead && c in s.idle && c in s.sessions && !s.sessions[c].aborted
    ensures Reachable(tasks, n)
    ensures n == s.(tasks := s.tasks[t := s.tasks[t].(pc := Bound, conn := c, acquires := 1)],
                    sessions := s.sessions[c := s.sessions[c].(tenant := Some(s.tasks[t].scope))], idle := s.idle - {c})
  {
    var x := s.tasks[t].(conn := c, acquires := 1);
    n := ReachStep(tasks, s, Connect(t, c));
    assert s.sessions[c := s.sessions[c]] == s.sessions;
    assert n == s.(tasks := s.tasks[t := x.(pc := Acquired)], idle := s.idle - {c});
    n := ReachStep(tasks, n, SetTenant(t, Ok));
    OverwriteTask(s.tasks, t, x.(pc := Acquired), x.(pc := Bound));
  }

  /** A ROLLBACK that fails on an aborted transaction leaves the connection unusable in the pool. */
  lemma AbortedRollbackPoisons(tasks: seq<Task>, s: Sys, t: nat, abort: bool)
    requires Reachable(tasks, s) && Enabled(s, Rollback(t, Failed(abort)))
    requires s.tasks[t].conn !in s.dead && s.sessions[s.tasks[t].conn].aborted
    ensures Poisoned(Next(s, Rollback(t, Failed(abort))), s.tasks[t].conn)
  {
    ReachableInv(tasks, s);
    var n, c := Next(s, Rollback(t, Failed(abort))), s.tasks[t].conn;
    assert Holds(s, t, c);
    forall u | Holds(n, u, c) ensures n.tasks[u].pc.Releasing? {
      assert Holds(s, u, c);
    }
  }

  /** No statement of any task takes effect there, and it stays so until the session dies. */
  lemma PoisonedServesNobody(tasks: seq<Task>, s: Sys, c: nat, a: Action)
    requires Reachable(tasks, s) && Poisoned(s, c) && Enabled(s, a) && a != Die(c)
    ensures Poisoned(Next(s, a), c) && c !in Next(s, a).dead
    ensures !a.Die? && Holds(s, a.t, c) && !a.Release? ==> (a.SetTenant? || a.Work?) && !Effective(a.o)
  {
    ReachableInv(tasks, s);
    PoisonStep(s, a, c);
  }
}
