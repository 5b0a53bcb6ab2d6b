/** `withTransaction` on a scoped pool as one task performs it, proved to take only steps of the tenant system. */
module TransactionBlock {
  import opened TenantRuns
  import opened TenantScope
  import opened Wrappers

  /** `trace` leads from `s` to `t`. */
  ghost predicate Ran(s: Sys, trace: seq<Action>, t: Sys) {
    Possible(s, trace) && After(s, trace) == t
  }

  lemma RanStep(s: Sys, trace: seq<Action>, t: Sys, a: Action, u: Sys)
    requires Ran(s, trace, t) && Enabled(t, a) && Next(t, a) == u
    ensures Ran(s, trace + [a], u)
  {
    Extend(s, trace, a);
  }

  lemma RanNothing(s: Sys)
    ensures Ran(s, [], s)
  {
  }

  /** One statement of the callback, and whether the callback catches its error. */
  datatype Statement = Statement(o: Outcome, caught: bool)

  datatype Script = Script(
    connects: bool,
    tenant: Outcome,
    begin: Outcome,
    body: seq<Statement>,
    throws: bool,
    commit: Outcome,
    rollback: Outcome
  )

  /** In an aborted transaction the server fails every statement. */
  function Answer(c: Session, o: Outcome): Outcome {
    if c.aborted && Effective(o) then Failed(true) else o
  }

  lemma TailGrows(left: seq<Write>, before: seq<Write>, after: seq<Write>, start: nat)
    requires start <= |before| && before <= after
    ensures left + after[start..] == (left + before[start..]) + after[|before|..]
  {
  }

  // ---------------------------------------------------------------------
  // What a script comes to, read off the script alone

  /** An earlier statement has aborted the transaction. */
  ghost predicate AbortedBefore(body: seq<Statement>, i: int) {
    exists j | 0 <= j < i && j < |body| :: body[j].o == Failed(true)
  }

  /** The callback goes on after its `i`-th statement: it got its answer, or caught the error. */
  ghost predicate Passes(body: seq<Statement>, i: nat)
    requires i < |body|
  {
    body[i].caught || (body[i].o.Ok? && !AbortedBefore(body, i))
  }

  ghost predicate Returns(body: seq<Statement>) {
    forall i | 0 <= i < |body| :: Passes(body, i)
  }

  /** The statement takes effect when it is reached. */
  ghost predicate Takes(body: seq<Statement>, i: nat)
    requires i < |body|
  {
    Effective(body[i].o) && !AbortedBefore(body, i)
  }

  /** How many of the first `k` statements take effect. */
  ghost function Landed(body: seq<Statement>, k: nat): nat
    requires k <= |body|
  {
    if k == 0 then 0 else Landed(body, k - 1) + if Takes(body, k - 1) then 1 else 0
  }

  /** The statements issued: all, or up to and including the first whose error gets through. */
  ghost predicate Issued(body: seq<Statement>, k: nat) {
    && k <= |body|
    && (forall i | 0 <= i < k - 1 :: Passes(body, i))
    && (k < |body| ==> k > 0 && !Passes(body, k - 1))
  }

  ghost predicate RolledBack(trace: seq<Action>) {
    exists a <- trace :: a.Rollback?
  }

  ghost predicate Thrown(trace: seq<Action>) {
    exists a <- trace :: a.Throw?
  }

  lemma LastStep(trace: seq<Action>, a: Action)
    ensures RolledBack(trace + [a]) <==> RolledBack(trace) || a.Rollback?
    ensures Thrown(trace + [a]) <==> Thrown(trace) || a.Throw?
  {
    assert a in trace + [a];
    assert forall b :: b in trace + [a] <==> b in trace || b == a;
  }

  /** The new writes are the task's own, in order, under its tenant. */
  ghost predicate Wrote(log: seq<Write>, start: nat, t: nat, conn: nat, tenant: Option<string>) {
    start <= |log| && forall i | start <= i < |log| :: log[i] == Write(i, t, conn, tenant)
  }

  /** The transaction is begun and its callback returns without throwing. */
  ghost predicate Completes(script: Script) {
    script.begin.Ok? && Returns(script.body) && !script.throws
  }

  /** The COMMIT takes effect on a transaction that is not aborted. */
  ghost predicate Commits(script: Script) {
    Completes(script) && Effective(script.commit) && !AbortedBefore(script.body, |script.body|)
  }

  ghost predicate PassesTo(body: seq<Statement>, k: nat)
    requires k <= |body|
  {
    forall i | 0 <= i < k :: Passes(body, i)
  }

  /** What one more statement adds, in terms of its answer and of what came before it. */
  lemma StatementNext(body: seq<Statement>, i: nat)
    requires i < |body| && PassesTo(body, i)
    ensures var q, aborted := body[i], AbortedBefore(body, i); var passes := q.caught || (q.o.Ok? && !aborted);
            && (AbortedBefore(body, i + 1) <==> aborted || q.o == Failed(true))
            && Landed(body, i + 1) == Landed(body, i) + (if Effective(q.o) && !aborted then 1 else 0)
            && (if passes then PassesTo(body, i + 1) else !Returns(body) && Issued(body, i + 1))
  {
    assert Passes(body, i) <==> body[i].caught || (body[i].o.Ok? && !AbortedBefore(body, i));
  }

  /** With no error that aborts, every effective statement takes effect. */
  lemma NothingAborted(body: seq<Statement>, i: nat)
    requires !AbortedBefore(body, |body|) && i < |body|
    ensures Takes(body, i) <==> Effective(body[i].o)
  {
  }

  class SharedPool {
    var sessions: map<nat, Session>
    var idle: set<nat>
    var log: seq<Write>
    var durable: seq<Write>
    ghost var tasks: seq<Task>
    ghost var dead: set<nat>

    ghost function State(): Sys
      reads this
    {
      Sys(tasks, sessions, idle, dead, log, durable)
    }

    /** Task `t` is `x`, on its live connection. */
    ghost predicate At(t: nat, x: Task)
      reads this
    {
      t < |tasks| && tasks[t] == x && x.kind.Transaction? && x.conn in sessions && x.conn !in dead
    }

    /** `connect()` of the scoped pool, first half: a connection of the shared pool. */
    method Checkout(t: nat, conn: nat, ghost x: Task, ghost s: Sys) returns (ghost more: seq<Action>)
      requires t < |tasks| && tasks[t] == x && x.kind.Transaction? && x.pc.Idle? && ValidTenantId(x.scope)
      requires (conn in idle || conn !in sessions) && conn !in dead && State() == s
      modifies this
      ensures more == [Connect(t, conn)]
      ensures Ran(s, more, State()) && At(t, x.(pc := Acquired, conn := conn, acquires := x.acquires + 1))
      ensures sessions == old(sessions)[conn := if conn in old(sessions) then old(sessions)[conn] else FRESH]
      ensures idle == old(idle) - {conn} && dead == old(dead) && log == old(log) && durable == old(durable)
    {
      idle := idle - {conn};
      sessions := sessions[conn := if conn in sessions then sessions[conn] else FRESH];
      tasks := tasks[t := x.(pc := Acquired, conn := conn, acquires := x.acquires + 1)];
      more := [] + [Connect(t, conn)];
      RanNothing(s);
      RanStep(s, [], s, Connect(t, conn), State());
    }

    /** Second half: the tenant of the session. */
    method SetTenantContext(t: nat, conn: nat, scope: string, o: Outcome, ghost x: Task, ghost s: Sys, ghost trace: seq<Action>)
      returns (ok: bool, ghost more: seq<Action>)
      requires At(t, x) && x.pc.Acquired? && x.conn == conn && x.scope == scope
      requires Effective(o) ==> !sessions[conn].aborted
      requires Ran(s, trace, State())
      modifies this`sessions, this`tasks
      ensures more == trace + [SetTenant(t, o)]
      ensures Ran(s, more, State()) && At(t, x.(pc := if ok then Bound else Releasing))
      ensures ok == o.Ok? && sessions == old(sessions)[conn := OnSet(old(sessions)[conn], scope, o)]
    {
      ghost var before := State();
      sessions := sessions[conn := OnSet(sessions[conn], scope, o)];
      tasks := tasks[t := x.(pc := if o.Ok? then Bound else Releasing)];
      ok, more := o.Ok?, trace + [SetTenant(t, o)];
      RanStep(s, trace, before, SetTenant(t, o), State());
    }

    method QueryBegin(t: nat, conn: nat, o: Outcome, ghost x: Task, ghost s: Sys, ghost trace: seq<Action>)
      returns (ok: bool, ghost more: seq<Action>)
      requires At(t, x) && x.pc.Bound? && x.conn == conn && !sessions[conn].aborted
      requires Ran(s, trace, State())
      modifies this`sessions, this`tasks
      ensures more == trace + [TenantScope.Action.Begin(t, o)]
      ensures Ran(s, more, State()) && At(t, x.(pc := if ok then Body else RollingBack))
      ensures ok == o.Ok? && sessions == old(sessions)[conn := OnBegin(old(sessions)[conn], o)]
    {
      ghost var before := State();
      sessions := sessions[conn := OnBegin(sessions[conn], o)];
      tasks := tasks[t := x.(pc := if o.Ok? then Body else RollingBack)];
      ok, more := o.Ok?, trace + [TenantScope.Action.Begin(t, o)];
      RanStep(s, trace, before, TenantScope.Action.Begin(t, o), State());
    }

    /** A statement of the callback inside the open transaction. */
    method QueryInBody(t: nat, conn: nat, o: Outcome, caught: bool, ghost x: Task, ghost s: Sys, ghost trace: seq<Action>)
      returns (ok: bool, ghost more: seq<Action>)
      requires At(t, x) && x.pc.Body? && x.conn == conn && sessions[conn].saved.Some?
      requires Ran(s, trace, State()) && (Effective(o) ==> !sessions[conn].aborted)
      modifies this`sessions, this`tasks, this`log
      ensures more == trace + [Work(t, o, caught)]
      ensures Ran(s, more, State()) && ok == (o.Ok? || caught)
      ensures At(t, x.(pc := if ok then Body else RollingBack, swallowed := x.swallowed || Swallows(o, caught)))
      ensures var w := Write(|old(log)|, t, conn, old(sessions)[conn].tenant);
              && log == (if Effective(o) then old(log) + [w] else old(log))
              && sessions == old(sessions)[conn := OnWork(old(sessions)[conn], w, o)]
    {
      ghost var before := State();
      var w := Write(|log|, t, conn, sessions[conn].tenant);
      if Effective(o) {
        log := log + [w];
      }
      sessions := sessions[conn := OnWork(sessions[conn], w, o)];
      ok := o.Ok? || caught;
      tasks := tasks[t := x.(pc := if ok then Body else RollingBack, swallowed := x.swallowed || Swallows(o, caught))];
      more := trace + [Work(t, o, caught)];
      RanStep(s, trace, before, Work(t, o, caught), State());
    }

    method QueryCommit(t: nat, conn: nat, o: Outcome, ghost x: Task, ghost s: Sys, ghost trace: seq<Action>)
      returns (ok: bool, ghost more: seq<Action>)
      requires At(t, x) && x.pc.Body? && x.conn == conn
      requires Ran(s, trace, State())
      modifies this`sessions, this`tasks, this`durable
      ensures more == trace + [TenantScope.Action.Commit(t, o)]
      ensures Ran(s, more, State()) && ok == o.Ok?
      ensures var done := Effective(o) && !old(sessions)[conn].aborted;
              && At(t, x.(pc := if ok then Releasing else RollingBack, committed := x.committed || done, success := ok))
              && durable == old(durable) + (if done then old(sessions)[conn].pending else [])
      ensures sessions == old(sessions)[conn := OnCommit(old(sessions)[conn], o)]
    {
      ghost var before := State();
      var k := sessions[conn];
      var done := Effective(o) && !k.aborted;
      durable := if done then durable + k.pending else durable;
      sessions := sessions[conn := OnCommit(k, o)];
      ok := o.Ok?;
      tasks := tasks[t := x.(pc := if ok then Releasing else RollingBack, committed := x.committed || done, success := ok)];
      more := trace + [TenantScope.Action.Commit(t, o)];
      RanStep(s, trace, before, TenantScope.Action.Commit(t, o), State());
    }

    /** Its own error is ignored. */
    method QueryRollback(t: nat, conn: nat, o: Outcome, ghost x: Task, ghost s: Sys, ghost trace: seq<Action>)
      returns (ghost more: seq<Action>)
      requires At(t, x) && x.pc.RollingBack? && x.conn == conn
      requires Ran(s, trace, State())
      modifies this`sessions, this`tasks
      ensures more == trace + [Rollback(t, o)]
      ensures sessions == old(sessions)[conn := OnRollback(old(sessions)[conn], o)]
      ensures Ran(s, more, State()) && At(t, x.(pc := Releasing, leftOpen := Open(sessions[conn])))
    {
      ghost var before := State();
      sessions := sessions[conn := OnRollback(sessions[conn], o)];
      tasks := tasks[t := x.(pc := Releasing, leftOpen := Open(sessions[conn]))];
      more := trace + [Rollback(t, o)];
      RanStep(s, trace, before, Rollback(t, o), State());
    }

    method ReleaseClient(t: nat, conn: nat, ghost x: Task, ghost s: Sys, ghost trace: seq<Action>)
      returns (ghost more: seq<Action>)
      requires At(t, x) && x.pc.Releasing? && x.conn == conn
      requires Ran(s, trace, State())
      modifies this`idle, this`tasks
      ensures more == trace + [Release(t)]
      ensures Ran(s, more, State()) && At(t, x.(pc := Finished, releases := x.releases + 1))
      ensures idle == old(idle) + {conn}
    {
      ghost var before := State();
      idle := idle + {conn};
      tasks := tasks[t := x.(pc := Finished, releases := x.releases + 1)];
      more := trace + [Release(t)];
      RanStep(s, trace, before, Release(t), State());
    }

    /** The open transaction holds what it held before and what the callback has written since `start`. */
    ghost predicate Holding(conn: nat, left: seq<Write>, start: nat, swallowed: bool)
      requires conn in sessions && start <= |log|
      reads this
    {
      var c := sessions[conn];
      c.saved.Some? && c.pending == left + log[start..] && (c.aborted <==> swallowed)
    }

    method RunStatement(t: nat, conn: nat, q: Statement, ghost left: seq<Write>, ghost start: nat,
                        ghost x: Task, ghost s: Sys, ghost trace: seq<Action>)
      returns (ok: bool, ghost y: Task, ghost more: seq<Action>)
      requires At(t, x) && x.pc.Body? && x.conn == conn && Ran(s, trace, State())
      requires start <= |log| && Holding(conn, left, start, x.swallowed)
      modifies this`sessions, this`tasks, this`log
      ensures Ran(s, more, State()) && At(t, y)
      ensures y == x.(pc := if ok then Body else RollingBack, swallowed := y.swallowed)
      ensures old(log) <= log && (ok ==> Holding(conn, left, start, y.swallowed))
      ensures sessions.Keys == old(sessions).Keys && sessions[conn].tenant == old(sessions)[conn].tenant
      ensures ok <==> q.caught || (q.o.Ok? && !x.swallowed)
      ensures y.swallowed <==> x.swallowed || (q.caught && q.o == Failed(true))
      ensures |log| == |old(log)| + if Effective(q.o) && !x.swallowed then 1 else 0
      ensures Wrote(old(log), start, t, conn, old(sessions)[conn].tenant) ==>
                Wrote(log, start, t, conn, old(sessions)[conn].tenant)
      ensures RolledBack(more) <==> RolledBack(trace)
      ensures Thrown(more) <==> Thrown(trace)
    {
      var o := Answer(sessions[conn], q.o);
      LastStep(trace, Work(t, o, q.caught));
      ok, more := QueryInBody(t, conn, o, q.caught, x, s, trace);
      y := x.(pc := if ok then Body else RollingBack, swallowed := x.swallowed || Swallows(o, q.caught));
      TailGrows(left, old(log), log, start);
    }

    /** The statements of the callback, until one of their errors gets through. */
    method RunStatements(t: nat, conn: nat, body: seq<Statement>, ghost left: seq<Write>,
                         ghost x: Task, ghost s: Sys, ghost trace: seq<Action>)
      returns (ok: bool, ghost y: Task, ghost more: seq<Action>, ghost k: nat)
      requires At(t, x) && x.pc.Body? && x.conn == conn && Ran(s, trace, State())
      requires Holding(conn, left, |log|, false) && !x.swallowed
      modifies this`sessions, this`tasks, this`log
      ensures Ran(s, more, State()) && At(t, y)
      ensures y == x.(pc := if ok then Body else RollingBack, swallowed := y.swallowed)
      ensures old(log) <= log && (ok ==> Holding(conn, left, |old(log)|, y.swallowed))
      ensures sessions.Keys == old(sessions).Keys
      ensures Issued(body, k) && (ok <==> Returns(body)) && (ok ==> (y.swallowed <==> AbortedBefore(body, |body|)))
      ensures |log| == |old(log)| + Landed(body, k) && Wrote(log, |old(log)|, t, conn, old(sessions)[conn].tenant)
      ensures RolledBack(more) <==> RolledBack(trace)
      ensures Thrown(more) <==> Thrown(trace)
    {
      y, more, ok, k := x, trace, true, 0;
      for i := 0 to |body|
        invariant Ran(s, more, State()) && At(t, y) && y == x.(swallowed := y.swallowed)
        invariant old(log) <= log && Holding(conn, left, |old(log)|, y.swallowed)
        invariant sessions.Keys == old(sessions).Keys && sessions[conn].tenant == old(sessions)[conn].tenant && ok
        invariant k == i && PassesTo(body, i) && (y.swallowed <==> AbortedBefore(body, i))
        invariant |log| == |old(log)| + Landed(body, i) && Wrote(log, |old(log)|, t, conn, old(sessions)[conn].tenant)
        invariant RolledBack(more) <==> RolledBack(trace)
        invariant Thrown(more) <==> Thrown(trace)
      {
        StatementNext(body, i);
        ok, y, more := RunStatement(t, conn, body[i], left, |old(log)|, y, s, more);
        k := i + 1;
        if !ok {
          return;
        }
      }
    }

    /** An error of the callback's own, after its statements. */
    method ThrowError(t: nat, ghost x: Task, ghost s: Sys, ghost trace: seq<Action>) returns (ghost more: seq<Action>)
      requires At(t, x) && x.pc.Body? && Ran(s, trace, State())
      modifies this`tasks
      ensures more == trace + [Throw(t)]
      ensures Ran(s, more, State()) && At(t, x.(pc := RollingBack))
    {
      ghost var before := State();
      tasks := tasks[t := x.(pc := RollingBack)];
      more := trace + [Throw(t)];
      RanStep(s, trace, before, Throw(t), State());
    }

    /**
     * BEGIN, the callback and COMMIT; on an error ROLLBACK, whose own error is ignored. `k` counts
     * the statements of the callback that were issued.
     */
    method Bracket(t: nat, conn: nat, script: Script, ghost x: Task, ghost s: Sys, ghost trace: seq<Action>)
      returns (ok: bool, ghost y: Task, ghost more: seq<Action>, ghost k: nat)
      requires At(t, x) && x.pc.Bound? && x.conn == conn && Ran(s, trace, State())
      requires Tidy(sessions[conn]) && !sessions[conn].aborted && !x.committed && !x.success && !x.swallowed && !x.leftOpen
      requires !RolledBack(trace) && !Thrown(trace)
      modifies this`sessions, this`tasks, this`log, this`durable
      ensures Ran(s, more, State()) && At(t, y) && y.pc.Releasing? && y.conn == conn
      ensures y.acquires == x.acquires && y.releases == x.releases
      ensures ok <==> Completes(script) && script.commit.Ok?
      ensures y.committed <==> Commits(script)
      ensures RolledBack(more) <==> !ok
      ensures Thrown(more) <==> script.begin.Ok? && Returns(script.body) && script.throws
      ensures if script.begin.Ok? then Issued(script.body, k) else k == 0
      ensures |log| == |old(log)| + Landed(script.body, k) && old(log) <= log
      ensures Wrote(log, |old(log)|, t, conn, old(sessions)[conn].tenant)
      ensures durable == old(durable) + if y.committed then old(sessions)[conn].pending + log[|old(log)|..] else []
      ensures ok ==> (y.committed <==> !y.swallowed)
      ensures ok || Effective(script.rollback) ==> sessions[conn].saved.None?
      ensures y.leftOpen <==> Open(sessions[conn])
      ensures y.leftOpen ==> !ok && !y.committed
    {
      ghost var left := sessions[conn].pending;
      assert left + log[|log|..] == left && durable + [] == durable;
      LastStep(trace, TenantScope.Action.Begin(t, script.begin));
      ok, more := QueryBegin(t, conn, script.begin, x, s, trace);
      y, k := x.(pc := if ok then Body else RollingBack), 0;
      if ok {
        ok, y, more, k := RunStatements(t, conn, script.body, left, y, s, more);
      }
      if ok && script.throws {
        LastStep(more, Throw(t));
        more := ThrowError(t, y, s, more);
        y := y.(pc := RollingBack);
        ok := false;
      }
      ok, y, more := Conclude(t, conn, ok, left, |old(log)|, script, y, s, more);
    }

    /** COMMIT after a callback that returned; after any error ROLLBACK. */
    method Conclude(t: nat, conn: nat, returned: bool, ghost left: seq<Write>, ghost start: nat, script: Script,
                    ghost x: Task, ghost s: Sys, ghost trace: seq<Action>)
      returns (ok: bool, ghost y: Task, ghost more: seq<Action>)
      requires At(t, x) && x.pc == (if returned then Body else RollingBack) && x.conn == conn && Ran(s, trace, State())
      requires !x.committed && !x.success && !x.leftOpen && start <= |log| && !RolledBack(trace)
      requires returned ==> Holding(conn, left, start, x.swallowed)
      modifies this`sessions, this`tasks, this`durable
      ensures Ran(s, more, State()) && At(t, y) && y.pc.Releasing? && y.conn == conn
      ensures y.acquires == x.acquires && y.releases == x.releases && y.swallowed == x.swallowed
      ensures ok <==> returned && script.commit.Ok?
      ensures y.committed <==> returned && Effective(script.commit) && !x.swallowed
      ensures RolledBack(more) <==> !ok
      ensures Thrown(more) <==> Thrown(trace)
      ensures durable == old(durable) + if y.committed then left + log[start..] else []
      ensures ok ==> (y.committed <==> !y.swallowed)
      ensures ok || Effective(script.rollback) ==> sessions[conn].saved.None?
      ensures y.leftOpen <==> Open(sessions[conn])
      ensures y.leftOpen ==> !ok && !y.committed
    {
      ok, y, more := returned, x, trace;
      assert durable + [] == durable;
      if returned {
        LastStep(more, TenantScope.Action.Commit(t, script.commit));
        ok, more := QueryCommit(t, conn, script.commit, x, s, trace);
        y := tasks[t];
      }
      if !ok {
        LastStep(more, Rollback(t, script.rollback));
        more := QueryRollback(t, conn, script.rollback, y, s, more);
        y := tasks[t];
      }
    }

    /** What a connection brings along from a transaction left open on it. */
    ghost function Left(conn: nat): seq<Write>
      reads this
    {
      if conn in sessions then sessions[conn].pending else []
    }

    /** The connection arrives in no aborted transaction, and the tenant is set on it. */
    ghost predicate Binds(conn: nat, script: Script)
      reads this
    {
      script.connects && (conn in sessions ==> !sessions[conn].aborted) && script.tenant.Ok?
    }

    /**
     * `withTransaction` on a scoped pool, alone: its effects are a trace of the step system, and the
     * script decides all of them. It returns normally exactly when the connection is usable and
     * bound, BEGIN, every statement and COMMIT succeed, or a statement's error is caught, and the
     * callback does not throw; it rolls back exactly when it was bound and does not return. A COMMIT
     * makes durable what the callback wrote and what an earlier task had left pending there.
     */
    method WithTransaction(t: nat, conn: nat, scope: string, script: Script)
      returns (ok: bool, ghost trace: seq<Action>, ghost k: nat)
      requires t < |tasks| && FreshTask(tasks[t]) && tasks[t].kind.Transaction? && tasks[t].scope == scope
      requires ValidTenantId(scope)
      requires (conn in idle || conn !in sessions) && conn !in dead && (conn in sessions ==> Tidy(sessions[conn]))
      modifies this
      ensures Ran(old(State()), trace, State())
      ensures t < |tasks| && tasks[t].pc.Finished? && tasks[t].releases == tasks[t].acquires <= 1
      ensures script.connects ==> idle == old(idle) + {conn}
      ensures ok <==> old(Binds(conn, script)) && Completes(script) && script.commit.Ok?
      ensures tasks[t].committed <==> old(Binds(conn, script)) && Commits(script)
      ensures RolledBack(trace) <==> old(Binds(conn, script)) && !ok
      ensures Thrown(trace) <==> old(Binds(conn, script)) && script.begin.Ok? && Returns(script.body) && script.throws
      ensures if old(Binds(conn, script)) && script.begin.Ok? then Issued(script.body, k) else k == 0
      ensures old(log) <= log && |log| == |old(log)| + Landed(script.body, k)
      ensures Wrote(log, |old(log)|, t, conn, Some(scope))
      ensures durable == old(durable) + if tasks[t].committed then old(Left(conn)) + log[|old(log)|..] else []
      ensures ok ==> (tasks[t].committed <==> !tasks[t].swallowed)
      ensures tasks[t].leftOpen ==> !ok && !tasks[t].committed && conn in sessions && Open(sessions[conn])
    {
      ghost var s, x := State(), tasks[t];
      k := 0;
      assert log[|log|..] == [] && durable + [] == durable;
      ok, x, trace := ScopedConnect(t, conn, scope, script.connects, script.tenant, s);
      if ok {
        ok, x, trace, k := Bracket(t, conn, script, x, s, trace);
        LastStep(trace, Release(t));
        trace := ReleaseClient(t, conn, x, s, trace);
      }
    }

    /** `connect()` of the scoped pool: a connection is given back at once when its tenant cannot be set. */
    method ScopedConnect(t: nat, conn: nat, scope: string, connects: bool, o: Outcome, ghost s: Sys)
      returns (ok: bool, ghost x: Task, ghost trace: seq<Action>)
      requires t < |tasks| && FreshTask(tasks[t]) && tasks[t].kind.Transaction? && tasks[t].scope == scope
      requires ValidTenantId(scope) && State() == s
      requires (conn in idle || conn !in sessions) && conn !in dead
      modifies this
      ensures Ran(s, trace, State()) && !RolledBack(trace) && !Thrown(trace)
      ensures ok <==> connects && (conn in old(sessions) ==> !old(sessions)[conn].aborted) && o.Ok?
      ensures log == old(log) && durable == old(durable) && t < |tasks|
      ensures ok ==> At(t, x) && x == old(tasks[t]).(pc := Bound, conn := conn, acquires := 1)
      ensures ok ==> idle == old(idle) - {conn} && conn in sessions
      ensures ok ==> sessions[conn] == (if conn in old(sessions) then old(sessions)[conn] else FRESH).(tenant := Some(scope))
      ensures !ok ==> idle == (if connects then old(idle) + {conn} else old(idle))
      ensures !ok ==> var n := if connects then 1 else 0;
                      tasks[t] == old(tasks[t]).(pc := Finished, conn := tasks[t].conn, acquires := n, releases := n)
    {
      x := tasks[t];
      if !connects {
        tasks := tasks[t := x.(pc := Finished)];
        trace := [] + [ConnectFail(t)];
        RanNothing(s);
        RanStep(s, [], s, ConnectFail(t), State());
        return false, x, trace;
      }
      trace := Checkout(t, conn, x, s);
      x := x.(pc := Acquired, conn := conn, acquires := x.acquires + 1);
      var answer := Answer(sessions[conn], o);
      LastStep(trace, SetTenant(t, answer));
      ok, trace := SetTenantContext(t, conn, scope, answer, x, s, trace);
      x := x.(pc := if ok then Bound else Releasing);
      if !ok {
        LastStep(trace, Release(t));
        trace := ReleaseClient(t, conn, x, s, trace);
      }
    }
  }
}
