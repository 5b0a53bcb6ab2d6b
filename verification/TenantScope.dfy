/**
 * Tenants sharing one connection pool. Each checkout through a scoped pool sets the tenant
 * of the session first; `withTransaction` brackets a body with BEGIN and COMMIT or ROLLBACK.
 * Tasks interleave freely, any statement may fail or lose its reply, sessions may die.
 */
module TenantScope {
  import opened Wrappers

  /** `Direct`: one `query` on a scoped pool. `Unscoped`: a user of the bare pool. */
  datatype Kind = Direct | Transaction | Unscoped

  /** `Bound`: the tenant is set and no transaction was begun. `Body`: inside the callback. */
  datatype Pc = Idle | Acquired | Bound | Body | RollingBack | Releasing | Finished

  /**
   * `committed`: the server made the transaction durable. `success`: `withTransaction`
   * returned normally. `swallowed`: the callback caught an error that aborted its transaction.
   * `leftOpen`: its ROLLBACK failed and the transaction stayed open.
   */
  datatype Task = Task(
    kind: Kind,
    scope: string,
    pc: Pc,
    conn: nat,
    acquires: nat,
    releases: nat,
    committed: bool,
    success: bool,
    swallowed: bool,
    leftOpen: bool
  )

  /** One executed statement of a task, with the session's tenant at that moment. */
  datatype Write = Write(serial: nat, task: nat, conn: nat, tenant: Option<string>)

  /** `saved` is the tenant to return to on ROLLBACK, present while a transaction is open. */
  datatype Session = Session(tenant: Option<string>, saved: Option<Option<string>>, aborted: bool, pending: seq<Write>)

  const FRESH := Session(None, None, false, [])

  datatype Sys = Sys(
    tasks: seq<Task>,
    sessions: map<nat, Session>,
    idle: set<nat>,
    dead: set<nat>,
    log: seq<Write>,
    durable: seq<Write>
  )

  /** `Lost`: took effect, reply lost. `Failed(abort)`: no effect, perhaps aborting an open transaction. */
  datatype Outcome = Ok | Lost | Failed(abort: bool)

  datatype Action =
    | Connect(t: nat, conn: nat)
    | ConnectFail(t: nat)
    | SetTenant(t: nat, o: Outcome)
    | Begin(t: nat, o: Outcome)
    | Work(t: nat, o: Outcome, caught: bool)
    | Throw(t: nat)
    | Commit(t: nat, o: Outcome)
    | Rollback(t: nat, o: Outcome)
    | Release(t: nat)
    | Die(conn: nat)

  predicate TenantChar(c: char) {
    'a' <= c <= 'z' || 'A' <= c <= 'Z' || '0' <= c <= '9' || c == '_' || c == '-'
  }

  /** `isValidTenantId`: the scoped pool refuses any other id. */
  predicate ValidTenantId(t: string) {
    0 < |t| <= 128 && forall i | 0 <= i < |t| :: TenantChar(t[i])
  }

  ghost predicate IdChar(n: int) {
    0x41 <= n <= 0x5A || 0x61 <= n <= 0x7A || 0x30 <= n <= 0x39 || n == 0x5F || n == 0x2D
  }

  /** One to 128 characters, by their codes: letters, digits, underscores and hyphens. */
  lemma ValidTenantIdExactly(t: string)
    ensures ValidTenantId(t) <==> 1 <= |t| <= 128 && forall c <- t :: IdChar(c as int)
  {
    if forall c <- t :: IdChar(c as int) {
      forall i | 0 <= i < |t| ensures TenantChar(t[i]) {
        assert t[i] in t;
      }
    }
  }

  predicate Effective(o: Outcome) {
    !o.Failed?
  }

  predicate InUse(x: Task) {
    !x.pc.Idle? && !x.pc.Finished?
  }

  // ---------------------------------------------------------------------
  // Sessions, as the server treats statements

  function Close(c: Session): Session {
    c.(saved := None, aborted := false, pending := [])
  }

  function Revert(c: Session): Session {
    if c.saved.Some? then Close(c.(tenant := c.saved.value)) else c
  }

  function FailedOn(c: Session, o: Outcome): Session
    requires o.Failed?
  {
    if c.saved.Some? && o.abort then c.(aborted := true) else c
  }

  function OnSet(c: Session, tenant: string, o: Outcome): Session {
    if Effective(o) then c.(tenant := Some(tenant)) else FailedOn(c, o)
  }

  /** BEGIN inside an open transaction only warns. */
  function OnBegin(c: Session, o: Outcome): Session {
    if !Effective(o) then FailedOn(c, o)
    else if c.saved.Some? then c
    else c.(saved := Some(c.tenant), pending := [])
  }

  function OnWork(c: Session, w: Write, o: Outcome): Session {
    if !Effective(o) then FailedOn(c, o)
    else if c.saved.Some? then c.(pending := c.pending + [w])
    else c
  }

  /** COMMIT of an aborted transaction rolls it back. */
  function OnCommit(c: Session, o: Outcome): Session {
    if !Effective(o) then FailedOn(c, o) else if c.aborted then Revert(c) else Close(c)
  }

  function OnRollback(c: Session, o: Outcome): Session {
    if Effective(o) then Revert(c) else FailedOn(c, o)
  }

  /** In a transaction that a COMMIT would still make durable. */
  predicate Open(c: Session) {
    c.saved.Some? && !c.aborted
  }

  // ---------------------------------------------------------------------
  // Steps

  predicate Enabled(s: Sys, a: Action) {
    if a.Die? then a.conn in s.sessions && a.conn !in s.dead
    else
      && a.t < |s.tasks|
      && var x := s.tasks[a.t];
      && (InUse(x) ==> x.conn in s.sessions)
      && var live := x.conn !in s.dead;
      match a
      case Connect(_, c) =>
        x.pc.Idle? && (x.kind.Unscoped? || ValidTenantId(x.scope)) && (c in s.idle || c !in s.sessions)
      case ConnectFail(_) => x.pc.Idle?
      case SetTenant(_, o) => x.pc.Acquired? && !x.kind.Unscoped? && CanRun(s, x, o)
      case Begin(_, o) => x.pc.Bound? && x.kind.Transaction? && CanRun(s, x, o)
      case Work(_, o, _) =>
        CanRun(s, x, o) && x.pc == WorkPc(x.kind)
      case Throw(_) => x.pc.Body?
      case Commit(_, o) => x.pc.Body? && (Effective(o) ==> live)
      case Rollback(_, o) => x.pc.RollingBack? && (Effective(o) ==> live)
      case Release(_) => x.pc.Releasing?
  }

  /** Where a task issues its own statements. */
  function WorkPc(k: Kind): Pc {
    match k
    case Unscoped => Acquired
    case Direct => Bound
    case Transaction => Body
  }

  /** A statement takes effect only on a live session that is not in an aborted transaction. */
  predicate CanRun(s: Sys, x: Task, o: Outcome) {
    Effective(o) ==> x.conn in s.sessions && x.conn !in s.dead && !s.sessions[x.conn].aborted
  }

  predicate Swallows(o: Outcome, caught: bool) {
    caught && o.Failed? && o.abort
  }

  function Put(s: Sys, t: nat, x: Task, c: Session): Sys
    requires t < |s.tasks|
  {
    s.(tasks := s.tasks[t := x], sessions := s.sessions[x.conn := c])
  }

  function Next(s: Sys, a: Action): Sys
    requires Enabled(s, a)
  {
    if a.Die? then
      s.(dead := s.dead + {a.conn}, idle := s.idle - {a.conn}, sessions := s.sessions[a.conn := Close(s.sessions[a.conn])])
    else
      var t := a.t;
      var x := s.tasks[t];
      match a
      case Connect(_, c) =>
        var y := x.(pc := Acquired, conn := c, acquires := x.acquires + 1);
        Put(s.(idle := s.idle - {c}), t, y, if c in s.sessions then s.sessions[c] else FRESH)
      case ConnectFail(_) => s.(tasks := s.tasks[t := x.(pc := Finished)])
      case SetTenant(_, o) =>
        Put(s, t, x.(pc := if o.Ok? then Bound else Releasing), OnSet(s.sessions[x.conn], x.scope, o))
      case Begin(_, o) =>
        Put(s, t, x.(pc := if o.Ok? then Body else RollingBack), OnBegin(s.sessions[x.conn], o))
      case Work(_, o, caught) =>
        var c := s.sessions[x.conn];
        var w := Write(|s.log|, t, x.conn, c.tenant);
        var d :=
          if !Effective(o) then s
          else s.(log := s.log + [w], durable := if c.saved.None? then s.durable + [w] else s.durable);
        var pc := if !x.kind.Transaction? then Releasing else if o.Ok? || caught then Body else RollingBack;
        Put(d, t, x.(pc := pc, swallowed := x.swallowed || Swallows(o, caught)), OnWork(c, w, o))
      case Throw(_) => s.(tasks := s.tasks[t := x.(pc := RollingBack)])
      case Commit(_, o) =>
        var c := s.sessions[x.conn];
        var done := Effective(o) && !c.aborted;
        Put(s.(durable := if done then s.durable + c.pending else s.durable), t,
            x.(pc := if o.Ok? then Releasing else RollingBack, committed := x.committed || done, success := o.Ok?),
            OnCommit(c, o))
      case Rollback(_, o) =>
        var c := OnRollback(s.sessions[x.conn], o);
        Put(s, t, x.(pc := Releasing, leftOpen := Open(c)), c)
      case Release(_) =>
        s.(tasks := s.tasks[t := x.(pc := Finished, releases := x.releases + 1)],
           idle := if x.conn in s.dead then s.idle else s.idle + {x.conn})
  }

  // ---------------------------------------------------------------------
  // Runs

  predicate FreshTask(x: Task) {
    x.pc.Idle? && x.acquires == 0 && x.releases == 0 && !x.committed && !x.success && !x.swallowed && !x.leftOpen
  }

  /** Any tasks, an empty pool. */
  predicate Initial(s: Sys) {
    && (forall t | 0 <= t < |s.tasks| :: FreshTask(s.tasks[t]))
    && s.sessions == map[] && s.idle == {} && s.dead == {} && s.log == [] && s.durable == []
  }

  ghost predicate Possible(s: Sys, actions: seq<Action>)
    decreases |actions|
  {
    actions == [] || (Enabled(s, actions[0]) && Possible(Next(s, actions[0]), actions[1..]))
  }

  ghost function After(s: Sys, actions: seq<Action>): Sys
    requires Possible(s, actions)
    decreases |actions|
  {
    if actions == [] then s else After(Next(s, actions[0]), actions[1..])
  }

  // ---------------------------------------------------------------------
  // Ownership of connections

  ghost predicate Holds(s: Sys, t: int, c: nat) {
    0 <= t < |s.tasks| && InUse(s.tasks[t]) && s.tasks[t].conn == c
  }

  ghost predicate Busy(s: Sys, c: nat) {
    exists t :: Holds(s, t, c)
  }

  /** Each connection is idle, checked out by one task, or dead; each task gives back what it took. */
  ghost predicate PoolInv(s: Sys) {
    && (forall t, u, c | Holds(s, t, c) && Holds(s, u, c) :: t == u)
    && (forall t, c | Holds(s, t, c) :: c in s.sessions && c !in s.idle)
    && s.idle <= s.sessions.Keys && s.dead <= s.sessions.Keys && s.idle !! s.dead
    && (forall c | c in s.sessions :: c in s.idle || c in s.dead || Busy(s, c))
    && (forall t | 0 <= t < |s.tasks| :: Balanced(s.tasks[t]))
  }

  predicate Balanced(x: Task) {
    if x.pc.Idle? then x.acquires == 0 && x.releases == 0
    else if x.pc.Finished? then x.acquires == x.releases <= 1
    else x.acquires == 1 && x.releases == 0
  }

  lemma HoldsStep(s: Sys, a: Action)
    requires PoolInv(s) && Enabled(s, a) && !a.Connect? && !a.Release?
    ensures forall t, c :: Holds(s, t, c) <==> Holds(Next(s, a), t, c)
  {
  }

  lemma PoolKeep(s: Sys, a: Action)
    requires PoolInv(s) && Enabled(s, a) && !a.Connect? && !a.Release?
    ensures PoolInv(Next(s, a))
  {
    var n := Next(s, a);
    HoldsStep(s, a);
    if !a.Die? && !a.Throw? && !a.ConnectFail? {
      assert Holds(s, a.t, s.tasks[a.t].conn);
      assert n.sessions.Keys == s.sessions.Keys;
    }
    if a.Die? {
      assert n.sessions.Keys == s.sessions.Keys;
    }
    forall c | c in n.sessions ensures c in n.idle || c in n.dead || Busy(n, c) {
      if t :| Holds(s, t, c) {
        assert Holds(n, t, c);
      }
    }
    forall t | 0 <= t < |n.tasks| ensures Balanced(n.tasks[t]) {
      assert Balanced(s.tasks[t]);
    }
  }

  lemma PoolConnect(s: Sys, a: Action)
    requires PoolInv(s) && Enabled(s, a) && a.Connect?
    ensures PoolInv(Next(s, a))
  {
    var n := Next(s, a);
    assert n.sessions.Keys == s.sessions.Keys + {a.conn};
    forall t, c ensures Holds(n, t, c) <==> Holds(s, t, c) || (t == a.t && c == a.conn) {
    }
    assert forall t :: !Holds(s, t, a.conn);
    forall c | c in n.sessions ensures c in n.idle || c in n.dead || Busy(n, c) {
      if c == a.conn {
        assert Holds(n, a.t, c);
      } else if t :| Holds(s, t, c) {
        assert Holds(n, t, c);
      }
    }
    forall t | 0 <= t < |n.tasks| ensures Balanced(n.tasks[t]) {
      assert Balanced(s.tasks[t]);
    }
  }

  lemma PoolRelease(s: Sys, a: Action)
    requires PoolInv(s) && Enabled(s, a) && a.Release?
    ensures PoolInv(Next(s, a))
  {
    var n := Next(s, a);
    var conn := s.tasks[a.t].conn;
    assert Holds(s, a.t, conn);
    forall t, c ensures Holds(n, t, c) <==> Holds(s, t, c) && t != a.t {
    }
    forall c | c in n.sessions ensures c in n.idle || c in n.dead || Busy(n, c) {
      if t :| Holds(s, t, c) && c != conn {
        assert Holds(n, t, c);
      }
    }
    forall t | 0 <= t < |n.tasks| ensures Balanced(n.tasks[t]) {
      assert Balanced(s.tasks[t]);
    }
  }

  lemma PoolStep(s: Sys, a: Action)
    requires PoolInv(s) && Enabled(s, a)
    ensures PoolInv(Next(s, a))
  {
    if a.Connect? {
      PoolConnect(s, a);
    } else if a.Release? {
      PoolRelease(s, a);
    } else {
      PoolKeep(s, a);
    }
  }

  // ---------------------------------------------------------------------
  // Isolation

  /** From the moment its SET succeeded a scoped task sees its own tenant on a live session. */
  ghost predicate OwnTenant(s: Sys, t: nat)
    requires t < |s.tasks|
  {
    var x := s.tasks[t];
    !x.kind.Unscoped? && (x.pc.Bound? || x.pc.Body?) && x.conn !in s.dead ==>
      x.conn in s.sessions && s.sessions[x.conn].tenant == Some(x.scope)
  }

  ghost predicate Isolated(s: Sys, w: Write) {
    w.task < |s.tasks| && (!s.tasks[w.task].kind.Unscoped? ==> w.tenant == Some(s.tasks[w.task].scope))
  }

  ghost predicate TenantInv(s: Sys) {
    && (forall t | 0 <= t < |s.tasks| :: OwnTenant(s, t))
    && (forall i | 0 <= i < |s.log| :: Isolated(s, s.log[i]))
  }

  lemma TenantStep(s: Sys, a: Action)
    requires PoolInv(s) && TenantInv(s) && Enabled(s, a)
    ensures TenantInv(Next(s, a))
  {
    var n := Next(s, a);
    forall t | 0 <= t < |n.tasks| ensures OwnTenant(n, t) {
      OwnTenantStep(s, a, t);
    }
    forall i | 0 <= i < |n.log| ensures Isolated(n, n.log[i]) {
      if i < |s.log| {
        assert Isolated(s, s.log[i]);
      } else {
        assert OwnTenant(s, a.t);
      }
    }
  }

  lemma OwnTenantStep(s: Sys, a: Action, t: nat)
    requires PoolInv(s) && TenantInv(s) && Enabled(s, a) && t < |s.tasks|
    ensures OwnTenant(Next(s, a), t)
  {
    assert OwnTenant(s, t);
    if !a.Die? && a.t != t && InUse(s.tasks[t]) {
      assert Holds(s, t, s.tasks[t].conn);
      if InUse(s.tasks[a.t]) {
        assert Holds(s, a.t, s.tasks[a.t].conn);
      }
    }
  }

  // ---------------------------------------------------------------------
  // Atomicity

  /** Nothing is pending and nothing aborted outside a transaction. */
  predicate Tidy(c: Session) {
    c.saved.None? ==> !c.aborted && c.pending == []
  }

  ghost predicate SessionsTidy(s: Sys) {
    forall c | c in s.sessions :: Tidy(s.sessions[c]) && (c in s.dead ==> s.sessions[c].saved.None?)
  }

  /**
   * Inside a callback on a live session the transaction is open and holds the task's statements.
   * After a COMMIT it is closed, even if the reply was lost.
   */
  ghost predicate BodyFits(s: Sys, t: nat)
    requires t < |s.tasks|
  {
    var x := s.tasks[t];
    InBlock(x) && x.conn in s.sessions && x.conn !in s.dead ==>
      var c := s.sessions[x.conn];
      && (x.committed ==> c.saved.None?)
      && (x.pc.Body? ==>
            && c.saved.Some? && (c.aborted <==> x.swallowed)
            && (forall i | 0 <= i < |s.log| && s.log[i].task == t :: s.log[i] in c.pending))
  }

  predicate InBlock(x: Task) {
    x.pc.Body? || x.pc.RollingBack?
  }

  predicate Over(x: Task) {
    x.pc.Releasing? || x.pc.Finished?
  }

  ghost predicate TaskFits(x: Task) {
    && (InBlock(x) || x.committed || x.success || x.leftOpen ==> x.kind.Transaction?)
    && (x.committed ==> Over(x) || x.pc.RollingBack?)
    && (x.success ==> Over(x) && (x.committed <==> !x.swallowed))
    && (x.swallowed ==> Over(x) || InBlock(x))
    && (x.leftOpen ==> Over(x) && !x.committed)
  }

  ghost predicate TasksFit(s: Sys) {
    forall t | 0 <= t < |s.tasks| :: TaskFits(s.tasks[t]) && BodyFits(s, t)
  }

  /** The task left its transaction open on session `c`. */
  ghost predicate LeftOn(s: Sys, t: int, c: nat) {
    0 <= t < |s.tasks| && s.tasks[t].leftOpen && s.tasks[t].conn == c
  }

  ghost predicate Leftover(s: Sys, c: nat) {
    exists t :: LeftOn(s, t, c)
  }

  ghost predicate InUseFor(s: Sys, c: nat) {
    exists t :: Holds(s, t, c) && InBlock(s.tasks[t])
  }

  /** A pending write of a transaction that is not aborted is its own task's, or was left there. */
  ghost predicate Owed(s: Sys, c: nat, w: Write)
    requires c in s.sessions
  {
    && w.task < |s.tasks| && w.serial < |s.log|
    && var x := s.tasks[w.task];
       x.kind.Transaction? ==>
         x.leftOpen || s.sessions[c].aborted || (Holds(s, w.task, c) && InBlock(x) && !x.committed)
  }

  ghost predicate PendingOwed(s: Sys) {
    forall c, i | c in s.sessions && 0 <= i < |s.sessions[c].pending| :: Owed(s, c, s.sessions[c].pending[i])
  }

  /** A transaction is open only for the task in it, or because a task left it open. */
  ghost predicate OpenExplained(s: Sys) {
    forall c | c in s.sessions && Open(s.sessions[c]) :: InUseFor(s, c) || Leftover(s, c)
  }

  ghost predicate Durable(s: Sys, w: Write) {
    && w.task < |s.tasks| && w.serial < |s.log|
    && (s.tasks[w.task].kind.Transaction? && !s.tasks[w.task].leftOpen ==> s.tasks[w.task].committed)
  }

  ghost predicate Logged(s: Sys, w: Write) {
    && w.task < |s.tasks|
    && (s.tasks[w.task].committed ==> w in s.durable)
    && (s.tasks[w.task].kind.Transaction? ==> InBlock(s.tasks[w.task]) || Over(s.tasks[w.task]))
    && (!s.tasks[w.task].kind.Transaction? ==> w in s.durable || Leftover(s, w.conn))
  }

  ghost predicate WritesFit(s: Sys) {
    && (forall i | 0 <= i < |s.durable| :: Durable(s, s.durable[i]))
    && (forall i | 0 <= i < |s.log| :: Logged(s, s.log[i]))
  }

  ghost predicate AtomicInv(s: Sys) {
    SessionsTidy(s) && TasksFit(s) && PendingOwed(s) && OpenExplained(s) && WritesFit(s)
  }

  lemma Apart(s: Sys, a: Action, t: nat)
    requires PoolInv(s) && Enabled(s, a) && !a.Die? && t < |s.tasks| && t != a.t && InUse(s.tasks[t])
    ensures a.Connect? ==> s.tasks[t].conn != a.conn
    ensures InUse(s.tasks[a.t]) ==> s.tasks[t].conn != s.tasks[a.t].conn
  {
    assert Holds(s, t, s.tasks[t].conn);
    if InUse(s.tasks[a.t]) {
      assert Holds(s, a.t, s.tasks[a.t].conn);
    }
  }

  lemma TidyStep(s: Sys, a: Action)
    requires PoolInv(s) && SessionsTidy(s) && Enabled(s, a)
    ensures SessionsTidy(Next(s, a))
  {
  }

  lemma FitsOther(s: Sys, a: Action, t: nat)
    requires PoolInv(s) && TasksFit(s) && Enabled(s, a) && t < |s.tasks|
    requires a.Die? || t != a.t
    ensures TaskFits(Next(s, a).tasks[t]) && BodyFits(Next(s, a), t)
  {
    var n := Next(s, a);
    assert BodyFits(s, t) && TaskFits(s.tasks[t]);
    if !a.Die? && InUse(s.tasks[t]) {
      Apart(s, a, t);
      assert n.tasks[t] == s.tasks[t];
    }
  }

  lemma FitsSelf(s: Sys, a: Action)
    requires PoolInv(s) && AtomicInv(s) && Enabled(s, a) && !a.Die?
    ensures TaskFits(Next(s, a).tasks[a.t]) && BodyFits(Next(s, a), a.t)
  {
    var t := a.t;
    assert BodyFits(s, t) && TaskFits(s.tasks[t]);
    if a.Begin? {
      forall i | 0 <= i < |s.log| ensures s.log[i].task != t {
        assert Logged(s, s.log[i]);
      }
    }
  }

  /** A step keeps what is said of a task that has left its transaction open. */
  lemma LeftStays(s: Sys, a: Action, t: nat, c: nat)
    requires TasksFit(s) && Enabled(s, a) && LeftOn(s, t, c)
    ensures LeftOn(Next(s, a), t, c)
  {
    assert TaskFits(s.tasks[t]);
  }

  lemma LeftoverStays(s: Sys, a: Action, c: nat)
    requires TasksFit(s) && Enabled(s, a) && Leftover(s, c)
    ensures Leftover(Next(s, a), c)
  {
    var t :| LeftOn(s, t, c);
    LeftStays(s, a, t, c);
  }

  lemma OwedOther(s: Sys, a: Action, c: nat, w: Write)
    requires PoolInv(s) && TasksFit(s) && Enabled(s, a) && c in s.sessions && Owed(s, c, w)
    requires a.Die? || w.task != a.t
    requires w in Next(s, a).sessions[c].pending && w in s.sessions[c].pending
    ensures Owed(Next(s, a), c, w)
  {
    var n := Next(s, a);
    assert n.tasks[w.task] == s.tasks[w.task];
    if s.sessions[c].aborted {
      AbortStays(s, a, c, w);
    }
  }

  /** An aborted transaction ends only with its pending writes. */
  lemma AbortStays(s: Sys, a: Action, c: nat, w: Write)
    requires PoolInv(s) && Enabled(s, a) && c in s.sessions && s.sessions[c].aborted
    requires w in Next(s, a).sessions[c].pending && w in s.sessions[c].pending
    ensures Next(s, a).sessions[c].aborted
  {
  }

  lemma OwedSelf(s: Sys, a: Action, c: nat, w: Write)
    requires PoolInv(s) && SessionsTidy(s) && TasksFit(s) && Enabled(s, a) && c in s.sessions && Owed(s, c, w)
    requires !a.Die? && w.task == a.t
    requires w in Next(s, a).sessions[c].pending && w in s.sessions[c].pending
    ensures Owed(Next(s, a), c, w)
  {
    assert TaskFits(s.tasks[a.t]) && BodyFits(s, a.t);
    if s.sessions[c].aborted {
      AbortStays(s, a, c, w);
    }
  }

  lemma OwedStep(s: Sys, a: Action, c: nat, w: Write)
    requires PoolInv(s) && AtomicInv(s) && Enabled(s, a)
    requires c in Next(s, a).sessions && w in Next(s, a).sessions[c].pending
    ensures Owed(Next(s, a), c, w)
  {
    if c in s.sessions && w in s.sessions[c].pending {
      var i :| 0 <= i < |s.sessions[c].pending| && s.sessions[c].pending[i] == w;
      assert Owed(s, c, w);
      if a.Die? || w.task != a.t {
        OwedOther(s, a, c, w);
      } else {
        OwedSelf(s, a, c, w);
      }
    } else {
      assert TaskFits(s.tasks[a.t]) && BodyFits(s, a.t);
    }
  }

  lemma OpenStep(s: Sys, a: Action, c: nat)
    requires PoolInv(s) && AtomicInv(s) && Enabled(s, a)
    requires c in Next(s, a).sessions && Open(Next(s, a).sessions[c])
    ensures InUseFor(Next(s, a), c) || Leftover(Next(s, a), c)
  {
    var n := Next(s, a);
    if c in s.sessions && Leftover(s, c) {
      LeftoverStays(s, a, c);
    } else if !a.Die? && InUse(n.tasks[a.t]) && n.tasks[a.t].conn == c {
      OpenSelf(s, a, c);
    } else {
      OpenOther(s, a, c);
    }
  }

  lemma OpenOther(s: Sys, a: Action, c: nat)
    requires PoolInv(s) && OpenExplained(s) && Enabled(s, a) && c in Next(s, a).sessions && Open(Next(s, a).sessions[c])
    requires a.Die? || !InUse(Next(s, a).tasks[a.t]) || Next(s, a).tasks[a.t].conn != c
    requires !Leftover(s, c)
    ensures InUseFor(Next(s, a), c)
  {
    var n := Next(s, a);
    assert c in s.sessions && Open(s.sessions[c]);
    var t :| Holds(s, t, c) && InBlock(s.tasks[t]);
    assert Holds(n, t, c) && InBlock(n.tasks[t]);
  }

  lemma OpenSelf(s: Sys, a: Action, c: nat)
    requires PoolInv(s) && AtomicInv(s) && Enabled(s, a) && !a.Die?
    requires InUse(Next(s, a).tasks[a.t]) && Next(s, a).tasks[a.t].conn == c
    requires Open(Next(s, a).sessions[c]) && !Leftover(s, c)
    ensures InUseFor(Next(s, a), c) || Leftover(Next(s, a), c)
  {
    var n := Next(s, a);
    assert Holds(n, a.t, c);
    if a.Rollback? {
      assert LeftOn(n, a.t, c);
    } else if !InBlock(n.tasks[a.t]) {
      NobodyIn(s, a, c);
      assert false;
    }
  }

  /** A task that keeps a transaction open and is in none itself found it open, with nobody in it. */
  lemma NobodyIn(s: Sys, a: Action, c: nat)
    requires PoolInv(s) && Enabled(s, a) && !a.Die? && !a.Rollback?
    requires InUse(Next(s, a).tasks[a.t]) && !InBlock(Next(s, a).tasks[a.t])
    requires Next(s, a).tasks[a.t].conn == c && Open(Next(s, a).sessions[c])
    ensures c in s.sessions && Open(s.sessions[c]) && !InUseFor(s, c)
  {
    forall t | Holds(s, t, c) ensures !InBlock(s.tasks[t]) {
      if InUse(s.tasks[a.t]) {
        assert Holds(s, a.t, c);
      }
    }
  }

  lemma DurableStays(s: Sys, a: Action, w: Write)
    requires TasksFit(s) && Enabled(s, a) && Durable(s, w)
    ensures Durable(Next(s, a), w)
  {
    assert TaskFits(s.tasks[w.task]);
  }

  /** What a COMMIT makes durable was written by its own task, or left there. */
  lemma DurableByCommit(s: Sys, a: Action, w: Write)
    requires PoolInv(s) && TasksFit(s) && Enabled(s, a) && a.Commit? && Effective(a.o)
    requires var c := s.tasks[a.t].conn; !s.sessions[c].aborted && Owed(s, c, w)
    ensures Durable(Next(s, a), w)
  {
    assert TaskFits(s.tasks[w.task]);
    assert Holds(s, a.t, s.tasks[a.t].conn);
  }

  lemma DurableStep(s: Sys, a: Action, w: Write)
    requires PoolInv(s) && AtomicInv(s) && Enabled(s, a) && w in Next(s, a).durable
    ensures Durable(Next(s, a), w)
  {
    if w in s.durable {
      var i :| 0 <= i < |s.durable| && s.durable[i] == w;
      DurableStays(s, a, w);
    } else if a.Commit? {
      var p := s.sessions[s.tasks[a.t].conn].pending;
      var i :| 0 <= i < |p| && p[i] == w;
      DurableByCommit(s, a, w);
    } else {
      assert BodyFits(s, a.t) && TaskFits(s.tasks[a.t]);
    }
  }

  lemma LoggedStep(s: Sys, a: Action, w: Write)
    requires PoolInv(s) && AtomicInv(s) && Enabled(s, a) && w in Next(s, a).log
    ensures Logged(Next(s, a), w)
  {
    if w in s.log {
      LoggedStays(s, a, w);
    } else {
      assert TaskFits(s.tasks[a.t]);
      NewWrite(s, a);
    }
  }

  lemma LoggedStays(s: Sys, a: Action, w: Write)
    requires PoolInv(s) && AtomicInv(s) && Enabled(s, a) && w in s.log
    ensures Logged(Next(s, a), w)
  {
    var i :| 0 <= i < |s.log| && s.log[i] == w;
    assert Logged(s, w);
    DurableGrows(s, a);
    if Leftover(s, w.conn) {
      LeftoverStays(s, a, w.conn);
    }
    CommitFlushes(s, a, w);
    BlockStays(s, a, w.task);
  }

  lemma BlockStays(s: Sys, a: Action, t: nat)
    requires Enabled(s, a) && t < |s.tasks|
    ensures Next(s, a).tasks[t].kind == s.tasks[t].kind
    ensures InBlock(s.tasks[t]) || Over(s.tasks[t]) ==> InBlock(Next(s, a).tasks[t]) || Over(Next(s, a).tasks[t])
  {
  }

  lemma DurableGrows(s: Sys, a: Action)
    requires Enabled(s, a)
    ensures s.durable <= Next(s, a).durable && |Next(s, a).tasks| == |s.tasks|
  {
  }

  lemma CommitFlushes(s: Sys, a: Action, w: Write)
    requires PoolInv(s) && TasksFit(s) && Enabled(s, a) && w in s.log && w.task < |s.tasks|
    ensures Next(s, a).tasks[w.task].committed && !s.tasks[w.task].committed ==> w in Next(s, a).durable
  {
    if a.Commit? && w.task == a.t {
      var i :| 0 <= i < |s.log| && s.log[i] == w;
      assert BodyFits(s, a.t);
    }
  }

  /** A statement outside `withTransaction` is durable unless another task left a transaction open there. */
  lemma NewWrite(s: Sys, a: Action)
    requires PoolInv(s) && AtomicInv(s) && Enabled(s, a) && a.Work? && Effective(a.o)
    ensures !s.tasks[a.t].kind.Transaction? && s.sessions[s.tasks[a.t].conn].saved.Some? ==>
              Leftover(Next(s, a), s.tasks[a.t].conn)
  {
    var x := s.tasks[a.t];
    if !x.kind.Transaction? && s.sessions[x.conn].saved.Some? {
      assert Holds(s, a.t, x.conn) && Open(s.sessions[x.conn]);
      assert Leftover(s, x.conn);
      LeftoverStays(s, a, x.conn);
    }
  }

  lemma AtomicStep(s: Sys, a: Action)
    requires PoolInv(s) && AtomicInv(s) && Enabled(s, a)
    ensures AtomicInv(Next(s, a))
  {
    var n := Next(s, a);
    TidyStep(s, a);
    forall t | 0 <= t < |n.tasks| ensures TaskFits(n.tasks[t]) && BodyFits(n, t) {
      if a.Die? || t != a.t {
        FitsOther(s, a, t);
      } else {
        FitsSelf(s, a);
      }
    }
    forall c, i | c in n.sessions && 0 <= i < |n.sessions[c].pending| ensures Owed(n, c, n.sessions[c].pending[i]) {
      OwedStep(s, a, c, n.sessions[c].pending[i]);
    }
    forall c | c in n.sessions && Open(n.sessions[c]) ensures InUseFor(n, c) || Leftover(n, c) {
      OpenStep(s, a, c);
    }
    forall i | 0 <= i < |n.durable| ensures Durable(n, n.durable[i]) {
      DurableStep(s, a, n.durable[i]);
    }
    forall i | 0 <= i < |n.log| ensures Logged(n, n.log[i]) {
      LoggedStep(s, a, n.log[i]);
    }
  }

  // ---------------------------------------------------------------------
  // Connections that no longer work

  /** An aborted transaction on a session whose task, if any, is not going to roll it back. */
  ghost predicate Poisoned(s: Sys, c: nat) {
    && c in s.sessions && c !in s.dead && s.sessions[c].aborted
    && forall t | Holds(s, t, c) :: s.tasks[t].pc.Acquired? || s.tasks[t].pc.Releasing?
  }

  lemma PoisonStep(s: Sys, a: Action, c: nat)
    requires PoolInv(s) && Enabled(s, a) && Poisoned(s, c) && a != Die(c)
    ensures Poisoned(Next(s, a), c)
  {
    var n := Next(s, a);
    forall t | Holds(n, t, c) ensures n.tasks[t].pc.Acquired? || n.tasks[t].pc.Releasing? {
      if a.Die? || t != a.t {
        assert Holds(s, t, c);
      } else if !a.Connect? {
        assert Holds(s, t, c);
      }
    }
  }
}
