/**
 * Any number of migration runners over one database, under a session-level advisory lock.
 * Every step may fail, a reply may be lost after its effect took place, and a session may
 * die at any moment, which frees the locks it holds.
 */
module MigrationRunner {
  import opened Wrappers

  /** Where a runner stands in `runTenantMigrations`. */
  datatype Pc =
    | Idle
    | Connected
    | Locked
    | Applying(i: nat)
    | Executed(i: nat)
    | Unlocking
    | Releasing
    | Finished

  /** `blind`: its own read of the applied versions failed. */
  datatype Runner = Runner(pc: Pc, conn: nat, applied: set<int>, blind: bool)

  /**
   * `lock` is the session holding the advisory lock and `depth` how often it holds it;
   * `leaks` counts the holds no runner will give back. `executed` counts executions, `reruns`
   * those of a version that was recorded already, and `interrupted` the other executions whose
   * runner failed before recording.
   */
  datatype Sys = Sys(
    runners: seq<Runner>,
    lock: Option<nat>,
    depth: nat,
    leaks: nat,
    dead: set<nat>,
    recorded: set<int>,
    executed: multiset<int>,
    interrupted: multiset<int>,
    reruns: multiset<int>
  )

  /** `Lost`: the statement took effect but its reply did not arrive. */
  datatype Outcome = Ok | Lost | Failed

  datatype Action =
    | Connect(r: nat, conn: nat)
    | ConnectFail(r: nat)
    | Lock(r: nat, o: Outcome)
    | Read(r: nat, ok: bool)
    | Skip(r: nat)
    | FileMissing(r: nat)
    | Execute(r: nat, o: Outcome)
    | Record(r: nat, o: Outcome)
    | Finish(r: nat)
    | Unlock(r: nat, o: Outcome)
    | Release(r: nat)
    | Die(conn: nat)

  predicate InUse(x: Runner) {
    !x.pc.Idle? && !x.pc.Finished?
  }

  /** Between acquiring the lock and having tried to release it. */
  predicate Holding(x: Runner) {
    x.pc.Locked? || x.pc.Applying? || x.pc.Executed? || x.pc.Unlocking?
  }

  predicate Alive(s: Sys, x: Runner) {
    x.conn !in s.dead
  }

  predicate Effective(o: Outcome) {
    !o.Failed?
  }

  function Set(s: Sys, r: nat, x: Runner): Sys
    requires r < |s.runners|
  {
    s.(runners := s.runners[r := x])
  }

  predicate Enabled(versions: seq<int>, s: Sys, a: Action) {
    if a.Die? then a.conn !in s.dead
    else
      && a.r < |s.runners|
      && var x := s.runners[a.r];
      match a
      case Connect(_, c) =>
        x.pc.Idle? && c !in s.dead && forall q | 0 <= q < |s.runners| && InUse(s.runners[q]) :: s.runners[q].conn != c
      case ConnectFail(_) => x.pc.Idle?
      case Lock(_, o) =>
        x.pc.Connected? && (Effective(o) ==> Alive(s, x) && (s.lock.None? || s.lock.value == x.conn))
      case Read(_, ok) => x.pc.Locked? && (ok ==> Alive(s, x))
      case Skip(_) => x.pc.Applying? && x.pc.i < |versions| && versions[x.pc.i] in x.applied
      case FileMissing(_) => x.pc.Applying? && x.pc.i < |versions| && versions[x.pc.i] !in x.applied
      case Execute(_, o) =>
        x.pc.Applying? && x.pc.i < |versions| && versions[x.pc.i] !in x.applied && (Effective(o) ==> Alive(s, x))
      case Record(_, o) => x.pc.Executed? && x.pc.i < |versions| && (Effective(o) ==> Alive(s, x))
      case Finish(_) => x.pc.Applying? && x.pc.i >= |versions|
      case Unlock(_, o) => x.pc.Unlocking? && (Effective(o) ==> Alive(s, x) && s.lock == Some(x.conn) && s.depth > 0)
      case Release(_) => x.pc.Releasing?
  }

  /** Versions executed but not yet recorded, the runner being on session `c`. */
  function Pending(versions: seq<int>, s: Sys, c: nat): set<int> {
    set r | 0 <= r < |s.runners| && s.runners[r].pc.Executed? && s.runners[r].conn == c
              && s.runners[r].pc.i < |versions| && versions[s.runners[r].pc.i] !in s.recorded :: versions[s.runners[r].pc.i]
  }

  function Next(versions: seq<int>, s: Sys, a: Action): Sys
    requires Enabled(versions, s, a)
  {
    if a.Die? then
      s.(dead := s.dead + {a.conn},
         lock := if s.lock == Some(a.conn) then None else s.lock,
         depth := if s.lock == Some(a.conn) then 0 else s.depth,
         leaks := if s.lock == Some(a.conn) then 0 else s.leaks,
         interrupted := s.interrupted + multiset(Pending(versions, s, a.conn)))
    else
      var r := a.r;
      var x := s.runners[r];
      match a
      case Connect(_, c) => Set(s, r, x.(pc := Connected, conn := c))
      case ConnectFail(_) => Set(s, r, x.(pc := Finished))
      case Lock(_, o) =>
        var t := if Effective(o) then s.(lock := Some(x.conn), depth := s.depth + 1) else s;
        Set(t.(leaks := if o.Lost? then t.leaks + 1 else t.leaks), r, x.(pc := if o.Ok? then Locked else Releasing))
      case Read(_, ok) =>
        Set(s, r, x.(pc := Applying(0), applied := if ok then s.recorded else {}, blind := !ok))
      case Skip(_) => Set(s, r, x.(pc := Applying(x.pc.i + 1)))
      case FileMissing(_) => Set(s, r, x.(pc := Unlocking))
      case Execute(_, o) =>
        var v := versions[x.pc.i];
        Set(s.(executed := if Effective(o) then s.executed + multiset{v} else s.executed,
               reruns := if Effective(o) && v in s.recorded then s.reruns + multiset{v} else s.reruns,
               interrupted := if o.Lost? && v !in s.recorded then s.interrupted + multiset{v} else s.interrupted),
            r, x.(pc := if o.Ok? then Executed(x.pc.i) else Unlocking))
      case Record(_, o) =>
        var v := versions[x.pc.i];
        Set(s.(recorded := if Effective(o) then s.recorded + {v} else s.recorded,
               interrupted := if o.Failed? && Alive(s, x) && v !in s.recorded then s.interrupted + multiset{v}
                              else s.interrupted),
            r, if o.Ok? then x.(pc := Applying(x.pc.i + 1), applied := x.applied + {v}) else x.(pc := Unlocking))
      case Finish(_) => Set(s, r, x.(pc := Unlocking))
      case Unlock(_, o) =>
        Set(if Effective(o) then s.(depth := s.depth - 1, lock := if s.depth == 1 then None else s.lock)
            else s.(leaks := if Alive(s, x) then s.leaks + 1 else s.leaks),
            r, x.(pc := Releasing))
      case Release(_) => Set(s, r, x.(pc := Finished))
  }

  // ---------------------------------------------------------------------
  // Runs

  function Initial(n: nat, recorded: set<int>): Sys {
    Sys(seq(n, i => Runner(Idle, 0, {}, false)), None, 0, 0, {}, recorded, multiset{}, multiset{}, multiset{})
  }

  ghost predicate Possible(versions: seq<int>, s: Sys, actions: seq<Action>)
    decreases |actions|
  {
    actions == [] ||
    (Enabled(versions, s, actions[0]) && Possible(versions, Next(versions, s, actions[0]), actions[1..]))
  }

  ghost function After(versions: seq<int>, s: Sys, actions: seq<Action>): Sys
    requires Possible(versions, s, actions)
    decreases |actions|
  {
    if actions == [] then s else After(versions, Next(versions, s, actions[0]), actions[1..])
  }

  ghost predicate Ascending(versions: seq<int>) {
    forall i, j | 0 <= i < j < |versions| :: versions[i] < versions[j]
  }

  // ---------------------------------------------------------------------
  // The lock

  ghost predicate Exclusive(s: Sys) {
    forall q, r | 0 <= q < |s.runners| && 0 <= r < |s.runners| && q != r && InUse(s.runners[q]) && InUse(s.runners[r]) ::
      s.runners[q].conn != s.runners[r].conn
  }

  /** Runner `r` is inside the locked section and its session still lives. */
  ghost predicate Owner(s: Sys, r: int) {
    0 <= r < |s.runners| && Holding(s.runners[r]) && Alive(s, s.runners[r])
  }

  ghost predicate SomeOwner(s: Sys) {
    exists r :: Owner(s, r)
  }

  ghost predicate LockInv(s: Sys) {
    && Exclusive(s)
    && (s.lock.None? <==> s.depth == 0)
    && (s.lock.Some? ==> s.lock.value !in s.dead)
    && (forall r | Owner(s, r) :: s.lock == Some(s.runners[r].conn))
    && s.depth == s.leaks + (if SomeOwner(s) then 1 else 0)
  }

  lemma OneOwner(s: Sys, q: int, r: int)
    requires LockInv(s) && Owner(s, q) && Owner(s, r)
    ensures q == r
  {
  }

  /** A step of runner `r` that neither enters nor leaves the locked section. */
  lemma SameOwners(s: Sys, t: Sys)
    requires |s.runners| == |t.runners| && s.dead == t.dead
    requires forall r | 0 <= r < |s.runners| ::
               s.runners[r].conn == t.runners[r].conn && (Holding(s.runners[r]) <==> Holding(t.runners[r]))
    ensures forall r :: Owner(s, r) <==> Owner(t, r)
    ensures SomeOwner(s) <==> SomeOwner(t)
  {
    forall r ensures Owner(s, r) <==> Owner(t, r) {
    }
    if SomeOwner(t) {
      var r :| Owner(t, r);
      assert Owner(s, r);
    }
  }

  lemma LockStep(versions: seq<int>, s: Sys, a: Action)
    requires LockInv(s) && Enabled(versions, s, a) && a.Lock?
    ensures LockInv(Next(versions, s, a))
  {
    var t := Next(versions, s, a);
    var r := a.r;
    if a.o.Ok? {
      assert !SomeOwner(s);
      assert Owner(t, r);
    } else {
      SameOwners(s, t);
    }
  }

  lemma UnlockStep(versions: seq<int>, s: Sys, a: Action)
    requires LockInv(s) && Enabled(versions, s, a) && a.Unlock?
    ensures LockInv(Next(versions, s, a))
  {
    var t := Next(versions, s, a);
    var r := a.r;
    forall q ensures Owner(t, q) <==> Owner(s, q) && q != r {
    }
    if Alive(s, s.runners[r]) {
      assert Owner(s, r);
      if q :| Owner(t, q) {
        OneOwner(s, q, r);
      }
      assert !SomeOwner(t);
    } else {
      assert SomeOwner(t) <==> SomeOwner(s) by {
        if q :| Owner(s, q) {
          assert Owner(t, q);
        }
        if q :| Owner(t, q) {
          assert Owner(s, q);
        }
      }
    }
  }

  lemma DieStep(versions: seq<int>, s: Sys, a: Action)
    requires LockInv(s) && Enabled(versions, s, a) && a.Die?
    ensures LockInv(Next(versions, s, a))
  {
    var t := Next(versions, s, a);
    forall q ensures Owner(t, q) <==> Owner(s, q) && s.runners[q].conn != a.conn {
    }
    if s.lock == Some(a.conn) {
      assert !SomeOwner(t);
    } else {
      assert SomeOwner(t) <==> SomeOwner(s) by {
        if q :| Owner(s, q) {
          assert Owner(t, q);
        }
      }
    }
  }

  lemma ConnectStep(versions: seq<int>, s: Sys, a: Action)
    requires LockInv(s) && Enabled(versions, s, a) && a.Connect?
    ensures LockInv(Next(versions, s, a))
  {
    var t := Next(versions, s, a);
    forall q ensures Owner(t, q) <==> Owner(s, q) {
    }
    assert SomeOwner(t) <==> SomeOwner(s) by {
      if q :| Owner(s, q) {
        assert Owner(t, q);
      }
      if q :| Owner(t, q) {
        assert Owner(s, q);
      }
    }
  }

  /** Nothing about the lock, the sessions or who holds what changes. */
  lemma Quiet(versions: seq<int>, s: Sys, a: Action)
    requires Enabled(versions, s, a) && !a.Lock? && !a.Unlock? && !a.Die? && !a.Connect?
    ensures var t := Next(versions, s, a);
            && |t.runners| == |s.runners| && t.dead == s.dead && t.lock == s.lock && t.depth == s.depth && t.leaks == s.leaks
            && (forall r | 0 <= r < |s.runners| :: t.runners[r].conn == s.runners[r].conn
                  && (Holding(t.runners[r]) <==> Holding(s.runners[r])) && (InUse(t.runners[r]) ==> InUse(s.runners[r])))
  {
  }

  lemma QuietStep(versions: seq<int>, s: Sys, a: Action)
    requires LockInv(s) && Enabled(versions, s, a) && !a.Lock? && !a.Unlock? && !a.Die? && !a.Connect?
    ensures LockInv(Next(versions, s, a))
  {
    Quiet(versions, s, a);
    SameOwners(s, Next(versions, s, a));
  }

  lemma LockInvStep(versions: seq<int>, s: Sys, a: Action)
    requires LockInv(s) && Enabled(versions, s, a)
    ensures LockInv(Next(versions, s, a))
  {
    match a
    case Lock(_, _) => LockStep(versions, s, a);
    case Unlock(_, _) => UnlockStep(versions, s, a);
    case Die(_) => DieStep(versions, s, a);
    case Connect(_, _) => ConnectStep(versions, s, a);
    case _ => QuietStep(versions, s, a);
  }

  // ---------------------------------------------------------------------
  // The apply loop

  predicate InLoop(x: Runner) {
    x.pc.Applying? || x.pc.Executed?
  }

  /** What one runner knows: everything before its position is recorded. */
  ghost predicate Knows(versions: seq<int>, s: Sys, x: Runner) {
    (x.blind ==> !x.pc.Idle? && !x.pc.Connected? && !x.pc.Locked?) &&
    (InLoop(x) ==>
      && x.pc.i <= |versions|
      && (forall j | 0 <= j < x.pc.i :: versions[j] in s.recorded)
      && x.applied <= s.recorded
      && (x.pc.Executed? ==> x.pc.i < |versions| && versions[x.pc.i] in s.executed && versions[x.pc.i] !in x.applied))
  }

  ghost predicate RecordInv(versions: seq<int>, first: set<int>, s: Sys) {
    && first <= s.recorded
    && (forall v | v in s.recorded && v !in first :: v in versions && v in s.executed)
    && (forall i, j | 0 <= i < j < |versions| && versions[j] in s.recorded && versions[j] !in first ::
          versions[i] in s.recorded)
    && (forall r | 0 <= r < |s.runners| :: Knows(versions, s, s.runners[r]))
  }

  lemma NewlyRecorded(versions: seq<int>, first: set<int>, s: Sys, a: Action)
    requires RecordInv(versions, first, s) && Enabled(versions, s, a) && Ascending(versions) && a.Record?
    ensures var t := Next(versions, s, a);
            && (forall v | v in t.recorded && v !in first :: v in versions && v in t.executed)
            && (forall i, j | 0 <= i < j < |versions| && versions[j] in t.recorded && versions[j] !in first ::
                  versions[i] in t.recorded)
  {
    var t, x := Next(versions, s, a), s.runners[a.r];
    assert Knows(versions, s, x);
    forall i, j | 0 <= i < j < |versions| && versions[j] in t.recorded && versions[j] !in first
      ensures versions[i] in t.recorded
    {
      if versions[j] == versions[x.pc.i] {
        assert j == x.pc.i;
      }
    }
  }

  lemma KnowsStep(versions: seq<int>, s: Sys, a: Action, r: nat)
    requires Enabled(versions, s, a) && r < |s.runners|
    requires forall q | 0 <= q < |s.runners| :: Knows(versions, s, s.runners[q])
    ensures Knows(versions, Next(versions, s, a), Next(versions, s, a).runners[r])
  {
    var t := Next(versions, s, a);
    Grows(versions, s, a);
    if a.Die? || a.r != r {
      KnowsMore(versions, s, t, s.runners[r]);
    } else {
      KnowsSelf(versions, s, a);
    }
  }

  lemma Grows(versions: seq<int>, s: Sys, a: Action)
    requires Enabled(versions, s, a)
    ensures s.recorded <= Next(versions, s, a).recorded && s.executed <= Next(versions, s, a).executed
  {
  }

  lemma KnowsMore(versions: seq<int>, s: Sys, t: Sys, x: Runner)
    requires Knows(versions, s, x) && s.recorded <= t.recorded && s.executed <= t.executed
    ensures Knows(versions, t, x)
  {
  }

  lemma KnowsSelf(versions: seq<int>, s: Sys, a: Action)
    requires Enabled(versions, s, a) && !a.Die? && Knows(versions, s, s.runners[a.r])
    ensures Knows(versions, Next(versions, s, a), Next(versions, s, a).runners[a.r])
  {
  }

  lemma RecordInvStep(versions: seq<int>, first: set<int>, s: Sys, a: Action)
    requires RecordInv(versions, first, s) && Enabled(versions, s, a) && Ascending(versions)
    ensures RecordInv(versions, first, Next(versions, s, a))
  {
    if a.Record? {
      NewlyRecorded(versions, first, s, a);
    }
    forall r | 0 <= r < |s.runners| ensures Knows(versions, Next(versions, s, a), Next(versions, s, a).runners[r]) {
      KnowsStep(versions, s, a, r);
    }
  }

  ghost function Elements(xs: seq<int>): set<int> {
    set x | x in xs
  }

  /** A live runner has executed `v`, which nobody has recorded yet. */
  ghost predicate PendingBy(versions: seq<int>, s: Sys, r: int, v: int) {
    && Owner(s, r) && s.runners[r].pc.Executed?
    && s.runners[r].pc.i < |versions| && versions[s.runners[r].pc.i] == v && v !in s.recorded
  }

  ghost predicate PendingNow(versions: seq<int>, s: Sys, v: int) {
    exists r :: PendingBy(versions, s, r, v)
  }

  /** A sighted runner in the loop knows what is recorded, a blind one what it recorded itself. */
  ghost predicate Sees(versions: seq<int>, s: Sys, r: int) {
    Owner(s, r) && InLoop(s.runners[r]) ==>
      var x := s.runners[r];
      x.pc.i <= |versions| && x.applied == if x.blind then Elements(versions[..x.pc.i]) else s.recorded
  }

  ghost predicate SomeBlind(s: Sys) {
    exists r :: 0 <= r < |s.runners| && s.runners[r].blind
  }

  /** Every execution was recorded, is about to be, was interrupted, or ran a recorded version again. */
  ghost predicate Accounted(versions: seq<int>, first: set<int>, s: Sys, v: int) {
    && s.executed[v] == (if v in s.recorded && v !in first then 1 else 0) + (if PendingNow(versions, s, v) then 1 else 0)
                        + s.interrupted[v] + s.reruns[v]
    && (v in first ==> s.interrupted[v] == 0)
    && (s.reruns[v] > 0 ==> SomeBlind(s))
  }

  ghost predicate OnceInv(versions: seq<int>, first: set<int>, s: Sys) {
    (forall r :: Sees(versions, s, r)) && (forall v :: Accounted(versions, first, s, v))
  }

  ghost predicate Inv(versions: seq<int>, first: set<int>, s: Sys) {
    LockInv(s) && RecordInv(versions, first, s) && OnceInv(versions, first, s)
  }

  lemma BlindStays(versions: seq<int>, first: set<int>, s: Sys, a: Action)
    requires RecordInv(versions, first, s) && Enabled(versions, s, a) && SomeBlind(s)
    ensures SomeBlind(Next(versions, s, a))
  {
    var r :| 0 <= r < |s.runners| && s.runners[r].blind;
    assert Knows(versions, s, s.runners[r]);
    assert Next(versions, s, a).runners[r].blind;
  }

  lemma NotBefore(versions: seq<int>, i: nat)
    requires Ascending(versions) && i < |versions|
    ensures versions[i] !in Elements(versions[..i])
    ensures Elements(versions[..i + 1]) == Elements(versions[..i]) + {versions[i]}
  {
    assert versions[..i + 1] == versions[..i] + [versions[i]];
  }

  lemma SeesOther(versions: seq<int>, s: Sys, a: Action, r: int)
    requires LockInv(s) && Enabled(versions, s, a) && Sees(versions, s, r) && (a.Die? || a.r != r)
    ensures Sees(versions, Next(versions, s, a), r)
  {
    var t := Next(versions, s, a);
    if Owner(t, r) {
      assert Owner(s, r) && t.runners[r] == s.runners[r];
      if t.recorded != s.recorded {
        assert Owner(s, a.r);
        OneOwner(s, r, a.r);
      }
    }
  }

  lemma SeesSelf(versions: seq<int>, s: Sys, a: Action)
    requires Ascending(versions) && Enabled(versions, s, a) && !a.Die? && Sees(versions, s, a.r)
    ensures Sees(versions, Next(versions, s, a), a.r)
  {
    var x, t := s.runners[a.r], Next(versions, s, a);
    if Owner(t, a.r) && InLoop(t.runners[a.r]) {
      if a.Read? {
        assert versions[..0] == [];
      } else {
        assert Owner(s, a.r) && InLoop(x);
        if x.pc.i < |versions| {
          NotBefore(versions, x.pc.i);
        }
      }
    }
  }

  lemma SamePending(versions: seq<int>, s: Sys, t: Sys, v: int)
    requires forall r :: PendingBy(versions, s, r, v) <==> PendingBy(versions, t, r, v)
    ensures PendingNow(versions, s, v) <==> PendingNow(versions, t, v)
  {
    if r :| PendingBy(versions, s, r, v) {
      assert PendingBy(versions, t, r, v);
    }
    if r :| PendingBy(versions, t, r, v) {
      assert PendingBy(versions, s, r, v);
    }
  }

  /** While the owner is `r`, only `r` can be between executing and recording. */
  lemma PendingIsOwner(versions: seq<int>, s: Sys, r: nat, v: int)
    requires LockInv(s) && Owner(s, r)
    ensures PendingNow(versions, s, v) <==> PendingBy(versions, s, r, v)
  {
    if q :| PendingBy(versions, s, q, v) {
      OneOwner(s, q, r);
    }
  }

  lemma AccountedExecute(versions: seq<int>, first: set<int>, s: Sys, a: Action, v: int)
    requires Inv(versions, first, s) && Enabled(versions, s, a) && LockInv(Next(versions, s, a)) && a.Execute?
    ensures Accounted(versions, first, Next(versions, s, a), v)
  {
    var t, r := Next(versions, s, a), a.r;
    assert Accounted(versions, first, s, v);
    if SomeBlind(s) {
      BlindStays(versions, first, s, a);
    }
    if Effective(a.o) {
      assert Owner(s, r) && Owner(t, r) && Sees(versions, s, r);
      PendingIsOwner(versions, s, r, v);
      PendingIsOwner(versions, t, r, v);
      assert s.runners[r].blind ==> SomeBlind(t) by {
        assert t.runners[r].blind == s.runners[r].blind;
      }
    } else {
      SamePending(versions, s, t, v);
    }
  }

  lemma AccountedRecord(versions: seq<int>, first: set<int>, s: Sys, a: Action, v: int)
    requires Inv(versions, first, s) && Enabled(versions, s, a) && LockInv(Next(versions, s, a)) && a.Record?
    ensures Accounted(versions, first, Next(versions, s, a), v)
  {
    var t, r := Next(versions, s, a), a.r;
    assert Accounted(versions, first, s, v) && Knows(versions, s, s.runners[r]);
    if SomeBlind(s) {
      BlindStays(versions, first, s, a);
    }
    if Alive(s, s.runners[r]) {
      assert Owner(s, r) && Owner(t, r);
      PendingIsOwner(versions, s, r, v);
      PendingIsOwner(versions, t, r, v);
    } else {
      SamePending(versions, s, t, v);
    }
  }

  lemma AccountedDie(versions: seq<int>, first: set<int>, s: Sys, a: Action, v: int)
    requires Inv(versions, first, s) && Enabled(versions, s, a) && a.Die?
    ensures Accounted(versions, first, Next(versions, s, a), v)
  {
    var t, lost := Next(versions, s, a), Pending(versions, s, a.conn);
    assert Accounted(versions, first, s, v);
    if SomeBlind(s) {
      BlindStays(versions, first, s, a);
    }
    if v in lost {
      var r :| 0 <= r < |s.runners| && s.runners[r].pc.Executed? && s.runners[r].conn == a.conn
               && s.runners[r].pc.i < |versions| && versions[s.runners[r].pc.i] == v && v !in s.recorded;
      assert PendingBy(versions, s, r, v);
      forall q ensures !PendingBy(versions, t, q, v) {
        if PendingBy(versions, t, q, v) {
          assert Owner(s, q);
          OneOwner(s, q, r);
        }
      }
    } else {
      forall r ensures PendingBy(versions, s, r, v) <==> PendingBy(versions, t, r, v) {
      }
      SamePending(versions, s, t, v);
    }
  }

  lemma AccountedOther(versions: seq<int>, first: set<int>, s: Sys, a: Action, v: int)
    requires Inv(versions, first, s) && Enabled(versions, s, a)
    requires !a.Execute? && !a.Record? && !a.Die?
    ensures Accounted(versions, first, Next(versions, s, a), v)
  {
    var t := Next(versions, s, a);
    assert Accounted(versions, first, s, v);
    if SomeBlind(s) {
      BlindStays(versions, first, s, a);
    }
    forall r ensures PendingBy(versions, s, r, v) <==> PendingBy(versions, t, r, v) {
    }
    SamePending(versions, s, t, v);
  }

  lemma OnceInvStep(versions: seq<int>, first: set<int>, s: Sys, a: Action)
    requires Inv(versions, first, s) && Enabled(versions, s, a) && LockInv(Next(versions, s, a)) && Ascending(versions)
    ensures OnceInv(versions, first, Next(versions, s, a))
  {
    forall r ensures Sees(versions, Next(versions, s, a), r) {
      assert Sees(versions, s, r);
      if a.Die? || a.r != r {
        SeesOther(versions, s, a, r);
      } else {
        SeesSelf(versions, s, a);
      }
    }
    forall v ensures Accounted(versions, first, Next(versions, s, a), v) {
      match a
      case Execute(_, _) => AccountedExecute(versions, first, s, a, v);
      case Record(_, _) => AccountedRecord(versions, first, s, a, v);
      case Die(_) => AccountedDie(versions, first, s, a, v);
      case _ => AccountedOther(versions, first, s, a, v);
    }
  }

  lemma InvStep(versions: seq<int>, first: set<int>, s: Sys, a: Action)
    requires Inv(versions, first, s) && Enabled(versions, s, a) && Ascending(versions)
    ensures Inv(versions, first, Next(versions, s, a))
  {
    LockInvStep(versions, s, a);
    RecordInvStep(versions, first, s, a);
    OnceInvStep(versions, first, s, a);
  }

  lemma InitialInv(versions: seq<int>, first: set<int>, n: nat)
    ensures Inv(versions, first, Initial(n, first))
  {
    var s := Initial(n, first);
    assert forall v :: !PendingNow(versions, s, v);
  }
}
