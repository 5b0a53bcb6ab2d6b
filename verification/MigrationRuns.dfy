/** What holds in every run of migration runners, and runs on which more would be too much. */
module MigrationRuns {
  import opened MigrationRunner
  import opened Wrappers

  lemma {:induction false} RunInv(versions: seq<int>, first: set<int>, s: Sys, actions: seq<Action>)
    requires Inv(versions, first, s) && Ascending(versions) && Possible(versions, s, actions)
    ensures Inv(versions, first, After(versions, s, actions))
    decreases |actions|
  {
    if actions == [] {
    } else {
      InvStep(versions, first, s, actions[0]);
      RunInv(versions, first, Next(versions, s, actions[0]), actions[1..]);
    }
  }

  // ---------------------------------------------------------------------
  // Main results, for any run of any number of runners

  ghost predicate Reachable(versions: seq<int>, first: set<int>, n: nat, s: Sys) {
    exists actions: seq<Action> ::
      Possible(versions, Initial(n, first), actions) && After(versions, Initial(n, first), actions) == s
  }

  lemma ReachableInv(versions: seq<int>, first: set<int>, n: nat, s: Sys)
    requires Ascending(versions) && Reachable(versions, first, n, s)
    ensures Inv(versions, first, s)
  {
    var actions: seq<Action> :|
      Possible(versions, Initial(n, first), actions) && After(versions, Initial(n, first), actions) == s;
    InitialInv(versions, first, n);
    RunInv(versions, first, Initial(n, first), actions);
  }

  /** At most one runner with a live session is in the apply loop, and it owns the lock. */
  lemma AtMostOneApplies(versions: seq<int>, first: set<int>, n: nat, s: Sys, q: nat, r: nat)
    requires Ascending(versions) && Reachable(versions, first, n, s)
    requires q < |s.runners| && InLoop(s.runners[q]) && Alive(s, s.runners[q])
    requires r < |s.runners| && InLoop(s.runners[r]) && Alive(s, s.runners[r])
    ensures q == r && s.lock == Some(s.runners[q].conn)
  {
    ReachableInv(versions, first, n, s);
    assert Owner(s, q) && Owner(s, r);
    OneOwner(s, q, r);
  }

  /** Whatever changes the schema or the record does so on the session that holds the lock. */
  lemma EffectsUnderLock(versions: seq<int>, first: set<int>, n: nat, s: Sys, a: Action)
    requires Ascending(versions) && Reachable(versions, first, n, s) && Enabled(versions, s, a)
    requires Next(versions, s, a).executed != s.executed || Next(versions, s, a).recorded != s.recorded
    ensures (a.Execute? || a.Record?) && s.lock == Some(s.runners[a.r].conn)
  {
    ReachableInv(versions, first, n, s);
    assert Owner(s, a.r);
  }

  function Unapplied(versions: seq<int>, first: set<int>): seq<int> {
    if versions == [] then []
    else if versions[0] in first then Unapplied(versions[1..], first)
    else [versions[0]] + Unapplied(versions[1..], first)
  }

  lemma {:induction false} ClosedIsPrefix(versions: seq<int>, first: set<int>, recorded: set<int>) returns (k: nat)
    requires Ascending(versions)
    requires forall i, j | 0 <= i < j < |versions| && versions[j] in recorded && versions[j] !in first :: versions[i] in recorded
    ensures k <= |Unapplied(versions, first)|
    ensures forall v | v in versions && v !in first :: v in recorded <==> v in Unapplied(versions, first)[..k]
    ensures forall v | v in Unapplied(versions, first) :: v in versions && v !in first
  {
    if versions == [] {
      k := 0;
    } else {
      var rest := versions[1..];
      k := ClosedIsPrefix(rest, first, recorded);
      var u := Unapplied(versions, first);
      if versions[0] !in first {
        assert u[1..] == Unapplied(rest, first);
        if versions[0] in recorded {
          k := k + 1;
          assert u[..k] == [versions[0]] + Unapplied(rest, first)[..k - 1];
        } else {
          forall v | v in versions && v !in first ensures v !in recorded {
            var j :| 0 <= j < |versions| && versions[j] == v;
          }
          k := 0;
        }
      }
    }
  }

  /**
   * The recorded versions are those recorded at the start plus a prefix, in list order, of
   * the versions unapplied at the start; each newly recorded version has been executed.
   * This holds whatever fails, reads of the applied versions included.
   */
  lemma RecordedIsPrefix(versions: seq<int>, first: set<int>, n: nat, s: Sys) returns (k: nat)
    requires Ascending(versions) && Reachable(versions, first, n, s)
    ensures k <= |Unapplied(versions, first)|
    ensures s.recorded == first + Elements(Unapplied(versions, first)[..k])
    ensures forall v | v in Unapplied(versions, first)[..k] :: s.executed[v] >= 1
  {
    ReachableInv(versions, first, n, s);
    k := ClosedIsPrefix(versions, first, s.recorded);
    var u := Unapplied(versions, first);
    forall v | v in u[..k] ensures v in s.recorded && v in s.executed && v !in first {
      assert v in u;
    }
    forall v ensures v in s.recorded <==> v in first + Elements(u[..k]) {
      if v in Elements(u[..k]) {
        assert v in u;
      }
    }
  }

  /** A live runner runs a recorded version again exactly when its own read failed, and skips it otherwise. */
  lemma RerunsExactly(versions: seq<int>, first: set<int>, n: nat, s: Sys, r: nat)
    requires Ascending(versions) && Reachable(versions, first, n, s)
    requires r < |s.runners| && Alive(s, s.runners[r])
    requires s.runners[r].pc.Applying? && s.runners[r].pc.i < |versions| && versions[s.runners[r].pc.i] in s.recorded
    ensures Enabled(versions, s, Execute(r, Ok)) <==> s.runners[r].blind
    ensures Enabled(versions, s, Skip(r)) <==> !s.runners[r].blind
  {
    ReachableInv(versions, first, n, s);
    assert Owner(s, r) && Sees(versions, s, r);
    NotBefore(versions, s.runners[r].pc.i);
  }

  /**
   * Every execution of a version is accounted for: its recording, if it is newly recorded; a live
   * runner about to record it; an interruption between executing and recording; or a rerun.
   */
  lemma ExecutionsExactly(versions: seq<int>, first: set<int>, n: nat, s: Sys, v: int)
    requires Ascending(versions) && Reachable(versions, first, n, s)
    ensures s.executed[v] == (if v in s.recorded && v !in first then 1 else 0) + (if PendingNow(versions, s, v) then 1 else 0)
                             + s.interrupted[v] + s.reruns[v]
    ensures v in first ==> s.executed[v] == s.reruns[v]
  {
    ReachableInv(versions, first, n, s);
    assert Accounted(versions, first, s, v);
  }

  /** So a newly recorded version ran once exactly when it was neither interrupted nor run again. */
  lemma RanOnceExactly(versions: seq<int>, first: set<int>, n: nat, s: Sys, v: int)
    requires Ascending(versions) && Reachable(versions, first, n, s) && v in s.recorded && v !in first
    ensures s.executed[v] == 1 <==> v !in s.interrupted && v !in s.reruns
  {
    ExecutionsExactly(versions, first, n, s, v);
  }

  /** While no runner's read has failed, only an interrupted version runs twice, and no version recorded at the start. */
  lemma TwiceOnlyIfInterrupted(versions: seq<int>, first: set<int>, n: nat, s: Sys, v: int)
    requires Ascending(versions) && Reachable(versions, first, n, s)
    requires forall r | 0 <= r < |s.runners| :: !s.runners[r].blind
    ensures s.executed[v] > 1 ==> v in s.interrupted
    ensures v in first ==> s.executed[v] == 0
  {
    ReachableInv(versions, first, n, s);
    assert Accounted(versions, first, s, v);
  }

  /** The lock is free exactly when no live runner is inside the locked section and no hold was leaked. */
  lemma LockFreeExactly(versions: seq<int>, first: set<int>, n: nat, s: Sys)
    requires Ascending(versions) && Reachable(versions, first, n, s)
    ensures s.lock.None? <==> !SomeOwner(s) && s.leaks == 0
  {
    ReachableInv(versions, first, n, s);
  }

  /** When every runner has exited, the lock is free exactly when no hold was leaked. */
  lemma FreeAfterExit(versions: seq<int>, first: set<int>, n: nat, s: Sys)
    requires Ascending(versions) && Reachable(versions, first, n, s)
    requires forall r | 0 <= r < |s.runners| :: s.runners[r].pc.Finished?
    ensures s.lock.None? <==> s.leaks == 0
  {
    LockFreeExactly(versions, first, n, s);
  }

  // ---------------------------------------------------------------------
  // Runs on which a stronger claim fails

  lemma {:induction false} Extend(versions: seq<int>, s: Sys, actions: seq<Action>, a: Action)
    requires Possible(versions, s, actions) && Enabled(versions, After(versions, s, actions), a)
    ensures Possible(versions, s, actions + [a])
    ensures After(versions, s, actions + [a]) == Next(versions, After(versions, s, actions), a)
    decreases |actions|
  {
    if actions == [] {
      assert [a][1..] == [];
    } else {
      assert (actions + [a])[1..] == actions[1..] + [a];
      Extend(versions, Next(versions, s, actions[0]), actions[1..], a);
    }
  }

  lemma ReachStep(versions: seq<int>, first: set<int>, n: nat, s: Sys, a: Action) returns (t: Sys)
    requires Reachable(versions, first, n, s) && Enabled(versions, s, a)
    ensures t == Next(versions, s, a) && Reachable(versions, first, n, t)
  {
    var actions: seq<Action> :|
      Possible(versions, Initial(n, first), actions) && After(versions, Initial(n, first), actions) == s;
    Extend(versions, Initial(n, first), actions, a);
    t := Next(versions, s, a);
  }

  lemma ReachInitial(versions: seq<int>, first: set<int>, n: nat)
    ensures Reachable(versions, first, n, Initial(n, first))
  {
    var none: seq<Action> := [];
    assert Possible(versions, Initial(n, first), none) && After(versions, Initial(n, first), none) == Initial(n, first);
  }

  /** A runner with nothing to apply, its lock taken and about to be given back. */
  lemma AboutToUnlock() returns (s: Sys)
    ensures Reachable([], {}, 1, s)
    ensures s.runners == [Runner(Unlocking, 7, {}, false)] && s.lock == Some(7) && 7 !in s.dead
  {
    ReachInitial([], {}, 1);
    s := ReachStep([], {}, 1, Initial(1, {}), Connect(0, 7));
    s := ReachStep([], {}, 1, s, Lock(0, Ok));
    s := ReachStep([], {}, 1, s, Read(0, true));
    s := ReachStep([], {}, 1, s, Finish(0));
  }

  /** If the unlock statement fails while its session survives, every runner exits and the lock stays held. */
  lemma LockCanLeak() returns (s: Sys)
    ensures Reachable([], {}, 1, s)
    ensures (forall r | 0 <= r < |s.runners| :: s.runners[r].pc.Finished?) && s.lock == Some(7)
  {
    s := AboutToUnlock();
    s := ReachStep([], {}, 1, s, Unlock(0, Failed));
    s := ReachStep([], {}, 1, s, Release(0));
  }

  /** From every state where a live runner is about to unlock, a failure of the unlock leaks its hold. */
  lemma UnlockFailureLeaks(versions: seq<int>, first: set<int>, n: nat, s: Sys, r: nat) returns (t: Sys)
    requires Ascending(versions) && Reachable(versions, first, n, s)
    requires r < |s.runners| && s.runners[r].pc.Unlocking? && Alive(s, s.runners[r])
    ensures Reachable(versions, first, n, t) && |t.runners| == |s.runners| && t.runners[r].pc.Finished?
    ensures t.lock == Some(s.runners[r].conn) && t.leaks == s.leaks + 1
  {
    ReachableInv(versions, first, n, s);
    assert Owner(s, r);
    t := ReachStep(versions, first, n, s, Unlock(r, Failed));
    t := ReachStep(versions, first, n, t, Release(r));
  }

  /** And a leaked hold keeps the lock on its session until that session dies. */
  lemma LeakStays(versions: seq<int>, first: set<int>, n: nat, s: Sys, a: Action)
    requires Ascending(versions) && Reachable(versions, first, n, s) && s.leaks > 0 && Enabled(versions, s, a)
    requires a.Die? ==> s.lock != Some(a.conn)
    ensures s.lock.Some? && Next(versions, s, a).lock == s.lock && Next(versions, s, a).leaks >= s.leaks
  {
    ReachableInv(versions, first, n, s);
    if a.Unlock? && Effective(a.o) {
      assert Owner(s, a.r);
      assert s.depth > 1;
    }
  }

  /** From `s` to `t` the blind runner `r` went through the first `k` versions, running each. */
  ghost predicate RanBlindly(versions: seq<int>, s: Sys, t: Sys, r: nat, k: nat)
    requires r < |s.runners| && k <= |versions|
  {
    && |t.runners| == |s.runners| && t.dead == s.dead && s.recorded <= t.recorded
    && t.runners[r] == Runner(Applying(k), s.runners[r].conn, Elements(versions[..k]), true)
    && t.executed == s.executed + multiset(versions[..k]) && t.interrupted == s.interrupted
    && s.reruns <= t.reruns
    && (forall i | 0 <= i < k && versions[i] in s.recorded :: t.reruns[versions[i]] > s.reruns[versions[i]])
  }

  function OneRound(versions: seq<int>, t: Sys, r: nat, k: nat): Sys
    requires r < |t.runners| && k < |versions|
  {
    var v := versions[k];
    t.(runners := t.runners[r := t.runners[r].(pc := Applying(k + 1), applied := t.runners[r].applied + {v})],
       recorded := t.recorded + {v}, executed := t.executed + multiset{v},
       reruns := if v in t.recorded then t.reruns + multiset{v} else t.reruns)
  }

  lemma BlindRound(versions: seq<int>, first: set<int>, n: nat, t: Sys, r: nat, k: nat) returns (u: Sys)
    requires Ascending(versions) && Reachable(versions, first, n, t) && k < |versions|
    requires r < |t.runners| && Alive(t, t.runners[r])
    requires t.runners[r] == Runner(Applying(k), t.runners[r].conn, Elements(versions[..k]), true)
    ensures Reachable(versions, first, n, u) && u == OneRound(versions, t, r, k)
  {
    NotBefore(versions, k);
    u := ReachStep(versions, first, n, t, Execute(r, Ok));
    u := ReachStep(versions, first, n, u, Record(r, Ok));
  }

  lemma RoundCounts(versions: seq<int>, s: Sys, t: Sys, r: nat, k: nat)
    requires Ascending(versions) && r < |s.runners| && k < |versions| && RanBlindly(versions, s, t, r, k)
    ensures RanBlindly(versions, s, OneRound(versions, t, r, k), r, k + 1)
  {
    NotBefore(versions, k);
    assert versions[..k + 1] == versions[..k] + [versions[k]];
  }

  /**
   * A failed read of the applied versions is taken for none applied: from any state with a live
   * runner about to read, it can go on to execute every version up to any point, and each one that
   * was recorded counts as a rerun.
   */
  lemma {:induction false} FailedReadRunsAll(versions: seq<int>, first: set<int>, n: nat, s: Sys, r: nat, k: nat)
    returns (t: Sys)
    requires Ascending(versions) && Reachable(versions, first, n, s) && k <= |versions|
    requires r < |s.runners| && s.runners[r].pc.Locked? && Alive(s, s.runners[r])
    ensures Reachable(versions, first, n, t) && RanBlindly(versions, s, t, r, k)
  {
    if k == 0 {
      t := ReachStep(versions, first, n, s, Read(r, false));
      assert versions[..0] == [];
    } else {
      t := FailedReadRunsAll(versions, first, n, s, r, k - 1);
      RoundCounts(versions, s, t, r, k - 1);
      t := BlindRound(versions, first, n, t, r, k - 1);
    }
  }
}
