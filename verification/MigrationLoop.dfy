/** `runTenantMigrations` as one runner performs it, proved to take only steps of the runner system. */
module MigrationLoop {
  import opened MigrationRunner
  import opened MigrationRuns
  import opened Wrappers

  /** `trace` leads from `s` to `t`. */
  ghost predicate Ran(versions: seq<int>, s: Sys, trace: seq<Action>, t: Sys) {
    Possible(versions, s, trace) && After(versions, s, trace) == t
  }

  lemma RanStep(versions: seq<int>, s: Sys, trace: seq<Action>, t: Sys, a: Action, u: Sys)
    requires Ran(versions, s, trace, t) && Enabled(versions, t, a) && Next(versions, t, a) == u
    ensures Ran(versions, s, trace + [a], u)
  {
    Extend(versions, s, trace, a);
  }

  lemma RanNothing(versions: seq<int>, s: Sys)
    ensures Ran(versions, s, [], s)
  {
  }

  lemma {:induction false} UnappliedLast(versions: seq<int>, first: set<int>, i: nat)
    requires i < |versions|
    ensures Unapplied(versions[..i + 1], first)
         == Unapplied(versions[..i], first) + if versions[i] in first then [] else [versions[i]]
  {
    if i == 0 {
      assert versions[..1] == [versions[0]] && versions[..1][1..] == [] && versions[..0] == [];
    } else {
      UnappliedLast(versions[1..], first, i - 1);
      assert versions[..i + 1][1..] == versions[1..][..i] && versions[..i][1..] == versions[1..][..i - 1];
    }
  }

  /** After the first `i` versions: those not seen as applied have been executed and recorded, once each. */
  ghost predicate Progress(versions: seq<int>, i: nat, seen: set<int>, first: set<int>, ran0: multiset<int>,
                           recorded: set<int>, ran: multiset<int>, applied: set<int>)
    requires i <= |versions|
  {
    && recorded == first + Elements(Unapplied(versions[..i], seen))
    && applied == seen + Elements(versions[..i])
    && ran == ran0 + multiset(Unapplied(versions[..i], seen))
  }

  lemma ElementsLast(versions: seq<int>, i: nat)
    requires i < |versions|
    ensures Elements(versions[..i + 1]) == Elements(versions[..i]) + {versions[i]}
  {
    assert versions[..i + 1] == versions[..i] + [versions[i]];
  }

  lemma AscendingFresh(versions: seq<int>, i: nat)
    requires Ascending(versions) && i < |versions|
    ensures versions[i] !in Elements(versions[..i])
  {
  }

  lemma ProgressVisit(versions: seq<int>, i: nat, seen: set<int>, first: set<int>, ran0: multiset<int>,
                      recorded: set<int>, ran: multiset<int>, applied: set<int>)
    requires i < |versions| && Ascending(versions)
    requires Progress(versions, i, seen, first, ran0, recorded, ran, applied)
    ensures var v := versions[i];
            && (v in applied <==> v in seen)
            && if v in seen then Progress(versions, i + 1, seen, first, ran0, recorded, ran, applied + {v})
               else Progress(versions, i + 1, seen, first, ran0, recorded + {v}, ran + multiset{v}, applied + {v})
  {
    ElementsLast(versions, i);
    AscendingFresh(versions, i);
    UnappliedLast(versions, seen, i);
  }

  lemma {:induction false} InUnapplied(versions: seq<int>, seen: set<int>, v: int)
    ensures v in Unapplied(versions, seen) <==> v in versions && v !in seen
  {
    if versions == [] {
    } else {
      InUnapplied(versions[1..], seen, v);
      assert versions == [versions[0]] + versions[1..];
    }
  }

  lemma UnappliedElements(versions: seq<int>, seen: set<int>)
    ensures Elements(Unapplied(versions, seen)) == Elements(versions) - seen
  {
    forall v ensures v in Elements(Unapplied(versions, seen)) <==> v in Elements(versions) - seen {
      InUnapplied(versions, seen, v);
    }
  }

  /** With nothing seen that is not recorded, the whole list is then recorded. */
  lemma ProgressDone(versions: seq<int>, seen: set<int>, first: set<int>)
    requires seen <= first
    ensures first + Elements(Unapplied(versions, seen)) == first + Elements(versions)
  {
    UnappliedElements(versions, seen);
  }

  /** How the database answers one runner. */
  datatype Script = Script(
    connects: bool,
    lock: Outcome,
    readOk: bool,
    missing: set<int>,
    execute: map<int, Outcome>,
    record: map<int, Outcome>,
    unlock: Outcome
  )

  function Answer(m: map<int, Outcome>, v: int): Outcome {
    if v in m then m[v] else Ok
  }

  // ---------------------------------------------------------------------
  // What a script comes to, read off the script alone

  /** The file is there and its SQL is executed. */
  predicate Runs(script: Script, v: int) {
    v !in script.missing && Effective(Answer(script.execute, v))
  }

  /** It is executed, with the reply, and then recorded. */
  predicate Records(script: Script, v: int) {
    v !in script.missing && Answer(script.execute, v).Ok? && Effective(Answer(script.record, v))
  }

  /** Nothing goes wrong with it. */
  predicate Passes(script: Script, v: int) {
    v !in script.missing && Answer(script.execute, v).Ok? && Answer(script.record, v).Ok?
  }

  /** `k` is the place of the first version that was not seen as applied and does not pass, if any. */
  ghost predicate StopsAt(versions: seq<int>, seen: set<int>, script: Script, k: nat) {
    && k <= |versions|
    && (forall i | 0 <= i < k :: versions[i] in seen || Passes(script, versions[i]))
    && (k < |versions| ==> versions[k] !in seen && !Passes(script, versions[k]))
  }

  /** Every version passes or was seen as applied. */
  ghost predicate AllPass(versions: seq<int>, seen: set<int>, script: Script) {
    forall i | 0 <= i < |versions| :: versions[i] in seen || Passes(script, versions[i])
  }

  /** What the read of the applied versions makes the runner see: a failed one, nothing. */
  function Seen(script: Script, recorded: set<int>): set<int> {
    if script.readOk then recorded else {}
  }

  /** The unapplied versions before the stop have been recorded, and the one there if only its reply was lost. */
  ghost function RecordedAt(versions: seq<int>, seen: set<int>, script: Script, k: nat, first: set<int>): set<int>
    requires k <= |versions|
  {
    first + Elements(Unapplied(versions[..k], seen)) +
    if k < |versions| && Records(script, versions[k]) then {versions[k]} else {}
  }

  /** They have been executed, and the one at the stop if its statement took effect. */
  ghost function ExecutedAt(versions: seq<int>, seen: set<int>, script: Script, k: nat, ran: multiset<int>): multiset<int>
    requires k <= |versions|
  {
    ran + multiset(Unapplied(versions[..k], seen)) +
    if k < |versions| && Runs(script, versions[k]) then multiset{versions[k]} else multiset{}
  }

  ghost predicate PassesTo(versions: seq<int>, seen: set<int>, script: Script, k: nat)
    requires k <= |versions|
  {
    forall i | 0 <= i < k :: versions[i] in seen || Passes(script, versions[i])
  }

  /** The loop leaves at `k`, with what took effect of the version there. */
  lemma StopHere(versions: seq<int>, k: nat, seen: set<int>, script: Script, first: set<int>, ran0: multiset<int>,
                 recorded: set<int>, ran: multiset<int>, applied: set<int>)
    requires k < |versions| && Progress(versions, k, seen, first, ran0, recorded, ran, applied)
    requires PassesTo(versions, seen, script, k) && versions[k] !in seen && !Passes(script, versions[k])
    ensures StopsAt(versions, seen, script, k)
    ensures RecordedAt(versions, seen, script, k, first) ==
            if Records(script, versions[k]) then recorded + {versions[k]} else recorded
    ensures ExecutedAt(versions, seen, script, k, ran0) ==
            if Runs(script, versions[k]) then ran + multiset{versions[k]} else ran
  {
  }

  /** One round of the loop on version `v`, in terms of what its statements come to. */
  lemma LoopRound(versions: seq<int>, i: nat, seen: set<int>, script: Script, first: set<int>, ran0: multiset<int>,
                 recorded: set<int>, ran: multiset<int>, applied: set<int>)
    requires i < |versions| && Ascending(versions) && PassesTo(versions, seen, script, i)
    requires Progress(versions, i, seen, first, ran0, recorded, ran, applied)
    ensures var v := versions[i];
            && (v in applied <==> v in seen)
            && (v in applied ==> PassesTo(versions, seen, script, i + 1)
                                 && Progress(versions, i + 1, seen, first, ran0, recorded, ran, applied + {v}))
            && (v !in applied && Passes(script, v) ==>
                  && PassesTo(versions, seen, script, i + 1)
                  && Progress(versions, i + 1, seen, first, ran0, recorded + {v}, ran + multiset{v}, applied + {v}))
            && (v !in applied && !Passes(script, v) ==>
                  && StopsAt(versions, seen, script, i)
                  && RecordedAt(versions, seen, script, i, first) == (if Records(script, v) then recorded + {v} else recorded)
                  && ExecutedAt(versions, seen, script, i, ran0) == (if Runs(script, v) then ran + multiset{v} else ran))
  {
    ProgressVisit(versions, i, seen, first, ran0, recorded, ran, applied);
    if versions[i] !in seen && !Passes(script, versions[i]) {
      StopHere(versions, i, seen, script, first, ran0, recorded, ran, applied);
    }
  }

  lemma StopAtEnd(versions: seq<int>, seen: set<int>, script: Script, first: set<int>, ran0: multiset<int>,
                  recorded: set<int>, ran: multiset<int>, applied: set<int>)
    requires Progress(versions, |versions|, seen, first, ran0, recorded, ran, applied)
    requires PassesTo(versions, seen, script, |versions|)
    ensures StopsAt(versions, seen, script, |versions|)
    ensures RecordedAt(versions, seen, script, |versions|, first) == recorded
    ensures ExecutedAt(versions, seen, script, |versions|, ran0) == ran
  {
  }

  lemma StopIsEnd(versions: seq<int>, seen: set<int>, script: Script, k: nat, first: set<int>, ran: multiset<int>)
    requires StopsAt(versions, seen, script, k) && seen <= first
    ensures k == |versions| <==> AllPass(versions, seen, script)
    ensures k == |versions| ==>
              && RecordedAt(versions, seen, script, k, first) == first + Elements(versions)
              && ExecutedAt(versions, seen, script, k, ran) == ran + multiset(Unapplied(versions, seen))
  {
    assert versions[..|versions|] == versions;
    ProgressDone(versions, seen, first);
  }

  /** The step of a runner at version `v`, written out. */
  lemma RanExecute(versions: seq<int>, s: Sys, trace: seq<Action>, t: Sys, r: nat, o: Outcome, v: int)
    requires Ran(versions, s, trace, t) && Enabled(versions, t, Execute(r, o)) && versions[t.runners[r].pc.i] == v
    ensures var x := t.runners[r];
            Ran(versions, s, trace + [Execute(r, o)],
                Sys(t.runners[r := x.(pc := if o.Ok? then Executed(x.pc.i) else Unlocking)], t.lock, t.depth, t.leaks, t.dead,
                    t.recorded, if Effective(o) then t.executed + multiset{v} else t.executed,
                    if o.Lost? && v !in t.recorded then t.interrupted + multiset{v} else t.interrupted,
                    if Effective(o) && v in t.recorded then t.reruns + multiset{v} else t.reruns))
  {
    RanStep(versions, s, trace, t, Execute(r, o), Next(versions, t, Execute(r, o)));
  }

  class Database {
    var lock: Option<nat>
    var depth: nat
    var recorded: set<int>
    var executed: multiset<int>
    ghost var leaks: nat
    ghost var dead: set<nat>
    ghost var interrupted: multiset<int>
    ghost var reruns: multiset<int>
    ghost var runners: seq<Runner>

    ghost function State(): Sys
      reads this
    {
      Sys(runners, lock, depth, leaks, dead, recorded, executed, interrupted, reruns)
    }

    /** The connection is free to use, and so is the lock: a taken one would keep the runner waiting. */
    ghost predicate Ready(r: nat, conn: nat)
      reads this
    {
      && r < |runners| && runners[r] == Runner(Idle, 0, {}, false)
      && conn !in dead && (lock == None || lock == Some(conn))
      && forall q | 0 <= q < |runners| && InUse(runners[q]) :: runners[q].conn != conn
    }

    /** `pg_advisory_lock`. */
    method AcquireLock(versions: seq<int>, r: nat, conn: nat, o: Outcome, ghost s: Sys, ghost trace: seq<Action>)
      returns (ghost more: seq<Action>)
      requires r < |runners| && runners[r] == Runner(Connected, conn, {}, false) && conn !in dead
      requires lock == None || lock == Some(conn)
      requires Ran(versions, s, trace, State())
      modifies this
      ensures Ran(versions, s, more, State())
      ensures runners == old(runners)[r := Runner(if o.Ok? then Locked else Releasing, conn, {}, false)]
      ensures dead == old(dead) && recorded == old(recorded) && executed == old(executed)
      ensures if Effective(o) then lock == Some(conn) && depth == old(depth) + 1 else lock == old(lock) && depth == old(depth)
    {
      ghost var before := State();
      if Effective(o) {
        lock, depth := Some(conn), depth + 1;
        if o.Lost? {
          leaks := leaks + 1;
        }
      }
      runners := runners[r := Runner(if o.Ok? then Locked else Releasing, conn, {}, false)];
      more := trace + [Lock(r, o)];
      RanStep(versions, s, trace, before, Lock(r, o), State());
    }

    method ExecuteFile(versions: seq<int>, i: nat, r: nat, conn: nat, applied: set<int>, o: Outcome, ghost blind: bool,
                       ghost s: Sys, ghost trace: seq<Action>)
      returns (ghost more: seq<Action>)
      requires i < |versions| && versions[i] !in applied && conn !in dead
      requires r < |runners| && runners[r] == Runner(Applying(i), conn, applied, blind)
      requires Ran(versions, s, trace, State())
      modifies this`executed, this`interrupted, this`reruns, this`runners
      ensures Ran(versions, s, more, State())
      ensures runners == old(runners)[r := Runner(if o.Ok? then Executed(i) else Unlocking, conn, applied, blind)]
      ensures executed == if Effective(o) then old(executed) + multiset{versions[i]} else old(executed)
    {
      var v := versions[i];
      more := trace + [Execute(r, o)];
      RanExecute(versions, s, trace, State(), r, o, v);
      reruns := if Effective(o) && v in recorded then reruns + multiset{v} else reruns;
      interrupted := if o.Lost? && v !in recorded then interrupted + multiset{v} else interrupted;
      executed := if Effective(o) then executed + multiset{v} else executed;
      runners := runners[r := Runner(if o.Ok? then Executed(i) else Unlocking, conn, applied, blind)];
    }

    /** `INSERT ... ON CONFLICT DO NOTHING`. */
    method RecordVersion(versions: seq<int>, i: nat, r: nat, conn: nat, applied: set<int>, o: Outcome, ghost blind: bool,
                         ghost s: Sys, ghost trace: seq<Action>)
      returns (ghost more: seq<Action>)
      requires i < |versions| && conn !in dead
      requires r < |runners| && runners[r] == Runner(Executed(i), conn, applied, blind)
      requires Ran(versions, s, trace, State())
      modifies this`recorded, this`interrupted, this`runners
      ensures Ran(versions, s, more, State())
      ensures runners == old(runners)[r := if o.Ok? then Runner(Applying(i + 1), conn, applied + {versions[i]}, blind)
                                           else Runner(Unlocking, conn, applied, blind)]
      ensures recorded == if Effective(o) then old(recorded) + {versions[i]} else old(recorded)
    {
      ghost var before := State();
      interrupted := if o.Failed? && versions[i] !in recorded then interrupted + multiset{versions[i]} else interrupted;
      if Effective(o) {
        recorded := recorded + {versions[i]};
      }
      runners := runners[r := if o.Ok? then Runner(Applying(i + 1), conn, applied + {versions[i]}, blind)
                              else Runner(Unlocking, conn, applied, blind)];
      more := trace + [Record(r, o)];
      RanStep(versions, s, trace, before, Record(r, o), State());
    }

    /** One migration file: read, executed, then recorded. */
    method ApplyFile(versions: seq<int>, i: nat, r: nat, conn: nat, applied: set<int>, script: Script, ghost blind: bool,
                     ghost s: Sys, ghost trace: seq<Action>)
      returns (ok: bool, ghost more: seq<Action>)
      requires i < |versions| && versions[i] !in applied && conn !in dead
      requires r < |runners| && runners[r] == Runner(Applying(i), conn, applied, blind)
      requires Ran(versions, s, trace, State())
      modifies this`executed, this`recorded, this`interrupted, this`reruns, this`runners
      ensures Ran(versions, s, more, State())
      ensures runners == old(runners)[r := if ok then Runner(Applying(i + 1), conn, applied + {versions[i]}, blind)
                                           else Runner(Unlocking, conn, applied, blind)]
      ensures ok <==> Passes(script, versions[i])
      ensures recorded == if Records(script, versions[i]) then old(recorded) + {versions[i]} else old(recorded)
      ensures executed == if Runs(script, versions[i]) then old(executed) + multiset{versions[i]} else old(executed)
    {
      if versions[i] in script.missing {
        ghost var before := State();
        runners := runners[r := Runner(Unlocking, conn, applied, blind)];
        more := trace + [FileMissing(r)];
        RanStep(versions, s, trace, before, FileMissing(r), State());
        return false, more;
      }
      var o := Answer(script.execute, versions[i]);
      more := ExecuteFile(versions, i, r, conn, applied, o, blind, s, trace);
      if !o.Ok? {
        return false, more;
      }
      var w := Answer(script.record, versions[i]);
      more := RecordVersion(versions, i, r, conn, applied, w, blind, s, more);
      ok := w.Ok?;
    }

    /** `getTenantAppliedVersion`: a failed read counts as none applied. */
    method ReadApplied(versions: seq<int>, r: nat, conn: nat, readOk: bool, ghost s: Sys, ghost trace: seq<Action>)
      returns (applied: set<int>, ghost more: seq<Action>)
      requires r < |runners| && runners[r] == Runner(Locked, conn, {}, false) && conn !in dead
      requires Ran(versions, s, trace, State())
      modifies this`runners
      ensures Ran(versions, s, more, State())
      ensures applied == if readOk then recorded else {}
      ensures runners == old(runners)[r := Runner(Applying(0), conn, applied, !readOk)]
    {
      ghost var before := State();
      applied := if readOk then recorded else {};
      runners := runners[r := Runner(Applying(0), conn, applied, !readOk)];
      more := trace + [Read(r, readOk)];
      RanStep(versions, s, trace, before, Read(r, readOk), State());
    }

    /** One round of the loop: an applied version is skipped. */
    method Visit(versions: seq<int>, i: nat, r: nat, conn: nat, applied: set<int>, script: Script, ghost blind: bool,
                 ghost s: Sys, ghost trace: seq<Action>)
      returns (ok: bool, ghost more: seq<Action>)
      requires i < |versions| && conn !in dead
      requires r < |runners| && runners[r] == Runner(Applying(i), conn, applied, blind)
      requires Ran(versions, s, trace, State())
      modifies this`executed, this`recorded, this`interrupted, this`reruns, this`runners
      ensures Ran(versions, s, more, State())
      ensures |runners| == |old(runners)|
      ensures runners[r] == if ok then Runner(Applying(i + 1), conn, applied + {versions[i]}, blind)
                            else Runner(Unlocking, conn, applied, blind)
      ensures versions[i] in applied ==> ok && recorded == old(recorded) && executed == old(executed)
      ensures versions[i] !in applied ==>
                && ok == Passes(script, versions[i])
                && recorded == (if Records(script, versions[i]) then old(recorded) + {versions[i]} else old(recorded))
                && executed == if Runs(script, versions[i]) then old(executed) + multiset{versions[i]} else old(executed)
    {
      if versions[i] in applied {
        ghost var before := State();
        assert applied + {versions[i]} == applied;
        runners := runners[r := Runner(Applying(i + 1), conn, applied, blind)];
        more := trace + [Skip(r)];
        RanStep(versions, s, trace, before, Skip(r), State());
        return true, more;
      }
      ok, more := ApplyFile(versions, i, r, conn, applied, script, blind, s, trace);
    }

    /** The loop over the version list, which stops at the first failure. */
    method ApplyEach(versions: seq<int>, r: nat, conn: nat, seen: set<int>, script: Script,
                     ghost s: Sys, ghost trace: seq<Action>)
      returns (ok: bool, ghost more: seq<Action>, ghost k: nat)
      requires r < |runners| && runners[r] == Runner(Applying(0), conn, seen, !script.readOk) && conn !in dead
      requires Ran(versions, s, trace, State()) && Ascending(versions)
      modifies this`executed, this`recorded, this`interrupted, this`reruns, this`runners
      ensures Ran(versions, s, more, State())
      ensures |runners| == |old(runners)| && runners[r].conn == conn
      ensures runners[r].pc == if ok then Applying(|versions|) else Unlocking
      ensures StopsAt(versions, seen, script, k) && (ok <==> k == |versions|)
      ensures recorded == RecordedAt(versions, seen, script, k, old(recorded))
      ensures executed == ExecutedAt(versions, seen, script, k, old(executed))
    {
      more, k := trace, 0;
      var applied := seen;
      for i := 0 to |versions|
        invariant Ran(versions, s, more, State()) && k == i
        invariant |runners| == |old(runners)| && runners[r] == Runner(Applying(i), conn, applied, !script.readOk)
        invariant Progress(versions, i, seen, old(recorded), old(executed), recorded, executed, applied)
        invariant PassesTo(versions, seen, script, i)
      {
        ghost var soFar, ran := recorded, executed;
        LoopRound(versions, i, seen, script, old(recorded), old(executed), soFar, ran, applied);
        ok, more := Visit(versions, i, r, conn, applied, script, !script.readOk, s, more);
        if !ok {
          return;
        }
        applied := applied + {versions[i]};
        k := i + 1;
      }
      StopAtEnd(versions, seen, script, old(recorded), old(executed), recorded, executed, applied);
      ok := true;
    }

    method EndList(versions: seq<int>, r: nat, ghost s: Sys, ghost trace: seq<Action>) returns (ghost more: seq<Action>)
      requires r < |runners| && runners[r].pc == Applying(|versions|)
      requires Ran(versions, s, trace, State())
      modifies this`runners
      ensures Ran(versions, s, more, State())
      ensures runners == old(runners)[r := old(runners[r]).(pc := Unlocking)]
    {
      ghost var before := State();
      runners := runners[r := runners[r].(pc := Unlocking)];
      more := trace + [MigrationRunner.Action.Finish(r)];
      RanStep(versions, s, trace, before, MigrationRunner.Action.Finish(r), State());
    }

    /** `pg_advisory_unlock` in the `finally` block. */
    method ReleaseLock(versions: seq<int>, r: nat, conn: nat, o: Outcome, ghost s: Sys, ghost trace: seq<Action>)
      returns (ghost more: seq<Action>)
      requires r < |runners| && runners[r].pc == Unlocking && runners[r].conn == conn
      requires conn !in dead && lock == Some(conn) && depth > 0
      requires Ran(versions, s, trace, State())
      modifies this
      ensures Ran(versions, s, more, State())
      ensures runners == old(runners)[r := old(runners[r]).(pc := Releasing)]
      ensures recorded == old(recorded) && executed == old(executed) && dead == old(dead)
      ensures if Effective(o) then depth == old(depth) - 1 && lock == (if depth == 0 then None else Some(conn))
              else depth == old(depth) && lock == Some(conn)
    {
      ghost var before := State();
      if Effective(o) {
        if depth == 1 {
          lock := None;
        }
        depth := depth - 1;
      } else {
        leaks := leaks + 1;
      }
      runners := runners[r := runners[r].(pc := Releasing)];
      more := trace + [Unlock(r, o)];
      RanStep(versions, s, trace, before, Unlock(r, o), State());
    }

    /** The block that `finally` closes by giving the lock back. */
    method MigrateLocked(versions: seq<int>, r: nat, conn: nat, script: Script, ghost s: Sys, ghost trace: seq<Action>)
      returns (ok: bool, ghost more: seq<Action>, ghost k: nat)
      requires r < |runners| && runners[r] == Runner(Locked, conn, {}, false) && conn !in dead
      requires lock == Some(conn) && depth > 0
      requires Ran(versions, s, trace, State()) && Ascending(versions)
      modifies this
      ensures Ran(versions, s, more, State())
      ensures |runners| == |old(runners)| && runners[r].pc == Releasing
      ensures StopsAt(versions, Seen(script, old(recorded)), script, k)
      ensures ok <==> k == |versions| && script.unlock.Ok?
      ensures recorded == RecordedAt(versions, Seen(script, old(recorded)), script, k, old(recorded))
      ensures executed == ExecutedAt(versions, Seen(script, old(recorded)), script, k, old(executed))
      ensures if Effective(script.unlock) then depth == old(depth) - 1 && lock == (if depth == 0 then None else Some(conn))
              else depth == old(depth) && lock == Some(conn)
    {
      var applied, done;
      applied, more := ReadApplied(versions, r, conn, script.readOk, s, trace);
      done, more, k := ApplyEach(versions, r, conn, applied, script, s, more);
      if done {
        more := EndList(versions, r, s, more);
      }
      more := ReleaseLock(versions, r, conn, script.unlock, s, more);
      ok := done && script.unlock.Ok?;
    }

    /**
     * `runTenantMigrations`, alone: its effects are a trace of the runner system, and the script
     * decides all of them. It returns normally exactly when it connects, locks and unlocks, and every
     * version not seen as applied has its file, is executed and is recorded; the versions it records
     * and executes are those before the first that fails, up to what took effect of that one.
     */
    method RunTenantMigrations(versions: seq<int>, r: nat, conn: nat, script: Script)
      returns (ok: bool, ghost trace: seq<Action>, ghost k: nat)
      requires Ready(r, conn) && Ascending(versions)
      modifies this
      ensures Ran(versions, old(State()), trace, State())
      ensures |runners| == |old(runners)| && runners[r].pc == Finished
      ensures ok <==> script.connects && script.lock.Ok? && script.unlock.Ok?
                      && AllPass(versions, Seen(script, old(recorded)), script)
      ensures script.connects && script.lock.Ok? ==>
                && StopsAt(versions, Seen(script, old(recorded)), script, k)
                && recorded == RecordedAt(versions, Seen(script, old(recorded)), script, k, old(recorded))
                && executed == ExecutedAt(versions, Seen(script, old(recorded)), script, k, old(executed))
      ensures !(script.connects && script.lock.Ok?) ==> k == 0 && recorded == old(recorded) && executed == old(executed)
      ensures ok ==> recorded == old(recorded) + Elements(versions)
      ensures ok && script.readOk ==> executed == old(executed) + multiset(Unapplied(versions, old(recorded)))
      ensures if !(script.connects && Effective(script.lock)) then depth == old(depth) && lock == old(lock)
              else if script.lock.Ok? && Effective(script.unlock)
                then depth == old(depth) && lock == (if depth == 0 then None else Some(conn))
              else depth == old(depth) + 1 && lock == Some(conn)
    {
      ghost var s := State();
      trace, k := [], 0;
      RanNothing(versions, s);
      if !script.connects {
        runners := runners[r := Runner(Finished, 0, {}, false)];
        trace := [] + [ConnectFail(r)];
        RanStep(versions, s, [], s, ConnectFail(r), State());
        return false, trace, 0;
      }
      runners := runners[r := Runner(Connected, conn, {}, false)];
      trace := [] + [Connect(r, conn)];
      RanStep(versions, s, [], s, Connect(r, conn), State());
      trace := AcquireLock(versions, r, conn, script.lock, s, trace);
      ok := false;
      if script.lock.Ok? {
        ok, trace, k := MigrateLocked(versions, r, conn, script, s, trace);
        StopIsEnd(versions, Seen(script, old(recorded)), script, k, old(recorded), old(executed));
      }
      ghost var before, so := State(), trace;
      runners := runners[r := runners[r].(pc := Finished)];
      trace := so + [Release(r)];
      RanStep(versions, s, so, before, Release(r), State());
    }
  }
}
