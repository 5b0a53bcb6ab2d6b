/**
 * The advisory counter that keeps AI calls from reaching mutation paths: one counter per
 * boundary scope, incremented and decremented by interleaved calls.
 */
module AiBoundary {
  import opened Wrappers

  // ---------------------------------------------------------------------
  // One store

  function Entered(depth: int): int {
    depth + 1
  }

  function Exited(depth: int): int {
    if depth > 0 then depth - 1 else depth
  }

  predicate Passes(depth: int) {
    depth <= 0
  }

  /** The object `runInBoundaryScope` creates for an execution chain. */
  class AdvisoryStore {
    var depth: int

    constructor ()
      ensures depth == 0
    {
      depth := 0;
    }
  }

  /** `store` is the current store, null outside every scope: nothing is counted there. */
  method EnterAdvisoryContext(store: AdvisoryStore?)
    modifies store
    ensures store != null ==> store.depth == Entered(old(store.depth))
  {
    if store != null {
      store.depth := store.depth + 1;
    }
  }

  method ExitAdvisoryContext(store: AdvisoryStore?)
    modifies store
    ensures store != null ==> store.depth == Exited(old(store.depth))
  {
    if store != null && store.depth > 0 {
      store.depth := store.depth - 1;
    }
  }

  /** False where the source throws. */
  method AssertNoAiMutationContext(store: AdvisoryStore?) returns (ok: bool)
    ensures ok <==> store == null || Passes(store.depth)
  {
    ok := !(store != null && store.depth > 0);
  }

  // ---------------------------------------------------------------------
  // Many scopes and calls, interleaved

  /** A scope remembers the scope it was opened in, if any; its store starts afresh. */
  datatype Scope = Scope(depth: int, parent: Option<nat>)

  /** An AI call, with the store current in its execution chain (none outside every scope). */
  datatype Call = Call(store: Option<nat>, open: bool)

  datatype Sys = Sys(scopes: seq<Scope>, calls: seq<Call>)

  datatype Action =
    | OpenScope(parent: Option<nat>)
    | EnterCall(store: Option<nat>)
    | ExitCall(call: nat)

  const START := Sys([], [])

  predicate InScope(s: Sys, store: Option<nat>) {
    store.Some? ==> store.value < |s.scopes|
  }

  predicate Enabled(s: Sys, a: Action) {
    match a
    case OpenScope(p) => InScope(s, p)
    case EnterCall(st) => InScope(s, st)
    case ExitCall(c) => c < |s.calls| && s.calls[c].open && InScope(s, s.calls[c].store)
  }

  function SetDepth(s: Sys, store: Option<nat>, change: int -> int): Sys
    requires InScope(s, store)
  {
    if store.None? then s
    else
      var x := s.scopes[store.value];
      s.(scopes := s.scopes[store.value := x.(depth := change(x.depth))])
  }

  /** A call exits in a `finally` block, so it exits whether or not it threw. */
  function Next(s: Sys, a: Action): Sys
    requires Enabled(s, a)
  {
    match a
    case OpenScope(p) => s.(scopes := s.scopes + [Scope(0, p)])
    case EnterCall(st) => SetDepth(s.(calls := s.calls + [Call(st, true)]), st, Entered)
    case ExitCall(c) => SetDepth(s.(calls := s.calls[c := s.calls[c].(open := false)]), s.calls[c].store, Exited)
  }

  /** The open calls of a scope. */
  function OpenIn(calls: seq<Call>, scope: nat): nat {
    if calls == [] then 0
    else OpenIn(calls[..|calls| - 1], scope) + if calls[|calls| - 1] == Call(Some(scope), true) then 1 else 0
  }

  ghost predicate Counted(s: Sys) {
    && (forall i | 0 <= i < |s.scopes| :: s.scopes[i].depth == OpenIn(s.calls, i))
    && (forall i | 0 <= i < |s.scopes| && s.scopes[i].parent.Some? :: s.scopes[i].parent.value < i)
    && (forall i | 0 <= i < |s.calls| :: InScope(s, s.calls[i].store))
  }

  lemma {:induction false} CloseOne(calls: seq<Call>, c: nat, scope: nat)
    requires c < |calls| && calls[c].open
    ensures OpenIn(calls, scope) ==
            OpenIn(calls[c := calls[c].(open := false)], scope) + if calls[c].store == Some(scope) then 1 else 0
  {
    var after := calls[c := calls[c].(open := false)];
    var n := |calls| - 1;
    if c < n {
      CloseOne(calls[..n], c, scope);
      assert after[..n] == calls[..n][c := calls[c].(open := false)];
    } else {
      assert after[..n] == calls[..n];
    }
  }

  lemma {:induction false} NoneOpen(calls: seq<Call>, scope: nat)
    ensures OpenIn(calls, scope) == 0 <==> forall i | 0 <= i < |calls| :: calls[i] != Call(Some(scope), true)
  {
    if calls != [] {
      var n := |calls| - 1;
      NoneOpen(calls[..n], scope);
      assert forall i | 0 <= i < n :: calls[i] == calls[..n][i];
    }
  }

  lemma {:induction false} UnusedScope(calls: seq<Call>, scope: nat)
    requires forall i | 0 <= i < |calls| :: calls[i].store != Some(scope)
    ensures OpenIn(calls, scope) == 0
  {
    NoneOpen(calls, scope);
  }

  lemma CountedEnter(s: Sys, a: Action)
    requires Counted(s) && Enabled(s, a) && a.EnterCall?
    ensures Counted(Next(s, a))
  {
    assert Next(s, a).calls[..|s.calls|] == s.calls;
  }

  lemma CountedExit(s: Sys, a: Action)
    requires Counted(s) && Enabled(s, a) && a.ExitCall?
    ensures Counted(Next(s, a))
  {
    var n := Next(s, a);
    forall i | 0 <= i < |s.scopes| ensures n.scopes[i].depth == OpenIn(n.calls, i) {
      CloseOne(s.calls, a.call, i);
    }
  }

  lemma CountedStep(s: Sys, a: Action)
    requires Counted(s) && Enabled(s, a)
    ensures Counted(Next(s, a))
  {
    match a
    case OpenScope(_) => UnusedScope(s.calls, |s.scopes|);
    case EnterCall(_) => CountedEnter(s, a);
    case ExitCall(_) => CountedExit(s, a);
  }

  ghost predicate Possible(s: Sys, actions: seq<Action>)
    decreases |actions|
  {
    actions == [] || (Enabled(s, actions[0]) && Possible(Next(s, actions[0]), actions[1..]))
  }

  ghost function After(s: Sys, actions: seq<Action>): Sys
    requires Possible(s, actions)
    decreases |actions|
  {
    if actions == [] then s else After(Next(s, actions[0]), actions[1..])
  }

  lemma {:induction false} RunCounted(s: Sys, actions: seq<Action>)
    requires Counted(s) && Possible(s, actions)
    ensures Counted(After(s, actions))
    decreases |actions|
  {
    if actions == [] {
    } else {
      CountedStep(s, actions[0]);
      RunCounted(Next(s, actions[0]), actions[1..]);
    }
  }

  /** Some call made in the chain of `scope` is still open. */
  ghost predicate Busy(s: Sys, scope: nat) {
    exists i :: 0 <= i < |s.calls| && s.calls[i] == Call(Some(scope), true)
  }

  /**
   * Main result: after any interleaving, each scope's depth is the number of its own open
   * calls, so never negative and zero once they have returned, and a mutation in a scope
   * passes exactly when that scope has no open call, whatever the other scopes do.
   */
  lemma PassesExactlyWhenIdle(actions: seq<Action>, scope: nat)
    requires Possible(START, actions) && scope < |After(START, actions).scopes|
    ensures var s := After(START, actions);
            && s.scopes[scope].depth == OpenIn(s.calls, scope)
            && (Passes(s.scopes[scope].depth) <==> !Busy(s, scope))
            && (s.scopes[scope].depth == 0 <==> !Busy(s, scope))
  {
    RunCounted(START, actions);
    var s := After(START, actions);
    NoneOpen(s.calls, scope);
  }

  /** `scope` or a scope it was opened in, however far out, has an open call. */
  ghost predicate UnderCall(s: Sys, scope: nat)
    requires scope < |s.scopes|
    decreases scope
  {
    Busy(s, scope) || EnclosedInCall(s, scope)
  }

  ghost predicate EnclosedInCall(s: Sys, scope: nat)
    requires scope < |s.scopes|
    decreases scope, 0
  {
    var parent := s.scopes[scope].parent;
    parent.Some? && parent.value < scope && UnderCall(s, parent.value)
  }

  /**
   * Passing means being outside every AI call exactly in the scopes that have an open call of
   * their own or are enclosed in none; top-level scopes are among them.
   */
  lemma SafeExactly(actions: seq<Action>, scope: nat)
    requires Possible(START, actions) && scope < |After(START, actions).scopes|
    ensures var s := After(START, actions);
            && ((Passes(s.scopes[scope].depth) <==> !UnderCall(s, scope)) <==> Busy(s, scope) || !EnclosedInCall(s, scope))
            && (s.scopes[scope].parent.None? ==> (Passes(s.scopes[scope].depth) <==> !UnderCall(s, scope)))
  {
    PassesExactlyWhenIdle(actions, scope);
  }

  lemma {:induction false} Extend(s: Sys, actions: seq<Action>, a: Action)
    requires Possible(s, actions) && Enabled(After(s, actions), a)
    ensures Possible(s, actions + [a]) && After(s, actions + [a]) == Next(After(s, actions), a)
    decreases |actions|
  {
    if actions == [] {
      assert [a][1..] == [];
    } else {
      assert (actions + [a])[1..] == actions[1..] + [a];
      Extend(Next(s, actions[0]), actions[1..], a);
    }
  }

  /**
   * Every idle nested scope forgets: once its parent enters an AI call, a mutation in the nested
   * scope passes although it runs under that call.
   */
  lemma NestedScopeForgets(actions: seq<Action>, scope: nat)
    requires Possible(START, actions) && scope < |After(START, actions).scopes|
    requires After(START, actions).scopes[scope].parent.Some? && !Busy(After(START, actions), scope)
    ensures var more := actions + [EnterCall(After(START, actions).scopes[scope].parent)];
            && Possible(START, more)
            && var n := After(START, more);
               scope < |n.scopes| && Passes(n.scopes[scope].depth) && UnderCall(n, scope)
  {
    var s := After(START, actions);
    RunCounted(START, actions);
    var parent := s.scopes[scope].parent;
    Extend(START, actions, EnterCall(parent));
    var more := actions + [EnterCall(parent)];
    var n := After(START, more);
    assert n.calls == s.calls + [Call(parent, true)];
    assert n.calls[|s.calls|] == Call(Some(parent.value), true);
    assert Busy(n, parent.value);
    assert !Busy(n, scope);
    PassesExactlyWhenIdle(more, scope);
  }

  /** And a scope opened under a call, in whatever scope, starts afresh: it passes at once. */
  lemma OpenedUnderCallPasses(actions: seq<Action>, parent: nat)
    requires Possible(START, actions) && parent < |After(START, actions).scopes| && UnderCall(After(START, actions), parent)
    ensures var s, more := After(START, actions), actions + [OpenScope(Some(parent))];
            && Possible(START, more)
            && var n := After(START, more);
               && |n.scopes| == |s.scopes| + 1 && n.scopes[|s.scopes|].parent == Some(parent)
               && Passes(n.scopes[|s.scopes|].depth) && UnderCall(n, |s.scopes|)
  {
    var s := After(START, actions);
    Extend(START, actions, OpenScope(Some(parent)));
    var n := After(START, actions + [OpenScope(Some(parent))]);
    StillUnderCall(s, n, parent);
  }

  /** More scopes do not take a scope out of its calls. */
  lemma StillUnderCall(s: Sys, n: Sys, scope: nat)
    requires scope < |s.scopes| && s.scopes <= n.scopes && n.calls == s.calls && UnderCall(s, scope)
    ensures UnderCall(n, scope)
  {
    if !Busy(s, scope) {
      StillUnderCall(s, n, s.scopes[scope].parent.value);
    }
  }
}
