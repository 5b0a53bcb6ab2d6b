/** The close-session state machine and the guard that refuses writes to frozen sessions. */
module CloseSession {
  import opened Wrappers

  /** `ALLOWED_TRANSITIONS`; an unknown status allows nothing. */
  function Allowed(from: string): seq<string> {
    if from == "draft" then ["in_progress"]
    else if from == "in_progress" then ["draft", "ready_for_review"]
    else if from == "ready_for_review" then ["in_progress", "finalized"]
    else if from == "finalized" then ["ready_for_review", "locked"]
    else if from == "locked" then ["certified"]
    else []
  }

  const FROZEN := ["certified", "locked"]

  datatype Reply = NotFound | Frozen(status: string) | Writable

  /** `guardSessionWritable`: the session's status, or none when there is no such session. */
  function Guard(status: Option<string>): Reply {
    match status
    case None => NotFound
    case Some(s) => if s in FROZEN then Frozen(s) else Writable
  }

  /** A history of statuses, each allowed by the one before. */
  ghost predicate History(path: seq<string>) {
    path != [] && forall i | 0 <= i < |path| - 1 :: path[i + 1] in Allowed(path[i])
  }

  lemma AllowedFacts(from: string, to: string)
    requires to in Allowed(from)
    ensures from in FROZEN ==> to in FROZEN
    ensures to == "certified" ==> from == "locked"
    ensures to == "locked" ==> from == "finalized"
    ensures to == "finalized" ==> from == "ready_for_review"
    ensures to == "ready_for_review" ==> from == "in_progress" || from == "finalized"
    ensures to == "in_progress" ==> from == "draft" || from == "ready_for_review"
  {
  }

  /** Once the guard has refused a session as frozen, it refuses it ever after. */
  lemma {:induction false} FrozenForever(path: seq<string>, i: nat, j: nat)
    requires History(path) && i <= j < |path|
    requires Guard(Some(path[i])).Frozen?
    ensures Guard(Some(path[j])).Frozen?
    decreases j - i
  {
    if i < j {
      assert path[i + 1] in Allowed(path[i]);
      AllowedFacts(path[i], path[i + 1]);
      FrozenForever(path, i + 1, j);
    }
  }

  /** A certified session that started as a draft was reviewed, finalized and locked just before. */
  lemma {:induction false} CertifiedWasLocked(path: seq<string>)
    requires History(path) && path[0] == "draft" && path[|path| - 1] == "certified"
    ensures |path| >= 6
    ensures path[|path| - 4..] == ["ready_for_review", "finalized", "locked", "certified"]
  {
    var n := |path|;
    LastStep(path, n - 1);
    LastStep(path, n - 2);
    LastStep(path, n - 3);
    LastStep(path, n - 4);
    LastStep(path, n - 5);
  }

  lemma LastStep(path: seq<string>, i: int)
    requires History(path) && i < |path|
    requires path[0] == "draft"
    ensures 0 < i && path[i] == "certified" ==> path[i - 1] == "locked"
    ensures 0 < i && path[i] == "locked" ==> path[i - 1] == "finalized"
    ensures 0 < i && path[i] == "finalized" ==> path[i - 1] == "ready_for_review"
    ensures 0 < i && path[i] == "ready_for_review" ==> path[i - 1] == "in_progress" || path[i - 1] == "finalized"
  {
    if i > 0 {
      assert path[i - 1 + 1] in Allowed(path[i - 1]);
      AllowedFacts(path[i - 1], path[i]);
    }
  }

  /** The transitions of a close session, one by one. */
  lemma AllowedExactly(from: string, to: string)
    ensures to in Allowed(from) <==>
            || (from == "draft" && to == "in_progress")
            || (from == "in_progress" && (to == "draft" || to == "ready_for_review"))
            || (from == "ready_for_review" && (to == "in_progress" || to == "finalized"))
            || (from == "finalized" && (to == "ready_for_review" || to == "locked"))
            || (from == "locked" && to == "certified")
  {
  }

  /** The guard refuses locked and certified sessions and no others. */
  lemma GuardExactly(status: Option<string>)
    ensures Guard(status) == match status
                             case None => NotFound
                             case Some(s) => if s == "locked" || s == "certified" then Frozen(s) else Writable
  {
  }
}
