/** The request lifecycle the mechanic's screen drives: Pending, then In
    Progress or Rejected, and from In Progress to Completed. Each action is
    guarded by the exact current status; anything else leaves the status alone. */
module Lifecycle {
  import opened Common
  import opened Model

  /** The three buttons of the mechanic's screen. */
  datatype Action = Accept | Reject | Complete

  /** The status an action requires, compared exactly (String.equals). */
  function Guard(a: Action): string
  {
    match a
    case Accept => Pending
    case Reject => Pending
    case Complete => InProgress
  }

  /** The status an action sets. */
  function Target(a: Action): string
  {
    match a
    case Accept => InProgress
    case Reject => Rejected
    case Complete => Completed
  }

  /** The status after pressing `a`: the target when the guard holds, otherwise unchanged. */
  function Step(status: Option<string>, a: Action): Option<string>
  {
    if status == Some(Guard(a)) then Some(Target(a)) else status
  }

  /** The status after a sequence of presses. */
  function Run(status: Option<string>, actions: seq<Action>): Option<string>
    decreases |actions|
  {
    if actions == [] then status else Run(Step(status, actions[0]), actions[1..])
  }

  /** No action leaves Completed or Rejected, and no action changes a status
      outside the lifecycle (null, Cancelled, or any other text). */
  lemma {:induction false} RunFixesNonActive(status: Option<string>, actions: seq<Action>)
    requires status != Some(Pending) && status != Some(InProgress)
    ensures Run(status, actions) == status
    decreases |actions|
  {
    if actions != [] {
      RunFixesNonActive(Step(status, actions[0]), actions[1..]);
    }
  }

  /** From In Progress the only move is to Completed. */
  lemma {:induction false} RunFromInProgress(actions: seq<Action>)
    ensures Run(Some(InProgress), actions) in {Some(InProgress), Some(Completed)}
    ensures Run(Some(InProgress), actions) == Some(Completed) <==> Complete in actions
    decreases |actions|
  {
    if actions != [] {
      if actions[0] == Complete {
        RunFixesNonActive(Some(Completed), actions[1..]);
      } else {
        RunFromInProgress(actions[1..]);
        assert actions == [actions[0]] + actions[1..];
      }
    }
  }

  /** A Pending request ends Pending, In Progress, Rejected or Completed, and it
      is Completed only if it was accepted and later completed. */
  lemma {:induction false} RunFromPending(actions: seq<Action>)
    ensures Run(Some(Pending), actions) in {Some(Pending), Some(InProgress), Some(Rejected), Some(Completed)}
    ensures Run(Some(Pending), actions) == Some(Completed) ==>
      exists i, j | 0 <= i < j < |actions| :: actions[i] == Accept && actions[j] == Complete
    decreases |actions|
  {
    if actions != [] {
      var rest := actions[1..];
      match actions[0]
      case Accept =>
        RunFromInProgress(rest);
        if Run(Some(Pending), actions) == Some(Completed) {
          var j :| 0 <= j < |rest| && rest[j] == Complete;
          assert actions[0] == Accept && actions[j + 1] == Complete;
        }
      case Reject =>
        RunFixesNonActive(Some(Rejected), rest);
      case Complete =>
        RunFromPending(rest);
        if Run(Some(Pending), actions) == Some(Completed) {
          var i, j :| 0 <= i < j < |rest| && rest[i] == Accept && rest[j] == Complete;
          assert actions[i + 1] == Accept && actions[j + 1] == Complete;
        }
    }
  }
}
