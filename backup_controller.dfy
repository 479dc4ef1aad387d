/**
 * The sidecar's BackupSession reconciler: it acts on the last entry of
 * Status.Targets, and only when that entry is for this sidecar's target, moving
 * it one step along New -> Init -> Running -> Finalize -> Success/Failure and
 * writing the status back.
 */
module BackupController {
  import opened Wrappers
  import opened Formol

  /** The state the last entry moves to, or None when this call leaves it alone. */
  function NextState(entry: TargetStatus, targetName: string): (r: Option<SessionState>)
    ensures r.Some? ==> entry.name == targetName && Rank(r.value) > Rank(entry.state)
    ensures IsTerminal(entry.state) ==> r.None?
    ensures entry.name == targetName && entry.state in {New, Init, Running, Finalize} ==> r.Some?
  {
    if entry.name != targetName then None
    else
      match entry.state
      case New => Some(Init)
      case Init => Some(Running)
      case Running => Some(Finalize)
      case Finalize => if entry.snapshotId == "" then Some(Failure) else Some(Success)
      case _ => None
  }

  /** A finalized entry ends in Success exactly when it has a snapshot. */
  lemma FinalizeOutcome(entry: TargetStatus, targetName: string)
    requires entry.name == targetName && entry.state == Finalize
    ensures NextState(entry, targetName) == Some(Success) <==> entry.snapshotId != ""
    ensures NextState(entry, targetName) == Some(Failure) <==> entry.snapshotId == ""
  {
  }

  /** The status list after one reconcile that writes successfully. */
  function Advance(targets: seq<TargetStatus>, targetName: string): (r: seq<TargetStatus>)
    requires |targets| > 0
    ensures |r| == |targets| && r[..|r| - 1] == targets[..|targets| - 1]
    ensures r[|r| - 1] == targets[|targets| - 1].(state := r[|r| - 1].state)
    ensures NextState(targets[|targets| - 1], targetName).None? ==> r == targets
  {
    var last := targets[|targets| - 1];
    match NextState(last, targetName)
    case None => targets
    case Some(s) => targets[..|targets| - 1] + [last.(state := s)]
  }

  /** The status list after n reconciles that each write successfully. */
  function AdvanceTimes(targets: seq<TargetStatus>, targetName: string, n: nat): (r: seq<TargetStatus>)
    requires |targets| > 0
    ensures |r| == |targets|
    decreases n
  {
    if n == 0 then targets else Advance(AdvanceTimes(targets, targetName, n - 1), targetName)
  }

  /** Success and Failure are absorbing: once reached, later reconciles change nothing. */
  lemma {:induction false} TerminalIsAbsorbing(targets: seq<TargetStatus>, targetName: string, n: nat)
    requires |targets| > 0 && IsTerminal(targets[|targets| - 1].state)
    ensures AdvanceTimes(targets, targetName, n) == targets
    decreases n
  {
    if n > 0 {
      TerminalIsAbsorbing(targets, targetName, n - 1);
    }
  }

  /**
   * A new entry for this target reaches Success or Failure after exactly four
   * reconciles, Success exactly when it carries a snapshot id; the other
   * entries and the other fields of the last one stay as they were.
   */
  lemma FourStepsToTheEnd(targets: seq<TargetStatus>, targetName: string)
    requires |targets| > 0
    requires targets[|targets| - 1].name == targetName && targets[|targets| - 1].state == New
    ensures var r := AdvanceTimes(targets, targetName, 4);
            && r[..|r| - 1] == targets[..|targets| - 1]
            && r[|r| - 1] == targets[|targets| - 1].(state := r[|r| - 1].state)
            && (r[|r| - 1].state == Success <==> targets[|targets| - 1].snapshotId != "")
            && (r[|r| - 1].state == Failure <==> targets[|targets| - 1].snapshotId == "")
  {
    var last := targets[|targets| - 1];
    var init := targets[..|targets| - 1];
    var a1 := AdvanceTimes(targets, targetName, 1);
    assert a1 == init + [last.(state := Init)];
    var a2 := AdvanceTimes(targets, targetName, 2);
    assert a2 == init + [last.(state := Running)];
    var a3 := AdvanceTimes(targets, targetName, 3);
    assert a3 == init + [last.(state := Finalize)];
  }

  /** What one reconcile returns: the delay before it runs again (0: none) and its error. */
  datatype ReconcileResult = ReconcileResult(requeueAfterSeconds: nat, err: Option<Error>)

  /**
   * One reconcile of a BackupSession.  `get` is how the Get of the session ends
   * (the fetched object is `session`), `targetName` the sidecar's TARGET_NAME
   * and `updateErr` how the status update ends; `updated` says whether an
   * update was sent.
   */
  method Reconcile(session: BackupSession, get: Fetch, targetName: string, updateErr: Option<Error>)
    returns (result: ReconcileResult, updated: bool)
    modifies session
    ensures !get.Fetched? ==> result == ReconcileResult(0, IgnoreNotFound(get)) && !updated && unchanged(session)
    ensures get.Fetched? && |old(session.targets)| == 0 ==>
      result == ReconcileResult(10, None) && !updated && unchanged(session)
    ensures get.Fetched? && |old(session.targets)| > 0 ==>
      var n := NextState(old(session.targets)[|old(session.targets)| - 1], targetName);
      && updated == n.Some?
      && result == ReconcileResult(0, if n.Some? then updateErr else None)
      && session.targets == (if updateErr.None? then Advance(old(session.targets), targetName) else old(session.targets))
  {
    if !get.Fetched? {
      return ReconcileResult(0, IgnoreNotFound(get)), false;
    }
    if |session.targets| == 0 {
      return ReconcileResult(10, None), false;
    }
    var targets := session.targets;
    var i := |targets| - 1;
    var current := targets[i];
    updated := false;
    result := ReconcileResult(0, None);
    if current.name == targetName {
      var next: Option<SessionState> := None;
      match current.state {
        case New => next := Some(Init);
        case Init => next := Some(Running);
        case Running => next := Some(Finalize);
        case Finalize =>
          if current.snapshotId == "" {
            next := Some(Failure);
          } else {
            next := Some(Success);
          }
        case _ =>
      }
      if next.Some? {
        targets := targets[i := current.(state := next.value)];
        assert targets == Advance(old(session.targets), targetName);
        updated := true;
        if updateErr.None? {
          session.targets := targets;
        }
        result := ReconcileResult(0, updateErr);
      }
    }
  }
}
