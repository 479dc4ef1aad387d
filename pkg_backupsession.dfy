/**
 * The older BackupSession status writer of the pkg generation: it writes the
 * state, snapshot and a given duration into every entry named after its
 * target, and always sends the update, even when the Get failed.  Its
 * CreateBackupSession is the one of PkgSession.
 */
module PkgBackupSession {
  import opened Wrappers
  import opened Formol
  import PkgSession

  /** The write of this generation: state, snapshot and the duration handed in. */
  function StatusWrite(state: SessionState, snapshotId: string, duration: int): TargetStatus -> TargetStatus {
    (e: TargetStatus) => e.(state := state, snapshotId := snapshotId, duration := duration)
  }

  /**
   * Writes the status of `targetName`.  A failed Get is not looked at: the
   * object then stays the empty one, whose status list is empty, and it is
   * that object the update sends.  `sent` is the status list of the update;
   * the error of the update is returned.  The stored session changes only when
   * the Get found it and the update succeeds.
   */
  method BackupSessionUpdateStatus(bs: BackupSession, get: Fetch, targetName: string,
                                   state: SessionState, snapshotId: string, duration: int, updateErr: Option<Error>)
    returns (sent: seq<TargetStatus>, err: Option<Error>)
    modifies bs
    ensures err == updateErr
    ensures !get.Fetched? ==> sent == []
    ensures get.Fetched? ==> sent == PkgSession.WriteMatching(old(bs.targets), targetName, StatusWrite(state, snapshotId, duration))
    ensures bs.targets == if get.Fetched? && updateErr.None? then sent else old(bs.targets)
  {
    var targets: seq<TargetStatus> := [];
    if get.Fetched? {
      targets := bs.targets;
    }
    ghost var before := targets;
    var i := 0;
    while i < |targets|
      invariant 0 <= i <= |targets| == |before|
      invariant forall k :: 0 <= k < i ==>
        targets[k] == (if before[k].name == targetName then StatusWrite(state, snapshotId, duration)(before[k]) else before[k])
      invariant forall k :: i <= k < |targets| ==> targets[k] == before[k]
    {
      if targets[i].name == targetName {
        targets := targets[i := targets[i].(state := state, snapshotId := snapshotId, duration := duration)];
      }
      i := i + 1;
    }
    assert targets == PkgSession.WriteMatching(before, targetName, StatusWrite(state, snapshotId, duration));
    sent, err := targets, updateErr;
    if get.Fetched? && err.None? {
      bs.targets := targets;
    }
  }

  /** Entries of other targets are never written, and without a matching entry the list sent is the one read. */
  lemma OthersUntouched(targets: seq<TargetStatus>, targetName: string, state: SessionState, snapshotId: string, duration: int)
    ensures var r := PkgSession.WriteMatching(targets, targetName, StatusWrite(state, snapshotId, duration));
            (forall k :: 0 <= k < |r| && targets[k].name != targetName ==> r[k] == targets[k]) &&
            ((forall k :: 0 <= k < |targets| ==> targets[k].name != targetName) ==> r == targets)
  {
    var w := StatusWrite(state, snapshotId, duration);
    if forall k :: 0 <= k < |targets| ==> targets[k].name != targetName {
      PkgSession.NoMatchNoChange(targets, targetName, w);
    }
  }

  /** Writing the same status twice gives what writing it once gives. */
  lemma StatusWriteIdempotent(targets: seq<TargetStatus>, targetName: string, state: SessionState, snapshotId: string, duration: int)
    ensures var w := StatusWrite(state, snapshotId, duration);
            PkgSession.WriteMatching(PkgSession.WriteMatching(targets, targetName, w), targetName, w)
            == PkgSession.WriteMatching(targets, targetName, w)
  {
    PkgSession.WriteMatchingIdempotent(targets, targetName, StatusWrite(state, snapshotId, duration));
  }
}
