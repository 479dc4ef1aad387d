/**
 * The status writers that the out-of-band backup and restore processes of the
 * pkg generation use: they fetch their session, write every status entry
 * named after their target, and send one status update.  Also the creation
 * of a BackupSession for a named configuration.
 */
module PkgSession {
  import opened Wrappers
  import opened Formol
  import Text

  /** Applies `write` to every entry named `targetName`, keeping the others and the order. */
  function WriteMatching(targets: seq<TargetStatus>, targetName: string, write: TargetStatus -> TargetStatus): (r: seq<TargetStatus>)
    ensures |r| == |targets|
    ensures forall k :: 0 <= k < |r| ==>
      r[k] == if targets[k].name == targetName then write(targets[k]) else targets[k]
    decreases |targets|
  {
    if |targets| == 0 then []
    else
      var e := targets[|targets| - 1];
      WriteMatching(targets[..|targets| - 1], targetName, write) + [if e.name == targetName then write(e) else e]
  }

  /** With no entry named `targetName` the list is left as it is. */
  lemma NoMatchNoChange(targets: seq<TargetStatus>, targetName: string, write: TargetStatus -> TargetStatus)
    requires forall k :: 0 <= k < |targets| ==> targets[k].name != targetName
    ensures WriteMatching(targets, targetName, write) == targets
  {
  }

  /** A write that keeps names and is idempotent on one entry is idempotent on the whole list. */
  lemma WriteMatchingIdempotent(targets: seq<TargetStatus>, targetName: string, write: TargetStatus -> TargetStatus)
    requires forall e: TargetStatus :: write(e).name == e.name && write(write(e)) == write(e)
    ensures WriteMatching(WriteMatching(targets, targetName, write), targetName, write)
         == WriteMatching(targets, targetName, write)
  {
  }

  /** Every entry named `targetName` has a start time. */
  predicate StartTimesSet(targets: seq<TargetStatus>, targetName: string) {
    forall k :: 0 <= k < |targets| && targets[k].name == targetName ==> targets[k].startTime.Some?
  }

  /**
   * The time elapsed since an entry's start.  An entry without a start time
   * panics before any write is stored, so the duration it keeps here is
   * never seen.
   */
  function Elapsed(e: TargetStatus, now: int): int {
    if e.startTime.Some? then now - e.startTime.value else e.duration
  }

  /** The backup write: the new state and snapshot, and the time elapsed since the entry's start. */
  function BackupWrite(state: SessionState, snapshotId: string, now: int): TargetStatus -> TargetStatus {
    (e: TargetStatus) => e.(state := state, snapshotId := snapshotId, duration := Elapsed(e, now))
  }

  /** Writing the same backup status twice at the same time gives what writing it once gives. */
  lemma BackupWriteIdempotent(targets: seq<TargetStatus>, targetName: string, state: SessionState, snapshotId: string, now: int)
    ensures var w := BackupWrite(state, snapshotId, now);
            WriteMatching(WriteMatching(targets, targetName, w), targetName, w) == WriteMatching(targets, targetName, w)
  {
    WriteMatchingIdempotent(targets, targetName, BackupWrite(state, snapshotId, now));
  }

  /**
   * Writes the backup status of `targetName` at Unix time `now`: a failed Get
   * is returned; an entry of the target without a start time panics on the
   * dereference and nothing is sent; otherwise the entries are written and
   * the status update sent, and its error returned.
   */
  method BackupSessionUpdateTargetStatus(bs: BackupSession, get: Fetch, targetName: string,
                                         state: SessionState, snapshotId: string, now: int, updateErr: Option<Error>)
    returns (err: Option<Error>)
    modifies bs
    ensures !get.Fetched? ==> err == Some(FetchError(get)) && bs.targets == old(bs.targets)
    ensures get.Fetched? && !StartTimesSet(old(bs.targets), targetName) ==>
      err == Some(NilDereference) && bs.targets == old(bs.targets)
    ensures get.Fetched? && StartTimesSet(old(bs.targets), targetName) ==> err == updateErr
    ensures get.Fetched? && StartTimesSet(old(bs.targets), targetName) && updateErr.None? ==>
      bs.targets == WriteMatching(old(bs.targets), targetName, BackupWrite(state, snapshotId, now))
    ensures updateErr.Some? ==> bs.targets == old(bs.targets)
  {
    if !get.Fetched? {
      return Some(FetchError(get));
    }
    var targets := bs.targets;
    var i := 0;
    while i < |targets|
      invariant 0 <= i <= |targets| == |old(bs.targets)|
      invariant forall k :: 0 <= k < i && old(bs.targets)[k].name == targetName ==> old(bs.targets)[k].startTime.Some?
      invariant forall k :: 0 <= k < i ==>
        targets[k] == (if old(bs.targets)[k].name == targetName then BackupWrite(state, snapshotId, now)(old(bs.targets)[k]) else old(bs.targets)[k])
      invariant forall k :: i <= k < |targets| ==> targets[k] == old(bs.targets)[k]
    {
      if targets[i].name == targetName {
        if targets[i].startTime.None? {
          return Some(NilDereference);
        }
        targets := targets[i := targets[i].(state := state, snapshotId := snapshotId, duration := now - targets[i].startTime.value)];
      }
      i := i + 1;
    }
    assert targets == WriteMatching(old(bs.targets), targetName, BackupWrite(state, snapshotId, now));
    err := updateErr;
    if err.None? {
      bs.targets := targets;
    }
  }

  /** The error with which a second restore of a target is refused. */
  const AlreadyDone := Error("the restore has already been done. Skipping")

  /** Some entry named `targetName` has already been restored. */
  predicate AlreadyRestored(targets: seq<TargetStatus>, targetName: string) {
    exists k :: 0 <= k < |targets| && targets[k].name == targetName && targets[k].state == Success
  }

  /**
   * What stops a restore write, found at the first entry of the target that
   * stops it: an entry already at Success refuses the write, and, when the
   * new state ends the restore, an entry without a start time panics.
   */
  function RestoreBlock(targets: seq<TargetStatus>, targetName: string, state: SessionState): (r: Option<Error>)
    ensures r == Some(AlreadyDone) ==> AlreadyRestored(targets, targetName)
    ensures r == Some(NilDereference) ==> IsTerminal(state) && !StartTimesSet(targets, targetName)
    ensures r.Some? ==> r == Some(AlreadyDone) || r == Some(NilDereference)
    ensures r.None? <==> !AlreadyRestored(targets, targetName) && (IsTerminal(state) ==> StartTimesSet(targets, targetName))
    decreases |targets|
  {
    if |targets| == 0 then None
    else if targets[0].name == targetName && targets[0].state == Success then Some(AlreadyDone)
    else if targets[0].name == targetName && IsTerminal(state) && targets[0].startTime.None? then Some(NilDereference)
    else
      var r := RestoreBlock(targets[1..], targetName, state);
      assert AlreadyRestored(targets, targetName) <==> AlreadyRestored(targets[1..], targetName) by {
        if AlreadyRestored(targets, targetName) {
          var k :| 0 <= k < |targets| && targets[k].name == targetName && targets[k].state == Success;
          assert targets[1..][k - 1] == targets[k];
        }
        if AlreadyRestored(targets[1..], targetName) {
          var k :| 0 <= k < |targets[1..]| && targets[1..][k].name == targetName && targets[1..][k].state == Success;
          assert targets[k + 1] == targets[1..][k];
        }
      }
      assert IsTerminal(state) ==> (StartTimesSet(targets, targetName) <==> StartTimesSet(targets[1..], targetName)) by {
        if IsTerminal(state) && StartTimesSet(targets[1..], targetName) {
          forall k | 0 <= k < |targets| && targets[k].name == targetName
            ensures targets[k].startTime.Some?
          {
            if k > 0 {
              assert targets[1..][k - 1] == targets[k];
            }
          }
        }
      }
      r
  }

  /** A write of a state that does not end the restore is refused exactly when the target was already restored. */
  lemma RefusedIffRestored(targets: seq<TargetStatus>, targetName: string, state: SessionState)
    requires !IsTerminal(state)
    ensures RestoreBlock(targets, targetName, state) == Some(AlreadyDone) <==> AlreadyRestored(targets, targetName)
    ensures RestoreBlock(targets, targetName, state) != Some(NilDereference)
  {
  }

  /** The restore write: the new state, and the elapsed time only when that state ends the restore. */
  function RestoreWrite(state: SessionState, now: int): TargetStatus -> TargetStatus {
    (e: TargetStatus) => if IsTerminal(state) then e.(state := state, duration := Elapsed(e, now)) else e.(state := state)
  }

  /** The error and the stored entries after a restore status write. */
  function RestoreStatusWrite(targets: seq<TargetStatus>, get: Fetch, targetName: string,
                              state: SessionState, now: int, updateErr: Option<Error>): (Option<Error>, seq<TargetStatus>)
  {
    if !get.Fetched? then (Some(FetchError(get)), targets)
    else if RestoreBlock(targets, targetName, state).Some? then (RestoreBlock(targets, targetName, state), targets)
    else (updateErr, if updateErr.None? then WriteMatching(targets, targetName, RestoreWrite(state, now)) else targets)
  }

  /**
   * Writes the restore status of `targetName`: a failed Get is returned; the
   * first entry of the target that blocks the write (RestoreBlock) stops it
   * and nothing is sent; otherwise the entries are written and the status
   * update sent (`sent`), and its error returned.
   */
  method RestoreSessionUpdateTargetStatus(rs: RestoreSession, get: Fetch, targetName: string,
                                          state: SessionState, now: int, updateErr: Option<Error>)
    returns (sent: bool, err: Option<Error>)
    modifies rs
    ensures !get.Fetched? ==> !sent && err == Some(FetchError(get))
    ensures get.Fetched? && RestoreBlock(old(rs.targets), targetName, state).Some? ==>
      !sent && err == RestoreBlock(old(rs.targets), targetName, state)
    ensures get.Fetched? && RestoreBlock(old(rs.targets), targetName, state).None? ==> sent && err == updateErr
    ensures sent && updateErr.None? ==> rs.targets == WriteMatching(old(rs.targets), targetName, RestoreWrite(state, now))
    ensures !sent || updateErr.Some? ==> rs.targets == old(rs.targets)
    ensures (err, rs.targets) == RestoreStatusWrite(old(rs.targets), get, targetName, state, now, updateErr)
  {
    if !get.Fetched? {
      return false, Some(FetchError(get));
    }
    var block, targets := WriteRestoreEntries(rs.targets, targetName, state, now);
    if block.Some? {
      return false, block;
    }
    sent, err := true, updateErr;
    if err.None? {
      rs.targets := targets;
    }
  }

  /**
   * The loop of the restore writer over its local copy: it stops at the first
   * entry of the target that blocks the write, and otherwise writes every
   * entry of the target.
   */
  method WriteRestoreEntries(ts: seq<TargetStatus>, targetName: string, state: SessionState, now: int)
    returns (block: Option<Error>, targets: seq<TargetStatus>)
    ensures block == RestoreBlock(ts, targetName, state)
    ensures block.None? ==> targets == WriteMatching(ts, targetName, RestoreWrite(state, now))
  {
    targets := ts;
    var i := 0;
    while i < |targets|
      invariant 0 <= i <= |targets| == |ts|
      invariant RestoreBlock(ts, targetName, state) == RestoreBlock(ts[i..], targetName, state)
      invariant forall k :: 0 <= k < i ==>
        targets[k] == (if ts[k].name == targetName then RestoreWrite(state, now)(ts[k]) else ts[k])
      invariant forall k :: i <= k < |targets| ==> targets[k] == ts[k]
    {
      assert ts[i..][1..] == ts[i + 1..];
      var target := targets[i];
      if target.name == targetName {
        if target.state == Success {
          return Some(AlreadyDone), targets;
        }
        targets := targets[i := targets[i].(state := state)];
        if state == Success || state == Failure {
          if targets[i].startTime.None? {
            return Some(NilDereference), targets;
          }
          targets := targets[i := targets[i].(duration := now - targets[i].startTime.value)];
        }
      }
      i := i + 1;
    }
    assert ts[i..] == [];
    block := None;
  }

  /**
   * Once a target has been written as restored, every later restore write
   * for it is refused, whatever state it brings.
   */
  lemma RestoredStaysRefused(targets: seq<TargetStatus>, targetName: string, now: int, later: SessionState)
    requires exists k :: 0 <= k < |targets| && targets[k].name == targetName
    ensures RestoreBlock(WriteMatching(targets, targetName, RestoreWrite(Success, now)), targetName, later) == Some(AlreadyDone)
  {
    var r := WriteMatching(targets, targetName, RestoreWrite(Success, now));
    var k :| 0 <= k < |targets| && targets[k].name == targetName;
    assert r[k].name == targetName;
    AllRestoredBlocks(r, targetName, later);
  }

  /** With every entry of the target at Success, the first of them refuses any write. */
  lemma {:induction false} AllRestoredBlocks(targets: seq<TargetStatus>, targetName: string, later: SessionState)
    requires exists k :: 0 <= k < |targets| && targets[k].name == targetName
    requires forall k :: 0 <= k < |targets| && targets[k].name == targetName ==> targets[k].state == Success
    ensures RestoreBlock(targets, targetName, later) == Some(AlreadyDone)
    decreases |targets|
  {
    if targets[0].name != targetName {
      var k :| 0 <= k < |targets| && targets[k].name == targetName;
      assert targets[1..][k - 1] == targets[k];
      forall j | 0 <= j < |targets[1..]| && targets[1..][j].name == targetName
        ensures targets[1..][j].state == Success
      {
        assert targets[1..][j] == targets[j + 1];
      }
      AllRestoredBlocks(targets[1..], targetName, later);
    }
  }

  /** A restore write of a state that does not end the restore keeps every duration. */
  lemma NonTerminalKeepsDurations(targets: seq<TargetStatus>, targetName: string, state: SessionState, now: int)
    requires !IsTerminal(state)
    ensures var r := WriteMatching(targets, targetName, RestoreWrite(state, now));
            forall k :: 0 <= k < |r| ==> r[k].duration == targets[k].duration && r[k].startTime == targets[k].startTime
  {
  }

  // ----- CreateBackupSession -----

  /** The last configuration named `name` in list order. */
  function LastNamed(confs: seq<BackupConfiguration>, name: string): (r: Option<BackupConfiguration>)
    ensures r.Some? ==> r.value.name == name && r.value in confs
    ensures r.None? ==> forall k :: 0 <= k < |confs| ==> confs[k].name != name
    decreases |confs|
  {
    if |confs| == 0 then None
    else if confs[|confs| - 1].name == name then Some(confs[|confs| - 1])
    else LastNamed(confs[..|confs| - 1], name)
  }

  /** A configuration of the name that no later one of the name follows is the one kept. */
  lemma {:induction false} LastNamedIsLast(confs: seq<BackupConfiguration>, name: string, j: nat)
    requires j < |confs| && confs[j].name == name
    requires forall k :: j < k < |confs| ==> confs[k].name != name
    ensures LastNamed(confs, name) == Some(confs[j])
    decreases |confs|
  {
    if j < |confs| - 1 {
      LastNamedIsLast(confs[..|confs| - 1], name, j);
    }
  }

  /** Scans the list, overwriting the kept configuration at every one of the name. */
  method FindConfiguration(confs: seq<BackupConfiguration>, name: string) returns (conf: Option<BackupConfiguration>)
    ensures conf == LastNamed(confs, name)
  {
    conf := None;
    var i := 0;
    while i < |confs|
      invariant 0 <= i <= |confs|
      invariant conf == LastNamed(confs[..i], name)
    {
      assert confs[..i + 1][..i] == confs[..i];
      if confs[i].name == name {
        conf := Some(confs[i]);
      }
      i := i + 1;
    }
    assert confs[..|confs|] == confs;
  }

  /** The prefix of the names of sessions this generation creates. */
  const BackupSessionPrefix := "backupsession"

  /**
   * Creates a BackupSession for configuration `name` in `namespace` at Unix
   * time `now`: a failed List (`listErr`) or a failed Create ends the process
   * with status 1.  `conf` is the configuration found in `confs`, which is
   * only logged: the session refers to the configuration by name.
   */
  method CreateBackupSession(name: string, namespace: string, listErr: Option<Error>, confs: seq<BackupConfiguration>,
                             now: int, createErr: Option<Error>)
    returns (conf: Option<BackupConfiguration>, outcome: CreateOutcome)
    ensures listErr.Some? ==> outcome == CreateOutcome(None, 1)
    ensures listErr.None? ==> conf == LastNamed(confs, name)
    ensures listErr.None? ==>
      outcome.attempted == Some(NewBackupSession(BackupSessionName(BackupSessionPrefix, name, now), namespace, ObjectReference(name, "")))
    ensures listErr.None? ==> (outcome.exitCode == 0 <==> createErr.None?)
    ensures outcome.exitCode == 0 || outcome.exitCode == 1
  {
    if listErr.Some? {
      return None, CreateOutcome(None, 1);
    }
    conf := FindConfiguration(confs, name);
    var session := NewBackupSession(BackupSessionName(BackupSessionPrefix, name, now), namespace, ObjectReference(name, ""));
    outcome := CreateOutcome(Some(session), if createErr.Some? then 1 else 0);
  }

  /** The created name is backupsession-<name>-<now>, and <now> reads back from it. */
  lemma CreatedName(name: string, now: int)
    ensures var n := BackupSessionName(BackupSessionPrefix, name, now);
            n[..15 + |name|] == "backupsession-" + name + "-" && Text.ParseInt(n[15 + |name|..]) == Some(now)
  {
    var n := BackupSessionName(BackupSessionPrefix, name, now);
    assert |BackupSessionPrefix| == 13;
    calc {
      n[..15 + |name|];
      BackupSessionPrefix + "-" + name + "-";
      { assert BackupSessionPrefix + "-" == "backupsession-"; }
      "backupsession-" + name + "-";
    }
    BackupSessionNameTime(BackupSessionPrefix, name, now);
  }
}
