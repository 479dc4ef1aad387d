/**
 * The restore side of the pkg generation's restic adapter: the status
 * sequence a volume restore writes, and the PostgreSQL restore with its
 * .pgpass line.
 */
module PkgRestore {
  import opened Wrappers
  import opened Formol
  import PkgSession
  import PkgBackup

  /**
   * Restores a volume: writes Init for the target (a failed write is returned
   * and nothing is restored), restores (`restoreErr` is how that ends), then
   * writes Finalize, or Failure when the restore failed, and returns the
   * restore's error whatever the second write returns; only a panic of the
   * second write (an entry without a start time) ends the volume restore
   * instead.  `restored` tells whether the restore ran.
   */
  method RestoreVolume(rs: RestoreSession, targetName: string,
                       get1: Fetch, now1: int, updateErr1: Option<Error>,
                       restoreErr: Option<Error>,
                       get2: Fetch, now2: int, updateErr2: Option<Error>)
    returns (restored: bool, err: Option<Error>)
    modifies rs
    ensures var (initErr, initTargets) := PkgSession.RestoreStatusWrite(old(rs.targets), get1, targetName, Init, now1, updateErr1);
            if initErr.Some? then !restored && err == initErr && rs.targets == old(rs.targets)
            else
              var (finalErr, finalTargets) := PkgSession.RestoreStatusWrite(initTargets, get2, targetName, FinalState(restoreErr), now2, updateErr2);
              restored && rs.targets == finalTargets &&
              err == if finalErr.Some? && finalErr.value.Panic? then finalErr else restoreErr
  {
    var sent, e := PkgSession.RestoreSessionUpdateTargetStatus(rs, get1, targetName, Init, now1, updateErr1);
    if e.Some? {
      return false, e;
    }
    var state := Finalize;
    restored, err := true, restoreErr;
    if err.Some? {
      state := Failure;
    }
    var sent2, e2 := PkgSession.RestoreSessionUpdateTargetStatus(rs, get2, targetName, state, now2, updateErr2);
    if e2.Some? && e2.value.Panic? {
      err := e2;
    }
  }

  /** The state written after the restore: Finalize when it succeeded, Failure otherwise. */
  function FinalState(restoreErr: Option<Error>): (s: SessionState)
    ensures s == Finalize <==> restoreErr.None?
    ensures s == Failure <==> restoreErr.Some?
  {
    if restoreErr.None? then Finalize else Failure
  }

  /** A successful Init write leaves no restored entry, so the second write is never refused as a repeat. */
  lemma InitWriteKeepsGuardOpen(targets: seq<TargetStatus>, targetName: string, now: int)
    requires !PkgSession.AlreadyRestored(targets, targetName)
    ensures !PkgSession.AlreadyRestored(PkgSession.WriteMatching(targets, targetName, PkgSession.RestoreWrite(Init, now)), targetName)
  {
    var r := PkgSession.WriteMatching(targets, targetName, PkgSession.RestoreWrite(Init, now));
    forall k | 0 <= k < |r| && r[k].name == targetName
      ensures r[k].state != Success
    {
    }
  }

  /**
   * When both writes are sent and stored, every entry of the target ends in
   * Finalize with its duration kept, or in Failure with the time since its
   * start; other entries are untouched.  Failure on an entry without a start
   * time panics and stores nothing.
   */
  lemma VolumeRestoreOutcome(targets: seq<TargetStatus>, targetName: string, now1: int, restoreErr: Option<Error>, now2: int)
    requires !PkgSession.AlreadyRestored(targets, targetName)
    ensures var t1 := PkgSession.WriteMatching(targets, targetName, PkgSession.RestoreWrite(Init, now1));
            var (e2, t2) := PkgSession.RestoreStatusWrite(t1, Fetch.Fetched, targetName, FinalState(restoreErr), now2, None);
            if restoreErr.Some? && !PkgSession.StartTimesSet(targets, targetName) then e2 == Some(NilDereference) && t2 == t1
            else
              e2 == None && |t2| == |targets| &&
              forall k :: 0 <= k < |t2| ==>
                t2[k] == if targets[k].name != targetName then targets[k]
                         else if restoreErr.None? then targets[k].(state := Finalize)
                         else targets[k].(state := Failure, duration := now2 - targets[k].startTime.value)
  {
    InitWriteKeepsGuardOpen(targets, targetName, now1);
    var t1 := PkgSession.WriteMatching(targets, targetName, PkgSession.RestoreWrite(Init, now1));
    assert PkgSession.StartTimesSet(t1, targetName) <==> PkgSession.StartTimesSet(targets, targetName) by {
      assert forall k :: 0 <= k < |t1| ==> t1[k].name == targets[k].name && t1[k].startTime == targets[k].startTime;
    }
    if restoreErr.Some? && !PkgSession.StartTimesSet(targets, targetName) {
      assert PkgSession.RestoreBlock(t1, targetName, Failure) == Some(NilDereference);
    } else {
      FinalWriteStored(targets, t1, targetName, now1, restoreErr, now2);
    }
  }

  /** The second write, when nothing blocks it: each entry of the target gets its final state. */
  lemma FinalWriteStored(targets: seq<TargetStatus>, t1: seq<TargetStatus>, targetName: string, now1: int,
                         restoreErr: Option<Error>, now2: int)
    requires t1 == PkgSession.WriteMatching(targets, targetName, PkgSession.RestoreWrite(Init, now1))
    requires !PkgSession.AlreadyRestored(t1, targetName)
    requires restoreErr.Some? ==> PkgSession.StartTimesSet(targets, targetName) && PkgSession.StartTimesSet(t1, targetName)
    ensures PkgSession.RestoreBlock(t1, targetName, FinalState(restoreErr)) == None
    ensures var t2 := PkgSession.WriteMatching(t1, targetName, PkgSession.RestoreWrite(FinalState(restoreErr), now2));
            forall k :: 0 <= k < |t2| ==>
              t2[k] == if targets[k].name != targetName then targets[k]
                       else if restoreErr.None? then targets[k].(state := Finalize)
                       else targets[k].(state := Failure, duration := now2 - targets[k].startTime.value)
  {
  }

  /** The pg_restore arguments: a clean restore of a custom-format dump into one database, without a password prompt. */
  function PgRestoreArgs(file: string, host: string, database: string, user: string): (r: seq<string>)
    ensures |r| == 10 && r[0] == "--format=custom" && r[3] == host && r[5] == database && r[7] == user
    ensures r[9] == file
  {
    ["--format=custom", "--clean", "--host", host, "--dbname", database, "--username", user, "--no-password", file]
  }

  /**
   * Restores a database: writes the .pgpass line (a failed write is returned
   * and nothing runs), then runs pg_restore and returns its error.
   */
  method RestorePostgres(file: string, host: string, database: string, user: string, password: string,
                         writeErr: Option<Error>, restoreErr: Option<Error>)
    returns (pgpass: string, restoreArgs: Option<seq<string>>, err: Option<Error>)
    ensures pgpass == PkgBackup.PgPass(host, database, user, password)
    ensures writeErr.Some? ==> restoreArgs == None && err == writeErr
    ensures writeErr.None? ==> restoreArgs == Some(PgRestoreArgs(file, host, database, user)) && err == restoreErr
  {
    pgpass := PkgBackup.PgPass(host, database, user, password);
    if writeErr.Some? {
      return pgpass, None, writeErr;
    }
    restoreArgs := Some(PgRestoreArgs(file, host, database, user));
    err := restoreErr;
  }
}
