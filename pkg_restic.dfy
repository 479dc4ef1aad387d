/**
 * The restic adapter of the pkg generation: every command names its
 * repository with -r; a repository is unlocked, checked and, when the check
 * fails, initialised before a backup or a restore.
 */
module PkgRestic {
  import opened Wrappers
  import opened Formol
  import opened Restic
  import Session

  /** The snapshot of the last summary line, or "" without one. */
  method GetBackupResults(lines: seq<Line>) returns (snapshotId: string)
    ensures snapshotId == ResultOf(lines).snapshotId
    ensures LastSummary(lines).None? ==> snapshotId == ""
  {
    var result := ParseBackupOutput(lines);
    snapshotId := result.snapshotId;
  }

  /** The duration a restore reports: always zero. */
  function GetRestoreResults(output: seq<Line>): int {
    0
  }

  /**
   * Backs up paths into `repository`: a failed repository check returns its
   * error with empty output and no backup; otherwise the backup runs and its
   * output and error are returned.  `checked` lists the commands of the check.
   */
  method BackupPaths(tag: string, paths: seq<string>, repository: string,
                     unlockErr: Option<Error>, checkErr: Option<Error>, initErr: Option<Error>,
                     output: seq<Line>, backupErr: Option<Error>)
    returns (checked: seq<seq<string>>, backupArgs: Option<seq<string>>, out: seq<Line>, err: Option<Error>)
    ensures |checked| >= 2 && checked[0] == ["unlock", "-r", repository] && checked[1] == ["check", "-r", repository]
    ensures Session.RepoCheckError(checkErr, initErr).Some? ==>
      backupArgs == None && out == [] && err == Session.RepoCheckError(checkErr, initErr)
    ensures Session.RepoCheckError(checkErr, initErr).None? ==>
      backupArgs == Some(BackupArgs(tag, repository, paths)) && out == output && err == backupErr
  {
    checked, err := Session.CheckRepo(["-r", repository], unlockErr, checkErr, initErr);
    if err.Some? {
      return checked, None, [], err;
    }
    backupArgs, out, err := Some(BackupArgs(tag, repository, paths)), output, backupErr;
  }

  /** The arguments restoring a snapshot of a named repository: restore -r <repo> <snapshot> --target /. */
  function RestoreArgs(repository: string, snapshotId: string): (r: seq<string>)
    ensures |r| == 6 && r[2] == repository && r[3] == snapshotId && r[5] == "/"
  {
    ["restore", "-r", repository, snapshotId, "--target", "/"]
  }

  /**
   * Restores a snapshot of `repository`: the repository handed in is the one
   * checked; a failed check returns its error and no restore runs.
   */
  method RestorePaths(repository: string, snapshotId: string,
                      unlockErr: Option<Error>, checkErr: Option<Error>, initErr: Option<Error>,
                      output: seq<Line>, restoreErr: Option<Error>)
    returns (checked: seq<seq<string>>, restoreArgs: Option<seq<string>>, out: seq<Line>, err: Option<Error>)
    ensures |checked| >= 2 && checked[0] == ["unlock", "-r", repository] && checked[1] == ["check", "-r", repository]
    ensures Session.RepoCheckError(checkErr, initErr).Some? ==>
      restoreArgs == None && out == [] && err == Session.RepoCheckError(checkErr, initErr)
    ensures Session.RepoCheckError(checkErr, initErr).None? ==>
      restoreArgs == Some(RestoreArgs(repository, snapshotId)) && out == output && err == restoreErr
  {
    checked, err := Session.CheckRepo(["-r", repository], unlockErr, checkErr, initErr);
    if err.Some? {
      return checked, None, [], err;
    }
    restoreArgs, out, err := Some(RestoreArgs(repository, snapshotId)), output, restoreErr;
  }
}
