/**
 * The backup side of the pkg generation's restic adapter: the repository
 * check (check, then init when check fails), the backup of paths, the status
 * written after a volume backup, and the PostgreSQL dump with its .pgpass
 * line.
 */
module PkgBackup {
  import opened Wrappers
  import opened Formol
  import opened Restic
  import Text
  import PkgSession
  import PkgBackupSession

  /** How a command ends: it could not be started, or it ran and exited (with an error or without). */
  datatype Run = StartFailed(err: Error) | Exited(exitErr: Option<Error>)

  /**
   * The outcome of checking a repository: a failed stderr pipe or a check
   * that cannot start is returned; a check that exits cleanly gives nil; a
   * failing check gives the outcome of init.
   */
  function CheckOutcome(pipeErr: Option<Error>, check: Run, init: Run): (r: Option<Error>)
    ensures r.None? <==> pipeErr.None? && (check == Exited(None) || (check.Exited? && init == Exited(None)))
    ensures pipeErr.Some? ==> r == pipeErr
  {
    if pipeErr.Some? then pipeErr
    else match check
      case StartFailed(e) => Some(e)
      case Exited(None) => None
      case Exited(Some(_)) =>
        match init
        case StartFailed(e) => Some(e)
        case Exited(e) => e
  }

  /**
   * Checks `repository`; `started` lists the commands started: none when the
   * pipe cannot be had, the check, and init only after a check that ran and
   * failed.
   */
  method CheckRepo(repository: string, pipeErr: Option<Error>, check: Run, init: Run)
    returns (started: seq<seq<string>>, err: Option<Error>)
    ensures err == CheckOutcome(pipeErr, check, init)
    ensures pipeErr.Some? ==> started == []
    ensures pipeErr.None? ==> |started| >= 1 && started[0] == ["check", "-r", repository]
    ensures |started| == 2 <==> pipeErr.None? && check.Exited? && check.exitErr.Some?
    ensures |started| == 2 ==> started[1] == ["init", "-r", repository]
    ensures |started| <= 2
  {
    if pipeErr.Some? {
      return [], pipeErr;
    }
    started := [["check", "-r", repository]];
    if check.StartFailed? {
      return started, Some(check.err);
    }
    if check.exitErr.Some? {
      started := started + [["init", "-r", repository]];
      if init.StartFailed? {
        return started, Some(init.err);
      }
      if init.exitErr.Some? {
        return started, init.exitErr;
      }
    }
    err := None;
  }

  /**
   * Backs up paths into `repository`: a failed check returns empty output and
   * its error, and no backup runs; otherwise the backup's output and error.
   */
  method BackupPaths(tag: string, paths: seq<string>, repository: string,
                     pipeErr: Option<Error>, check: Run, init: Run, output: seq<Line>, backupErr: Option<Error>)
    returns (backupArgs: Option<seq<string>>, out: seq<Line>, err: Option<Error>)
    ensures CheckOutcome(pipeErr, check, init).Some? ==>
      backupArgs == None && out == [] && err == CheckOutcome(pipeErr, check, init)
    ensures CheckOutcome(pipeErr, check, init).None? ==>
      backupArgs == Some(BackupArgs(tag, repository, paths)) && out == output && err == backupErr
  {
    var started;
    started, err := CheckRepo(repository, pipeErr, check, init);
    if err.Some? {
      return None, [], err;
    }
    backupArgs, out, err := Some(BackupArgs(tag, repository, paths)), output, backupErr;
  }

  /** The state, snapshot and duration a volume backup reports: its results on success, Failure with nothing otherwise. */
  function VolumeStatus(err: Option<Error>, out: seq<Line>): (r: (SessionState, BackupResult))
    ensures err.Some? ==> r == (Failure, NoResult)
    ensures err.None? ==> r.0 == Success && r.1 == ResultOf(out)
  {
    if err.Some? then (Failure, NoResult) else (Success, ResultOf(out))
  }

  /**
   * Backs up a volume and writes the outcome into the session with the
   * BackupSession writer, whose error is not looked at; the backup's error is
   * returned.
   */
  method BackupVolume(tag: string, paths: seq<string>, repository: string,
                      pipeErr: Option<Error>, check: Run, init: Run, output: seq<Line>, backupErr: Option<Error>,
                      bs: BackupSession, get: Fetch, targetName: string, updateErr: Option<Error>)
    returns (err: Option<Error>)
    modifies bs
    ensures err == if CheckOutcome(pipeErr, check, init).Some? then CheckOutcome(pipeErr, check, init) else backupErr
    ensures var (state, result) := VolumeStatus(err, output);
            bs.targets == if get.Fetched? && updateErr.None?
                          then PkgSession.WriteMatching(old(bs.targets), targetName,
                                 PkgBackupSession.StatusWrite(state, result.snapshotId, result.duration))
                          else old(bs.targets)
  {
    var state := Success;
    var backupArgs, out;
    backupArgs, out, err := BackupPaths(tag, paths, repository, pipeErr, check, init, output, backupErr);
    var result := NoResult;
    if err.Some? {
      state := Failure;
    } else {
      result := ParseBackupOutput(out);
    }
    var sent, updateResult := PkgBackupSession.BackupSessionUpdateStatus(bs, get, targetName, state, result.snapshotId, result.duration, updateErr);
  }

  // ----- PostgreSQL -----

  /** A .pgpass line: <host>:*:<database>:<user>:<password>, any port. */
  function PgPass(host: string, database: string, user: string, password: string): (r: string)
    ensures |r| == |host| + |database| + |user| + |password| + 5
  {
    host + ":*:" + database + ":" + user + ":" + password
  }

  /**
   * When host, database and user hold no ':', the line splits back into them,
   * the any-port field and the fields of the password.
   */
  lemma PgPassFields(host: string, database: string, user: string, password: string)
    requires ':' !in host && ':' !in database && ':' !in user
    ensures Text.Split(PgPass(host, database, user, password), ':') == [host, "*", database, user] + Text.Split(password, ':')
  {
    var p4 := user + [':'] + password;
    var p3 := database + [':'] + p4;
    var p2 := "*" + [':'] + p3;
    var tail := Text.Split(password, ':');
    assert ':' !in "*";
    calc {
      Text.Split(PgPass(host, database, user, password), ':');
    == { PgPassParts(host, database, user, password); }
      Text.Split(host + [':'] + p2, ':');
    == { Text.SplitField(host, ':', p2); }
      [host] + Text.Split(p2, ':');
    == { Text.SplitField("*", ':', p3); }
      [host] + (["*"] + Text.Split(p3, ':'));
    == { Text.SplitField(database, ':', p4); }
      [host] + (["*"] + ([database] + Text.Split(p4, ':')));
    == { Text.SplitField(user, ':', password); }
      [host] + (["*"] + ([database] + ([user] + tail)));
    ==
      [host, "*", database, user] + tail;
    }
  }

  lemma PgPassParts(host: string, database: string, user: string, password: string)
    ensures PgPass(host, database, user, password) == host + [':'] + ("*" + [':'] + (database + [':'] + (user + [':'] + password)))
  {
  }

  /** Without ':' in any field, the line holds exactly the five fields. */
  lemma PgPassRoundTrip(host: string, database: string, user: string, password: string)
    requires ':' !in host && ':' !in database && ':' !in user && ':' !in password
    ensures Text.Split(PgPass(host, database, user, password), ':') == [host, "*", database, user, password]
  {
    PgPassFields(host, database, user, password);
    Text.SplitNoSeparator(password, ':');
  }

  /** The pg_dump arguments: a clean, creating dump of one database into a file, without a password prompt. */
  function PgDumpArgs(file: string, host: string, database: string, user: string): (r: seq<string>)
    ensures |r| == 11 && r[3] == file && r[5] == host && r[7] == database && r[9] == user
    ensures r[10] == "--no-password"
  {
    ["--clean", "--create", "--file", file, "--host", host, "--dbname", database, "--username", user, "--no-password"]
  }

  /**
   * Dumps a database: writes the .pgpass line (a failed write is returned and
   * nothing runs), then runs pg_dump and returns its error.
   */
  method BackupPostgres(file: string, host: string, database: string, user: string, password: string,
                        writeErr: Option<Error>, dumpErr: Option<Error>)
    returns (pgpass: string, dumpArgs: Option<seq<string>>, err: Option<Error>)
    ensures pgpass == PgPass(host, database, user, password)
    ensures writeErr.Some? ==> dumpArgs == None && err == writeErr
    ensures writeErr.None? ==> dumpArgs == Some(PgDumpArgs(file, host, database, user)) && err == dumpErr
  {
    pgpass := PgPass(host, database, user, password);
    if writeErr.Some? {
      return pgpass, None, writeErr;
    }
    dumpArgs := Some(PgDumpArgs(file, host, database, user));
    err := dumpErr;
  }
}
