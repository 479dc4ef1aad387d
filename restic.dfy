/**
 * What every generation of the backup code shares about restic: the
 * line-delimited JSON that `restic backup --json` prints (each line taken as
 * already decoded), the "last summary wins" reading of it, and the argument
 * lists of the backup and forget commands.
 */
module Restic {
  import opened Wrappers

  /**
   * One output line: a summary message (snapshot id and total duration), a status message, a message of another type, or a line that
   * is not valid JSON.
   */
  datatype Line =
    | Summary(snapshotId: string, totalDuration: int)
    | Status
    | Other(messageType: string)
    | Undecodable

  /** The last summary line of the output, if there is one. */
  function LastSummary(lines: seq<Line>): (r: Option<Line>)
    ensures r.Some? ==> r.value.Summary? && r.value in lines
    decreases |lines|
  {
    if |lines| == 0 then None
    else if lines[|lines| - 1].Summary? then Some(lines[|lines| - 1])
    else LastSummary(lines[..|lines| - 1])
  }

  /** A summary line that no later summary line follows is the one that counts. */
  lemma {:induction false} LastSummaryIsLatest(lines: seq<Line>, j: nat)
    requires j < |lines| && lines[j].Summary?
    requires forall k :: j < k < |lines| ==> !lines[k].Summary?
    ensures LastSummary(lines) == Some(lines[j])
    decreases |lines|
  {
    if j < |lines| - 1 {
      LastSummaryIsLatest(lines[..|lines| - 1], j);
    }
  }

  /** Without a summary line there is no result. */
  lemma {:induction false} NoSummaryNoResult(lines: seq<Line>)
    requires forall k :: 0 <= k < |lines| ==> !lines[k].Summary?
    ensures LastSummary(lines) == None
    decreases |lines|
  {
    if |lines| > 0 {
      NoSummaryNoResult(lines[..|lines| - 1]);
    }
  }

  /** Lines after the last summary that are not summaries (status, other, undecodable) change nothing. */
  lemma {:induction false} TrailingNonSummaryIgnored(lines: seq<Line>, tail: seq<Line>)
    requires forall k :: 0 <= k < |tail| ==> !tail[k].Summary?
    ensures LastSummary(lines + tail) == LastSummary(lines)
    decreases |tail|
  {
    if |tail| > 0 {
      assert (lines + tail)[..|lines + tail| - 1] == lines + tail[..|tail| - 1];
      TrailingNonSummaryIgnored(lines, tail[..|tail| - 1]);
    } else {
      assert lines + tail == lines;
    }
  }

  /** The snapshot a backup produced and how long it took. */
  datatype BackupResult = BackupResult(snapshotId: string, duration: int)

  /** The zero result: no snapshot, no duration. */
  const NoResult := BackupResult("", 0)

  /** What the output of `restic backup --json` yields: the values of its last summary line, or the zero result. */
  function ResultOf(lines: seq<Line>): BackupResult {
    match LastSummary(lines)
    case None => NoResult
    case Some(l) => BackupResult(l.snapshotId, l.totalDuration)
  }

  /** The result is that of the last summary line, whatever follows it. */
  lemma ResultOfLatestSummary(lines: seq<Line>, j: nat)
    requires j < |lines| && lines[j].Summary?
    requires forall k :: j < k < |lines| ==> !lines[k].Summary?
    ensures ResultOf(lines) == BackupResult(lines[j].snapshotId, lines[j].totalDuration)
  {
    LastSummaryIsLatest(lines, j);
  }

  /** Output without a summary line yields the zero result. */
  lemma NoSummaryNoSnapshot(lines: seq<Line>)
    requires forall k :: 0 <= k < |lines| ==> !lines[k].Summary?
    ensures ResultOf(lines) == NoResult
  {
    NoSummaryNoResult(lines);
  }

  /** Reads the output line by line; a summary line overwrites the result, every other line leaves it. */
  method ParseBackupOutput(lines: seq<Line>) returns (result: BackupResult)
    ensures result == ResultOf(lines)
  {
    result := NoResult;
    var i := 0;
    while i < |lines|
      invariant 0 <= i <= |lines|
      invariant result == ResultOf(lines[..i])
    {
      assert lines[..i + 1][..i] == lines[..i];
      if lines[i].Summary? {
        result := BackupResult(lines[i].snapshotId, lines[i].totalDuration);
      }
      i := i + 1;
    }
    assert lines[..|lines|] == lines;
  }

  /** The arguments of the backup command: backup --json --tag <tag> -r <repo>, then the paths in order. */
  function BackupArgs(tag: string, repository: string, paths: seq<string>): (r: seq<string>)
    ensures |r| == 6 + |paths| && r[6..] == paths
    ensures r[3] == tag && r[5] == repository
  {
    ["backup", "--json", "--tag", tag, "-r", repository] + paths
  }

  /** The arguments that delete a snapshot from a named repository: forget -r <repo> --prune <snapshot>. */
  function ForgetArgs(repository: string, snapshotId: string): (r: seq<string>)
    ensures |r| == 5 && r[2] == repository && r[4] == snapshotId
  {
    ["forget", "-r", repository, "--prune", snapshotId]
  }
}
