/**
 * The backup helpers of the sidecar's older BackupSession controller: the
 * selection of its backup steps, the repository check, the backup of a list
 * of paths with the reading of restic's JSON output, and the backup of a Job
 * target (run the jobs, then back up each share path once).
 *
 * This generation describes a step by the Function it names and an optional
 * Finalize flag, and a container carries a list of jobs; the Function
 * environment and argument expansion are the ones of the Session module.
 */
module BackupHelpers {
  import opened Wrappers
  import opened Formol
  import opened Restic
  import Session

  /** A backup step: the Function to run, and whether it belongs to the finalize steps. */
  datatype BackupStep = BackupStep(name: string, finalize: Option<bool>)

  /** A target container of this generation: its share path, its steps and the Functions of its jobs. */
  datatype JobContainer = JobContainer(sharePath: string, steps: seq<BackupStep>, jobs: seq<string>)

  /**
   * Whether a step runs in the given mode: a step marked Finalize=true runs only
   * when finalizing, every other step (flag false or absent) only when initializing.
   */
  predicate Selects(initialize: bool, finalize: Option<bool>): (r: bool)
    ensures r <==> (if initialize then !IsFinalizeStep(finalize) else IsFinalizeStep(finalize))
  {
    !((initialize && finalize.Some? && finalize.value == true)
      || (!initialize && (finalize.None? || (finalize.Some? && finalize.value == false))))
  }

  /** A step marked Finalize=true. */
  predicate IsFinalizeStep(finalize: Option<bool>) {
    finalize.Some? && finalize.value
  }

  /** Each step belongs to exactly one of the two modes. */
  lemma EveryStepHasOneMode(finalize: Option<bool>)
    ensures Selects(true, finalize) != Selects(false, finalize)
  {
  }

  /** The first step of a list that the mode selects. */
  function FirstSelectedStep(steps: seq<BackupStep>, initialize: bool): (r: Option<string>)
    ensures r.Some? ==> exists k :: 0 <= k < |steps| && steps[k].name == r.value && Selects(initialize, steps[k].finalize)
                                   && forall j :: 0 <= j < k ==> !Selects(initialize, steps[j].finalize)
    ensures r.None? ==> forall k :: 0 <= k < |steps| ==> !Selects(initialize, steps[k].finalize)
    decreases |steps|
  {
    if |steps| == 0 then None
    else if Selects(initialize, steps[0].finalize) then Some(steps[0].name)
    else FirstSelectedStep(steps[1..], initialize)
  }

  /** The first step the mode selects over all containers, container after container. */
  function FirstSelected(cs: seq<JobContainer>, initialize: bool): (r: Option<string>)
    ensures r.Some? ==> exists ci :: 0 <= ci < |cs| && FirstSelectedStep(cs[ci].steps, initialize) == r
                                    && forall cj :: 0 <= cj < ci ==> FirstSelectedStep(cs[cj].steps, initialize).None?
    ensures r.None? <==> forall ci :: 0 <= ci < |cs| ==> FirstSelectedStep(cs[ci].steps, initialize).None?
    decreases |cs|
  {
    if |cs| == 0 then None
    else if FirstSelectedStep(cs[0].steps, initialize).Some? then FirstSelectedStep(cs[0].steps, initialize)
    else FirstSelected(cs[1..], initialize)
  }

  /**
   * Runs the backup steps of a mode: it returns right after the first selected
   * step, so at most one Function runs.  `ran` is the Function that ran, if any.
   */
  method RunBackupSteps(initialize: bool, cs: seq<JobContainer>, c: Cluster, chroot: Session.Invocation -> Option<Error>)
    returns (ran: Option<string>, err: Option<Error>)
    requires Session.CommandsPresent(c)
    ensures ran == FirstSelected(cs, initialize)
    ensures ran.None? ==> err == None
    ensures ran.Some? ==> err == Session.FunctionOutcome(ran.value, c, chroot)
  {
    var ci := 0;
    while ci < |cs|
      invariant 0 <= ci <= |cs|
      invariant FirstSelected(cs, initialize) == FirstSelected(cs[ci..], initialize)
    {
      var steps := cs[ci].steps;
      var si := 0;
      while si < |steps|
        invariant 0 <= si <= |steps|
        invariant FirstSelectedStep(steps, initialize) == FirstSelectedStep(steps[si..], initialize)
      {
        var step := steps[si];
        if (initialize && step.finalize.Some? && step.finalize.value == true)
          || (!initialize && (step.finalize.None? || (step.finalize.Some? && step.finalize.value == false))) {
          assert steps[si..][1..] == steps[si + 1..];
          si := si + 1;
          continue;
        }
        assert cs[ci..][0] == cs[ci];
        err := Session.RunFunction(step.name, c, chroot);
        return Some(step.name), err;
      }
      assert cs[ci..][1..] == cs[ci + 1..];
      ci := ci + 1;
    }
    return None, None;
  }

  /** Initializing runs the steps not marked Finalize=true. */
  method RunInitializeBackupSteps(cs: seq<JobContainer>, c: Cluster, chroot: Session.Invocation -> Option<Error>)
    returns (ran: Option<string>, err: Option<Error>)
    requires Session.CommandsPresent(c)
    ensures ran == FirstSelected(cs, true)
    ensures ran.None? ==> err == None
    ensures ran.Some? ==> err == Session.FunctionOutcome(ran.value, c, chroot)
  {
    ran, err := RunBackupSteps(true, cs, c, chroot);
  }

  /** Finalizing runs the steps marked Finalize=true. */
  method RunFinalizeBackupSteps(cs: seq<JobContainer>, c: Cluster, chroot: Session.Invocation -> Option<Error>)
    returns (ran: Option<string>, err: Option<Error>)
    requires Session.CommandsPresent(c)
    ensures ran == FirstSelected(cs, false)
    ensures ran.None? ==> err == None
    ensures ran.Some? ==> err == Session.FunctionOutcome(ran.value, c, chroot)
  {
    ran, err := RunBackupSteps(false, cs, c, chroot);
  }

  // ----- backing up paths -----

  /**
   * Backs up paths into the repository: checks the repository first and, when
   * that fails, returns its error and no result without running the backup.
   * `output` is what the backup command prints and `backupErr` how it ends;
   * `backupArgs` is the backup command line, when it runs.
   */
  method BackupPaths(tag: string, paths: seq<string>, repository: string,
                     unlockErr: Option<Error>, checkErr: Option<Error>, initErr: Option<Error>,
                     output: seq<Line>, backupErr: Option<Error>)
    returns (result: BackupResult, backupArgs: Option<seq<string>>, err: Option<Error>)
    ensures Session.RepoCheckError(checkErr, initErr).Some? ==>
      result == NoResult && backupArgs == None && err == Session.RepoCheckError(checkErr, initErr)
    ensures Session.RepoCheckError(checkErr, initErr).None? ==>
      result == ResultOf(output) && backupArgs == Some(BackupArgs(tag, repository, paths)) && err == backupErr
  {
    var ran;
    ran, err := Session.CheckRepo(["-r", repository], unlockErr, checkErr, initErr);
    if err.Some? {
      return NoResult, None, err;
    }
    backupArgs := Some(BackupArgs(tag, repository, paths));
    result := ParseBackupOutput(output);
    err := backupErr;
  }

  // ----- backing up a Job target -----

  /** The paths in first-occurrence order, each once. */
  function Dedup(s: seq<string>): (r: seq<string>)
    ensures forall x :: x in r <==> x in s
    decreases |s|
  {
    if |s| == 0 then []
    else
      var d := Dedup(s[..|s| - 1]);
      if s[|s| - 1] in d then d else d + [s[|s| - 1]]
  }

  predicate NoDuplicates(s: seq<string>) {
    forall i, j :: 0 <= i < j < |s| ==> s[i] != s[j]
  }

  /** The index of the first occurrence of x in s. */
  function FirstIndex(s: seq<string>, x: string): (r: nat)
    requires x in s
    ensures r < |s| && s[r] == x && x !in s[..r]
  {
    if s[0] == x then 0 else 1 + FirstIndex(s[1..], x)
  }

  lemma {:induction false} DedupNoDuplicates(s: seq<string>)
    ensures NoDuplicates(Dedup(s))
    decreases |s|
  {
    if |s| > 0 {
      DedupNoDuplicates(s[..|s| - 1]);
    }
  }

  lemma FirstIndexOfPrefix(s: seq<string>, x: string)
    requires |s| > 0 && x in s[..|s| - 1]
    ensures FirstIndex(s, x) == FirstIndex(s[..|s| - 1], x)
  {
  }

  /** The kept paths appear in the order of their first occurrences. */
  lemma {:induction false} DedupFirstOccurrenceOrder(s: seq<string>)
    ensures forall i, j :: 0 <= i < j < |Dedup(s)| ==> FirstIndex(s, Dedup(s)[i]) < FirstIndex(s, Dedup(s)[j])
    decreases |s|
  {
    if |s| > 0 {
      var p := s[..|s| - 1];
      var d := Dedup(p);
      DedupFirstOccurrenceOrder(p);
      forall x | x in d ensures FirstIndex(s, x) == FirstIndex(p, x) && FirstIndex(p, x) < |p| {
        FirstIndexOfPrefix(s, x);
      }
      var last := s[|s| - 1];
      if last !in d {
        assert last !in p;
        assert FirstIndex(s, last) == |s| - 1;
        var r := d + [last];
        assert Dedup(s) == r;
        forall i, j | 0 <= i < j < |r| ensures FirstIndex(s, r[i]) < FirstIndex(s, r[j]) {
          assert r[i] == d[i];
          if j < |d| {
            assert r[j] == d[j];
          }
        }
      }
    }
  }

  /** De-duplicating twice changes nothing. */
  lemma {:induction false} DedupIdempotent(s: seq<string>)
    ensures Dedup(Dedup(s)) == Dedup(s)
  {
    DedupNoDuplicates(s);
    DedupOfDistinct(Dedup(s));
  }

  /** A list without duplicates is kept as it is. */
  lemma {:induction false} DedupOfDistinct(s: seq<string>)
    requires NoDuplicates(s)
    ensures Dedup(s) == s
    decreases |s|
  {
    if |s| > 0 {
      var p := s[..|s| - 1];
      DedupOfDistinct(p);
      assert s[|s| - 1] !in p;
      assert p + [s[|s| - 1]] == s;
    }
  }

  /** The share paths of the containers, in container order. */
  function SharePaths(cs: seq<JobContainer>): (r: seq<string>)
    ensures |r| == |cs| && forall i :: 0 <= i < |cs| ==> r[i] == cs[i].sharePath
  {
    seq(|cs|, i requires 0 <= i < |cs| => cs[i].sharePath)
  }

  /** The jobs of all containers, container after container. */
  function AllJobs(cs: seq<JobContainer>): seq<string>
    decreases |cs|
  {
    if |cs| == 0 then [] else AllJobs(cs[..|cs| - 1]) + cs[|cs| - 1].jobs
  }

  /** Appends a path unless it is already in the list (the addPath scan). */
  method AddPath(paths: seq<string>, path: string) returns (r: seq<string>)
    ensures r == if path in paths then paths else paths + [path]
  {
    var addPath := true;
    var i := 0;
    while i < |paths|
      invariant 0 <= i <= |paths|
      invariant addPath <==> path !in paths[..i]
    {
      assert paths[..i + 1] == paths[..i] + [paths[i]];
      if paths[i] == path {
        addPath := false;
      }
      i := i + 1;
    }
    assert paths[..|paths|] == paths;
    r := paths;
    if addPath {
      r := paths + [path];
    }
  }

  lemma {:induction false} FirstErrorSplit(p: seq<string>, q: seq<string>, c: Cluster, chroot: Session.Invocation -> Option<Error>)
    requires Session.CommandsPresent(c)
    requires Session.FirstError(p, c, chroot).None?
    ensures Session.FirstError(p + q, c, chroot) == Session.FirstError(q, c, chroot)
    decreases |p|
  {
    if |p| > 0 {
      assert (p + q)[1..] == p[1..] + q;
      FirstErrorSplit(p[1..], q, c, chroot);
    } else {
      assert p + q == q;
    }
  }

  lemma FirstErrorLast(p: seq<string>, name: string, c: Cluster, chroot: Session.Invocation -> Option<Error>)
    requires Session.CommandsPresent(c)
    requires Session.FirstError(p, c, chroot).None?
    ensures Session.FirstError(p + [name], c, chroot) == Session.FunctionOutcome(name, c, chroot)
  {
    FirstErrorSplit(p, [name], c, chroot);
  }

  /** Runs jobs in order, stopping at the first that fails. */
  method RunJobs(jobs: seq<string>, c: Cluster, chroot: Session.Invocation -> Option<Error>) returns (err: Option<Error>)
    requires Session.CommandsPresent(c)
    ensures err == Session.FirstError(jobs, c, chroot)
  {
    var i := 0;
    while i < |jobs|
      invariant 0 <= i <= |jobs|
      invariant Session.FirstError(jobs[..i], c, chroot).None?
    {
      var e := Session.RunFunction(jobs[i], c, chroot);
      assert jobs[..i + 1] == jobs[..i] + [jobs[i]];
      FirstErrorLast(jobs[..i], jobs[i], c, chroot);
      if e.Some? {
        FirstErrorOfPrefix(jobs[..i + 1], jobs[i + 1..], c, chroot);
        assert jobs[..i + 1] + jobs[i + 1..] == jobs;
        return e;
      }
      i := i + 1;
    }
    assert jobs[..i] == jobs;
    return None;
  }

  /**
   * Backs up a Job target: runs every container's jobs in order (the first
   * failure aborts with that error, no result and no backup), collects each
   * share path once, then backs the paths up.
   */
  method BackupJob(tag: string, cs: seq<JobContainer>, c: Cluster, chroot: Session.Invocation -> Option<Error>,
                   repository: string, unlockErr: Option<Error>, checkErr: Option<Error>, initErr: Option<Error>,
                   output: seq<Line>, backupErr: Option<Error>)
    returns (result: BackupResult, backupArgs: Option<seq<string>>, err: Option<Error>)
    requires Session.CommandsPresent(c)
    ensures Session.FirstError(AllJobs(cs), c, chroot).Some? ==>
      result == NoResult && backupArgs == None && err == Session.FirstError(AllJobs(cs), c, chroot)
    ensures Session.FirstError(AllJobs(cs), c, chroot).None? && Session.RepoCheckError(checkErr, initErr).Some? ==>
      result == NoResult && backupArgs == None && err == Session.RepoCheckError(checkErr, initErr)
    ensures Session.FirstError(AllJobs(cs), c, chroot).None? && Session.RepoCheckError(checkErr, initErr).None? ==>
      && result == ResultOf(output) && err == backupErr
      && backupArgs == Some(BackupArgs(tag, repository, Dedup(SharePaths(cs))))
  {
    var paths: seq<string> := [];
    var ci := 0;
    while ci < |cs|
      invariant 0 <= ci <= |cs|
      invariant Session.FirstError(AllJobs(cs[..ci]), c, chroot).None?
      invariant paths == Dedup(SharePaths(cs[..ci]))
    {
      assert cs[..ci + 1][..ci] == cs[..ci];
      var e := RunJobs(cs[ci].jobs, c, chroot);
      FirstErrorSplit(AllJobs(cs[..ci]), cs[ci].jobs, c, chroot);
      if e.Some? {
        JobsErrorPrefix(cs, ci + 1, c, chroot);
        return NoResult, None, e;
      }
      assert SharePaths(cs[..ci + 1]) == SharePaths(cs[..ci]) + [cs[ci].sharePath];
      assert SharePaths(cs[..ci + 1])[..ci] == SharePaths(cs[..ci]);
      paths := AddPath(paths, cs[ci].sharePath);
      ci := ci + 1;
    }
    assert cs[..ci] == cs;
    result, backupArgs, err := BackupPaths(tag, paths, repository, unlockErr, checkErr, initErr, output, backupErr);
  }

  /** When the jobs of the first containers already fail, the later ones do not matter. */
  lemma JobsErrorPrefix(cs: seq<JobContainer>, i: nat, c: Cluster, chroot: Session.Invocation -> Option<Error>)
    requires Session.CommandsPresent(c)
    requires i <= |cs|
    requires Session.FirstError(AllJobs(cs[..i]), c, chroot).Some?
    ensures Session.FirstError(AllJobs(cs), c, chroot) == Session.FirstError(AllJobs(cs[..i]), c, chroot)
  {
    var p := AllJobs(cs[..i]);
    var all := AllJobs(cs);
    AllJobsPrefixOf(cs, i);
    var q := all[|p|..];
    assert all == p + q;
    FirstErrorOfPrefix(p, q, c, chroot);
  }

  lemma {:induction false} AllJobsPrefixOf(cs: seq<JobContainer>, i: nat)
    requires i <= |cs|
    ensures Session.IsPrefix(AllJobs(cs[..i]), AllJobs(cs))
    decreases |cs| - i
  {
    if i < |cs| {
      AllJobsPrefixOf(cs, i + 1);
      assert cs[..i + 1][..i] == cs[..i];
    } else {
      assert cs[..i] == cs;
    }
  }

  /** Once a prefix has a failing Function, what follows does not matter. */
  lemma {:induction false} FirstErrorOfPrefix(p: seq<string>, q: seq<string>, c: Cluster, chroot: Session.Invocation -> Option<Error>)
    requires Session.CommandsPresent(c)
    requires Session.FirstError(p, c, chroot).Some?
    ensures Session.FirstError(p + q, c, chroot) == Session.FirstError(p, c, chroot)
    decreases |p|
  {
    assert (p + q)[0] == p[0];
    if Session.FunctionOutcome(p[0], c, chroot).None? {
      assert (p + q)[1..] == p[1..] + q;
      FirstErrorOfPrefix(p[1..], q, c, chroot);
    }
  }
}
