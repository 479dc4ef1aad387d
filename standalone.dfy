/**
 * The standalone entry points run by the restore init container and by
 * command-line calls: finishing an online restore (restore the snapshot,
 * report Waiting or Failure, remove the restore init container again),
 * creating a BackupSession, and forgetting a snapshot.
 */
module Standalone {
  import opened Wrappers
  import opened Formol
  import Session
  import Text

  const BackupSessionPrefix := "bs"

  /** The arguments of the restore: restore <snapshot> --target /. */
  function RestoreArgs(snapshotId: string): (r: seq<string>)
    ensures |r| == 4 && r[1] == snapshotId
  {
    ["restore", snapshotId, "--target", "/"]
  }

  /** The arguments that delete a snapshot: forget --prune <snapshot>. */
  function ForgetArgs(snapshotId: string): (r: seq<string>)
    ensures |r| == 3 && r[2] == snapshotId
  {
    ["forget", "--prune", snapshotId]
  }

  // ----- removing the restore init container -----

  /** The init containers without those named `restoreName`, the others in their order. */
  function WithoutRestoreContainer(cs: seq<Container>, restoreName: string): (r: seq<Container>)
    ensures forall k :: 0 <= k < |r| ==> r[k].name != restoreName
    ensures forall x :: x in r <==> x in cs && x.name != restoreName
    ensures |r| <= |cs|
    decreases |cs|
  {
    if |cs| == 0 then []
    else
      var rest := WithoutRestoreContainer(cs[..|cs| - 1], restoreName);
      if cs[|cs| - 1].name == restoreName then rest else rest + [cs[|cs| - 1]]
  }

  /** Rebuilds the init container list, skipping the restore init container. */
  method RemoveRestoreContainer(cs: seq<Container>, restoreName: string) returns (r: seq<Container>)
    ensures r == WithoutRestoreContainer(cs, restoreName)
  {
    r := [];
    var i := 0;
    while i < |cs|
      invariant 0 <= i <= |cs|
      invariant r == WithoutRestoreContainer(cs[..i], restoreName)
    {
      assert cs[..i + 1][..i] == cs[..i];
      if cs[i].name == restoreName {
        i := i + 1;
        continue;
      }
      r := r + [cs[i]];
      i := i + 1;
    }
    assert cs[..i] == cs;
  }

  /** Removing the restore container twice is removing it once. */
  lemma {:induction false} RemoveIdempotent(cs: seq<Container>, restoreName: string)
    ensures WithoutRestoreContainer(WithoutRestoreContainer(cs, restoreName), restoreName)
         == WithoutRestoreContainer(cs, restoreName)
  {
    KeepsUnnamed(WithoutRestoreContainer(cs, restoreName), restoreName);
  }

  /** A list holding no restore container is left as it is. */
  lemma {:induction false} KeepsUnnamed(cs: seq<Container>, restoreName: string)
    requires forall k :: 0 <= k < |cs| ==> cs[k].name != restoreName
    ensures WithoutRestoreContainer(cs, restoreName) == cs
    decreases |cs|
  {
    if |cs| > 0 {
      KeepsUnnamed(cs[..|cs| - 1], restoreName);
      assert cs[..|cs| - 1] + [cs[|cs| - 1]] == cs;
    }
  }

  /** Removal works piece by piece, so the kept containers stay in their order. */
  lemma {:induction false} RemoveKeepsOrder(a: seq<Container>, b: seq<Container>, restoreName: string)
    ensures WithoutRestoreContainer(a + b, restoreName)
         == WithoutRestoreContainer(a, restoreName) + WithoutRestoreContainer(b, restoreName)
    decreases |b|
  {
    if |b| == 0 {
      assert a + b == a;
    } else {
      assert (a + b)[..|a + b| - 1] == a + b[..|b| - 1];
      RemoveKeepsOrder(a, b[..|b| - 1], restoreName);
    }
  }

  // ----- StartRestore -----

  /** What StartRestore needs of the RestoreSession, or the Go code would panic. */
  predicate Defined(session: RestoreSession, targetName: string)
    reads session
  {
    FirstNamed(session.backupTargets, StatusName, targetName) < |session.targets|
  }

  /**
   * Finishes the online restore of target `targetName`: checks the repository
   * (failure: stop), fetches the RestoreSession (failure: stop), and for the
   * first backup status entry of the target restores its snapshot (`restore`
   * is how `restic restore <id> --target /` ends), records Waiting or Failure
   * at the same index of the restore status, and once that update succeeds
   * removes the restore init container from the workload's pod template.
   */
  method StartRestore(session: RestoreSession, unlockErr: Option<Error>, checkErr: Option<Error>, initErr: Option<Error>,
                      get: Fetch, targetName: string, restore: string -> Option<Error>, updateErr: Option<Error>,
                      pod: PodSpec, podGet: Fetch, podUpdateErr: Option<Error>, restoreName: string)
    returns (restoreArgs: Option<seq<string>>)
    requires Session.RepoCheckError(checkErr, initErr).None? && get.Fetched? ==> Defined(session, targetName)
    modifies session, pod
    ensures Session.RepoCheckError(checkErr, initErr).Some? || !get.Fetched?
            || FirstNamed(session.backupTargets, StatusName, targetName) == -1 ==>
      restoreArgs == None && unchanged(session) && unchanged(pod)
    ensures Session.RepoCheckError(checkErr, initErr).None? && get.Fetched?
            && FirstNamed(session.backupTargets, StatusName, targetName) >= 0 ==>
      var i := FirstNamed(session.backupTargets, StatusName, targetName);
      var id := session.backupTargets[i].snapshotId;
      var state := if restore(id).Some? then Failure else Waiting;
      && restoreArgs == Some(RestoreArgs(id))
      && session.targets == (if updateErr.None? then old(session.targets)[i := old(session.targets)[i].(state := state)]
                             else old(session.targets))
      && pod.containers == old(pod.containers)
      && pod.initContainers == (if updateErr.None? && podGet.Fetched? && podUpdateErr.None?
                                then WithoutRestoreContainer(old(pod.initContainers), restoreName)
                                else old(pod.initContainers))
  {
    var ran, err := Session.CheckRepo([], unlockErr, checkErr, initErr);
    if err.Some? {
      return None;
    }
    if !get.Fetched? {
      return None;
    }
    var backupTargets := session.backupTargets;
    var i := 0;
    while i < |backupTargets|
      invariant 0 <= i <= |backupTargets|
      invariant forall k :: 0 <= k < i ==> backupTargets[k].name != targetName
    {
      var target := backupTargets[i];
      if target.name == targetName {
        assert i == FirstNamed(backupTargets, StatusName, targetName);
        restoreArgs := Some(RestoreArgs(target.snapshotId));
        var targets := session.targets;
        if restore(target.snapshotId).Some? {
          targets := targets[i := targets[i].(state := Failure)];
        } else {
          targets := targets[i := targets[i].(state := Waiting)];
        }
        if updateErr.Some? {
          return;
        }
        session.targets := targets;
        if !podGet.Fetched? {
          return;
        }
        var initContainers := RemoveRestoreContainer(pod.initContainers, restoreName);
        if podUpdateErr.Some? {
          return;
        }
        pod.initContainers := initContainers;
        return;
      }
      i := i + 1;
    }
    return None;
  }

  // ----- CreateBackupSession -----

  /**
   * Creates a BackupSession for the configuration `ref` at Unix time `now`; a
   * failed Get of the configuration or a failed Create ends the process with
   * status 1.
   */
  function CreateBackupSession(ref: ObjectReference, confFound: bool, now: int, createErr: Option<Error>): (r: CreateOutcome)
    ensures !confFound ==> r == CreateOutcome(None, 1)
    ensures confFound ==> r.attempted.Some? && r.attempted.value.namespace == ref.namespace && r.attempted.value.ref == ref
    ensures confFound ==> (r.exitCode == 0 <==> createErr.None?)
    ensures r.attempted.Some? ==>
      var n := r.attempted.value.name;
      |n| > 4 + |ref.name| && n[..4 + |ref.name|] == "bs-" + ref.name + "-"
  {
    if !confFound then CreateOutcome(None, 1)
    else
      CreateOutcome(Some(NewBackupSession(BackupSessionName(BackupSessionPrefix, ref.name, now), ref.namespace, ref)),
                    if createErr.Some? then 1 else 0)
  }

  /** The creation time is recoverable from the created name. */
  lemma CreatedNameCarriesTime(ref: ObjectReference, now: int, createErr: Option<Error>)
    ensures var n := CreateBackupSession(ref, true, now, createErr).attempted.value.name;
            Text.ParseInt(n[4 + |ref.name|..]) == Some(now)
  {
    BackupSessionNameTime(BackupSessionPrefix, ref.name, now);
  }

  // ----- DeleteSnapshot -----

  /**
   * Forgets a snapshot of configuration `name` in `namespace`: stops when the
   * configuration or its restic environment cannot be had, else sets the
   * environment and runs forget --prune.  The outcome of that command is only
   * logged.
   */
  method DeleteSnapshot(conf: Lookup<BackupConfiguration>, repo: Lookup<Repo>, cluster: Cluster,
                        procEnv: map<string, string>, snapshotId: string)
    returns (newEnv: map<string, string>, forgetArgs: Option<seq<string>>)
    ensures !conf.Found? ==> newEnv == procEnv && forgetArgs == None
    ensures conf.Found? && !repo.Found? ==> newEnv == procEnv && forgetArgs == None
    ensures conf.Found? && repo.Found? ==>
      newEnv == Session.WithEnv(procEnv, Session.ResticEnv(repo.value, conf.value, cluster))
      && forgetArgs == Some(ForgetArgs(snapshotId))
  {
    if !conf.Found? {
      return procEnv, None;
    }
    var err;
    newEnv, err := Session.SetResticEnv(procEnv, repo, conf.value, cluster);
    if err.Some? {
      return newEnv, None;
    }
    forgetArgs := Some(ForgetArgs(snapshotId));
  }
}
