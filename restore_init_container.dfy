/**
 * The init container an online restore adds to the target workload: a copy of
 * the formol sidecar (or an empty container when there is none), renamed,
 * with every volume mount made writable, the restic environment appended and
 * arguments telling it to restore this RestoreSession's target.  The
 * workload's pod template gets it appended to its init containers.
 */
module RestoreInitContainer {
  import opened Wrappers
  import opened Formol
  import Session

  /** The container the init container starts from: the first sidecar, or the empty container. */
  function SidecarOf(cs: seq<Container>, sidecarName: string): Container {
    var i := FirstNamed(cs, ContainerName, sidecarName);
    if i == -1 then EmptyContainer else cs[i]
  }

  /** Finds the sidecar with a search loop that stops at the first match. */
  method FindSidecar(cs: seq<Container>, sidecarName: string) returns (c: Container)
    ensures c == SidecarOf(cs, sidecarName)
  {
    c := EmptyContainer;
    var i := 0;
    while i < |cs|
      invariant 0 <= i <= |cs|
      invariant forall k :: 0 <= k < i ==> cs[k].name != sidecarName
    {
      if cs[i].name == sidecarName {
        c := cs[i];
        return;
      }
      i := i + 1;
    }
  }

  /** The mounts with ReadOnly cleared. */
  function Writable(mounts: seq<VolumeMount>): (r: seq<VolumeMount>)
    ensures |r| == |mounts|
    ensures forall i :: 0 <= i < |r| ==> r[i] == mounts[i].(readOnly := false)
  {
    seq(|mounts|, i requires 0 <= i < |mounts| => mounts[i].(readOnly := false))
  }

  /** Clears ReadOnly on every mount, in place. */
  method MakeWritable(mounts: array<VolumeMount>)
    modifies mounts
    ensures mounts[..] == Writable(old(mounts[..]))
  {
    var i := 0;
    while i < mounts.Length
      invariant 0 <= i <= mounts.Length
      invariant forall k :: 0 <= k < i ==> mounts[k] == old(mounts[k]).(readOnly := false)
      invariant forall k :: i <= k < mounts.Length ==> mounts[k] == old(mounts[k])
    {
      mounts[i] := mounts[i].(readOnly := false);
      i := i + 1;
    }
  }

  /** The arguments of the init container: restoresession start --name <n> --namespace <ns> --target-name <t>. */
  function RestoreArgs(sessionName: string, sessionNamespace: string, targetName: string): (r: seq<string>)
    ensures |r| == 8 && r[3] == sessionName && r[5] == sessionNamespace && r[7] == targetName
  {
    ["restoresession", "start", "--name", sessionName, "--namespace", sessionNamespace, "--target-name", targetName]
  }

  /** The init container built from the pod's containers and the restic environment. */
  function InitContainer(cs: seq<Container>, sidecarName: string, restoreName: string, resticEnv: seq<EnvVar>,
                         sessionName: string, sessionNamespace: string, targetName: string): (r: Container)
    ensures r.name == restoreName
    ensures r.image == SidecarOf(cs, sidecarName).image && r.command == SidecarOf(cs, sidecarName).command
    ensures r.env == SidecarOf(cs, sidecarName).env + resticEnv
    ensures r.volumeMounts == Writable(SidecarOf(cs, sidecarName).volumeMounts)
    ensures r.args == RestoreArgs(sessionName, sessionNamespace, targetName)
  {
    var base := SidecarOf(cs, sidecarName);
    Container(restoreName, base.image, base.command, RestoreArgs(sessionName, sessionNamespace, targetName),
              base.env + resticEnv, Writable(base.volumeMounts))
  }

  /** Without a sidecar the init container carries only the restic environment and no mounts. */
  lemma NoSidecarEmptyBase(cs: seq<Container>, sidecarName: string, restoreName: string, resticEnv: seq<EnvVar>,
                           sessionName: string, sessionNamespace: string, targetName: string)
    requires forall k :: 0 <= k < |cs| ==> cs[k].name != sidecarName
    ensures var r := InitContainer(cs, sidecarName, restoreName, resticEnv, sessionName, sessionNamespace, targetName);
            r.env == resticEnv && r.volumeMounts == [] && r.image == "" && r.command == []
  {
    assert FirstNamed(cs, ContainerName, sidecarName) == -1;
  }

  /** How adding the init container ends: the Get of the workload, then the Repo lookup, then the update. */
  function Outcome(podGet: Fetch, repo: Lookup<Repo>, updateErr: Option<Error>): Option<Error> {
    if !podGet.Fetched? then Some(FetchError(podGet))
    else if !repo.Found? then Some(LookupError(repo))
    else updateErr
  }

  /**
   * Adds the restore init container to the workload whose pod template is
   * `pod` (fetched as `podGet` says), for the target `targetName` of the
   * RestoreSession `sessionName`/`sessionNamespace`.  The template is written
   * back only when every step before succeeded and the update succeeds.
   */
  method AddRestoreInitContainer(pod: PodSpec, podGet: Fetch, repo: Lookup<Repo>, conf: BackupConfiguration,
                                 cluster: Cluster, sidecarName: string, restoreName: string,
                                 sessionName: string, sessionNamespace: string, targetName: string,
                                 updateErr: Option<Error>)
    returns (err: Option<Error>)
    modifies pod
    ensures err == Outcome(podGet, repo, updateErr)
    ensures err.Some? ==> unchanged(pod)
    ensures err.None? ==>
      && pod.containers == old(pod.containers)
      && pod.initContainers == old(pod.initContainers)
         + [InitContainer(old(pod.containers), sidecarName, restoreName,
                          Session.ResticEnv(repo.value, conf, cluster), sessionName, sessionNamespace, targetName)]
  {
    if !podGet.Fetched? {
      return Some(FetchError(podGet));
    }
    var c := FindSidecar(pod.containers, sidecarName);
    var mounts := new VolumeMount[|c.volumeMounts|](i requires 0 <= i < |c.volumeMounts| => c.volumeMounts[i]);
    assert mounts[..] == c.volumeMounts;
    MakeWritable(mounts);
    var env, envErr := Session.GetResticEnv(repo, conf, cluster);
    if envErr.Some? {
      return envErr;
    }
    var initContainer := Container(restoreName, c.image, c.command,
                                   RestoreArgs(sessionName, sessionNamespace, targetName),
                                   c.env + env, mounts[..]);
    var initContainers := pod.initContainers + [initContainer];
    if updateErr.None? {
      pod.initContainers := initContainers;
    }
    err := updateErr;
  }
}
