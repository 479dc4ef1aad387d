/**
 * The sidecar's RestoreSession reconciler: it finds this sidecar's target in
 * the BackupConfiguration, sets the restic environment, then moves the
 * target's restore status one step along its transition table (which depends
 * on whether the target was backed up as a Job or online) and writes the
 * status back when a new state was chosen.
 */
module RestoreController {
  import opened Wrappers
  import opened Formol
  import Session
  import RestoreInitContainer

  /**
   * The transition table: the new state of the restore status of `target`
   * (None: no change and no update).  The initialize and finalize steps decide
   * their two exits; a Job restore of `backupStatus` decides Success or
   * Failure; an online restore, whose init container reports the end itself,
   * only ever moves to Failure, when adding that container fails (`onlineErr`).
   */
  function NewState(state: SessionState, target: Target, backupStatus: TargetStatus, c: Cluster,
                    chroot: Session.Invocation -> Option<Error>,
                    restoreJob: (Target, TargetStatus) -> Option<Error>, onlineErr: Option<Error>): (r: Option<SessionState>)
    requires Session.CommandsPresent(c)
    ensures r.Some? ==> Rank(r.value) > Rank(state)
    ensures state in {Init, Initialized, Waiting, Success, Failure} ==> r.None?
    ensures state == New ==> r == Some(Initializing)
    ensures state == Initializing ==>
      r == Some(if Session.StepsError(target, Session.InitializePhase, c, chroot).Some? then Failure else Initialized)
    ensures state == Finalize ==>
      r == Some(if Session.StepsError(target, Session.FinalizePhase, c, chroot).Some? then Failure else Success)
    ensures state == Running && target.backupType == JobKind ==>
      r == Some(if restoreJob(target, backupStatus).Some? then Failure else Success)
    ensures state == Running && target.backupType == OnlineKind ==>
      r == (if onlineErr.Some? then Some(Failure) else None)
  {
    match state
    case New => Some(Initializing)
    case Initializing =>
      if Session.StepsError(target, Session.InitializePhase, c, chroot).Some? then Some(Failure) else Some(Initialized)
    case Running =>
      (match target.backupType
       case JobKind => if restoreJob(target, backupStatus).Some? then Some(Failure) else Some(Success)
       case OnlineKind => if onlineErr.Some? then Some(Failure) else None
       case SnapshotKind => None)
    case Finalize =>
      if Session.StepsError(target, Session.FinalizePhase, c, chroot).Some? then Some(Failure) else Some(Success)
    case _ => None
  }

  /** What one reconcile of the target sees: the arguments NewState reads besides the state. */
  datatype Outcomes = Outcomes(
    target: Target,
    backupStatus: TargetStatus,
    cluster: Cluster,
    chroot: Session.Invocation -> Option<Error>,
    restoreJob: (Target, TargetStatus) -> Option<Error>,
    onlineErr: Option<Error>)

  predicate CommandsPresentAll(outs: seq<Outcomes>) {
    forall k :: 0 <= k < |outs| ==> Session.CommandsPresent(outs[k].cluster)
  }

  /**
   * The state after a run of reconciles, one per element of `outs`, each
   * storing the new state NewState chooses or keeping the state when it
   * chooses none; and how many of them changed the state.
   */
  function AfterReconciles(state: SessionState, outs: seq<Outcomes>): (SessionState, nat)
    requires CommandsPresentAll(outs)
    decreases |outs|
  {
    if |outs| == 0 then (state, 0)
    else
      var o := outs[0];
      var r := NewState(state, o.target, o.backupStatus, o.cluster, o.chroot, o.restoreJob, o.onlineErr);
      var (last, changes) := AfterReconciles(if r.Some? then r.value else state, outs[1..]);
      (last, changes + if r.Some? then 1 else 0)
  }

  /**
   * A restore never goes back: over any run of reconciles every change of
   * state raises its rank, so at most 5 - Rank(state) of them change it, and a
   * finished restore is never changed again.
   */
  lemma {:induction false} RestoreIsForwardOnly(state: SessionState, outs: seq<Outcomes>)
    requires CommandsPresentAll(outs)
    ensures var (last, changes) := AfterReconciles(state, outs);
            Rank(last) >= Rank(state) + changes && changes <= 5 - Rank(state)
    ensures IsTerminal(state) ==> AfterReconciles(state, outs) == (state, 0)
    decreases |outs|
  {
    if |outs| > 0 {
      var o := outs[0];
      var r := NewState(state, o.target, o.backupStatus, o.cluster, o.chroot, o.restoreJob, o.onlineErr);
      assert CommandsPresentAll(outs[1..]) by {
        forall k | 0 <= k < |outs[1..]| ensures Session.CommandsPresent(outs[1..][k].cluster) {
          assert outs[1..][k] == outs[k + 1];
        }
      }
      RestoreIsForwardOnly(if r.Some? then r.value else state, outs[1..]);
    }
  }

  /**
   * Runs what the state of the target calls for and chooses the new state.
   * Only the online restore of a Running target touches the workload's pod template.
   */
  method ChooseState(state: SessionState, target: Target, backupStatus: TargetStatus, cluster: Cluster,
                     chroot: Session.Invocation -> Option<Error>, restoreJob: (Target, TargetStatus) -> Option<Error>,
                     pod: PodSpec, podGet: Fetch, repo: Lookup<Repo>, conf: BackupConfiguration,
                     sidecarName: string, restoreName: string, sessionName: string, sessionNamespace: string,
                     podUpdateErr: Option<Error>)
    returns (next: Option<SessionState>)
    requires Session.CommandsPresent(cluster) && repo.Found?
    modifies pod
    ensures next == NewState(state, target, backupStatus, cluster, chroot, restoreJob,
                             RestoreInitContainer.Outcome(podGet, repo, podUpdateErr))
    ensures state == Running && target.backupType == OnlineKind ==>
      pod.containers == old(pod.containers)
      && pod.initContainers
         == old(pod.initContainers)
            + (if RestoreInitContainer.Outcome(podGet, repo, podUpdateErr).Some? then []
               else [RestoreInitContainer.InitContainer(old(pod.containers), sidecarName, restoreName,
                       Session.ResticEnv(repo.value, conf, cluster), sessionName, sessionNamespace, target.name)])
    ensures !(state == Running && target.backupType == OnlineKind) ==> unchanged(pod)
  {
    next := None;
    match state {
      case New =>
        next := Some(Initializing);
      case Initializing =>
        var ran, e := Session.RunInitializeSteps(target, cluster, chroot);
        next := if e.Some? then Some(Failure) else Some(Initialized);
      case Running =>
        match target.backupType {
          case JobKind =>
            var e := restoreJob(target, backupStatus);
            next := if e.Some? then Some(Failure) else Some(Success);
          case OnlineKind =>
            var e := RestoreInitContainer.AddRestoreInitContainer(pod, podGet, repo, conf, cluster, sidecarName,
                       restoreName, sessionName, sessionNamespace, target.name, podUpdateErr);
            if e.Some? {
              next := Some(Failure);
            }
          case SnapshotKind =>
        }
      case Finalize =>
        var ran, e := Session.RunFinalizeSteps(target, cluster, chroot);
        next := if e.Some? then Some(Failure) else Some(Success);
      case _ =>
    }
  }

  /** What a Reconcile needs of the objects it reads, or the Go code would panic. */
  predicate Defined(session: RestoreSession, get: Fetch, conf: Lookup<BackupConfiguration>, targetName: string, repo: Lookup<Repo>)
    reads session
  {
    get.Fetched? && |session.targets| > 0 && conf.Found? ==>
      var i := FirstNamed(conf.value.targets, TargetName, targetName);
      && (i >= 0 ==> i < |session.targets| && i < |session.backupTargets|)
      && (i == -1 ==> !repo.Found?)
  }

  /**
   * One reconcile of a RestoreSession.  `get`, `conf` and `repo` are the
   * outcomes of the Gets of the session, its BackupConfiguration and Repo;
   * `procEnv` is the process environment the restic variables are set in;
   * `restoreJob` is the restore of a Job target; `pod`, `podGet`,
   * `podUpdateErr`, `sidecarName` and `restoreName` serve the online restore;
   * `updateErr` is how the status update ends.
   */
  method Reconcile(session: RestoreSession, get: Fetch, conf: Lookup<BackupConfiguration>, targetName: string,
                   repo: Lookup<Repo>, cluster: Cluster, procEnv: map<string, string>,
                   chroot: Session.Invocation -> Option<Error>, restoreJob: (Target, TargetStatus) -> Option<Error>,
                   pod: PodSpec, podGet: Fetch, sidecarName: string, restoreName: string, podUpdateErr: Option<Error>,
                   updateErr: Option<Error>)
    returns (newEnv: map<string, string>, updated: bool, err: Option<Error>)
    requires Session.CommandsPresent(cluster)
    requires Defined(session, get, conf, targetName, repo)
    modifies session, pod
    ensures !get.Fetched? ==> err == IgnoreNotFound(get)
    ensures !get.Fetched? || |old(session.targets)| == 0 || !conf.Found? ==>
      newEnv == procEnv && !updated && unchanged(session) && unchanged(pod)
    ensures get.Fetched? && |old(session.targets)| == 0 ==> err == None
    ensures get.Fetched? && |old(session.targets)| > 0 && !conf.Found? ==>
      err == (if conf.NotFound? then None else Some(conf.err))
    ensures get.Fetched? && |old(session.targets)| > 0 && conf.Found? ==>
      newEnv == Session.WithEnv(procEnv, if repo.Found? then Session.ResticEnv(repo.value, conf.value, cluster) else [])
    ensures get.Fetched? && |old(session.targets)| > 0 && conf.Found? && !repo.Found? ==>
      err == Some(LookupError(repo)) && !updated && unchanged(session) && unchanged(pod)
    ensures get.Fetched? && |old(session.targets)| > 0 && conf.Found? && repo.Found? ==>
      var i := FirstNamed(conf.value.targets, TargetName, targetName);
      var target := conf.value.targets[i];
      var state := old(session.targets)[i].state;
      var onlineErr := RestoreInitContainer.Outcome(podGet, repo, podUpdateErr);
      var next := NewState(state, target, session.backupTargets[i], cluster, chroot, restoreJob, onlineErr);
      && updated == next.Some?
      && err == (if next.Some? then updateErr else None)
      && session.targets == (if next.Some? && updateErr.None?
                             then old(session.targets)[i := old(session.targets)[i].(state := next.value)]
                             else old(session.targets))
      && (state == Running && target.backupType == OnlineKind ==>
            pod.containers == old(pod.containers)
            && pod.initContainers
               == old(pod.initContainers)
                  + (if onlineErr.Some? then []
                     else [RestoreInitContainer.InitContainer(old(pod.containers), sidecarName, restoreName,
                             Session.ResticEnv(repo.value, conf.value, cluster),
                             session.name, session.namespace, target.name)]))
      && (!(state == Running && target.backupType == OnlineKind) ==> unchanged(pod))
  {
    newEnv := procEnv;
    updated := false;
    if !get.Fetched? {
      return procEnv, false, IgnoreNotFound(get);
    }
    if |session.targets| == 0 {
      return procEnv, false, None;
    }
    if !conf.Found? {
      return procEnv, false, if conf.NotFound? then None else Some(conf.err);
    }
    var backupConf := conf.value;
    var found := -1;
    var target := Target("", "", JobKind, [], []);
    var backupStatus := TargetStatus("", New, "", None, 0);
    var i := 0;
    while i < |backupConf.targets|
      invariant 0 <= i <= |backupConf.targets|
      invariant forall k :: 0 <= k < i ==> backupConf.targets[k].name != targetName
    {
      if backupConf.targets[i].name == targetName {
        found := i;
        target := backupConf.targets[i];
        backupStatus := session.backupTargets[i];
        break;
      }
      i := i + 1;
    }
    assert found == FirstNamed(backupConf.targets, TargetName, targetName);
    var envErr;
    newEnv, envErr := Session.SetResticEnv(procEnv, repo, backupConf, cluster);
    if envErr.Some? {
      return newEnv, false, envErr;
    }
    var next := ChooseState(session.targets[found].state, target, backupStatus, cluster, chroot, restoreJob,
                            pod, podGet, repo, backupConf, sidecarName, restoreName, session.name, session.namespace,
                            podUpdateErr);
    if next.Some? {
      var targets := session.targets[found := session.targets[found].(state := next.value)];
      if updateErr.None? {
        session.targets := targets;
      }
      return newEnv, true, updateErr;
    }
    return newEnv, false, None;
  }
}
