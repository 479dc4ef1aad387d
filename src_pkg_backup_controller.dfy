/**
 * The src/pkg generation of the BackupSession reconciler, run by the sidecar
 * of a Deployment.  A BackupSession here has one state for the whole session
 * and a finalizer: a live session gets the finalizer once; a session being
 * deleted has its snapshot forgotten and the finalizer removed.  A session
 * without a state is backed up when its configuration has a Deployment
 * target named after this deployment; after a successful backup the
 * successful sessions are pruned by the configuration's retention policy.
 */
module SrcPkgBackupController {
  import opened Wrappers
  import opened Formol
  import opened Retention

  const FinalizerName := "finalizer.backupsession.formol.desmojim.fr"

  /**
   * A BackupSession of this generation as stored on the cluster.  `state` is
   * Status.BackupSessionState, None standing for the empty state; `deleting`
   * says whether the deletion timestamp is set.
   */
  class Session {
    const name: string
    const refName: string
    const snapshotId: string
    const deleting: bool
    var finalizers: seq<string>
    var state: Option<SessionState>
    var startTime: Option<int>

    constructor (name: string, refName: string, snapshotId: string, deleting: bool,
                 finalizers: seq<string>, state: Option<SessionState>, startTime: Option<int>)
      ensures this.name == name && this.refName == refName && this.snapshotId == snapshotId && this.deleting == deleting
      ensures this.finalizers == finalizers && this.state == state && this.startTime == startTime
    {
      this.name := name;
      this.refName := refName;
      this.snapshotId := snapshotId;
      this.deleting := deleting;
      this.finalizers := finalizers;
      this.state := state;
      this.startTime := startTime;
    }
  }

  /** The finalizers with `f` appended when it is not among them yet. */
  function AddFinalizer(fs: seq<string>, f: string): (r: seq<string>)
    ensures f in r
    ensures forall x :: x in r <==> x in fs || x == f
    ensures |fs| <= |r| <= |fs| + 1 && r[..|fs|] == fs
  {
    if f in fs then fs else fs + [f]
  }

  /** Appending the finalizer a second time changes nothing. */
  lemma AddFinalizerIdempotent(fs: seq<string>, f: string)
    ensures AddFinalizer(AddFinalizer(fs, f), f) == AddFinalizer(fs, f)
  {
  }

  /** The finalizers without any occurrence of `f`, the others in order. */
  function RemoveString(fs: seq<string>, f: string): (r: seq<string>)
    ensures forall x :: x in r <==> x in fs && x != f
    ensures |r| <= |fs|
    decreases |fs|
  {
    if |fs| == 0 then []
    else if fs[|fs| - 1] == f then RemoveString(fs[..|fs| - 1], f)
    else RemoveString(fs[..|fs| - 1], f) + [fs[|fs| - 1]]
  }

  /** Removing a finalizer that is not there leaves the list as it is. */
  lemma {:induction false} RemoveAbsent(fs: seq<string>, f: string)
    requires f !in fs
    ensures RemoveString(fs, f) == fs
    decreases |fs|
  {
    if |fs| > 0 {
      RemoveAbsent(fs[..|fs| - 1], f);
      assert fs[..|fs| - 1] + [fs[|fs| - 1]] == fs;
    }
  }

  /** Removing the finalizer undoes adding it to a list that did not hold it. */
  lemma RemoveAfterAdd(fs: seq<string>, f: string)
    requires f !in fs
    ensures RemoveString(AddFinalizer(fs, f), f) == fs
  {
    assert (fs + [f])[..|fs|] == fs;
    RemoveAbsent(fs, f);
  }

  /** The state a finished backup is written with: Success only when the backup returned nil. */
  function ResultState(backupErr: Option<Error>): (r: SessionState)
    ensures r == Success <==> backupErr.None?
    ensures r == Success || r == Failure
  {
    if backupErr.None? then Success else Failure
  }

  /** The first target of the configuration that is a Deployment named after this deployment. */
  function FirstDeployment(targets: seq<Target>, deploymentName: string): (r: Option<nat>)
    ensures r.Some? ==> r.value < |targets| && targets[r.value].kind == "Deployment" && targets[r.value].name == deploymentName
    ensures r.Some? ==> forall k :: 0 <= k < r.value ==> !(targets[k].kind == "Deployment" && targets[k].name == deploymentName)
    ensures r.None? <==> forall k :: 0 <= k < |targets| ==> !(targets[k].kind == "Deployment" && targets[k].name == deploymentName)
    decreases |targets|
  {
    if |targets| == 0 then None
    else if targets[0].kind == "Deployment" && targets[0].name == deploymentName then Some(0)
    else match FirstDeployment(targets[1..], deploymentName)
      case None => None
      case Some(k) => Some(k + 1)
  }

  /**
   * The outcomes of the calls a reconcile pass makes: the finalizer Update,
   * the snapshot deletion, the two status updates of the backup, the backup
   * itself, and the list of successful sessions.
   */
  datatype Effects = Effects(
    finalizerUpdateErr: Option<Error>,
    forgetErr: Option<Error>,
    runningUpdateErr: Option<Error>,
    backupErr: Option<Error>,
    listErr: Option<Error>,
    listed: seq<ListedSession>,
    finalUpdateErr: Option<Error>)

  /** Whether a backup pass reaches the pruning: the backup ran and succeeded and at least two sessions were listed. */
  predicate Prunes(e: Effects) {
    e.runningUpdateErr.None? && e.backupErr.None? && e.listErr.None? && |e.listed| >= 2
  }

  /**
   * Backs up the target: the session is set Running (a failed update is
   * returned and nothing else happens); then the backup runs from `now`, and
   * the session is finally written with Success or Failure, that update's
   * error being ignored.  After a successful backup, two or more listed
   * sessions are sorted newest first and pruned; the sessions' deletions are
   * `deleted`, indices into `sorted`, whose own errors are ignored.
   */
  method BackupDeployment(s: Session, conf: BackupConfiguration, target: Target, now: int, e: Effects)
    returns (backedUp: Option<seq<string>>, sorted: seq<ListedSession>, deleted: seq<nat>, err: Option<Error>)
    modifies s
    ensures s.finalizers == old(s.finalizers)
    ensures e.runningUpdateErr.Some? ==>
      err == e.runningUpdateErr && backedUp == None && deleted == []
      && s.state == old(s.state) && s.startTime == old(s.startTime)
    ensures e.runningUpdateErr.None? ==>
      err == e.backupErr && backedUp == Some(target.paths)
      && s.state == Some(if e.finalUpdateErr.None? then ResultState(e.backupErr) else Running)
      && s.startTime == (if e.finalUpdateErr.None? then Some(now) else old(s.startTime))
    ensures Prunes(e) ==>
      NewestFirst(sorted) && multiset(sorted) == multiset(e.listed) && deleted == Prune(sorted, conf.name, conf.keep).1
    ensures !Prunes(e) ==> deleted == []
  {
    sorted, deleted := [], [];
    if e.runningUpdateErr.Some? {
      return None, sorted, deleted, e.runningUpdateErr;
    }
    s.state := Some(Running);
    backedUp := Some(target.paths);
    var result := Failure;
    if e.backupErr.Some? {
      err := e.backupErr;
    } else {
      result := Success;
      err := None;
      if e.listErr.None? && |e.listed| >= 2 {
        var items := new ListedSession[|e.listed|](i requires 0 <= i < |e.listed| => e.listed[i]);
        assert items[..] == e.listed;
        SortNewestFirst(items);
        sorted := items[..];
        deleted := PruneSessions(items, conf.name, conf.keep);
      }
    }
    if e.finalUpdateErr.None? {
      s.state, s.startTime := Some(result), Some(now);
    }
  }

  /**
   * One reconcile pass.  A session that cannot be fetched gives the error
   * unless it is not found.  A live session gets the finalizer (a failed
   * update is returned); a session being deleted has its snapshot forgotten
   * when it holds the finalizer (a failure is returned and the finalizer
   * kept), then the finalizer removed, and the pass ends.  A session with a
   * state is skipped; otherwise the first Deployment target of the
   * configuration named after this deployment is backed up.
   */
  method Reconcile(s: Session, get: Fetch, conf: Lookup<BackupConfiguration>, deploymentName: string, now: int, e: Effects)
    returns (forgot: bool, backedUp: Option<seq<string>>, sorted: seq<ListedSession>, deleted: seq<nat>, err: Option<Error>)
    modifies s
    ensures !get.Fetched? ==>
      err == IgnoreNotFound(get) && !forgot && backedUp == None && deleted == []
      && s.finalizers == old(s.finalizers) && s.state == old(s.state) && s.startTime == old(s.startTime)
    // deletion: the snapshot is forgotten only under the finalizer; the finalizer goes when that succeeds
    ensures get.Fetched? && s.deleting ==>
      forgot == (FinalizerName in old(s.finalizers)) && backedUp == None && deleted == []
      && s.state == old(s.state) && s.startTime == old(s.startTime)
      && (if forgot && e.forgetErr.Some? then err == e.forgetErr && s.finalizers == old(s.finalizers)
          else err == e.finalizerUpdateErr
               && s.finalizers == (if err.None? then RemoveString(old(s.finalizers), FinalizerName) else old(s.finalizers)))
    ensures get.Fetched? && !s.deleting ==> !forgot
    ensures get.Fetched? && !s.deleting && FinalizerName !in old(s.finalizers) && e.finalizerUpdateErr.Some? ==>
      err == e.finalizerUpdateErr && backedUp == None && deleted == []
      && s.finalizers == old(s.finalizers) && s.state == old(s.state) && s.startTime == old(s.startTime)
    ensures get.Fetched? && !s.deleting && (FinalizerName in old(s.finalizers) || e.finalizerUpdateErr.None?) ==>
      s.finalizers == AddFinalizer(old(s.finalizers), FinalizerName)
    // a session with a state, or without a Deployment target for us, is left as it is
    ensures get.Fetched? && !s.deleting && (FinalizerName in old(s.finalizers) || e.finalizerUpdateErr.None?) &&
            (old(s.state).Some? || !conf.Found? || FirstDeployment(conf.value.targets, deploymentName).None?) ==>
      backedUp == None && deleted == [] && s.state == old(s.state) && s.startTime == old(s.startTime)
      && err == (if old(s.state).None? && conf.LookupFailed? then Some(conf.err) else None)
    ensures get.Fetched? && !s.deleting && (FinalizerName in old(s.finalizers) || e.finalizerUpdateErr.None?) &&
            old(s.state).None? && conf.Found? && FirstDeployment(conf.value.targets, deploymentName).Some? ==>
      var target := conf.value.targets[FirstDeployment(conf.value.targets, deploymentName).value];
      && (e.runningUpdateErr.Some? ==> err == e.runningUpdateErr && backedUp == None && s.state == old(s.state))
      && (e.runningUpdateErr.None? ==>
            err == e.backupErr && backedUp == Some(target.paths)
            && s.state == Some(if e.finalUpdateErr.None? then ResultState(e.backupErr) else Running))
      && (Prunes(e) ==> NewestFirst(sorted) && multiset(sorted) == multiset(e.listed)
                        && deleted == Prune(sorted, conf.value.name, conf.value.keep).1)
      && (!Prunes(e) ==> deleted == [])
  {
    forgot, backedUp, sorted, deleted := false, None, [], [];
    if !get.Fetched? {
      return forgot, backedUp, sorted, deleted, IgnoreNotFound(get);
    }
    if !s.deleting {
      if FinalizerName !in s.finalizers {
        if e.finalizerUpdateErr.Some? {
          return forgot, backedUp, sorted, deleted, e.finalizerUpdateErr;
        }
        s.finalizers := s.finalizers + [FinalizerName];
      }
    } else {
      if FinalizerName in s.finalizers {
        forgot := true;
        if e.forgetErr.Some? {
          return forgot, backedUp, sorted, deleted, e.forgetErr;
        }
      }
      if e.finalizerUpdateErr.Some? {
        return forgot, backedUp, sorted, deleted, e.finalizerUpdateErr;
      }
      s.finalizers := RemoveString(s.finalizers, FinalizerName);
      return forgot, backedUp, sorted, deleted, None;
    }
    if s.state.Some? {
      return forgot, backedUp, sorted, deleted, None;
    }
    if !conf.Found? {
      return forgot, backedUp, sorted, deleted, if conf.NotFound? then None else Some(conf.err);
    }
    var targets := conf.value.targets;
    var k := 0;
    while k < |targets|
      invariant 0 <= k <= |targets|
      invariant forall j :: 0 <= j < k ==> !(targets[j].kind == "Deployment" && targets[j].name == deploymentName)
    {
      if targets[k].kind == "Deployment" && targets[k].name == deploymentName {
        assert FirstDeployment(targets, deploymentName) == Some(k);
        backedUp, sorted, deleted, err := BackupDeployment(s, conf.value, targets[k], now, e);
        return;
      }
      k := k + 1;
    }
    err := None;
  }
}
