/**
 * The RestoreSession reconciler of the pkg generation, run inside the pod of
 * a Deployment: it visits the configuration's targets from the last to the
 * first and, for a Deployment target naming this deployment, every restore
 * status entry of that name: New runs the before hook, Running restores the
 * snapshot of the BackupSession entry at the same index, Success and Failure
 * run the after hook.  Each change is sent as one status update; a failed
 * update or a failed Repo lookup ends the reconcile.
 */
module PkgRestoreController {
  import opened Wrappers
  import opened Formol
  import opened Restic
  import PkgRestic

  /** What restoring a snapshot gives: the lines restic printed and how it ended. */
  datatype RestoreRun = RestoreRun(output: seq<Line>, err: Option<Error>)

  /**
   * The outside world of one reconcile: the before hook of a target, the
   * restore of a snapshot from a repository URL, and how the n-th status
   * update ends.
   */
  datatype World = World(
    beforeHook: Target -> Option<Error>,
    restore: (string, string) -> RestoreRun,
    updateErr: nat -> Option<Error>)

  /** What a reconcile reads besides the RestoreSession: the configuration, the BackupSession's entries and the Repo lookup. */
  datatype Sources = Sources(conf: BackupConfiguration, backupTargets: seq<TargetStatus>, repo: Lookup<Repo>)

  /**
   * Where a reconcile stands: the local copy of the restore status entries,
   * the copy last stored, the number of updates sent, the targets whose after
   * hook ran, and the error that ended it.
   */
  datatype Progress = Progress(
    local: seq<TargetStatus>,
    stored: seq<TargetStatus>,
    updates: nat,
    afterHooks: seq<string>,
    err: Option<Error>)

  predicate Consistent(p: Progress) {
    |p.stored| == |p.local|
  }

  function Start(targets: seq<TargetStatus>): Progress {
    Progress(targets, targets, 0, [], None)
  }

  function Sent(p: Progress, local: seq<TargetStatus>, w: World): Progress {
    var e := w.updateErr(p.updates);
    Progress(local, if e.None? then local else p.stored, p.updates + 1, p.afterHooks, e)
  }

  /** The repository a reconcile restores from: the configuration's repository on the Repo's S3 backend. */
  function Url(src: Sources): string
    requires src.repo.Found? && src.repo.value.s3.Some?
  {
    RepositoryUrl(src.repo.value.s3.value, src.conf.namespace, src.conf.name)
  }

  /** Visits restore status entry i for target t. */
  function Visit(p: Progress, t: Target, i: nat, src: Sources, w: World): (r: Progress)
    requires Consistent(p) && i < |p.local|
    ensures Consistent(r) && |r.local| == |p.local|
    ensures forall j :: 0 <= j < |r.local| ==> r.local[j].name == p.local[j].name
  {
    if p.err.Some? || p.local[i].name != t.name then p
    else
      var s := p.local[i];
      match s.state
      case New =>
        Sent(p, p.local[i := s.(state := if w.beforeHook(t).Some? then Failure else Running)], w)
      case Running =>
        if !src.repo.Found? then p.(err := Some(LookupError(src.repo)))
        else if src.repo.value.s3.None? then p.(err := Some(NilDereference))
        else if i >= |src.backupTargets| then p.(err := Some(IndexOutOfRange))
        else
          var run := w.restore(Url(src), src.backupTargets[i].snapshotId);
          Sent(p, p.local[i := if run.err.Some? then s.(state := Failure)
                               else s.(state := Success, duration := PkgRestic.GetRestoreResults(run.output))], w)
      case Success => p.(afterHooks := p.afterHooks + [t.name])
      case Failure => p.(afterHooks := p.afterHooks + [t.name])
      case _ => p
  }

  function VisitFrom(p: Progress, t: Target, i: nat, src: Sources, w: World): (r: Progress)
    requires Consistent(p) && i <= |p.local|
    ensures Consistent(r) && |r.local| == |p.local|
    ensures forall j :: 0 <= j < |r.local| ==> r.local[j].name == p.local[j].name
    decreases |p.local| - i
  {
    if i == |p.local| then p else VisitFrom(Visit(p, t, i, src, w), t, i + 1, src, w)
  }

  function VisitTarget(p: Progress, t: Target, deploymentName: string, src: Sources, w: World): (r: Progress)
    requires Consistent(p)
    ensures Consistent(r) && |r.local| == |p.local|
  {
    if t.kind == "Deployment" && t.name == deploymentName then VisitFrom(p, t, 0, src, w) else p
  }

  /** Visits the targets from the last to the first. */
  function VisitTargetsBackwards(p: Progress, ts: seq<Target>, deploymentName: string, src: Sources, w: World): (r: Progress)
    requires Consistent(p)
    ensures Consistent(r) && |r.local| == |p.local|
    decreases |ts|
  {
    if |ts| == 0 then p
    else VisitTargetsBackwards(VisitTarget(p, ts[|ts| - 1], deploymentName, src, w), ts[..|ts| - 1], deploymentName, src, w)
  }

  /** The last target is visited first. */
  lemma LastTargetFirst(p: Progress, ts: seq<Target>, t: Target, deploymentName: string, src: Sources, w: World)
    requires Consistent(p)
    ensures VisitTargetsBackwards(p, ts + [t], deploymentName, src, w)
         == VisitTargetsBackwards(VisitTarget(p, t, deploymentName, src, w), ts, deploymentName, src, w)
  {
    assert (ts + [t])[..|ts|] == ts;
  }

  lemma {:induction false} StoppedFrom(p: Progress, t: Target, i: nat, src: Sources, w: World)
    requires Consistent(p) && i <= |p.local| && p.err.Some?
    ensures VisitFrom(p, t, i, src, w) == p
    decreases |p.local| - i
  {
    if i < |p.local| {
      StoppedFrom(p, t, i + 1, src, w);
    }
  }

  /** A reconcile ended by an error visits no further target. */
  lemma {:induction false} StoppedTargets(p: Progress, ts: seq<Target>, deploymentName: string, src: Sources, w: World)
    requires Consistent(p) && p.err.Some?
    ensures VisitTargetsBackwards(p, ts, deploymentName, src, w) == p
    decreases |ts|
  {
    if |ts| > 0 {
      var t := ts[|ts| - 1];
      if t.kind == "Deployment" && t.name == deploymentName {
        StoppedFrom(p, t, 0, src, w);
      }
      StoppedTargets(p, ts[..|ts| - 1], deploymentName, src, w);
    }
  }

  /**
   * Visits entry i: the state change, a zero duration with a successful
   * restore, then a status update; the start time is set on the loop's copy
   * of the entry only.  A failed Repo lookup ends the reconcile unchanged.
   */
  method VisitEntry(rs: RestoreSession, targets: seq<TargetStatus>, updates: nat, afterHooks: seq<string>,
                    target: Target, i: nat, now: int, src: Sources, w: World)
    returns (targets': seq<TargetStatus>, updates': nat, afterHooks': seq<string>, err: Option<Error>)
    requires i < |targets| == |rs.targets|
    modifies rs
    ensures Progress(targets', rs.targets, updates', afterHooks', err)
         == Visit(Progress(targets, old(rs.targets), updates, afterHooks, None), target, i, src, w)
  {
    targets', updates', afterHooks', err := targets, updates, afterHooks, None;
    var status := targets[i];
    if status.name != target.name {
      return;
    }
    if status.state == New {
      var result := Running;
      if w.beforeHook(target).Some? {
        result := Failure;
      }
      targets' := targets'[i := targets'[i].(state := result)];
      err := w.updateErr(updates');
      updates' := updates' + 1;
      if err.None? {
        rs.targets := targets';
      }
    } else if status.state == Running {
      status := status.(startTime := Some(now));
      var result := Success;
      if !src.repo.Found? {
        return targets', updates', afterHooks', Some(LookupError(src.repo));
      }
      if src.repo.value.s3.None? {
        return targets', updates', afterHooks', Some(NilDereference);
      }
      if i >= |src.backupTargets| {
        return targets', updates', afterHooks', Some(IndexOutOfRange);
      }
      var url := RepositoryUrl(src.repo.value.s3.value, src.conf.namespace, src.conf.name);
      var run := w.restore(url, src.backupTargets[i].snapshotId);
      if run.err.Some? {
        result := Failure;
      } else {
        targets' := targets'[i := targets'[i].(duration := PkgRestic.GetRestoreResults(run.output))];
      }
      targets' := targets'[i := targets'[i].(state := result)];
      err := w.updateErr(updates');
      updates' := updates' + 1;
      if err.None? {
        rs.targets := targets';
      }
    } else if status.state == Success || status.state == Failure {
      afterHooks' := afterHooks' + [target.name];
    }
  }

  /**
   * Visits the entries of target `target` in order, as VisitFrom says,
   * stopping at the first error.
   */
  method VisitEntries(rs: RestoreSession, targets: seq<TargetStatus>, updates: nat, afterHooks: seq<string>,
                      target: Target, now: int, src: Sources, w: World)
    returns (targets': seq<TargetStatus>, updates': nat, afterHooks': seq<string>, err: Option<Error>)
    requires |targets| == |rs.targets|
    modifies rs
    ensures Progress(targets', rs.targets, updates', afterHooks', err)
         == VisitFrom(Progress(targets, old(rs.targets), updates, afterHooks, None), target, 0, src, w)
  {
    targets', updates', afterHooks', err := targets, updates, afterHooks, None;
    ghost var fin := VisitFrom(Progress(targets, rs.targets, updates, afterHooks, None), target, 0, src, w);
    var i := 0;
    while i < |targets'|
      invariant 0 <= i <= |targets'| == |rs.targets|
      invariant err.None? && fin == VisitFrom(Progress(targets', rs.targets, updates', afterHooks', None), target, i, src, w)
    {
      targets', updates', afterHooks', err := VisitEntry(rs, targets', updates', afterHooks', target, i, now, src, w);
      if err.Some? {
        StoppedFrom(Progress(targets', rs.targets, updates', afterHooks', err), target, i + 1, src, w);
        return;
      }
      i := i + 1;
    }
  }

  /**
   * Reconciles the RestoreSession `rs` for the deployment `deploymentName` at
   * Unix time `now`: a failed Get of the RestoreSession, of its BackupSession
   * (whose status entries are `backupSession`) or of the configuration ends it
   * (not-found is no error); otherwise the targets are visited as
   * VisitTargetsBackwards says, and the stored status and the error are those
   * the visits end with.
   */
  method Reconcile(rs: RestoreSession, get: Fetch, backupSession: Lookup<seq<TargetStatus>>,
                   conf: Lookup<BackupConfiguration>, repo: Lookup<Repo>, deploymentName: string, now: int, w: World)
    returns (afterHooks: seq<string>, err: Option<Error>)
    modifies rs
    ensures !get.Fetched? ==> afterHooks == [] && err == IgnoreNotFound(get) && rs.targets == old(rs.targets)
    ensures get.Fetched? && !backupSession.Found? ==>
      afterHooks == [] && err == (if backupSession.NotFound? then None else Some(backupSession.err))
      && rs.targets == old(rs.targets)
    ensures get.Fetched? && backupSession.Found? && !conf.Found? ==>
      afterHooks == [] && err == (if conf.NotFound? then None else Some(conf.err)) && rs.targets == old(rs.targets)
    ensures get.Fetched? && backupSession.Found? && conf.Found? ==>
      var fin := VisitTargetsBackwards(Start(old(rs.targets)), conf.value.targets, deploymentName,
                                       Sources(conf.value, backupSession.value, repo), w);
      rs.targets == fin.stored && err == fin.err && afterHooks == fin.afterHooks
  {
    if !get.Fetched? {
      return [], IgnoreNotFound(get);
    }
    if !backupSession.Found? {
      return [], if backupSession.NotFound? then None else Some(backupSession.err);
    }
    if !conf.Found? {
      return [], if conf.NotFound? then None else Some(conf.err);
    }
    var src := Sources(conf.value, backupSession.value, repo);
    ghost var fin := VisitTargetsBackwards(Start(rs.targets), conf.value.targets, deploymentName, src, w);
    var targets := rs.targets;
    var updates := 0;
    afterHooks := [];
    var ts := conf.value.targets;
    var k := |ts|;
    assert ts[..k] == ts;
    while k > 0
      invariant 0 <= k <= |ts|
      invariant |targets| == |rs.targets|
      invariant fin == VisitTargetsBackwards(Progress(targets, rs.targets, updates, afterHooks, None), ts[..k], deploymentName, src, w)
    {
      var target := ts[k - 1];
      assert ts[..k][..k - 1] == ts[..k - 1];
      ghost var rest := VisitTarget(Progress(targets, rs.targets, updates, afterHooks, None), target, deploymentName, src, w);
      assert fin == VisitTargetsBackwards(rest, ts[..k - 1], deploymentName, src, w);
      if target.kind == "Deployment" && target.name == deploymentName {
        var e;
        targets, updates, afterHooks, e := VisitEntries(rs, targets, updates, afterHooks, target, now, src, w);
        if e.Some? {
          StoppedTargets(Progress(targets, rs.targets, updates, afterHooks, e), ts[..k - 1], deploymentName, src, w);
          return afterHooks, e;
        }
      }
      k := k - 1;
    }
    err := None;
  }

  // ----- what a reconcile keeps -----

  /**
   * How a restore status entry may change: name, start time and snapshot
   * stay; only an entry of the deployment in state New or Running changes;
   * its state only moves forward; its duration changes only to the zero of a
   * successful restore.
   */
  predicate Kept(x: TargetStatus, y: TargetStatus, deploymentName: string) {
    && y.name == x.name
    && y.startTime == x.startTime
    && y.snapshotId == x.snapshotId
    && (x.name != deploymentName || (x.state != New && x.state != Running) ==> y == x)
    && Rank(y.state) >= Rank(x.state)
    && (y.duration == x.duration || (y.state == Success && y.duration == 0))
  }

  predicate Evolved(a: seq<TargetStatus>, b: seq<TargetStatus>, deploymentName: string) {
    |a| == |b| && forall k :: 0 <= k < |a| ==> Kept(a[k], b[k], deploymentName)
  }

  lemma EvolvedTransitive(a: seq<TargetStatus>, b: seq<TargetStatus>, c: seq<TargetStatus>, deploymentName: string)
    requires Evolved(a, b, deploymentName) && Evolved(b, c, deploymentName)
    ensures Evolved(a, c, deploymentName)
  {
    forall k | 0 <= k < |a|
      ensures Kept(a[k], c[k], deploymentName)
    {
      assert Kept(a[k], b[k], deploymentName) && Kept(b[k], c[k], deploymentName);
    }
  }

  predicate FromStart(init: seq<TargetStatus>, p: Progress, deploymentName: string) {
    Consistent(p) && Evolved(init, p.local, deploymentName) && Evolved(init, p.stored, deploymentName)
  }

  lemma VisitKeeps(init: seq<TargetStatus>, p: Progress, t: Target, i: nat, deploymentName: string, src: Sources, w: World)
    requires FromStart(init, p, deploymentName) && i < |p.local| && t.name == deploymentName
    ensures FromStart(init, Visit(p, t, i, src, w), deploymentName)
  {
    var r := Visit(p, t, i, src, w);
    assert Evolved(p.local, r.local, deploymentName) by {
      forall k | 0 <= k < |p.local|
        ensures Kept(p.local[k], r.local[k], deploymentName)
      {
      }
    }
    EvolvedTransitive(init, p.local, r.local, deploymentName);
  }

  lemma {:induction false} VisitFromKeeps(init: seq<TargetStatus>, p: Progress, t: Target, i: nat, deploymentName: string,
                                          src: Sources, w: World)
    requires FromStart(init, p, deploymentName) && i <= |p.local| && t.name == deploymentName
    ensures FromStart(init, VisitFrom(p, t, i, src, w), deploymentName)
    decreases |p.local| - i
  {
    if i < |p.local| {
      VisitKeeps(init, p, t, i, deploymentName, src, w);
      VisitFromKeeps(init, Visit(p, t, i, src, w), t, i + 1, deploymentName, src, w);
    }
  }

  lemma {:induction false} VisitTargetsKeeps(init: seq<TargetStatus>, p: Progress, ts: seq<Target>, deploymentName: string,
                                             src: Sources, w: World)
    requires FromStart(init, p, deploymentName)
    ensures FromStart(init, VisitTargetsBackwards(p, ts, deploymentName, src, w), deploymentName)
    decreases |ts|
  {
    if |ts| > 0 {
      var t := ts[|ts| - 1];
      if t.kind == "Deployment" && t.name == deploymentName {
        VisitFromKeeps(init, p, t, 0, deploymentName, src, w);
      }
      VisitTargetsKeeps(init, VisitTarget(p, t, deploymentName, src, w), ts[..|ts| - 1], deploymentName, src, w);
    }
  }

  /**
   * What a reconcile stores: entries of other targets are untouched, no start
   * time or snapshot changes, states only move forward, and a duration
   * changes only to zero along with Success.
   */
  lemma ReconcileKeeps(targets: seq<TargetStatus>, ts: seq<Target>, deploymentName: string, src: Sources, w: World)
    ensures Evolved(targets, VisitTargetsBackwards(Start(targets), ts, deploymentName, src, w).stored, deploymentName)
  {
    assert Evolved(targets, targets, deploymentName);
    VisitTargetsKeeps(targets, Start(targets), ts, deploymentName, src, w);
  }

  // ----- one entry -----

  /** New goes to Running, or to Failure when the before hook fails, with one update. */
  lemma NewEntry(p: Progress, t: Target, i: nat, src: Sources, w: World)
    requires Consistent(p) && i < |p.local|
    requires p.err.None? && p.local[i].name == t.name && p.local[i].state == New
    ensures var r := Visit(p, t, i, src, w);
            r.local == p.local[i := p.local[i].(state := if w.beforeHook(t).Some? then Failure else Running)]
            && r.updates == p.updates + 1 && r.err == w.updateErr(p.updates)
  {
  }

  /**
   * Running restores the snapshot of the BackupSession entry at the same
   * index from the configuration's repository: Success with a zero duration
   * when that works, Failure with the duration kept otherwise.
   */
  lemma RunningEntry(p: Progress, t: Target, i: nat, src: Sources, w: World)
    requires Consistent(p) && i < |p.local|
    requires p.err.None? && p.local[i].name == t.name && p.local[i].state == Running && src.repo.Found?
    requires src.repo.value.s3.Some? && i < |src.backupTargets|
    ensures var run := w.restore(Url(src), src.backupTargets[i].snapshotId);
            var r := Visit(p, t, i, src, w);
            r.local == p.local[i := if run.err.Some? then p.local[i].(state := Failure)
                                   else p.local[i].(state := Success, duration := 0)]
            && r.updates == p.updates + 1
  {
  }

  /** A failed Repo lookup ends the reconcile with its error before anything changes. */
  lemma RepoMissing(p: Progress, t: Target, i: nat, src: Sources, w: World)
    requires Consistent(p) && i < |p.local|
    requires p.err.None? && p.local[i].name == t.name && p.local[i].state == Running && !src.repo.Found?
    ensures Visit(p, t, i, src, w) == p.(err := Some(LookupError(src.repo)))
  {
  }

  /**
   * A found Repo without an S3 backend, or a Running entry past the end of
   * the BackupSession's entries, panics before the restore runs: the
   * reconcile ends there and nothing more is sent or stored.
   */
  lemma RunningPanics(p: Progress, t: Target, i: nat, src: Sources, w: World)
    requires Consistent(p) && i < |p.local|
    requires p.err.None? && p.local[i].name == t.name && p.local[i].state == Running && src.repo.Found?
    requires src.repo.value.s3.None? || i >= |src.backupTargets|
    ensures Visit(p, t, i, src, w) == p.(err := Some(if src.repo.value.s3.None? then NilDereference else IndexOutOfRange))
    ensures Visit(p, t, i, src, w).err.value.Panic?
  {
  }

  /** In Success and Failure only the after hook runs: no change and no update. */
  lemma FinishedEntry(p: Progress, t: Target, i: nat, src: Sources, w: World)
    requires Consistent(p) && i < |p.local|
    requires p.err.None? && p.local[i].name == t.name && IsTerminal(p.local[i].state)
    ensures Visit(p, t, i, src, w) == p.(afterHooks := p.afterHooks + [t.name])
  {
  }
}
