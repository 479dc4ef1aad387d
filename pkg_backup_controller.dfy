/**
 * The BackupSession reconciler of the pkg generation, run inside the pod of a
 * Deployment: for every Deployment target of the configuration that names
 * this deployment, and every status entry of that name, it runs the
 * before-backup hook (New), backs up the target's paths (Running) or runs the
 * after-backup hook (Success, Failure), sending one status update per change
 * and stopping at the first update that fails.
 */
module PkgBackupController {
  import opened Wrappers
  import opened Formol
  import opened Restic

  /** What backing up a target's paths gives: the lines restic printed and how it ended. */
  datatype BackupRun = BackupRun(output: seq<Line>, err: Option<Error>)

  /**
   * The outside world of one reconcile: the before-backup hook of a target,
   * the backup of paths under a tag, and how the n-th status update ends.
   */
  datatype World = World(
    beforeHook: Target -> Option<Error>,
    backup: (string, seq<string>) -> BackupRun,
    updateErr: nat -> Option<Error>)

  /**
   * Where a reconcile stands: the local copy of the status entries, the copy
   * last stored on the cluster, the number of updates sent, the targets whose
   * after-backup hook ran, and the update error that ended it.
   */
  datatype Progress = Progress(
    local: seq<TargetStatus>,
    stored: seq<TargetStatus>,
    updates: nat,
    afterHooks: seq<string>,
    err: Option<Error>)

  predicate Consistent(p: Progress) {
    |p.stored| == |p.local|
  }

  /** Before the first entry: the local copy is the stored one. */
  function Start(targets: seq<TargetStatus>): Progress {
    Progress(targets, targets, 0, [], None)
  }

  /** Sends the local copy `local`: it is stored when the update succeeds; a failed update ends the reconcile. */
  function Sent(p: Progress, local: seq<TargetStatus>, w: World): Progress {
    var e := w.updateErr(p.updates);
    Progress(local, if e.None? then local else p.stored, p.updates + 1, p.afterHooks, e)
  }

  /** Visits status entry i for target t, backing up under `tag`. */
  function Visit(p: Progress, t: Target, i: nat, tag: string, w: World): (r: Progress)
    requires Consistent(p) && i < |p.local|
    ensures Consistent(r) && |r.local| == |p.local|
  {
    if p.err.Some? || p.local[i].name != t.name then p
    else
      var s := p.local[i];
      match s.state
      case New =>
        Sent(p, p.local[i := s.(state := if w.beforeHook(t).Some? then Failure else Running)], w)
      case Running =>
        var run := w.backup(tag, t.paths);
        var result := ResultOf(run.output);
        Sent(p, p.local[i := if run.err.Some? then s.(state := Failure)
                             else s.(state := Success, snapshotId := result.snapshotId, duration := result.duration)], w)
      case Success => p.(afterHooks := p.afterHooks + [t.name])
      case Failure => p.(afterHooks := p.afterHooks + [t.name])
      case _ => p
  }

  /** Visits the entries from i on, in order. */
  function VisitFrom(p: Progress, t: Target, i: nat, tag: string, w: World): (r: Progress)
    requires Consistent(p) && i <= |p.local|
    ensures Consistent(r) && |r.local| == |p.local|
    decreases |p.local| - i
  {
    if i == |p.local| then p else VisitFrom(Visit(p, t, i, tag, w), t, i + 1, tag, w)
  }

  /** Only a Deployment target named after this deployment is looked at. */
  function VisitTarget(p: Progress, t: Target, deploymentName: string, tag: string, w: World): (r: Progress)
    requires Consistent(p)
    ensures Consistent(r) && |r.local| == |p.local|
  {
    if t.kind == "Deployment" && t.name == deploymentName then VisitFrom(p, t, 0, tag, w) else p
  }

  /** Visits the configuration's targets in order. */
  function VisitTargets(p: Progress, ts: seq<Target>, deploymentName: string, tag: string, w: World): (r: Progress)
    requires Consistent(p)
    ensures Consistent(r) && |r.local| == |p.local|
    decreases |ts|
  {
    if |ts| == 0 then p else VisitTargets(VisitTarget(p, ts[0], deploymentName, tag, w), ts[1..], deploymentName, tag, w)
  }

  /** A reconcile ended by a failed update visits nothing more. */
  lemma {:induction false} StoppedFrom(p: Progress, t: Target, i: nat, tag: string, w: World)
    requires Consistent(p) && i <= |p.local| && p.err.Some?
    ensures VisitFrom(p, t, i, tag, w) == p
    decreases |p.local| - i
  {
    if i < |p.local| {
      StoppedFrom(p, t, i + 1, tag, w);
    }
  }

  /** A reconcile ended by a failed update visits no further target. */
  lemma {:induction false} StoppedTargets(p: Progress, ts: seq<Target>, deploymentName: string, tag: string, w: World)
    requires Consistent(p) && p.err.Some?
    ensures VisitTargets(p, ts, deploymentName, tag, w) == p
    decreases |ts|
  {
    if |ts| > 0 {
      if ts[0].kind == "Deployment" && ts[0].name == deploymentName {
        StoppedFrom(p, ts[0], 0, tag, w);
      }
      StoppedTargets(p, ts[1..], deploymentName, tag, w);
    }
  }

  /**
   * Visits entry i: the state change of the entry, with the snapshot and
   * duration of a successful backup, then a status update; the start time is
   * set on the loop's copy of the entry only.
   */
  method VisitEntry(bs: BackupSession, targets: seq<TargetStatus>, updates: nat, afterHooks: seq<string>,
                    target: Target, i: nat, now: int, w: World)
    returns (targets': seq<TargetStatus>, updates': nat, afterHooks': seq<string>, err: Option<Error>)
    requires i < |targets| == |bs.targets|
    modifies bs
    ensures Progress(targets', bs.targets, updates', afterHooks', err)
         == Visit(Progress(targets, old(bs.targets), updates, afterHooks, None), target, i, bs.name, w)
  {
    targets', updates', afterHooks', err := targets, updates, afterHooks, None;
    var status := targets[i];
    if status.name != target.name {
      return;
    }
    if status.state == New {
      var result := Running;
      if w.beforeHook(target).Some? {
        result := Failure;
      }
      targets' := targets'[i := targets'[i].(state := result)];
      err := w.updateErr(updates');
      updates' := updates' + 1;
      if err.None? {
        bs.targets := targets';
      }
    } else if status.state == Running {
      var result := Success;
      status := status.(startTime := Some(now));
      var run := w.backup(bs.name, target.paths);
      if run.err.Some? {
        result := Failure;
      } else {
        var r := ParseBackupOutput(run.output);
        targets' := targets'[i := targets'[i].(snapshotId := r.snapshotId, duration := r.duration)];
      }
      targets' := targets'[i := targets'[i].(state := result)];
      err := w.updateErr(updates');
      updates' := updates' + 1;
      if err.None? {
        bs.targets := targets';
      }
    } else if status.state == Success || status.state == Failure {
      afterHooks' := afterHooks' + [target.name];
    }
  }

  /**
   * Visits the entries of target `target` in order, as VisitFrom says,
   * stopping at the first failed update.
   */
  method VisitEntries(bs: BackupSession, targets: seq<TargetStatus>, updates: nat, afterHooks: seq<string>,
                      target: Target, now: int, w: World)
    returns (targets': seq<TargetStatus>, updates': nat, afterHooks': seq<string>, err: Option<Error>)
    requires |targets| == |bs.targets|
    modifies bs
    ensures Progress(targets', bs.targets, updates', afterHooks', err)
         == VisitFrom(Progress(targets, old(bs.targets), updates, afterHooks, None), target, 0, bs.name, w)
  {
    targets', updates', afterHooks', err := targets, updates, afterHooks, None;
    ghost var fin := VisitFrom(Progress(targets, bs.targets, updates, afterHooks, None), target, 0, bs.name, w);
    var i := 0;
    while i < |targets'|
      invariant 0 <= i <= |targets'| == |bs.targets|
      invariant err.None? && fin == VisitFrom(Progress(targets', bs.targets, updates', afterHooks', None), target, i, bs.name, w)
    {
      targets', updates', afterHooks', err := VisitEntry(bs, targets', updates', afterHooks', target, i, now, w);
      if err.Some? {
        StoppedFrom(Progress(targets', bs.targets, updates', afterHooks', err), target, i + 1, bs.name, w);
        return;
      }
      i := i + 1;
    }
  }

  /**
   * Reconciles the BackupSession `bs` for the deployment `deploymentName` at
   * Unix time `now`: a failed Get of the session or of its configuration ends
   * it (not-found is no error); otherwise the targets are visited as
   * VisitTargets says, the session is tagged by its name, and the stored
   * status and the error are those the visits end with.
   */
  method Reconcile(bs: BackupSession, get: Fetch, conf: Lookup<BackupConfiguration>, deploymentName: string,
                   now: int, w: World)
    returns (afterHooks: seq<string>, err: Option<Error>)
    modifies bs
    ensures !get.Fetched? ==> afterHooks == [] && err == IgnoreNotFound(get) && bs.targets == old(bs.targets)
    ensures get.Fetched? && !conf.Found? ==>
      afterHooks == [] && err == (if conf.NotFound? then None else Some(conf.err)) && bs.targets == old(bs.targets)
    ensures get.Fetched? && conf.Found? ==>
      var fin := VisitTargets(Start(old(bs.targets)), conf.value.targets, deploymentName, bs.name, w);
      bs.targets == fin.stored && err == fin.err && afterHooks == fin.afterHooks
  {
    if !get.Fetched? {
      return [], IgnoreNotFound(get);
    }
    if !conf.Found? {
      return [], if conf.NotFound? then None else Some(conf.err);
    }
    ghost var fin := VisitTargets(Start(bs.targets), conf.value.targets, deploymentName, bs.name, w);
    var targets := bs.targets;
    var updates := 0;
    afterHooks := [];
    var ts := conf.value.targets;
    var k := 0;
    while k < |ts|
      invariant 0 <= k <= |ts|
      invariant |targets| == |bs.targets|
      invariant fin == VisitTargets(Progress(targets, bs.targets, updates, afterHooks, None), ts[k..], deploymentName, bs.name, w)
    {
      var target := ts[k];
      assert ts[k..][1..] == ts[k + 1..];
      ghost var rest := VisitTarget(Progress(targets, bs.targets, updates, afterHooks, None), target, deploymentName, bs.name, w);
      assert fin == VisitTargets(rest, ts[k + 1..], deploymentName, bs.name, w);
      if target.kind == "Deployment" && target.name == deploymentName {
        var e;
        targets, updates, afterHooks, e := VisitEntries(bs, targets, updates, afterHooks, target, now, w);
        if e.Some? {
          StoppedTargets(Progress(targets, bs.targets, updates, afterHooks, e), ts[k + 1..], deploymentName, bs.name, w);
          return afterHooks, e;
        }
      }
      k := k + 1;
    }
    err := None;
  }

  // ----- what a reconcile keeps -----

  /**
   * How an entry may change in a reconcile: its name and start time stay;
   * only an entry of the deployment in state New or Running changes; its state
   * only moves forward; its snapshot and duration change only with Success.
   */
  predicate Kept(x: TargetStatus, y: TargetStatus, deploymentName: string) {
    && y.name == x.name
    && y.startTime == x.startTime
    && (x.name != deploymentName || (x.state != New && x.state != Running) ==> y == x)
    && Rank(y.state) >= Rank(x.state)
    && ((y.snapshotId == x.snapshotId && y.duration == x.duration) || y.state == Success)
  }

  /** Every entry of `b` is kept from the entry of `a` at its index. */
  predicate Evolved(a: seq<TargetStatus>, b: seq<TargetStatus>, deploymentName: string) {
    |a| == |b| && forall k :: 0 <= k < |a| ==> Kept(a[k], b[k], deploymentName)
  }

  lemma EvolvedTransitive(a: seq<TargetStatus>, b: seq<TargetStatus>, c: seq<TargetStatus>, deploymentName: string)
    requires Evolved(a, b, deploymentName) && Evolved(b, c, deploymentName)
    ensures Evolved(a, c, deploymentName)
  {
    forall k | 0 <= k < |a|
      ensures Kept(a[k], c[k], deploymentName)
    {
      assert Kept(a[k], b[k], deploymentName) && Kept(b[k], c[k], deploymentName);
    }
  }

  /** Both the local and the stored copy have evolved from the entries the reconcile started with. */
  predicate FromStart(init: seq<TargetStatus>, p: Progress, deploymentName: string) {
    Consistent(p) && Evolved(init, p.local, deploymentName) && Evolved(init, p.stored, deploymentName)
  }

  lemma VisitKeeps(init: seq<TargetStatus>, p: Progress, t: Target, i: nat, deploymentName: string, tag: string, w: World)
    requires FromStart(init, p, deploymentName) && i < |p.local| && t.name == deploymentName
    ensures FromStart(init, Visit(p, t, i, tag, w), deploymentName)
  {
    var r := Visit(p, t, i, tag, w);
    assert Evolved(p.local, r.local, deploymentName) by {
      forall k | 0 <= k < |p.local|
        ensures Kept(p.local[k], r.local[k], deploymentName)
      {
      }
    }
    EvolvedTransitive(init, p.local, r.local, deploymentName);
  }

  lemma {:induction false} VisitFromKeeps(init: seq<TargetStatus>, p: Progress, t: Target, i: nat, deploymentName: string, tag: string, w: World)
    requires FromStart(init, p, deploymentName) && i <= |p.local| && t.name == deploymentName
    ensures FromStart(init, VisitFrom(p, t, i, tag, w), deploymentName)
    decreases |p.local| - i
  {
    if i < |p.local| {
      VisitKeeps(init, p, t, i, deploymentName, tag, w);
      VisitFromKeeps(init, Visit(p, t, i, tag, w), t, i + 1, deploymentName, tag, w);
    }
  }

  lemma {:induction false} VisitTargetsKeeps(init: seq<TargetStatus>, p: Progress, ts: seq<Target>, deploymentName: string, tag: string, w: World)
    requires FromStart(init, p, deploymentName)
    ensures FromStart(init, VisitTargets(p, ts, deploymentName, tag, w), deploymentName)
    decreases |ts|
  {
    if |ts| > 0 {
      if ts[0].kind == "Deployment" && ts[0].name == deploymentName {
        VisitFromKeeps(init, p, ts[0], 0, deploymentName, tag, w);
      }
      VisitTargetsKeeps(init, VisitTarget(p, ts[0], deploymentName, tag, w), ts[1..], deploymentName, tag, w);
    }
  }

  /**
   * What a reconcile stores: entries of other targets are untouched, no start
   * time changes, states only move forward, entries already in another state
   * than New or Running are untouched, and snapshot and duration change only
   * along with Success.
   */
  lemma ReconcileKeeps(targets: seq<TargetStatus>, ts: seq<Target>, deploymentName: string, tag: string, w: World)
    ensures Evolved(targets, VisitTargets(Start(targets), ts, deploymentName, tag, w).stored, deploymentName)
  {
    assert Evolved(targets, targets, deploymentName);
    VisitTargetsKeeps(targets, Start(targets), ts, deploymentName, tag, w);
  }

  // ----- one entry -----

  /** New goes to Running, or to Failure when the before-backup hook fails, with one update. */
  lemma NewEntry(p: Progress, t: Target, i: nat, tag: string, w: World)
    requires Consistent(p) && i < |p.local| && p.err.None? && p.local[i].name == t.name && p.local[i].state == New
    ensures var r := Visit(p, t, i, tag, w);
            r.local == p.local[i := p.local[i].(state := if w.beforeHook(t).Some? then Failure else Running)]
            && r.updates == p.updates + 1 && r.err == w.updateErr(p.updates)
  {
  }

  /** A failed backup moves Running to Failure and leaves snapshot and duration as they were. */
  lemma FailedBackup(p: Progress, t: Target, i: nat, tag: string, w: World)
    requires Consistent(p) && i < |p.local| && p.err.None? && p.local[i].name == t.name && p.local[i].state == Running
    requires w.backup(tag, t.paths).err.Some?
    ensures Visit(p, t, i, tag, w).local == p.local[i := p.local[i].(state := Failure)]
  {
  }

  /** A successful backup moves Running to Success with the snapshot and duration of the last summary line. */
  lemma SuccessfulBackup(p: Progress, t: Target, i: nat, tag: string, w: World, j: nat)
    requires Consistent(p) && i < |p.local| && p.err.None? && p.local[i].name == t.name && p.local[i].state == Running
    requires w.backup(tag, t.paths).err.None?
    requires var out := w.backup(tag, t.paths).output;
             j < |out| && out[j].Summary? && forall k :: j < k < |out| ==> !out[k].Summary?
    ensures var out := w.backup(tag, t.paths).output;
            Visit(p, t, i, tag, w).local
            == p.local[i := p.local[i].(state := Success, snapshotId := out[j].snapshotId, duration := out[j].totalDuration)]
  {
    ResultOfLatestSummary(w.backup(tag, t.paths).output, j);
  }

  /** In Success and Failure only the after-backup hook runs: no change and no update. */
  lemma FinishedEntry(p: Progress, t: Target, i: nat, tag: string, w: World)
    requires Consistent(p) && i < |p.local| && p.err.None? && p.local[i].name == t.name && IsTerminal(p.local[i].state)
    ensures Visit(p, t, i, tag, w) == p.(afterHooks := p.afterHooks + [t.name])
  {
  }
}
