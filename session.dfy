/**
 * The session helpers shared by the sidecar's BackupSession and
 * RestoreSession controllers: the restic environment of a configuration,
 * the repository check, the environment of a Function, the expansion of
 * $(NAME) arguments, running one Function and running the initialize or
 * finalize steps of a target.
 *
 * Running a command inside the target container's root filesystem (the walk
 * over /proc and the chroot) is outside the model: it is the parameter
 * `chroot`, which maps the command and its arguments to the error it ends with.
 */
module Session {
  import opened Wrappers
  import opened Formol

  /** The credentials read from the repository Secret, in the order they are appended. */
  const CredentialKeys: seq<string> := ["AWS_ACCESS_KEY_ID", "AWS_SECRET_ACCESS_KEY", "RESTIC_PASSWORD"]

  /** What restic is told about the repository of a configuration backed by S3. */
  predicate IsResticEnv(envs: seq<EnvVar>, s3: S3Backend, secret: map<string, string>, conf: BackupConfiguration) {
    && |envs| == 4
    && envs[0] == EnvVar("RESTIC_REPOSITORY", RepositoryUrl(s3, conf.namespace, conf.name), None)
    && forall k :: 1 <= k < 4 ==> envs[k] == EnvVar(CredentialKeys[k - 1], ValueOf(secret, CredentialKeys[k - 1]), None)
  }

  /** The restic environment of a configuration whose Repo is `r`: four variables with an S3 backend, none otherwise. */
  function ResticEnv(r: Repo, conf: BackupConfiguration, cluster: Cluster): (envs: seq<EnvVar>)
    ensures r.s3.None? ==> envs == []
    ensures r.s3.Some? ==> IsResticEnv(envs, r.s3.value, SecretData(cluster, r.repositorySecrets), conf)
  {
    if r.s3.None? then []
    else
      var data := SecretData(cluster, r.repositorySecrets);
      [EnvVar("RESTIC_REPOSITORY", RepositoryUrl(r.s3.value, conf.namespace, conf.name), None),
       EnvVar("AWS_ACCESS_KEY_ID", ValueOf(data, "AWS_ACCESS_KEY_ID"), None),
       EnvVar("AWS_SECRET_ACCESS_KEY", ValueOf(data, "AWS_SECRET_ACCESS_KEY"), None),
       EnvVar("RESTIC_PASSWORD", ValueOf(data, "RESTIC_PASSWORD"), None)]
  }

  /**
   * Builds the restic environment of a configuration by appending one variable
   * at a time.  `repo` is the outcome of the Get of the configuration's Repo in
   * the configuration's namespace.
   */
  method GetResticEnv(repo: Lookup<Repo>, conf: BackupConfiguration, cluster: Cluster)
    returns (envs: seq<EnvVar>, err: Option<Error>)
    ensures !repo.Found? ==> envs == [] && err == Some(LookupError(repo))
    ensures repo.Found? ==> err == None && envs == ResticEnv(repo.value, conf, cluster)
  {
    envs := [];
    if !repo.Found? {
      return [], Some(LookupError(repo));
    }
    err := None;
    var r := repo.value;
    if r.s3.Some? {
      envs := envs + [EnvVar("RESTIC_REPOSITORY", RepositoryUrl(r.s3.value, conf.namespace, conf.name), None)];
      var data := SecretData(cluster, r.repositorySecrets);
      envs := envs + [EnvVar("AWS_ACCESS_KEY_ID", ValueOf(data, "AWS_ACCESS_KEY_ID"), None)];
      envs := envs + [EnvVar("AWS_SECRET_ACCESS_KEY", ValueOf(data, "AWS_SECRET_ACCESS_KEY"), None)];
      envs := envs + [EnvVar("RESTIC_PASSWORD", ValueOf(data, "RESTIC_PASSWORD"), None)];
    }
  }

  /** The process environment after setting each variable in turn (a later one wins). */
  function WithEnv(procEnv: map<string, string>, envs: seq<EnvVar>): map<string, string>
    decreases |envs|
  {
    if |envs| == 0 then procEnv
    else WithEnv(procEnv, envs[..|envs| - 1])[envs[|envs| - 1].name := envs[|envs| - 1].value]
  }

  /**
   * Sets the restic environment in the process environment; the variables are
   * set even when the lookup failed (there are none then) and its error is returned.
   */
  method SetResticEnv(procEnv: map<string, string>, repo: Lookup<Repo>, conf: BackupConfiguration, cluster: Cluster)
    returns (newEnv: map<string, string>, err: Option<Error>)
    ensures err.Some? <==> !repo.Found?
    ensures !repo.Found? ==> err == Some(LookupError(repo))
    ensures newEnv == WithEnv(procEnv, if repo.Found? then ResticEnv(repo.value, conf, cluster) else [])
    ensures !repo.Found? || repo.value.s3.None? ==> newEnv == procEnv
    ensures repo.Found? && repo.value.s3.Some? ==>
      && newEnv.Keys == procEnv.Keys + {"RESTIC_REPOSITORY", "AWS_ACCESS_KEY_ID", "AWS_SECRET_ACCESS_KEY", "RESTIC_PASSWORD"}
      && newEnv["RESTIC_REPOSITORY"] == RepositoryUrl(repo.value.s3.value, conf.namespace, conf.name)
      && newEnv["RESTIC_PASSWORD"] == ValueOf(SecretData(cluster, repo.value.repositorySecrets), "RESTIC_PASSWORD")
  {
    var envs;
    envs, err := GetResticEnv(repo, conf, cluster);
    newEnv := procEnv;
    var i := 0;
    while i < |envs|
      invariant 0 <= i <= |envs|
      invariant newEnv == WithEnv(procEnv, envs[..i])
    {
      newEnv := newEnv[envs[i].name := envs[i].value];
      assert envs[..i + 1][..i] == envs[..i];
      i := i + 1;
    }
    assert envs[..|envs|] == envs;
    if repo.Found? && repo.value.s3.Some? {
      ResticEnvSet(procEnv, envs, repo.value.s3.value, SecretData(cluster, repo.value.repositorySecrets), conf);
    }
  }

  /**
   * Setting the four restic variables adds exactly their names to the process
   * environment, with the repository URL and the password as values.
   */
  lemma ResticEnvSet(procEnv: map<string, string>, envs: seq<EnvVar>, s3: S3Backend, secret: map<string, string>,
                     conf: BackupConfiguration)
    requires IsResticEnv(envs, s3, secret, conf)
    ensures var m := WithEnv(procEnv, envs);
            && m.Keys == procEnv.Keys + {"RESTIC_REPOSITORY", "AWS_ACCESS_KEY_ID", "AWS_SECRET_ACCESS_KEY", "RESTIC_PASSWORD"}
            && m["RESTIC_REPOSITORY"] == RepositoryUrl(s3, conf.namespace, conf.name)
            && m["RESTIC_PASSWORD"] == ValueOf(secret, "RESTIC_PASSWORD")
  {
    assert envs[..1][..0] == [] && envs[..2][..1] == envs[..1] && envs[..3][..2] == envs[..2] && envs[..4][..3] == envs[..3];
    assert envs[..4] == envs;
    var m1 := procEnv[envs[0].name := envs[0].value];
    assert WithEnv(procEnv, envs[..1]) == m1;
    var m2 := m1[envs[1].name := envs[1].value];
    assert WithEnv(procEnv, envs[..2]) == m2;
    var m3 := m2[envs[2].name := envs[2].value];
    assert WithEnv(procEnv, envs[..3]) == m3;
    assert WithEnv(procEnv, envs) == m3[envs[3].name := envs[3].value];
    assert envs[1].name == CredentialKeys[0] && envs[2].name == CredentialKeys[1] && envs[3].name == CredentialKeys[2];
  }

  /** How a repository check ends: nil when `check` succeeds, else the outcome of `init`. */
  function RepoCheckError(checkErr: Option<Error>, initErr: Option<Error>): (r: Option<Error>)
    ensures r.None? <==> checkErr.None? || initErr.None?
    ensures r.Some? ==> r == initErr
  {
    if checkErr.None? then None else initErr
  }

  /**
   * Checks the repository: `restic unlock` (its failure is only logged), then
   * `restic check`, and `restic init` when the check fails.  `repoArgs` are
   * the arguments naming the repository (none when it comes from the
   * environment, `-r <repo>` otherwise); the three errors are those the
   * commands end with, and `ran` lists the argument lists of the commands run.
   */
  method CheckRepo(repoArgs: seq<string>, unlockErr: Option<Error>, checkErr: Option<Error>, initErr: Option<Error>)
    returns (ran: seq<seq<string>>, err: Option<Error>)
    ensures |ran| >= 2 && ran[0] == ["unlock"] + repoArgs && ran[1] == ["check"] + repoArgs
    ensures |ran| == 3 <==> checkErr.Some?
    ensures |ran| == 3 ==> ran[2] == ["init"] + repoArgs
    ensures |ran| <= 3
    ensures err == RepoCheckError(checkErr, initErr)
  {
    ran := [["unlock"] + repoArgs];
    ran := ran + [["check"] + repoArgs];
    err := checkErr;
    if err.Some? {
      ran := ran + [["init"] + repoArgs];
      err := initErr;
    }
  }

  // ----- the environment of a Function -----

  /**
   * The value an Env entry gives its variable: the literal value, or the value
   * its ValueFrom points at, a Secret key winning over a ConfigMap key.  None
   * when a ValueFrom names neither: the variable is then left alone.
   */
  function EnvEntryValue(e: EnvVar, c: Cluster): (r: Option<string>)
    ensures r.None? <==> e.valueFrom.Some? && e.valueFrom.value.configMapKeyRef.None? && e.valueFrom.value.secretKeyRef.None?
  {
    match e.valueFrom
    case None => Some(e.value)
    case Some(src) =>
      if src.secretKeyRef.Some? then Some(ValueOf(SecretData(c, src.secretKeyRef.value.name), src.secretKeyRef.value.key))
      else if src.configMapKeyRef.Some? then Some(ValueOf(ConfigMapData(c, src.configMapKeyRef.value.name), src.configMapKeyRef.value.key))
      else None
  }

  /** The variables after applying the Env entries in order. */
  function ApplyEnv(vars: map<string, string>, envs: seq<EnvVar>, c: Cluster): map<string, string>
    decreases |envs|
  {
    if |envs| == 0 then vars
    else
      var before := ApplyEnv(vars, envs[..|envs| - 1], c);
      var e := envs[|envs| - 1];
      match EnvEntryValue(e, c)
      case Some(v) => before[e.name := v]
      case None => before
  }

  /** Applies the Env entries of a Function to `vars` (getFuncEnv). */
  method GetFuncEnv(vars: map<string, string>, envs: seq<EnvVar>, c: Cluster) returns (out: map<string, string>)
    ensures out == ApplyEnv(vars, envs, c)
  {
    out := vars;
    var i := 0;
    while i < |envs|
      invariant 0 <= i <= |envs|
      invariant out == ApplyEnv(vars, envs[..i], c)
    {
      var env := envs[i];
      if env.valueFrom.Some? {
        if env.valueFrom.value.configMapKeyRef.Some? {
          var ref := env.valueFrom.value.configMapKeyRef.value;
          out := out[env.name := ValueOf(ConfigMapData(c, ref.name), ref.key)];
        }
        if env.valueFrom.value.secretKeyRef.Some? {
          var ref := env.valueFrom.value.secretKeyRef.value;
          out := out[env.name := ValueOf(SecretData(c, ref.name), ref.key)];
        }
      } else {
        out := out[env.name := env.value];
      }
      assert envs[..i + 1][..i] == envs[..i];
      i := i + 1;
    }
    assert envs[..|envs|] == envs;
  }

  /** The last Env entry that writes a variable decides its value. */
  lemma {:induction false} ApplyEnvLastWriterWins(vars: map<string, string>, envs: seq<EnvVar>, c: Cluster, j: nat)
    requires j < |envs| && EnvEntryValue(envs[j], c).Some?
    requires forall k :: j < k < |envs| && envs[k].name == envs[j].name ==> EnvEntryValue(envs[k], c).None?
    ensures envs[j].name in ApplyEnv(vars, envs, c)
    ensures ApplyEnv(vars, envs, c)[envs[j].name] == EnvEntryValue(envs[j], c).value
    decreases |envs|
  {
    if j < |envs| - 1 {
      ApplyEnvLastWriterWins(vars, envs[..|envs| - 1], c, j);
    }
  }

  /** A variable no Env entry writes keeps what it had. */
  lemma {:induction false} ApplyEnvKeepsUnwritten(vars: map<string, string>, envs: seq<EnvVar>, c: Cluster, key: string)
    requires forall k :: 0 <= k < |envs| && envs[k].name == key ==> EnvEntryValue(envs[k], c).None?
    ensures (key in ApplyEnv(vars, envs, c)) == (key in vars)
    ensures key in vars ==> ApplyEnv(vars, envs, c)[key] == vars[key]
    decreases |envs|
  {
    if |envs| > 0 {
      ApplyEnvKeepsUnwritten(vars, envs[..|envs| - 1], c, key);
    }
  }

  /** The data an EnvFrom entry copies in: the ConfigMap's, then the Secret's over it. */
  function SourceData(src: EnvFromSource, c: Cluster): map<string, string> {
    (if src.configMapRef.Some? then ConfigMapData(c, src.configMapRef.value) else map[])
    + (if src.secretRef.Some? then SecretData(c, src.secretRef.value) else map[])
  }

  /** The variables after applying the EnvFrom entries in order. */
  function ApplyEnvFrom(vars: map<string, string>, froms: seq<EnvFromSource>, c: Cluster): map<string, string>
    decreases |froms|
  {
    if |froms| == 0 then vars
    else ApplyEnvFrom(vars, froms[..|froms| - 1], c) + SourceData(froms[|froms| - 1], c)
  }

  /** Copies every key of `data` into `vars`, in whatever order the map is ranged over. */
  method CopyData(vars: map<string, string>, data: map<string, string>) returns (out: map<string, string>)
    ensures out == vars + data
  {
    out := vars;
    var todo := data.Keys;
    while todo != {}
      invariant todo <= data.Keys
      invariant out == vars + (map k | k in data.Keys - todo :: data[k])
      decreases todo
    {
      var key :| key in todo;
      out := out[key := data[key]];
      todo := todo - {key};
    }
    assert (map k | k in data.Keys - todo :: data[k]) == data;
  }

  lemma MapUnionAssociative(a: map<string, string>, b: map<string, string>, d: map<string, string>)
    ensures a + b + d == a + (b + d)
  {
  }

  /** Copies in the data of one EnvFrom entry: its ConfigMap's, then its Secret's. */
  method CopySource(vars: map<string, string>, src: EnvFromSource, c: Cluster) returns (out: map<string, string>)
    ensures out == vars + SourceData(src, c)
  {
    ghost var cm: map<string, string> := if src.configMapRef.Some? then ConfigMapData(c, src.configMapRef.value) else map[];
    ghost var sec: map<string, string> := if src.secretRef.Some? then SecretData(c, src.secretRef.value) else map[];
    out := vars;
    if src.configMapRef.Some? {
      out := CopyData(out, ConfigMapData(c, src.configMapRef.value));
    }
    assert out == vars + cm;
    if src.secretRef.Some? {
      out := CopyData(out, SecretData(c, src.secretRef.value));
    }
    assert out == vars + cm + sec;
    MapUnionAssociative(vars, cm, sec);
  }

  /** Applies the EnvFrom entries of a Function to `vars` (getFuncEnvFrom). */
  method GetFuncEnvFrom(vars: map<string, string>, froms: seq<EnvFromSource>, c: Cluster) returns (out: map<string, string>)
    ensures out == ApplyEnvFrom(vars, froms, c)
  {
    out := vars;
    var i := 0;
    while i < |froms|
      invariant 0 <= i <= |froms|
      invariant out == ApplyEnvFrom(vars, froms[..i], c)
    {
      out := CopySource(out, froms[i], c);
      assert froms[..i + 1][..i] == froms[..i];
      i := i + 1;
    }
    assert froms[..|froms|] == froms;
  }

  /** The variables of a Function: its EnvFrom sources first, then its Env entries over them. */
  function FuncVars(f: FunctionSpec, c: Cluster): map<string, string> {
    ApplyEnv(ApplyEnvFrom(map[], f.envFrom, c), f.env, c)
  }

  method GetFuncVars(f: FunctionSpec, c: Cluster) returns (vars: map<string, string>)
    ensures vars == FuncVars(f, c)
  {
    vars := map[];
    vars := GetFuncEnvFrom(vars, f.envFrom, c);
    vars := GetFuncEnv(vars, f.env, c);
  }

  /** An explicit Env entry overrides whatever the EnvFrom sources gave the same variable. */
  lemma EnvOverridesEnvFrom(f: FunctionSpec, c: Cluster, j: nat)
    requires j < |f.env| && EnvEntryValue(f.env[j], c).Some?
    requires forall k :: j < k < |f.env| && f.env[k].name == f.env[j].name ==> EnvEntryValue(f.env[k], c).None?
    ensures f.env[j].name in FuncVars(f, c)
    ensures FuncVars(f, c)[f.env[j].name] == EnvEntryValue(f.env[j], c).value
  {
    ApplyEnvLastWriterWins(ApplyEnvFrom(map[], f.envFrom, c), f.env, c, j);
  }

  /** A variable no Env entry writes has the value the EnvFrom sources gave it. */
  lemma EnvFromWhenNoEnv(f: FunctionSpec, c: Cluster, key: string)
    requires forall k :: 0 <= k < |f.env| && f.env[k].name == key ==> EnvEntryValue(f.env[k], c).None?
    ensures (key in FuncVars(f, c)) == (key in ApplyEnvFrom(map[], f.envFrom, c))
    ensures key in FuncVars(f, c) ==> FuncVars(f, c)[key] == ApplyEnvFrom(map[], f.envFrom, c)[key]
  {
    ApplyEnvKeepsUnwritten(ApplyEnvFrom(map[], f.envFrom, c), f.env, c, key);
  }

  // ----- $(NAME) arguments -----

  /** A character of the regular-expression class \w. */
  predicate IsWordChar(ch: char) {
    ('a' <= ch <= 'z') || ('A' <= ch <= 'Z') || ('0' <= ch <= '9') || ch == '_'
  }

  predicate IsWord(s: string) {
    |s| > 0 && forall i :: 0 <= i < |s| ==> IsWordChar(s[i])
  }

  /** The variable an argument refers to when the whole argument matches ^\$\((\w+)\)$. */
  function VarRef(arg: string): (r: Option<string>)
    ensures r.Some? ==> IsWord(r.value) && arg == "$(" + r.value + ")"
  {
    if |arg| >= 4 && arg[0] == '$' && arg[1] == '(' && arg[|arg| - 1] == ')' && IsWord(arg[2..|arg| - 1])
    then Some(arg[2..|arg| - 1])
    else None
  }

  /** Every $(NAME) argument with a \w+ name is recognised, and names its variable. */
  lemma VarRefOfReference(name: string)
    requires IsWord(name)
    ensures VarRef("$(" + name + ")") == Some(name)
  {
    var arg := "$(" + name + ")";
    assert arg[2..|arg| - 1] == name;
  }

  /** An argument that is not a reference never matches: '$' and '(' are not word characters. */
  lemma VarRefRejectsNested(name: string)
    requires |name| > 0 && name[0] == '$'
    ensures VarRef("$(" + name + ")").None?
  {
    var arg := "$(" + name + ")";
    assert arg[2] == '$';
  }

  /** An argument after expansion: the variable's value (empty when unset) for a reference, unchanged otherwise. */
  function ExpandArg(arg: string, vars: map<string, string>): string {
    match VarRef(arg)
    case None => arg
    case Some(name) => ValueOf(vars, name)
  }

  /** Replaces, in place, every argument that is a $(NAME) reference by the variable's value. */
  method ExpandArgs(args: array<string>, vars: map<string, string>)
    modifies args
    ensures forall i :: 0 <= i < args.Length ==> args[i] == ExpandArg(old(args[i]), vars)
  {
    var i := 0;
    while i < args.Length
      invariant 0 <= i <= args.Length
      invariant forall k :: 0 <= k < i ==> args[k] == ExpandArg(old(args[k]), vars)
      invariant forall k :: i <= k < args.Length ==> args[k] == old(args[k])
    {
      var name := VarRef(args[i]);
      if name.Some? {
        args[i] := ValueOf(vars, name.value);
      }
      i := i + 1;
    }
  }

  // ----- running Functions -----

  /** A command run in the target container's root: the program and its arguments. */
  datatype Invocation = Invocation(command: string, args: seq<string>)

  /** Every Function has a command: its first word is the program that runs. */
  predicate CommandsPresent(c: Cluster) {
    forall n :: n in c.functions ==> |c.functions[n].command| > 0
  }

  /** The expanded arguments of a Function. */
  function ExpandedArgs(f: FunctionSpec, c: Cluster): (r: seq<string>)
    ensures |r| == |f.args|
    ensures forall i :: 0 <= i < |r| ==> r[i] == ExpandArg(f.args[i], FuncVars(f, c))
  {
    seq(|f.args|, i requires 0 <= i < |f.args| => ExpandArg(f.args[i], FuncVars(f, c)))
  }

  /** How running the named Function ends: the Get error when it is missing, else the chroot's outcome. */
  function FunctionOutcome(name: string, c: Cluster, chroot: Invocation -> Option<Error>): Option<Error>
    requires CommandsPresent(c)
  {
    if name !in c.functions then Some(Error("not found"))
    else
      var f := c.functions[name];
      chroot(Invocation(f.command[0], ExpandedArgs(f, c)))
  }

  /** Runs one Function: fetches it, builds its variables, expands its arguments and runs its first command word. */
  method RunFunction(name: string, c: Cluster, chroot: Invocation -> Option<Error>) returns (err: Option<Error>)
    requires CommandsPresent(c)
    ensures err == FunctionOutcome(name, c, chroot)
    ensures name !in c.functions ==> err == Some(Error("not found"))
  {
    if name !in c.functions {
      return Some(Error("not found"));
    }
    var f := c.functions[name];
    var vars := GetFuncVars(f, c);
    var args := new string[|f.args|](i requires 0 <= i < |f.args| => f.args[i]);
    ExpandArgs(args, vars);
    assert args[..] == ExpandedArgs(f, c);
    err := chroot(Invocation(f.command[0], args[..]));
  }

  // ----- initialize and finalize steps -----

  datatype Phase = InitializePhase | FinalizePhase

  /** The Function a step names for a phase: its Initialize field or its Finalize field. */
  function Selector(step: Step, phase: Phase): (r: Option<string>)
    ensures phase == InitializePhase ==> r == step.initialize
    ensures phase == FinalizePhase ==> r == step.finalize
  {
    match phase
    case InitializePhase => step.initialize
    case FinalizePhase => step.finalize
  }

  /** The Functions the steps name for a phase, in order. */
  function SelectedSteps(steps: seq<Step>, phase: Phase): seq<string>
    decreases |steps|
  {
    if |steps| == 0 then []
    else
      var s := Selector(steps[|steps| - 1], phase);
      SelectedSteps(steps[..|steps| - 1], phase) + (if s.Some? then [s.value] else [])
  }

  /** The Functions a phase runs over all containers of a target, container after container. */
  function Selected(cs: seq<TargetContainer>, phase: Phase): seq<string>
    decreases |cs|
  {
    if |cs| == 0 then []
    else Selected(cs[..|cs| - 1], phase) + SelectedSteps(cs[|cs| - 1].steps, phase)
  }

  /** The error of the first Function of the list that fails, if any. */
  function FirstError(names: seq<string>, c: Cluster, chroot: Invocation -> Option<Error>): Option<Error>
    requires CommandsPresent(c)
    decreases |names|
  {
    if |names| == 0 then None
    else if FunctionOutcome(names[0], c, chroot).Some? then FunctionOutcome(names[0], c, chroot)
    else FirstError(names[1..], c, chroot)
  }

  /** How the steps of a phase end for a target. */
  function StepsError(target: Target, phase: Phase, c: Cluster, chroot: Invocation -> Option<Error>): Option<Error>
    requires CommandsPresent(c)
  {
    FirstError(Selected(target.containers, phase), c, chroot)
  }

  predicate IsPrefix<T(==)>(a: seq<T>, b: seq<T>) {
    |a| <= |b| && b[..|a|] == a
  }

  /** A prefix of Functions that all succeed does not decide the first error. */
  lemma {:induction false} FirstErrorAfterSuccesses(p: seq<string>, q: seq<string>, c: Cluster, chroot: Invocation -> Option<Error>)
    requires CommandsPresent(c)
    requires forall k :: 0 <= k < |p| ==> FunctionOutcome(p[k], c, chroot).None?
    ensures FirstError(p + q, c, chroot) == FirstError(q, c, chroot)
    decreases |p|
  {
    if |p| > 0 {
      assert (p + q)[0] == p[0];
      assert (p + q)[1..] == p[1..] + q;
      FirstErrorAfterSuccesses(p[1..], q, c, chroot);
    } else {
      assert p + q == q;
    }
  }

  lemma {:induction false} SelectedStepsPrefix(steps: seq<Step>, i: nat, phase: Phase)
    requires i <= |steps|
    ensures IsPrefix(SelectedSteps(steps[..i], phase), SelectedSteps(steps, phase))
    decreases |steps| - i
  {
    if i < |steps| {
      SelectedStepsPrefix(steps, i + 1, phase);
      assert steps[..i + 1][..i] == steps[..i];
    } else {
      assert steps[..i] == steps;
    }
  }

  lemma {:induction false} SelectedPrefix(cs: seq<TargetContainer>, i: nat, phase: Phase)
    requires i <= |cs|
    ensures IsPrefix(Selected(cs[..i], phase), Selected(cs, phase))
    decreases |cs| - i
  {
    if i < |cs| {
      SelectedPrefix(cs, i + 1, phase);
      assert cs[..i + 1][..i] == cs[..i];
    } else {
      assert cs[..i] == cs;
    }
  }

  /** What has run after the first `si` steps of container `ci` is a prefix of all the phase runs. */
  lemma RunPrefix(cs: seq<TargetContainer>, ci: nat, si: nat, phase: Phase)
    requires ci < |cs| && si <= |cs[ci].steps|
    ensures IsPrefix(Selected(cs[..ci], phase) + SelectedSteps(cs[ci].steps[..si], phase), Selected(cs, phase))
  {
    SelectedStepsPrefix(cs[ci].steps, si, phase);
    assert cs[..ci + 1][..ci] == cs[..ci];
    assert Selected(cs[..ci + 1], phase) == Selected(cs[..ci], phase) + SelectedSteps(cs[ci].steps, phase);
    SelectedPrefix(cs, ci + 1, phase);
  }

  /** When the step after what has run fails, its error is the first error of the whole phase. */
  lemma FailingStep(cs: seq<TargetContainer>, ci: nat, si: nat, phase: Phase, prev: seq<string>, name: string,
                    c: Cluster, chroot: Invocation -> Option<Error>)
    requires CommandsPresent(c)
    requires ci < |cs| && si < |cs[ci].steps|
    requires prev == Selected(cs[..ci], phase) + SelectedSteps(cs[ci].steps[..si], phase)
    requires Selector(cs[ci].steps[si], phase) == Some(name)
    requires FunctionOutcome(name, c, chroot).Some?
    requires forall k :: 0 <= k < |prev| ==> FunctionOutcome(prev[k], c, chroot).None?
    ensures IsPrefix(prev + [name], Selected(cs, phase))
    ensures FirstError(Selected(cs, phase), c, chroot) == FunctionOutcome(name, c, chroot)
  {
    var steps := cs[ci].steps;
    assert steps[..si + 1][..si] == steps[..si];
    assert SelectedSteps(steps[..si + 1], phase) == SelectedSteps(steps[..si], phase) + [name];
    assert prev + [name] == Selected(cs[..ci], phase) + SelectedSteps(steps[..si + 1], phase);
    RunPrefix(cs, ci, si + 1, phase);
    FirstErrorAt(Selected(cs, phase), prev, name, c, chroot);
  }

  /** The first failing Function after a run of successes decides the first error. */
  lemma FirstErrorAt(all: seq<string>, prev: seq<string>, name: string, c: Cluster, chroot: Invocation -> Option<Error>)
    requires CommandsPresent(c)
    requires IsPrefix(prev + [name], all)
    requires forall k :: 0 <= k < |prev| ==> FunctionOutcome(prev[k], c, chroot).None?
    requires FunctionOutcome(name, c, chroot).Some?
    ensures FirstError(all, c, chroot) == FunctionOutcome(name, c, chroot)
  {
    var rest := all[|prev| + 1..];
    assert all == prev + ([name] + rest);
    FirstErrorAfterSuccesses(prev, [name] + rest, c, chroot);
    assert ([name] + rest)[0] == name;
  }

  /**
   * Runs the Functions the steps of container `ci` select, after `prev` (those
   * of the containers before it, all successful), stopping at the first
   * failure.
   */
  method RunContainerSteps(cs: seq<TargetContainer>, ci: nat, phase: Phase, c: Cluster, chroot: Invocation -> Option<Error>,
                           prev: seq<string>)
    returns (ran: seq<string>, err: Option<Error>)
    requires CommandsPresent(c) && ci < |cs|
    requires prev == Selected(cs[..ci], phase)
    requires forall k :: 0 <= k < |prev| ==> FunctionOutcome(prev[k], c, chroot).None?
    ensures err.None? ==> ran == Selected(cs[..ci + 1], phase) && forall k :: 0 <= k < |ran| ==> FunctionOutcome(ran[k], c, chroot).None?
    ensures err.Some? ==>
      && IsPrefix(ran, Selected(cs, phase)) && |ran| > 0 && err == FunctionOutcome(ran[|ran| - 1], c, chroot)
      && (forall k :: 0 <= k < |ran| - 1 ==> FunctionOutcome(ran[k], c, chroot).None?)
      && err == FirstError(Selected(cs, phase), c, chroot)
  {
    ran, err := prev, None;
    var steps := cs[ci].steps;
    var si := 0;
    while si < |steps|
      invariant 0 <= si <= |steps|
      invariant ran == prev + SelectedSteps(steps[..si], phase)
      invariant forall k :: 0 <= k < |ran| ==> FunctionOutcome(ran[k], c, chroot).None?
    {
      assert steps[..si + 1][..si] == steps[..si];
      var name := Selector(steps[si], phase);
      if name.Some? {
        var e := RunFunction(name.value, c, chroot);
        if e.Some? {
          FailingStep(cs, ci, si, phase, ran, name.value, c, chroot);
          ran := ran + [name.value];
          err := e;
          return;
        }
        ran := ran + [name.value];
      }
      si := si + 1;
    }
    assert steps[..si] == steps;
    ContainerDone(cs, ci, phase);
  }

  /** Running a whole container appends its selected steps. */
  lemma ContainerDone(cs: seq<TargetContainer>, ci: nat, phase: Phase)
    requires ci < |cs|
    ensures Selected(cs[..ci + 1], phase) == Selected(cs[..ci], phase) + SelectedSteps(cs[ci].steps, phase)
  {
    assert cs[..ci + 1][..ci] == cs[..ci];
  }

  /**
   * Runs the Functions a phase selects, container after container and step
   * after step, stopping at the first failure.  `ran` lists the Functions run.
   */
  method RunSteps(target: Target, phase: Phase, c: Cluster, chroot: Invocation -> Option<Error>)
    returns (ran: seq<string>, err: Option<Error>)
    requires CommandsPresent(c)
    ensures IsPrefix(ran, Selected(target.containers, phase))
    ensures forall k :: 0 <= k < |ran| - 1 ==> FunctionOutcome(ran[k], c, chroot).None?
    ensures err.None? ==> ran == Selected(target.containers, phase) && forall k :: 0 <= k < |ran| ==> FunctionOutcome(ran[k], c, chroot).None?
    ensures err.Some? ==> |ran| > 0 && err == FunctionOutcome(ran[|ran| - 1], c, chroot)
    ensures err == StepsError(target, phase, c, chroot)
  {
    var cs := target.containers;
    ran := [];
    err := None;
    var ci := 0;
    while ci < |cs|
      invariant 0 <= ci <= |cs|
      invariant ran == Selected(cs[..ci], phase) && err.None?
      invariant forall k :: 0 <= k < |ran| ==> FunctionOutcome(ran[k], c, chroot).None?
    {
      ran, err := RunContainerSteps(cs, ci, phase, c, chroot, ran);
      if err.Some? {
        return;
      }
      ci := ci + 1;
    }
    assert cs[..ci] == cs;
    FirstErrorAfterSuccesses(ran, [], c, chroot);
    assert ran + [] == ran;
  }

  /** Runs the Initialize steps of a target (before the backup or restore). */
  method RunInitializeSteps(target: Target, c: Cluster, chroot: Invocation -> Option<Error>)
    returns (ran: seq<string>, err: Option<Error>)
    requires CommandsPresent(c)
    ensures err.None? ==> ran == Selected(target.containers, InitializePhase)
    ensures err.Some? ==> |ran| > 0 && IsPrefix(ran, Selected(target.containers, InitializePhase))
    ensures err == StepsError(target, InitializePhase, c, chroot)
  {
    ran, err := RunSteps(target, InitializePhase, c, chroot);
  }

  /** Runs the Finalize steps of a target (after the backup or restore, whatever its result). */
  method RunFinalizeSteps(target: Target, c: Cluster, chroot: Invocation -> Option<Error>)
    returns (ran: seq<string>, err: Option<Error>)
    requires CommandsPresent(c)
    ensures err.None? ==> ran == Selected(target.containers, FinalizePhase)
    ensures err.Some? ==> |ran| > 0 && IsPrefix(ran, Selected(target.containers, FinalizePhase))
    ensures err == StepsError(target, FinalizePhase, c, chroot)
  {
    ran, err := RunSteps(target, FinalizePhase, c, chroot);
  }
}
