/**
 * The custom resources and Kubernetes objects the session controllers read
 * and write, reduced to the fields the controllers touch.  Objects that a
 * controller updates in place on the cluster (sessions, pod specs) are
 * classes; objects it only reads are datatypes.
 */
module Formol {
  import opened Wrappers
  import Text

  /**
   * A Go error value (nil is modelled as None), or a runtime panic of the Go
   * code (a nil dereference, an index out of range): nothing after it runs.
   */
  datatype Error = Error(message: string) | Panic(message: string)

  /** The panic of a nil pointer dereference. */
  const NilDereference := Panic("invalid memory address or nil pointer dereference")

  /** The panic of an index past the end of a slice. */
  const IndexOutOfRange := Panic("index out of range")

  /** The phase of one target inside a BackupSession or RestoreSession. */
  datatype SessionState =
    | New | Init | Initializing | Initialized | Running | Waiting | Finalize | Success | Failure

  /** Position of a state in the lifecycle New -> Init(ializing) -> Initialized -> Running -> Waiting/Finalize -> Success/Failure. */
  function Rank(s: SessionState): nat {
    match s
    case New => 0
    case Init => 1
    case Initializing => 1
    case Initialized => 2
    case Running => 3
    case Waiting => 4
    case Finalize => 4
    case Success => 5
    case Failure => 5
  }

  predicate IsTerminal(s: SessionState) {
    s == Success || s == Failure
  }

  /**
   * One entry of Status.Targets; times are Unix seconds, durations plain
   * integers.  The start time is a pointer in the API and may be unset.
   */
  datatype TargetStatus = TargetStatus(
    name: string,
    state: SessionState,
    snapshotId: string,
    startTime: Option<int>,
    duration: int)

  /** Outcome of a client Get of an object the model holds as a class instance. */
  datatype Fetch = Fetched | FetchNotFound | FetchFailed(err: Error)

  /** Outcome of a client Get of an object the model holds as a value. */
  datatype Lookup<T> = Found(value: T) | NotFound | LookupFailed(err: Error)

  /** The error a failed lookup hands back to its caller. */
  function LookupError<T>(l: Lookup<T>): Error
    requires !l.Found?
  {
    match l
    case NotFound => Error("not found")
    case LookupFailed(e) => e
  }

  /** The error a failed Get hands back to its caller. */
  function FetchError(f: Fetch): Error
    requires !f.Fetched?
  {
    match f
    case FetchNotFound => Error("not found")
    case FetchFailed(e) => e
  }

  /** client.IgnoreNotFound applied to the outcome of a Get. */
  function IgnoreNotFound(f: Fetch): Option<Error> {
    match f
    case FetchFailed(e) => Some(e)
    case _ => None
  }

  datatype BackupType = JobKind | OnlineKind | SnapshotKind

  /** A step of a target container: the Function to run when initializing and/or finalizing. */
  datatype Step = Step(initialize: Option<string>, finalize: Option<string>)

  datatype TargetContainer = TargetContainer(name: string, sharePath: string, steps: seq<Step>)

  /** A backup target of a BackupConfiguration. */
  datatype Target = Target(
    name: string,
    kind: string,
    backupType: BackupType,
    containers: seq<TargetContainer>,
    paths: seq<string>)

  /** The retention policy of a BackupConfiguration (Keep.Last, Daily, ...), as int32 counters. */
  datatype Keep = Keep(last: int, daily: int, weekly: int, monthly: int, yearly: int)

  datatype BackupConfiguration = BackupConfiguration(
    name: string,
    namespace: string,
    repository: string,
    keep: Keep,
    targets: seq<Target>)

  datatype S3Backend = S3Backend(server: string, bucket: string)

  /** A Repo resource: the backend and the Secret holding its credentials. */
  datatype Repo = Repo(s3: Option<S3Backend>, repositorySecrets: string)

  datatype KeyRef = KeyRef(name: string, key: string)

  datatype EnvVarSource = EnvVarSource(configMapKeyRef: Option<KeyRef>, secretKeyRef: Option<KeyRef>)

  datatype EnvVar = EnvVar(name: string, value: string, valueFrom: Option<EnvVarSource>)

  datatype EnvFromSource = EnvFromSource(configMapRef: Option<string>, secretRef: Option<string>)

  datatype VolumeMount = VolumeMount(name: string, mountPath: string, readOnly: bool)

  datatype Container = Container(
    name: string,
    image: string,
    command: seq<string>,
    args: seq<string>,
    env: seq<EnvVar>,
    volumeMounts: seq<VolumeMount>)

  function TargetName(t: Target): string { t.name }

  function ContainerName(c: Container): string { c.name }

  function StatusName(s: TargetStatus): string { s.name }

  /**
   * The index of the first element whose name, as `nameOf` reads it, is
   * `name`, or -1: the search loops of the controllers that stop at the
   * first match.
   */
  function FirstNamed<T>(xs: seq<T>, nameOf: T -> string, name: string): (r: int)
    ensures -1 <= r < |xs|
    ensures r >= 0 ==> nameOf(xs[r]) == name && forall k :: 0 <= k < r ==> nameOf(xs[k]) != name
    ensures r == -1 ==> forall k :: 0 <= k < |xs| ==> nameOf(xs[k]) != name
    decreases |xs|
  {
    if |xs| == 0 then -1
    else if nameOf(xs[0]) == name then 0
    else
      var r := FirstNamed(xs[1..], nameOf, name);
      if r == -1 then -1 else r + 1
  }

  /** corev1.Container{}: the zero container. */
  const EmptyContainer := Container("", "", [], [], [], [])

  /** A Function resource: a command, its arguments and where its environment comes from. */
  datatype FunctionSpec = FunctionSpec(
    command: seq<string>,
    args: seq<string>,
    env: seq<EnvVar>,
    envFrom: seq<EnvFromSource>)

  /** What a Get in the pod's namespace finds: Secrets, ConfigMaps and Functions by name. */
  datatype Cluster = Cluster(
    secrets: map<string, map<string, string>>,
    configMaps: map<string, map<string, string>>,
    functions: map<string, FunctionSpec>)

  /** The data of a Secret, or the nil map when the Get fails. */
  function SecretData(c: Cluster, name: string): map<string, string> {
    if name in c.secrets then c.secrets[name] else map[]
  }

  /** The data of a ConfigMap, or the nil map when the Get fails. */
  function ConfigMapData(c: Cluster, name: string): map<string, string> {
    if name in c.configMaps then c.configMaps[name] else map[]
  }

  /** Indexing a Go map: the zero value for a missing key. */
  function ValueOf(data: map<string, string>, key: string): string {
    if key in data then data[key] else ""
  }

  /** The restic repository of a configuration: s3:http://<server>/<bucket>/<NAMESPACE>-<name>. */
  function RepositoryUrl(s3: S3Backend, namespace: string, name: string): (r: string)
    ensures |r| == 13 + |s3.server| + |s3.bucket| + |namespace| + |name|
    ensures r[..10] == "s3:http://"
  {
    "s3:http://" + s3.server + "/" + s3.bucket + "/" + Text.Upper(namespace) + "-" + Text.Lower(name)
  }

  /**
   * When server, bucket, namespace and name hold no '/', the URL splits on '/'
   * into the scheme, an empty host part, the server, the bucket and the
   * repository name: the three inputs can be read back from it.
   */
  lemma RepositoryUrlFields(s3: S3Backend, namespace: string, name: string)
    requires '/' !in s3.server && '/' !in s3.bucket && '/' !in namespace && '/' !in name
    ensures Text.Split(RepositoryUrl(s3, namespace, name), '/')
         == ["s3:http:", "", s3.server, s3.bucket, Text.Upper(namespace) + "-" + Text.Lower(name)]
  {
    var last := Text.Upper(namespace) + "-" + Text.Lower(name);
    NoSlashInRepositoryName(namespace, name);
    Text.SplitNoSeparator(last, '/');
    var p4 := s3.bucket + ['/'] + last;
    Text.SplitField(s3.bucket, '/', last);
    var p3 := s3.server + ['/'] + p4;
    Text.SplitField(s3.server, '/', p4);
    var p2 := "" + ['/'] + p3;
    Text.SplitField("", '/', p3);
    Text.SplitField("s3:http:", '/', p2);
    RepositoryUrlParts(s3, namespace, name);
  }

  lemma RepositoryUrlParts(s3: S3Backend, namespace: string, name: string)
    ensures RepositoryUrl(s3, namespace, name)
         == "s3:http:" + ['/'] + ("" + ['/'] + (s3.server + ['/'] + (s3.bucket + ['/'] + (Text.Upper(namespace) + "-" + Text.Lower(name)))))
  {
  }

  lemma NoSlashInRepositoryName(namespace: string, name: string)
    requires '/' !in namespace && '/' !in name
    ensures '/' !in Text.Upper(namespace) + "-" + Text.Lower(name)
  {
    var last := Text.Upper(namespace) + "-" + Text.Lower(name);
    forall i | 0 <= i < |last| ensures last[i] != '/' {
      if i < |namespace| {
        assert last[i] == Text.UpperChar(namespace[i]);
      } else if i > |namespace| {
        assert last[i] == Text.LowerChar(name[i - |namespace| - 1]);
      }
    }
  }

  /** The name a BackupSession gets: <prefix>-<configuration name>-<Unix seconds in decimal>. */
  function BackupSessionName(prefix: string, refName: string, now: int): (r: string)
    ensures |r| > |prefix| + |refName| + 2
    ensures r[..|prefix| + |refName| + 2] == prefix + "-" + refName + "-"
  {
    prefix + "-" + refName + "-" + Text.FormatInt(now)
  }

  /** The creation time can be read back from the tail of a session name. */
  lemma BackupSessionNameTime(prefix: string, refName: string, now: int)
    ensures var r := BackupSessionName(prefix, refName, now);
            Text.ParseInt(r[|prefix| + |refName| + 2..]) == Some(now)
  {
    var r := BackupSessionName(prefix, refName, now);
    assert r[|prefix| + |refName| + 2..] == Text.FormatInt(now);
    Text.ParseFormatInt(now);
  }

  /** A reference to a configuration by name and namespace. */
  datatype ObjectReference = ObjectReference(name: string, namespace: string)

  /** A BackupSession to create: its name, its namespace and the configuration it refers to. */
  datatype NewBackupSession = NewBackupSession(name: string, namespace: string, ref: ObjectReference)

  /** What CreateBackupSession did: the session it tried to create, and the process exit code (0: none). */
  datatype CreateOutcome = CreateOutcome(attempted: Option<NewBackupSession>, exitCode: int)

  /** A BackupSession as stored on the cluster: its status targets change through status updates. */
  class BackupSession {
    const name: string
    const namespace: string
    var targets: seq<TargetStatus>

    constructor (name: string, namespace: string, targets: seq<TargetStatus>)
      ensures this.name == name && this.namespace == namespace && this.targets == targets
    {
      this.name := name;
      this.namespace := namespace;
      this.targets := targets;
    }
  }

  /**
   * A RestoreSession as stored on the cluster.  backupTargets is the copy of
   * the restored BackupSession's Status.Targets carried in its spec.
   */
  class RestoreSession {
    const name: string
    const namespace: string
    const backupTargets: seq<TargetStatus>
    var targets: seq<TargetStatus>

    constructor (name: string, namespace: string, backupTargets: seq<TargetStatus>, targets: seq<TargetStatus>)
      ensures this.name == name && this.namespace == namespace
      ensures this.backupTargets == backupTargets && this.targets == targets
    {
      this.name := name;
      this.namespace := namespace;
      this.backupTargets := backupTargets;
      this.targets := targets;
    }
  }

  /** The pod template of a target workload, as stored on the cluster. */
  class PodSpec {
    var containers: seq<Container>
    var initContainers: seq<Container>

    constructor (containers: seq<Container>, initContainers: seq<Container>)
      ensures this.containers == containers && this.initContainers == initContainers
    {
      this.containers := containers;
      this.initContainers := initContainers;
    }
  }
}
