# formolcli in Dafny

formolcli is the in-cluster half of the formol backup operator. It reconciles
BackupSession and RestoreSession objects: each status entry names a target of
a BackupConfiguration and moves through the session lifecycle (New, Init or
Initializing, Running, Waiting or Finalize, Success or Failure). It runs the
steps (Functions) of a target in the target container, drives restic to back
up, restore and forget snapshots, builds the init container of an online
restore, writes status entries from out-of-band processes, and prunes old
sessions by a keep-last, daily, weekly, monthly and yearly retention policy.

The repository holds several generations of the same controllers. Their rules
differ, so each generation is modelled as its own module:

- `controllers/` (modules `BackupController`, `RestoreController`, `Session`,
  `BackupHelpers`, `RestoreInitContainer`) is the current generation. The backup
  reconciler moves only the last status entry, one step per call. The restore
  reconciler's transition table depends on the target kind (Job or Online).
- `standalone/root.go` (module `Standalone`) finishes an online restore inside
  the restore init container and removes that container from the pod again.
- `pkg/` (modules `PkgBackupController`, `PkgRestoreController`, `PkgSession`,
  `PkgBackupSession`, `PkgBackup`, `PkgRestic`, `PkgRestore`) is the older
  generation. It has hooks, it visits every matching status entry, and the
  restore visits the targets backwards.
- `src/pkg/controllers/backupsession_controller.go` (modules
  `SrcPkgBackupController` and `Retention`) adds a finalizer and the retention
  policy.

Shared resource types live in `Formol`, restic's output lines and argument lists
in `Restic`, ASCII case mapping, splitting and decimal numbers in `Text`, and
`Option` in `Wrappers`.

The model follows the code's form:

- Objects the code updates in place are classes, written only when the modelled
  client Update succeeds. These are the sessions, the pod template and the
  src/pkg session with its finalizers.
- Loops are methods, proved against specification functions. Examples: the
  status writers, the restic summary scan, path de-duplication, the
  init-container search and removal, the in-place newest-first sort and the
  retention walk.
- Each reconciler's specification is a fold over the targets and status
  entries. What it may change is proved about that fold: entries of other
  targets are untouched, states only move forward, and terminal states absorb.

Outcomes of the cluster client, of `exec`, `chroot` and restic, of hooks, and
the clock are parameters of the operations. Restic output lines arrive already
decoded.

Behaviours worth knowing that the model keeps as the code has them:

- The retention rules start from Go's zero time, whose day of the year is 1.
  So a newest session started on 1 January is not kept by the daily rule
  (`Retention.NewYearSessionNotDaily`).
- The src/pkg generation prunes sessions after a successful backup
  (src/pkg/controllers/backupsession_controller.go:177-251), and the model
  follows that code.
- In `pkg/backupsession/root.go` a failed Get is not looked at. The update then
  sends the empty object, and the model sends an empty status list.
- The start time set in the `pkg/` reconcilers changes only the loop's copy of
  the entry, so it is never stored. A status entry's start time is a pointer
  that may be unset, so the model keeps it as an `Option`.
- A Go panic (a nil dereference, an index past the end of a slice) is the
  error `Panic` in the model where the `pkg/` code can reach one: the
  operation ends there and nothing after it runs or is stored.

## Model

| member | source | states |
|---|---|---|
| Restic.LastSummary | controllers/backupsession_controller_helpers.go:277-290 | only a summary line that was printed is reported |
| Restic.LastSummaryIsLatest | controllers/backupsession_controller_helpers.go:283-286 | each summary overwrites the previous one, so the last summary printed is the one reported |
| Restic.NoSummaryNoResult | controllers/backupsession_controller_helpers.go:277-290 | without a summary line nothing is reported |
| Restic.TrailingNonSummaryIgnored | controllers/backupsession_controller_helpers.go:279-289 | status, other and undecodable lines after the last summary change nothing |
| Restic.ResultOfLatestSummary | controllers/backupsession_controller_helpers.go:283-286 | the result (Restic.ResultOf) is the snapshot id and duration of the last summary line |
| Restic.NoSummaryNoSnapshot | controllers/backupsession_controller_helpers.go:259-262 | without a summary line the result is the empty snapshot id and zero duration |
| Restic.ParseBackupOutput | controllers/backupsession_controller_helpers.go:277-290 | the scanning loop computes the result of the last summary line |
| Restic.BackupArgs | controllers/backupsession_controller_helpers.go:270 | the backup command is backup --json --tag tag -r repository followed by the paths, unchanged |
| Restic.ForgetArgs | pkg/restic/root.go:100 | the forget command names the repository with -r and the snapshot after --prune |
| Formol.RepositoryUrl | controllers/session.go:48-52 | the repository URL starts with s3:http:// and is as long as its fields plus separators |
| Formol.RepositoryUrlFields | controllers/session.go:48-52 | without '/' in the fields, the URL splits on '/' (Text.Split, strings.Split with a one-character separator) into s3:http:, an empty field, the server, the bucket and NAMESPACE-name |
| Formol.NoSlashInRepositoryName | controllers/session.go:51-52 | the upper-cased namespace and lower-cased name add no '/' to the last URL field |
| Formol.BackupSessionName | standalone/root.go:135 | a session name starts with the prefix, a dash, the configuration name and a dash, followed by the Unix seconds in decimal (Text.FormatInt) |
| Formol.BackupSessionNameTime | standalone/root.go:135 | the Unix seconds after the last dash read back as the creation time |
| Text.Upper | controllers/session.go:51 | every character is upper-cased one for one, and no ASCII lower-case letter is left |
| Text.Lower | controllers/session.go:52 | every character is lower-cased one for one, and no ASCII upper-case letter is left |
| Text.CaseRoundTrip | controllers/session.go:51-52 | lower-casing an upper-cased ASCII lower-case letter gives it back, and upper-casing a lower-cased ASCII upper-case letter gives it back |
| Text.ParseFormatInt | standalone/root.go:135 | the decimal form of the Unix seconds (Text.FormatInt) parses back to them with Text.ParseInt, sign included |
| Session.ResticEnv | controllers/session.go:45-69 | without an S3 backend no variable is set; with one, four: RESTIC_REPOSITORY with the repository URL, then AWS_ACCESS_KEY_ID, AWS_SECRET_ACCESS_KEY and RESTIC_PASSWORD read from the repository Secret (empty when missing) |
| Session.GetResticEnv | controllers/session.go:36-70 | a Repo that cannot be fetched gives its error and no variable; otherwise the variables of its backend and no error |
| Session.SetResticEnv | controllers/session.go:72-78 | the process environment gains exactly the four restic variables when the Repo has an S3 backend and is unchanged otherwise; the Get error is returned exactly when the Repo cannot be fetched |
| Session.ResticEnvSet | controllers/session.go:72-78 | setting the four restic variables one after the other adds exactly their names to the environment, with the repository URL and the password as values |
| Session.RepoCheckError | controllers/session.go:80-94 | the check fails only when check and init both fail, and then with init's error |
| Session.CheckRepo | controllers/session.go:80-94 | unlock then check always run (an unlock failure is ignored); init runs exactly when check fails; the outcome is RepoCheckError |
| Session.EnvEntryValue | controllers/session.go:136-148 | an env entry writes nothing only when it has a valueFrom with neither a ConfigMap nor a Secret key reference |
| Session.GetFuncEnv | controllers/session.go:136-149 | the loop writes the env entries in order into the variables |
| Session.ApplyEnvLastWriterWins | controllers/session.go:136-149 | after the env entries are applied in order (Session.ApplyEnv), a variable holds the value of the last entry of its name that writes one |
| Session.ApplyEnvKeepsUnwritten | controllers/session.go:136-149 | a variable no env entry writes keeps its earlier value, or stays absent |
| Session.CopyData | controllers/session.go:151-161 | copying a Secret or ConfigMap overwrites the variables with all its keys |
| Session.MapUnionAssociative | controllers/session.go:163-172 | copying two sources one after the other is copying their union |
| Session.GetFuncEnvFrom | controllers/session.go:163-172 | the envFrom sources are copied in order, a ConfigMap before the Secret of the same entry |
| Session.CopySource | controllers/session.go:165-170 | one envFrom entry overwrites the variables with its ConfigMap's data and then its Secret's, the Secret winning on shared keys |
| Session.GetFuncVars | controllers/session.go:174-177 | a Function's variables (Session.FuncVars) are its envFrom sources overwritten by its env entries |
| Session.EnvOverridesEnvFrom | controllers/session.go:174-177 | a variable set by an env entry has that entry's value, whatever the envFrom sources hold |
| Session.EnvFromWhenNoEnv | controllers/session.go:174-177 | a variable no env entry writes has the value the envFrom sources give it |
| Session.VarRef | controllers/session.go:195-197 | an argument is a reference only when it is exactly $(NAME) with NAME made of word characters |
| Session.VarRefOfReference | controllers/session.go:195-201 | every $(NAME) with a word-character NAME is recognised as a reference to NAME |
| Session.VarRefRejectsNested | controllers/session.go:195 | $($X) is not a reference: the pattern admits word characters only |
| Session.ExpandArgs | controllers/session.go:196-202 | each argument is replaced in place by what Session.ExpandArg gives: the variable it references (empty when unset), or the argument itself when it is no reference |
| Session.ExpandedArgs | controllers/session.go:189-202 | the expanded argument list has one entry per argument, each expanded with the Function's variables |
| Session.RunFunction | controllers/session.go:179-210 | a Function that cannot be fetched gives its error; otherwise its first command runs in the target container with the expanded arguments and that outcome (Session.FunctionOutcome) is returned |
| Session.Selector | controllers/session.go:293-307 | initializing selects a step's Initialize Function and finalizing its Finalize Function |
| Session.FirstErrorAfterSuccesses | controllers/session.go:275-289 | the outcome of a run of Functions (Session.FirstError, the first failure) does not change when successful Functions come before them |
| Session.SelectedStepsPrefix | controllers/session.go:279-285 | the Functions a phase selects from a container's first steps (Session.SelectedSteps) come first among those it selects from all its steps |
| Session.SelectedPrefix | controllers/session.go:277-286 | the selected steps of the first containers come first among all selected steps |
| Session.RunPrefix | controllers/session.go:277-286 | what has run at any point of the nested loops is a prefix of all the selected steps |
| Session.FailingStep | controllers/session.go:280-283 | the first failing Function's error is the outcome of the whole run |
| Session.FirstErrorAt | controllers/session.go:280-283 | after successful Functions, a failing one decides the outcome |
| Session.RunSteps | controllers/session.go:275-289 | the Functions that ran are a prefix of the selected steps, container by container; all but the last succeeded; without error every selected step ran; with an error it is the last one's |
| Session.RunContainerSteps | controllers/session.go:279-285 | the steps of one container run in order after the successful ones before it; without error everything selected so far ran and succeeded; with an error it is the last Function run and the first error of the whole phase |
| Session.RunInitializeSteps | controllers/session.go:293-298 | the Initialize Functions run in order until the first failure |
| Session.RunFinalizeSteps | controllers/session.go:303-308 | the Finalize Functions run in order until the first failure |
| BackupHelpers.Selects | controllers/backupsession_controller_helpers.go:160-162 | a step marked Finalize=true is selected only when finalizing; every other step (flag false or absent) only when initializing |
| BackupHelpers.EveryStepHasOneMode | controllers/backupsession_controller_helpers.go:160-162 | every step is selected by exactly one of the two modes |
| BackupHelpers.FirstSelectedStep | controllers/backupsession_controller_helpers.go:159-164 | the step returned is the first of the list the mode selects: it is selected and every step before it is skipped; none is returned only when the mode selects no step |
| BackupHelpers.FirstSelected | controllers/backupsession_controller_helpers.go:157-165 | the step returned is the first selected step of the first container that has one, every earlier container having none; none is returned exactly when no container has a selected step |
| BackupHelpers.RunBackupSteps | controllers/backupsession_controller_helpers.go:154-167 | at most one Function runs: the first selected step over all containers in order, and its outcome is returned; with no selected step the result is nil |
| BackupHelpers.RunInitializeBackupSteps | controllers/backupsession_controller_helpers.go:178-180 | initializing runs the first step not marked Finalize=true |
| BackupHelpers.RunFinalizeBackupSteps | controllers/backupsession_controller_helpers.go:171-173 | finalizing runs the first step marked Finalize=true |
| BackupHelpers.BackupPaths | controllers/backupsession_controller_helpers.go:264-294 | a failed repository check returns its error, an empty result and no backup; otherwise the backup command is backup --json --tag tag -r repository followed by the paths, and the result is the snapshot and duration of the last summary line |
| BackupHelpers.Dedup | controllers/backupsession_controller_helpers.go:306-314 | the collected share paths hold exactly the paths given |
| BackupHelpers.DedupNoDuplicates | controllers/backupsession_controller_helpers.go:306-314 | each share path is collected once |
| BackupHelpers.DedupFirstOccurrenceOrder | controllers/backupsession_controller_helpers.go:306-314 | the collected paths keep the order of their first occurrences |
| BackupHelpers.DedupIdempotent | controllers/backupsession_controller_helpers.go:306-314 | collecting the collected paths again changes nothing |
| BackupHelpers.DedupOfDistinct | controllers/backupsession_controller_helpers.go:306-314 | paths without duplicates are kept as given |
| BackupHelpers.SharePaths | controllers/backupsession_controller_helpers.go:298-313 | one share path per container, in container order |
| BackupHelpers.AddPath | controllers/backupsession_controller_helpers.go:306-314 | a path is appended only when it is not in the list yet |
| BackupHelpers.FirstErrorSplit | controllers/backupsession_controller_helpers.go:298-304 | when the first jobs all succeed, the outcome is that of the later jobs |
| BackupHelpers.FirstErrorLast | controllers/backupsession_controller_helpers.go:298-304 | after successful jobs, the outcome is that of the next job |
| BackupHelpers.RunJobs | controllers/backupsession_controller_helpers.go:299-304 | jobs run in order and the first failing job's error is returned |
| BackupHelpers.BackupJob | controllers/backupsession_controller_helpers.go:296-318 | a failing job aborts with its error, an empty result and no backup; otherwise each share path is collected once in first-occurrence order and backed up, a failed repository check giving its error |
| BackupHelpers.JobsErrorPrefix | controllers/backupsession_controller_helpers.go:298-304 | once the jobs of the first containers fail, the later containers do not change the outcome |
| BackupHelpers.AllJobsPrefixOf | controllers/backupsession_controller_helpers.go:298-305 | the jobs of the first containers come first in the order jobs run |
| BackupHelpers.FirstErrorOfPrefix | controllers/backupsession_controller_helpers.go:300-302 | a failing job stops the run: what follows it does not change the error |
| BackupController.NextState | controllers/backupsession_controller.go:53-103 | only the last entry, and only when it names this target, moves; every move is strictly forward in the lifecycle (Formol.Rank); Success and Failure never move; New, Init, Running and Finalize always move |
| BackupController.FinalizeOutcome | controllers/backupsession_controller.go:86-93 | a finalized entry moves to Success exactly when it carries a snapshot id, and to Failure exactly when it does not |
| BackupController.Advance | controllers/backupsession_controller.go:55-98 | a reconcile whose update succeeds changes only the state of the last entry; the earlier entries and the last entry's other fields stay as they were |
| BackupController.TerminalIsAbsorbing | controllers/backupsession_controller.go:99-102 | once the last entry is Success or Failure, any number of later reconciles (BackupController.AdvanceTimes) leaves the status list unchanged |
| BackupController.FourStepsToTheEnd | controllers/backupsession_controller.go:58-98 | a New entry for this target ends in Success or Failure after exactly four reconciles (New, Init, Running, Finalize), Success exactly when it has a snapshot id, and nothing else changes |
| BackupController.Reconcile | controllers/backupsession_controller.go:22-105 | a failed Get returns its error unless the session is not found (Formol.IgnoreNotFound); an empty status list requeues after 10 seconds with no update; otherwise an update is sent exactly when the last entry moves, its error is returned, and the stored status becomes the advanced list only when the update succeeds |
| Formol.FirstNamed | controllers/restoresession_controller.go:61-68 | the index of the first element with the name, or -1 when none has it: the configuration target of the restore reconciler, and with the same function the sidecar container of controllers/restoresession_controller_helper.go:22-31 and the backup status entry of standalone/root.go:77-79 |
| RestoreController.NewState | controllers/restoresession_controller.go:76-125 | New moves to Initializing; Initializing and Finalize move to Failure when their steps fail and to Initialized or Success otherwise; a Running Job target moves to Success or Failure with its restore; a Running online target moves only to Failure, when adding the init container fails; every other state stays; every move goes strictly forward |
| RestoreController.RestoreIsForwardOnly | controllers/restoresession_controller.go:76-125 | over any run of reconciles, each storing the state NewState chooses (RestoreController.AfterReconciles), every change of state raises the lifecycle rank, so at most 5 - Rank(state) of them change it, and a Success or Failure restore is never changed again |
| RestoreController.ChooseState | controllers/restoresession_controller.go:76-125 | the new state is the transition table's; only a Running online target touches the pod template, appending the restore init container exactly when that succeeds |
| RestoreController.Reconcile | controllers/restoresession_controller.go:19-135 | a missing session, configuration or status list ends the pass with no change (errors other than not-found returned); the restic variables are set from the Repo and a Repo that cannot be fetched is returned; otherwise the target's entry gets the new state, an update is sent exactly when there is one, and its error is returned |
| RestoreInitContainer.FindSidecar | controllers/restoresession_controller_helper.go:21-31 | the loop copies the first sidecar container, or leaves the empty container when there is none |
| RestoreInitContainer.Writable | controllers/restoresession_controller_helper.go:33-35 | every volume mount is kept, in order, with only its read-only flag cleared |
| RestoreInitContainer.MakeWritable | controllers/restoresession_controller_helper.go:33-35 | the loop clears the read-only flag of every mount in place |
| RestoreInitContainer.RestoreArgs | controllers/restoresession_controller_helper.go:42-46 | the init container runs restoresession start with the session's name, namespace and target name in the --name, --namespace and --target-name slots |
| RestoreInitContainer.InitContainer | controllers/restoresession_controller_helper.go:21-46 | the init container is the sidecar renamed, with writable mounts, the restic variables appended to its environment and the restore arguments |
| RestoreInitContainer.NoSidecarEmptyBase | controllers/restoresession_controller_helper.go:21-32 | without a sidecar the init container starts empty: no image, command or mounts, and only the restic variables |
| RestoreInitContainer.AddRestoreInitContainer | controllers/restoresession_controller_helper.go:9-56 | a failed Get of the workload, of the Repo, or of the update is returned (RestoreInitContainer.Outcome) and the pod template is unchanged; otherwise the init container is appended after the existing ones and the containers are unchanged |
| Standalone.RestoreArgs | standalone/root.go:81 | the restore command is restore, the snapshot id, --target / |
| Standalone.ForgetArgs | standalone/root.go:165 | the forget command is forget --prune and the snapshot id |
| Standalone.WithoutRestoreContainer | standalone/root.go:103-110 | no kept init container has the restore container's name, and every other init container is kept |
| Standalone.RemoveRestoreContainer | standalone/root.go:103-110 | the loop keeps exactly the init containers WithoutRestoreContainer keeps, in order |
| Standalone.RemoveIdempotent | standalone/root.go:103-110 | removing the restore container twice is removing it once |
| Standalone.KeepsUnnamed | standalone/root.go:103-110 | init containers without that name are all kept as they are |
| Standalone.RemoveKeepsOrder | standalone/root.go:103-110 | removal works element by element, so the kept containers keep their order |
| Standalone.StartRestore | standalone/root.go:56-118 | a failed repository check, a failed Get or a target without a backup status stops with no change; otherwise the snapshot of the target's first status entry is restored, its restore entry records Waiting or Failure, and the restore init container is removed from the pod template only when that update, the workload Get and its update succeed |
| Standalone.CreateBackupSession | standalone/root.go:120-147 | without the configuration nothing is created and the exit code is 1; otherwise a session named bs-name-seconds is created in the reference's namespace with the reference, and the exit code is 0 exactly when the create succeeds |
| Standalone.CreatedNameCarriesTime | standalone/root.go:135 | the creation time is read back from the tail of the name |
| Standalone.DeleteSnapshot | standalone/root.go:149-170 | without the configuration or its Repo nothing runs and the environment is unchanged; otherwise the restic variables are set and forget --prune runs on the snapshot |
| PkgSession.WriteMatching | pkg/session/root.go:64-70 | the list keeps its length and order; every entry named after the target is rewritten and every other entry is kept |
| PkgSession.NoMatchNoChange | pkg/session/root.go:64-70 | with no entry named after the target, the list is left as it is |
| PkgSession.WriteMatchingIdempotent | pkg/session/root.go:64-70 | a write that keeps names and is idempotent on one entry is idempotent on the whole list |
| PkgSession.BackupWriteIdempotent | pkg/session/root.go:66-68 | writing the same backup status twice at the same time gives what writing it once gives |
| PkgSession.BackupSessionUpdateTargetStatus | pkg/session/root.go:53-77 | a failed Get returns its error and changes nothing; an entry of the target without a start time panics on the dereference at line 68 and nothing is sent; otherwise every entry of the target gets the state, the snapshot and the time since its start, stored only when the update succeeds, whose error is returned |
| PkgSession.RestoreSessionUpdateTargetStatus | pkg/session/root.go:79-107 | a failed Get returns its error; the first entry of the target that blocks the write (RestoreBlock) ends it with its error and nothing is sent; otherwise every entry of the target gets the state, and a duration only when the state is Success or Failure, stored only when the update succeeds; error and stored list are those of PkgSession.RestoreStatusWrite |
| PkgSession.RestoreBlock | pkg/session/root.go:90-99 | scanning in order, the first entry of the target already in Success refuses the write with "the restore has already been done. Skipping", and, when the new state is Success or Failure, the first one without a start time panics; the write goes through exactly when no entry of the target was restored (PkgSession.AlreadyRestored) and, for a Success or Failure write, every one has a start time |
| PkgSession.RefusedIffRestored | pkg/session/root.go:90-94 | a write of a state other than Success or Failure never panics, and is refused exactly when an entry of the target is already in Success |
| PkgSession.WriteRestoreEntries | pkg/session/root.go:90-100 | the loop over the local copy stops with RestoreBlock's error at the first blocking entry of the target, and otherwise leaves every entry of the target written with the new state and, for Success or Failure, the time since its start |
| PkgSession.RestoredStaysRefused | pkg/session/root.go:92-97 | once Success is written to the entries of the target, every later write for it is refused, whatever state it brings |
| PkgSession.NonTerminalKeepsDurations | pkg/session/root.go:95-98 | writing a state other than Success or Failure keeps every duration |
| PkgSession.LastNamed | pkg/session/root.go:117-122 | the configuration found has the name and is listed; none is found only when none has the name |
| PkgSession.LastNamedIsLast | pkg/session/root.go:118-122 | the scan keeps overwriting, so the last configuration with the name is the one found |
| PkgSession.FindConfiguration | pkg/session/root.go:117-122 | the loop finds the last configuration with the name |
| PkgSession.CreateBackupSession | pkg/session/root.go:109-141 | a failed List exits with code 1 and creates nothing; otherwise a session named backupsession-name-seconds is created in the namespace with a reference to the name, and the exit code is 0 exactly when the create succeeds |
| PkgSession.CreatedName | pkg/session/root.go:127 | the created name starts with backupsession-, the configuration name and a dash, and its tail reads back as the creation time |
| PkgBackupSession.BackupSessionUpdateStatus | pkg/backupsession/root.go:52-73 | the update's error is returned; the entries of the target get the state, snapshot and duration; the stored list changes only when the session was fetched and the update succeeds |
| PkgBackupSession.OthersUntouched | pkg/backupsession/root.go:60-66 | entries of other targets are untouched and the entries of the target carry exactly the written state, snapshot and duration |
| PkgBackupSession.StatusWriteIdempotent | pkg/backupsession/root.go:60-66 | writing the same status twice gives what writing it once gives |
| PkgRestore.RestoreVolume | pkg/restore/root.go:27-41 | a refused or failed Init write returns its error and no restore runs; otherwise the restore runs, Finalize or Failure is written after it, and the restore's error is returned whatever that write returns, unless the write panics on an entry without a start time |
| PkgRestore.FinalState | pkg/restore/root.go:32-37 | the state written after the restore is Finalize exactly when it succeeded and Failure exactly when it failed |
| PkgRestore.InitWriteKeepsGuardOpen | pkg/restore/root.go:29-39 | writing Init never makes the second write refused |
| PkgRestore.VolumeRestoreOutcome | pkg/restore/root.go:27-41 | after a successful Init write, the Failure write on an entry of the target without a start time panics and stores nothing; otherwise both writes go through, and each entry of the target ends in Finalize with its duration kept, or in Failure with the time since its start; other entries are untouched |
| PkgRestore.PgRestoreArgs | pkg/restore/root.go:52 | pg_restore runs with --format=custom --clean on the host, database and user, without a password prompt, and reads the file last |
| PkgRestore.RestorePostgres | pkg/restore/root.go:43-61 | the .pgpass line is written first; a failed write is returned and nothing runs; otherwise pg_restore runs and its error is returned |
| PkgBackup.CheckOutcome | pkg/backup/root.go:38-69 | the check is nil exactly when the stderr pipe is had and either the check exits cleanly or it ran, failed, and init then exits cleanly; a pipe failure is returned as it is |
| PkgBackup.CheckRepo | pkg/backup/root.go:38-69 | nothing starts without the pipe; check -r repository starts first, and init -r repository starts second exactly when the check ran and failed; the error is the check outcome |
| PkgBackup.BackupPaths | pkg/backup/root.go:124-133 | a failed repository check returns empty output and its error and runs no backup; otherwise the backup runs with its arguments and its output and error are returned |
| PkgBackup.VolumeStatus | pkg/backup/root.go:91-100 | a failed backup reports Failure with no snapshot and no duration; a successful one reports Success with the results of its output |
| PkgBackup.BackupVolume | pkg/backup/root.go:89-103 | the backup's error is returned; the volume status is written into the session's entries of the target, stored only when the session was fetched and the update succeeds |
| PkgBackup.PgPass | pkg/backup/root.go:107 | the .pgpass line is as long as its four fields plus the any-port field and four separators |
| PkgBackup.PgPassFields | pkg/backup/root.go:107 | when host, database and user hold no ':', the line splits back into them, the any-port field and the pieces of the password |
| PkgBackup.PgPassRoundTrip | pkg/backup/root.go:107 | when no field holds ':', the line splits back into exactly host, *, database, user and password |
| PkgBackup.PgDumpArgs | pkg/backup/root.go:113 | pg_dump runs with --clean --create into the file, on the host, database and user, without a password prompt |
| PkgBackup.BackupPostgres | pkg/backup/root.go:105-122 | the .pgpass line is written first; a failed write is returned and nothing runs; otherwise pg_dump runs and its error is returned |
| PkgRestic.GetBackupResults | pkg/restic/root.go:55-71 | the snapshot of the last summary line, or "" when there is none |
| PkgRestic.BackupPaths | pkg/restic/root.go:33-86 | unlock -r and check -r run first; a failed check whose init also fails returns empty output and the error and runs no backup; otherwise the backup's output and error are returned |
| PkgRestic.RestoreArgs | pkg/restic/root.go:94 | the restore command names the repository, the snapshot and the root directory as its target |
| PkgRestic.RestorePaths | pkg/restic/root.go:88-96 | the repository handed in is the one checked and restored from; a failed check returns its error and runs no restore |
| PkgBackupController.StoppedFrom | pkg/controllers/backupsession_controller.go:116-119 | after a failed status update no further entry is visited |
| PkgBackupController.StoppedTargets | pkg/controllers/backupsession_controller.go:135-138 | after a failed status update no further target is visited |
| PkgBackupController.VisitEntry | pkg/controllers/backupsession_controller.go:103-143 | one status entry is handled as PkgBackupController.Visit says: the state change, the snapshot and duration of a successful backup, one update (PkgBackupController.Sent), stored only when it succeeds |
| PkgBackupController.VisitEntries | pkg/controllers/backupsession_controller.go:103-144 | the status entries are visited in order for one target, as PkgBackupController.VisitFrom folds Visit over them, ending at the first failed update |
| PkgBackupController.Reconcile | pkg/controllers/backupsession_controller.go:80-150 | a failed Get of the session or its configuration ends the reconcile, not-found being no error; otherwise the Deployment targets named after this deployment (PkgBackupController.VisitTarget) are visited in order (PkgBackupController.VisitTargets), tagged with the session name, and the stored status and error are those the visits end with |
| PkgBackupController.EvolvedTransitive | pkg/controllers/backupsession_controller.go:103-143 | two successive rounds of allowed entry changes make one allowed change |
| PkgBackupController.VisitKeeps | pkg/controllers/backupsession_controller.go:103-143 | visiting one entry keeps both copies of the status evolved from the starting entries |
| PkgBackupController.VisitFromKeeps | pkg/controllers/backupsession_controller.go:103-144 | visiting the entries of a target keeps both copies evolved from the starting entries |
| PkgBackupController.VisitTargetsKeeps | pkg/controllers/backupsession_controller.go:99-148 | visiting the targets keeps both copies evolved from the starting entries |
| PkgBackupController.ReconcileKeeps | pkg/controllers/backupsession_controller.go:99-148 | a reconcile stores entries related to the starting ones by PkgBackupController.Evolved (PkgBackupController.Kept entry by entry): names and start times are unchanged, states only move forward, entries of other targets and entries not in New or Running are untouched, and snapshot and duration change only with Success |
| PkgBackupController.NewEntry | pkg/controllers/backupsession_controller.go:107-119 | a New entry goes to Running, or to Failure when the before-backup hook fails, with one update |
| PkgBackupController.FailedBackup | pkg/controllers/backupsession_controller.go:124-127 | a failed backup moves Running to Failure and keeps snapshot and duration |
| PkgBackupController.SuccessfulBackup | pkg/controllers/backupsession_controller.go:128-133 | a successful backup moves Running to Success with the snapshot and duration of the last summary line |
| PkgBackupController.FinishedEntry | pkg/controllers/backupsession_controller.go:139-142 | in Success or Failure only the after-backup hook runs; nothing changes and no update is sent |
| PkgRestoreController.LastTargetFirst | pkg/controllers/restoresession_controller.go:53-55 | the targets are visited from the last to the first |
| PkgRestoreController.StoppedFrom | pkg/controllers/restoresession_controller.go:70-73 | after a failed update or Repo lookup no further entry is visited |
| PkgRestoreController.StoppedTargets | pkg/controllers/restoresession_controller.go:98-101 | after a failed update or Repo lookup no further target is visited |
| PkgRestoreController.VisitEntry | pkg/controllers/restoresession_controller.go:59-107 | one restore status entry is handled as PkgRestoreController.Visit says: the state change, the restore duration on success, one update (PkgRestoreController.Sent) stored only when it succeeds, and a failed Repo lookup or a panic ending the reconcile |
| PkgRestoreController.VisitEntries | pkg/controllers/restoresession_controller.go:59-108 | the restore status entries are visited in order for one target, as PkgRestoreController.VisitFrom folds Visit over them, ending at the first failed update, failed Repo lookup or panic |
| PkgRestoreController.Reconcile | pkg/controllers/restoresession_controller.go:30-114 | a failed Get of the RestoreSession, its BackupSession or the configuration ends the reconcile, not-found being no error; otherwise the matching targets (PkgRestoreController.VisitTarget) are visited from the last to the first (PkgRestoreController.VisitTargetsBackwards) and the stored status and error are those the visits end with, for every input |
| PkgRestoreController.EvolvedTransitive | pkg/controllers/restoresession_controller.go:59-107 | two successive rounds of allowed entry changes make one allowed change |
| PkgRestoreController.VisitKeeps | pkg/controllers/restoresession_controller.go:59-107 | visiting one entry keeps both copies of the status evolved from the starting entries |
| PkgRestoreController.VisitFromKeeps | pkg/controllers/restoresession_controller.go:59-108 | visiting the entries of a target keeps both copies evolved from the starting entries |
| PkgRestoreController.VisitTargetsKeeps | pkg/controllers/restoresession_controller.go:54-110 | visiting the targets keeps both copies evolved from the starting entries |
| PkgRestoreController.ReconcileKeeps | pkg/controllers/restoresession_controller.go:54-110 | a reconcile stores entries related to the starting ones by PkgRestoreController.Evolved (PkgRestoreController.Kept entry by entry): names, start times and snapshots are unchanged, states only move forward, entries of other targets and entries not in New or Running are untouched, and a duration changes only to the zero of a successful restore |
| PkgRestoreController.NewEntry | pkg/controllers/restoresession_controller.go:63-73 | a New entry goes to Running, or to Failure when the before hook fails, with one update |
| PkgRestoreController.RunningEntry | pkg/controllers/restoresession_controller.go:74-101 | a Running entry restores the snapshot of the BackupSession entry at the same index from the configuration's repository (PkgRestoreController.Url), and goes to Failure, or to Success with the restore's zero duration |
| PkgRestoreController.RepoMissing | pkg/controllers/restoresession_controller.go:79-86 | a failed Repo lookup ends the reconcile with its error and changes nothing |
| PkgRestoreController.RunningPanics | pkg/controllers/restoresession_controller.go:87-88 | a found Repo without an S3 backend, or a Running entry past the end of the BackupSession's entries, panics before the restore runs, ending the reconcile with nothing more sent or stored |
| PkgRestoreController.FinishedEntry | pkg/controllers/restoresession_controller.go:103-105 | in Success or Failure only the after hook runs; nothing changes and no update is sent |
| Retention.Spend | src/pkg/controllers/backupsession_controller.go:212-243 | a rule that keeps a session spends one of its count and remembers the session's date; a rule that does not is unchanged |
| Retention.Decide | src/pkg/controllers/backupsession_controller.go:206-243 | a session is kept exactly when the last rule still has a count or the daily, weekly, monthly or yearly rule keeps it (Retention.DailyKeeps, WeeklyKeeps, MonthlyKeeps, YearlyKeeps: a count left and a day, week, month or year other than the one last kept), and every rule that keeps it spends one of its count |
| Retention.Prune | src/pkg/controllers/backupsession_controller.go:202-251 | only sessions of the configuration are ever deleted, each named by its index in the list |
| Retention.LastCounter | src/pkg/controllers/backupsession_controller.go:197-211 | after the walk the last rule has spent one count per session of the configuration, down to zero |
| Retention.DecidedAtOwnTurn | src/pkg/controllers/backupsession_controller.go:202-251 | whether a session is deleted depends only on it and the sessions before it |
| Retention.FirstLastKept | src/pkg/controllers/backupsession_controller.go:207-211 | the newest Keep.Last sessions of the configuration are never deleted |
| Retention.DeletedIffNoRuleKeeps | src/pkg/controllers/backupsession_controller.go:206-250 | a session of the configuration is deleted exactly when no rule keeps it, given the rules' state after the newer sessions |
| Retention.CountersNeverNegative | src/pkg/controllers/backupsession_controller.go:196-243 | with counts that are not negative, no counter drops below zero or grows above its configured count |
| Retention.NewYearSessionNotDaily | src/pkg/controllers/backupsession_controller.go:196-213 | the daily rule starts from the zero time (Retention.Initial), whose day of the year is 1, so a newest session of 1 January is not kept by it |
| Retention.SortNewestFirst | src/pkg/controllers/backupsession_controller.go:187-189 | the listed sessions are rearranged in place, newest start time first |
| Retention.SwapStep | src/pkg/controllers/backupsession_controller.go:187-189 | swapping a newer session ahead of an older neighbour keeps the sorted part sorted around the moving session |
| Retention.InsertDone | src/pkg/controllers/backupsession_controller.go:187-189 | once the moving session is no newer than the one ahead of it, the prefix is sorted newest first |
| Retention.InsertNewest | src/pkg/controllers/backupsession_controller.go:187-189 | one insertion step extends the newest-first prefix by one session and only rearranges the array |
| Retention.PruneSessions | src/pkg/controllers/backupsession_controller.go:191-251 | the loop over the five keep counters deletes exactly the sessions the retention walk deletes |
| SrcPkgBackupController.Session.constructor | src/pkg/controllers/backupsession_controller.go:88-92 | a fetched BackupSession holds the given name, configuration, snapshot, finalizers, state and start time |
| SrcPkgBackupController.AddFinalizer | src/pkg/controllers/backupsession_controller.go:96-97 | the finalizer is present afterwards, nothing else is added, and the existing finalizers keep their order |
| SrcPkgBackupController.AddFinalizerIdempotent | src/pkg/controllers/backupsession_controller.go:96-97 | adding the finalizer twice gives what adding it once gives |
| SrcPkgBackupController.RemoveString | src/pkg/controllers/backupsession_controller.go:110 | the finalizer is gone afterwards, every other finalizer stays, and the list does not grow |
| SrcPkgBackupController.RemoveAbsent | src/pkg/controllers/backupsession_controller.go:110 | removing a finalizer that is not there leaves the list as it is |
| SrcPkgBackupController.RemoveAfterAdd | src/pkg/controllers/backupsession_controller.go:96-110 | removing the finalizer undoes adding it to a list that did not hold it |
| SrcPkgBackupController.ResultState | src/pkg/controllers/backupsession_controller.go:161-175 | the final state is Success exactly when the backup returned nil, and Failure otherwise |
| SrcPkgBackupController.FirstDeployment | src/pkg/controllers/backupsession_controller.go:255-263 | the first Deployment target named after this deployment, and none exactly when no target is one |
| SrcPkgBackupController.BackupDeployment | src/pkg/controllers/backupsession_controller.go:137-253 | a failed Running update is returned and nothing else happens; otherwise the backup's error is returned, the session ends in Success or Failure with the start time when the last write goes through, and after a successful backup with two or more listed sessions the deletions are those of the retention walk over a newest-first permutation of them |
| SrcPkgBackupController.Reconcile | src/pkg/controllers/backupsession_controller.go:83-265 | a failed Get is returned unless not found; a live session gets the finalizer once; a session being deleted has its snapshot forgotten under the finalizer and then loses it; a session with a state, without a configuration or without a Deployment target for us is left alone; otherwise the first such target is backed up |

## Left out

- Process execution: `runTargetContainerChroot`, `RunChroot` and the `/proc`
  scan that finds a target container are not modelled. Running a Function, a
  hook or a restic command is an outcome handed in.
- Cluster bootstrap: the `init()` functions are not modelled. This covers the
  in-cluster configuration, the clientset, and the Pod, ReplicaSet and
  Deployment owner lookup that gives `deploymentName`, which is a parameter.
  `SetupWithManager` and the event predicates are left out too.
- Client calls: Get, List, Create, Update and Delete are outcomes handed in.
  Their writes are the class fields or returned values, such as the indices of
  deleted sessions.
- Concurrency: the goroutines and channels are not modelled, nor the
  `time.Sleep` in the `pkg/` restore reconciler. This covers the stderr readers
  in the repository checks and the summary consumer of the src/pkg backup.
- SrcPkgBackupController.BackupDeployment: does not set the snapshot id and
  duration that the src/pkg summary goroutine writes into the session. The
  deferred final status write is modelled as a last write whose error is
  ignored.
- Floating point: restic's `total_duration` is a float converted to
  milliseconds; the model keeps it as a decoded integer duration.
- JSON decoding is not modelled: each output line is already a summary, a
  status, another message or an undecodable line. The type-assertion panics on
  missing summary keys are therefore excluded.
- Deletion errors in the src/pkg retention loop are not modelled. They are
  ignored, so every session the walk deletes is returned as an index into the
  sorted list.
- Retention.PruneSessions: every listed session is taken to have a start time.
  The listed sessions are successful ones, and src/pkg writes the start time
  together with the final state; a session without one would panic in the sort
  and the walk.
- Retention.SortNewestFirst: `sort.Slice` is not stable. The model proves the
  result is a newest-first permutation, which fixes neither the order of
  sessions with equal start seconds nor which of them the walk keeps.
- PkgRestore.RestoreVolume: the restore is an outcome handed in. The code calls
  `restic.RestorePaths` with one argument, which does not match its
  two-argument signature in `pkg/restic/root.go`.
- PkgRestic.GetRestoreResults: always zero, so it has no contract of its own.
- `pkg/backup/root.go` and `pkg/restic/root.go` DeleteSnapshot: running forget
  and returning its error are not modelled separately. Only the argument list
  is modelled, by `Restic.ForgetArgs`.
- PgPass files: the `PGPASSFILE` environment entry and the deferred removal of
  the `.pgpass` file are file and environment I/O and are not modelled.
- Text.Upper, Text.Lower: only ASCII letters are mapped. Go's Unicode case
  mapping of other letters is not modelled.
- Session.CommandsPresent: every Function is assumed to have a command. With an
  empty one the code would panic on `Command[0]`.
- RestoreController.Reconcile: requires the matched target's index to be valid
  in both status lists. It also requires a failed Repo lookup when no target
  matches, where the code would dereference a nil target.
- Standalone.StartRestore: requires an entry at the matched index in the
  RestoreSession. Otherwise the code panics on the index.
- Constants of the formol API package, such as the sidecar and restore
  container names and the value of `TARGET_NAME`, are parameters.
- `os.Exit` is the exit code of the outcome. The process does not stop in the
  model.
- `ContainsString` and `RemoveString` come from the formol API package, which
  is not part of this model. RemoveString is modelled as removing every
  occurrence.
- CLI glue (`cmd/`, `pkg/cmd/`, `src/cmd/`) and the thin or duplicate files are
  not part of this model. The thin files are the servers, `session/`,
  `backupsession/`, `src/backup`, `src/pkg/backup` and `src/create`.
- The `CreateBackupSession` of `pkg/backupsession/root.go` duplicates the one
  in `pkg/session/root.go`, and only the latter is modelled.
