# Verified model of the k4all operator

The k4all operator keeps one configuration in three places (a file on the host, the `ClusterConfig`
resource and the `k4all-config` ConfigMap), runs commands on the host through Kubernetes jobs, and
installs or removes features according to the configuration. This project models that logic in
Dafny 4.11 and proves what it guarantees, and, where it does not guarantee what one would expect,
exactly when it does. `dafny verify dfyconfig.toml` checks everything.

| file | models |
|---|---|
| `Prelude.dfy` | options; decimal numbers as `%d` prints and `ParseInt` reads them |
| `Json.dfy` | `encoding/json` driven by struct tags, on trees, with `omitempty` and folded keys |
| `ConfigFile.dfy` | the `Config` record, its conversions from and to the resource, the emptiness guards, the merge |
| `ConfigPaths.dfy` | where each setting stands in the file's text, and what is read from text of other origin |
| `ConfigSync.dfy` | the effect of each synchronisation step on the three copies; timestamps; quiescence; the feature gates |
| `Protocol.dfy` | the same steps, interleaved one API call or file operation at a time, with stale reads, conflicts, failures and crashes |
| `EventLoop.dfy` | overlapping `Reconcile` and syncer calls: how often the copies are written, when they agree, when they stay so |
| `Operator.dfy` | the operations as imperative code on the host and the API store, each proved equal to its effect |
| `LogFraming.dfy` | the marker lines that job scripts print and the callback that cuts them out again |
| `JobRunner.dfy` | job names, registry keys, and any number of `RunJob` calls around the shared callback registry |
| `JobRun.dfy` | one `RunJob` call: waiting, collecting logs, cleaning up, assembling volumes |
| `Manifests.dfy` | applying and deleting a stream of documents |
| `Virt.dfy` | the virtualisation feature: fault-free effects and what repeated reconciles lead to |
| `VirtReconciler.dfy` | its reconciler, call by call, against a server that may refuse any call |
| `ArgoCD.dfy` | the ArgoCD reconciler under every pattern of faults |
| `FeatureGates.dfy` | from the resource through the ConfigMap to what the feature reconcilers do |

## Results

**Three copies.** `Protocol.FileKeepsItsMeaning`: from a readable file without a resource, no
interleaving of any number of steps, with stale reads, update conflicts, failed calls and crashes,
changes what the file means, although one of the conversions blanks the resource.
`EventLoop.EventLoopComesToRest`: over every run of overlapping `Reconcile` and syncer calls, with
lagging caches, conflicts, failures and crashes, there is at most one update of the resource, and at
most two writes of the ConfigMap plus two for every call of the syncer that had read the file when
its text was changed under it; once two `Reconcile` calls have taken effect, the file is the
resource, written out, and the copies agree for good if and only if the ConfigMap holds the file and
no call in flight can still write another text. (Calls that do not overlap make two writes at most,
`Copies.Quiescence`; `Protocol.StaleSyncer` shows one overtaken call making two more.)
`Protocol.CrashSafety` and `Protocol.RenameIsCrashSafe`: at every point of every run the file is what
it was, a complete encoding of a committed resource, or empty, and never empty when it is written by
temporary file and rename only; `Protocol.InPlaceWriteIsNotCrashSafe` shows the other writer losing it.

**Logs.** `LogFraming.CaptureIsExact`: the callback gives back both outputs if and only if they do not
forge a marker, not even together with the start of the marker printed after them.
`JobRegistry.ConfusionExactly`: no interleaving shows a callback another job's logs if and only if no
call with a callback shares namespace, prefix and second with another call. `JobRun.RunHelmCommand`:
a Helm command is reported as successful if and only if its job can be started, completes, its logs
can be looked for and no error text was collected.

**Features.** `Virt.StabilisesInTwo`: from every store, two fault-free reconciles install Virt with
the configured emulation, and no number of reconciles does otherwise, when the values ConfigMap is
readable, the client knows the KubeVirt kind and there is a node (without nodes: when the setting is
not "auto" and the other two components are up). `VirtReconciler.Reconciler.Reconcile`: what holds of
one call whatever the server refuses. `VirtReconciler.Reconciler.UninstallVirtComponents`: exactly
which objects go, as a function of the calls that are refused. `FeatureGates.ResourceReachesVirt`: from
the resource, through file and ConfigMap, to the components in the cluster. `ArgoCD.NamespaceIsNotRetried`: over
any run, the namespace goes if and only if some call sees the release, is told that it is uninstalled,
both rightly or by a false report, and has its deletion of the namespace carried out.

Findings about the code, each with its exact condition or a concrete run:

- `MergeAndWriteConfig` announces that it merges and that it creates a missing file. It writes
  exactly what `WriteClusterConfigToFile` writes (the feature versions it keeps are dropped by the
  conversion that follows), and it fails on a missing file, because `os.IsNotExist` does not look
  inside the wrapped error.
- The length test of `isEmptyConfigStruct` never fires, so the guard repeats `isEmptyK8sConfig`.
- A file copied to the resource by `SyncClusterConfig` blanks the resource; timestamps stop a
  repetition only once the clock has passed the file's time.
- A log whose output ends a marker early makes the callback slice with crossed bounds.
- Entries of the callback registry are never removed.
- The KubeVirt check takes a kind unknown to the client for an error, the CDI check does not. A
  process that has never seen the kind therefore never installs Virt, and never gets to rest when
  Virt is switched off.
- Switched off, Virt is removed only when it is completely installed; of a partial installation only
  the namespace goes.
- `UninstallCDI` stops at a refused deletion of its resource and leaves the operator to a later call.
- The exit code of a Helm command is lost in its script, and only text collected from its error output
  makes it a failure. A command that fails is reported as successful when its log cannot be fetched or
  its job is never read; one that succeeds with a warning is reported as failed. So ArgoCD can be
  `Done` without having been installed, or with the release still there when switched off.
- An uninstallation of ArgoCD that removes the release but is reported as failed leaves the namespace
  for good, unless two later commands are falsely reported as successful.
- A values ConfigMap holding the text `null` makes both feature reconcilers panic on every call.
- An ArgoCD release is never upgraded to a new version, and a failing status check passes for its
  absence.

## Model

| member | source | states |
|---|---|---|
| Decimal.ParseAfterFormat | internal/controller/clusterconfig_sync.go:90-93 | a timestamp written into the annotation is read back unchanged, up to the 64-bit limit |
| Decimal.FormatInjective | internal/controller/jobrunner/jobrunner.go:95 | different seconds print differently |
| Decimal.DigitsInOrder | internal/controller/jobrunner/jobrunner.go:95 | decimal numbers are printed digit by digit in the usual order |
| Decimal.SignsAreRead | internal/controller/clusterconfig_sync.go:90-93 | a sign may precede the digits of a timestamp, and digits have to be there |
| Json.RoundTrip | internal/controller/config/config_parser.go:13-89 | decoding what was encoded gives back every value that fits the tags, with empty optional members omitted |
| ConfigFile.UnmarshalAfterMarshal | internal/controller/config/config_parser.go:92-104 | a written configuration file reads back as the record it came from |
| ConfigFile.MarshalInjective | internal/controller/config/config_writer.go:77-105 | two records with the same text are the same |
| ConfigFile.MarshalIsLong | internal/controller/clusterconfig_sync_bidirectional.go:99-114 | no record prints fewer than 50 bytes |
| ConfigFile.SecondGuardIsRedundant | internal/controller/clusterconfig_sync_bidirectional.go:46-58 | the guard on the converted record fires exactly when the guard on the spec does |
| ConfigFile.MapFromClusterConfig | internal/controller/config/config_writer.go:108-171 | mapping the file record back gives the spec it was made from |
| ConfigFile.ConvertToConfig | internal/controller/config/config_writer.go:14-57 | the second conversion in that direction equals the first |
| ConfigFile.ConvertToClusterConfigSpec | internal/controller/config/convert.go:6-37 | the lossy conversion keeps the version and yields a spec that the emptiness guard stops |
| ConfigFile.Normalisation | internal/controller/config/config_parser.go:107-162 | rewriting a file is idempotent, keeps its meaning, and changes it exactly unless its booleans are exact and it has no feature versions |
| ConfigFile.Merged | internal/controller/config/config_writer.go:218-250 | the merged record means the spec and keeps the two feature versions of the file |
| ConfigFile.MergeConfigs | internal/controller/config/config_writer.go:218-250 | the argument itself is overwritten field by field with the merged record |
| ConfigPaths.NetworkSettings | internal/controller/config/config_parser.go:13-47 | the version and every network setting stand under the keys of the file format, optional ones only when they are not empty |
| ConfigPaths.FeatureSettings | internal/controller/config/config_parser.go:49-75 | the same for the features |
| ConfigPaths.ClusterSettings | internal/controller/config/config_parser.go:77-89 | the same for the cluster |
| ConfigPaths.FieldsKeepTheirPlaces | internal/controller/config/config_parser.go:107-162 | every setting of the file goes into the field of the resource with the same name, switches being read in any case |
| ConfigPaths.UnknownFieldsAreSkipped | internal/controller/config/config_parser.go:92-104 | a field under a key that is not the record's own, in whatever case, makes no difference |
| ConfigPaths.CaseDoesNotMatter | internal/controller/config/config_parser.go:92-104 | a key in other letters' case is read like the record's own |
| ConfigPaths.LastTextCounts | internal/controller/config/config_parser.go:92-104 | of a repeated setting the last text counts, and `null` leaves it |
| Copies.GuardsPartition | internal/controller/clusterconfig_sync_bidirectional.go:22-86 | for a readable non-empty file, a non-empty resource and a readable timestamp exactly one of the two operations acts: the resource takes the file over, or the file takes the resource's text, the other does nothing |
| Copies.TimestampReadBack | internal/controller/clusterconfig_sync.go:89-96 | the guards read the second that a step wrote |
| Copies.FileSyncDisablesItself | internal/controller/clusterconfig_sync.go:89-111 | repeating the copy from file to resource, at once or at any later second, does nothing if and only if the clock had passed the file's time |
| Copies.CrSyncDisablesItself | internal/controller/clusterconfig_sync_bidirectional.go:22-86 | a newer resource reaches the file, and the copy closes its guard if and only if the clock has reached the timestamp |
| Copies.FileSyncBlanksTheResource | internal/controller/clusterconfig_sync.go:59-113 | copying the file to the resource leaves a spec that is never copied back |
| Copies.DirectionIsRead | internal/controller/clusterconfig_controller.go:75-79 | only the exact text "false" under the annotation turns a `Reconcile` away from the file |
| Copies.IdleSteps | internal/controller/clusterconfig_controller.go:48-56 | without a resource, or with a file that cannot be read, nothing is changed |
| Copies.SyncEffect | internal/controller/feature_controller.go:41-103 | the file's text under its key, other keys and all else kept, one write exactly when it differs |
| Copies.ReadEffect | internal/controller/clusterconfig_controller.go:81-98 | reading the file: one update with the file's spec, marked "false", stamped with the clock, other annotations kept; `SyncClusterConfig` then stays away if and only if the clock has passed the file's time or the file has no version |
| Copies.WriteEffect | internal/controller/clusterconfig_controller.go:99-117 | writing the file: a new file of this second with the resource's text, no temporary file, nothing else but the ConfigMap |
| Copies.FileSyncEffect | internal/controller/clusterconfig_sync.go:36-113 | when the step from file to resource acts, and its effect on spec, both annotations, the other annotations and all else |
| Copies.CrSyncEffect | internal/controller/clusterconfig_sync_bidirectional.go:18-86 | when the step from resource to file acts, and its effect on content, time, identity and mode of the file and all else |
| Copies.SyncProgress | internal/controller/feature_controller.go:41-103 | afterwards the ConfigMap holds the file; it is written exactly when it did not |
| Copies.CallProgress | internal/controller/clusterconfig_controller.go:75-117 | every call, run by itself, keeps the budget of updates and writes still to come, and `Reconcile` uses it up |
| Copies.Quiescence | internal/controller/clusterconfig_controller.go:75-117 | over any sequence of calls that do not overlap: bounded updates and writes, all copies agreeing after enough `Reconcile` calls, and stable from then on |
| Copies.TwoReconcilesSettle | internal/controller/clusterconfig_controller.go:48-120 | for calls that do not overlap the bounds are one update, two ConfigMap writes and two `Reconcile` calls |
| Copies.AdoptionNormalisesTheFile | internal/controller/clusterconfig_controller.go:75-109 | taking the file over rewrites it in normal form, and leaves it alone exactly if it is normal |
| Copies.GatesAgreeAfterWrite | internal/controller/clusterconfig_controller.go:100-117 | after writing the file, the string tests of both feature reconcilers agree with the booleans of the resource |
| Copies.GatesAgreeAfterRead | internal/controller/virt_controller.go:581-601 | after reading the file they agree if and only if its true booleans are written in lower case |
| Protocol.MapSyncAlone | internal/controller/feature_controller.go:41-103 | the steps of the syncer, run alone, have the sequential effect |
| Protocol.ReconcileAlone | internal/controller/clusterconfig_controller.go:48-120 | the steps of `Reconcile`, run alone, have the sequential effect |
| Protocol.FileSyncAlone | internal/controller/clusterconfig_sync.go:20-123 | the steps of `SyncClusterConfig`, run alone, have the sequential effect |
| Protocol.CrSyncAlone | internal/controller/clusterconfig_sync_bidirectional.go:18-86 | the steps of `SyncK8sToConfigFile`, run alone, have the sequential effect |
| Protocol.OperationsRun | internal/controller/clusterconfig_controller.go:48-120 | each of the four operations, begun with nothing else in flight, has a run with the sequential effect |
| Protocol.OnlyStepsAct | internal/controller/clusterconfig_controller.go:48-120 | beginnings, failures, crashes and time leave the copies alone |
| Protocol.StepHistory | internal/controller/feature_controller.go:85-95 | committed versions of resource and ConfigMap stay in their order |
| Protocol.ReadsMayLag | internal/controller/clusterconfig_controller.go:51-56 | a read may return any version committed so far |
| Protocol.OutdatedWritesAreRefused | internal/controller/clusterconfig_controller.go:95-98 | a write is accepted only on top of the version it is based on, a creation only where there is nothing |
| Protocol.AdvanceKeeps | internal/controller/clusterconfig_controller.go:75-109 | every step of every operation keeps the meaning of the file, of all versions and of everything in flight |
| Protocol.RunKeeps | internal/controller/clusterconfig_sync.go:59-113 | the invariant holds over every run, with faults and crashes |
| Protocol.FileKeepsItsMeaning | internal/controller/clusterconfig_controller.go:75-109 | whatever is interleaved, from any ConfigMap, the file means what it meant or is empty, and then an in-place write is under way or was cut short; resources marked "false" and the versions of the ConfigMap written since agree with it, and every other resource is stopped by the emptiness guard |
| Protocol.CrashSafety | internal/controller/config/config_writer.go:60-105 | at every point of every run the file is what it was, a complete encoding of a committed resource, or empty |
| Protocol.RenameIsCrashSafe | internal/controller/config/config_writer.go:77-105 | without the in-place writer a crash at any point leaves the old file or a complete new one |
| Protocol.InPlaceWriteIsNotCrashSafe | internal/controller/config/config_writer.go:60-74 | a crash between opening and filling leaves a torn file |
| Protocol.StaleSyncer | internal/controller/feature_controller.go:41-103 | a syncer that read the file before it was rewritten puts the old text back into the ConfigMap; its next call repairs it |
| EventLoop.SaneApply | internal/controller/clusterconfig_controller.go:75-117 | every action of the loop keeps the file readable and everything a `Reconcile` in flight holds equal to a committed version |
| EventLoop.BudgetApply | internal/controller/feature_controller.go:41-103 | every action keeps the budget of ConfigMap writes, which only grows when the file's text changes under calls in flight |
| EventLoop.ProgressApply | internal/controller/clusterconfig_controller.go:75-109 | every action keeps the budgets of updates and file changes, and a `Reconcile` that takes effect brings the file nearer to the resource |
| EventLoop.LoopBudgets | internal/controller/clusterconfig_controller.go:75-117 | all budgets over every run, with stale reads, conflicts, failures and crashes; the bounds on updates and ConfigMap writes from any start |
| EventLoop.AgreementIsStable | internal/controller/feature_controller.go:41-103 | the copies agree whatever the loop does next if and only if they agree now, no version a cache may serve carries another spec, and no call in flight can still write another text |
| EventLoop.EventLoopComesToRest | internal/controller/clusterconfig_controller.go:48-120 | one update, two ConfigMap writes and two per overtaken syncer; after two effective `Reconcile` calls the file is the resource, and the exact condition for lasting agreement |
| EventLoop.NextSyncSettles | internal/controller/feature_controller.go:41-103 | a syncer call nobody interferes with completes the agreement |
| Operator.Node.ParseConfigFile | internal/controller/config/config_parser.go:92-104 | reads the record, or fails with an error that wraps the cause |
| Operator.Node.WriteClusterConfigToFile | internal/controller/config/config_writer.go:77-105 | a new file with the encoding of the spec replaces the old one |
| Operator.Node.WriteConfigFile | internal/controller/config/config_writer.go:60-74 | the file is rewritten in place |
| Operator.Node.ReadConfigAndUpdateK8s | internal/controller/config/config_writer.go:174-188 | the spec becomes that of the file, or the call fails with an unreadable file |
| Operator.Node.MergeAndWriteConfig | internal/controller/config/config_writer.go:191-215 | on a readable file, the effect of `WriteClusterConfigToFile`; otherwise a failure without effect |
| Operator.Node.SyncConfig | internal/controller/feature_controller.go:41-103 | the ConfigMap takes the file's encoding, other keys stay, nothing is written when it is there already |
| Operator.Node.Reconcile | internal/controller/clusterconfig_controller.go:48-120 | the annotation decides the direction; exactly the effect on all copies |
| Operator.Node.SyncClusterConfig | internal/controller/clusterconfig_sync.go:20-123 | exactly the effect of the step from file to resource, with its empty, unreadable and newer-resource cases; it fails exactly on a file that holds text but cannot be read |
| Operator.Node.SyncK8sToConfigFile | internal/controller/clusterconfig_sync_bidirectional.go:18-86 | exactly the effect of the step from resource to file, with its two guards and the timestamp |
| LogFraming.Search | internal/controller/jobrunner/jobrunner.go:706-710 | the first occurrence of a marker, or -1 |
| LogFraming.TrimOfPrefix | internal/controller/jobrunner/jobrunner.go:714-718 | trimming a cut-off output equals trimming the output only if just white space was cut off |
| LogFraming.TrimIsExact | internal/controller/jobrunner/jobrunner.go:714-718 | trimming cuts white space off both ends and nothing else |
| LogFraming.Buffers.Callback | internal/controller/jobrunner/jobrunner.go:704-725 | both buffers grow by the trimmed sections; the call panics exactly when slice bounds cross, with the output already written when only the second slice does |
| LogFraming.HelmMarkersWellFormed | internal/controller/jobrunner/jobrunner.go:667-671 | no marker of the Helm script occurs inside an earlier one |
| LogFraming.HostMarkersWellFormed | internal/controller/jobrunner/jobrunner.go:789-793 | the same for the host script |
| LogFraming.CaptureIsExact | internal/controller/jobrunner/jobrunner.go:704-725 | for every log of the printed shape, the two trimmed outputs are captured if and only if they forge no marker |
| LogFraming.CompleteLinesAreCaptured | internal/controller/jobrunner/jobrunner.go:826-844 | outputs of complete lines that contain no later marker are captured exactly, although the markers share borders |
| LogFraming.OutOfBoundsExactly | internal/controller/jobrunner/jobrunner.go:704-725 | on a log of the printed shape a slice is out of bounds if and only if the first end marker begins inside or right behind the first error marker after the output; both are then part of the output |
| LogFraming.CrossedBounds | internal/controller/jobrunner/jobrunner.go:704-725 | an output that ends a marker early makes the slices cross |
| JobNames.JobNameInjective | internal/controller/jobrunner/jobrunner.go:95 | different prefixes or seconds give different job names |
| JobNames.JobKeyInjective | internal/controller/jobrunner/jobrunner.go:444-449 | without slashes in namespaces, different jobs have different keys |
| JobRegistry.ApplyKeeps | internal/controller/jobrunner/jobrunner.go:444-456 | every step of every call keeps the registry, the jobs, the pods and the deliveries well filed |
| JobRegistry.CallbacksReceiveTheirOwnLogs | internal/controller/jobrunner/jobrunner.go:533-593 | over every interleaving in which calls that share namespace, prefix and second have no callback, a callback receives logs of its own job only |
| JobRegistry.ConfusionExactly | internal/controller/jobrunner/jobrunner.go:444-456 | the calls that some interleaving confuses are exactly those in which a call with a callback shares namespace, prefix and second with another |
| JobRegistry.EachCallHearsItself | internal/controller/jobrunner/jobrunner.go:533-593 | over every interleaving of calls that keep apart, a call that sees its job finds its own callback, which gets the log of every pod of that job |
| JobRegistry.SharedSecondMisdelivers | internal/controller/jobrunner/jobrunner.go:444-456 | two calls that share them: the second, failing call is handed the output of the first |
| JobRegistry.EntriesStay | internal/controller/jobrunner/jobrunner.go:66-69 | an entry of the registry is never removed |
| JobRun.OneVerdict | internal/controller/jobrunner/jobrunner.go:547-575 | a sequence of observations has one verdict |
| JobRun.VerdictsAreRead | internal/controller/jobrunner/jobrunner.go:555-565 | completed, failed and undecided in terms of kinds and states of the conditions, the first true one of either kind deciding |
| JobRun.Judge | internal/controller/jobrunner/jobrunner.go:547-575 | one observation decides by its first decisive condition |
| JobRun.PollUntilDone | internal/controller/jobrunner/jobrunner.go:547-575 | the verdict is that of the first observation that is not undecided, or a timeout |
| JobRun.Observe | internal/controller/jobrunner/jobrunner.go:515-545 | the job was seen if and only if one of ten reads succeeded |
| JobRun.Collect | internal/controller/jobrunner/jobrunner.go:577-596 | the buffers grow by the sections of every fetched log, pod by pod and container by container; it panics exactly if one of them does |
| JobRun.FetchedInOrder | internal/controller/jobrunner/jobrunner.go:577-596 | logs are collected pod by pod |
| JobRun.LogsInOrder | internal/controller/jobrunner/jobrunner.go:581-592 | within a pod container by container, those that cannot be fetched being skipped |
| JobRun.OneResult | internal/controller/jobrunner/jobrunner.go:511-596 | what the API answers fixes the result of a wait and what it collects |
| JobRun.WaitForJobCompletion | internal/controller/jobrunner/jobrunner.go:511-596 | verdict, listing and collection together: no error exactly as the observations say, unless a callback exists and the list fails |
| JobRun.Cluster.CleanUp | internal/controller/jobrunner/jobrunner.go:465-507 | the job and its pods are gone but for those whose deletion fails |
| JobRun.Cluster.RunJob | internal/controller/jobrunner/jobrunner.go:72-508 | rejected, failing and completed calls: registry, jobs and pods after the call; result and buffers are those of the wait for the call's own callback, whatever becomes of the cleanup |
| JobRun.Cluster.AwaitAndCleanUp | internal/controller/jobrunner/jobrunner.go:465-508 | the wait's result and what it collected come back unchanged by the cleanup, which a panic skips |
| JobRun.RunHelmCommand | internal/controller/jobrunner/jobrunner.go:629-752 | success is reported if and only if the job can be started, is seen to complete, its logs can be looked for, and no error text was collected, whatever Helm did; the output is what the logs print between the markers, trimmed and joined |
| JobRun.RunHostCommand | internal/controller/jobrunner/jobrunner.go:755-857 | success is reported if and only if the job can be started, is seen to complete and its logs can be looked for, whatever error text was collected; the output is what the logs print as output, trimmed, joined and trimmed again |
| JobRun.LostLogIsSuccess | internal/controller/jobrunner/jobrunner.go:515-545 | a completed Helm job of which no log reaches the caller is a success |
| JobRun.ErrorTextDecides | internal/controller/jobrunner/jobrunner.go:655-676 | with the one log printed by the script, success means that nothing visible was written to the error output, whatever the exit code |
| JobRun.PrintedIsCollected | internal/controller/jobrunner/jobrunner.go:704-725 | from a sequence of printed logs with clean heads and unforged outputs the trimmed outputs are collected in order, and an error text exactly when one of them is visible |
| JobRun.PrintedHelm | internal/controller/jobrunner/jobrunner.go:733-752 | a completed Helm job with printed logs is a success exactly when no error text is visible |
| JobRun.NoResidue | internal/controller/jobrunner/jobrunner.go:458-507 | with answered calls the pods are those of before if and only if none of them already carried the new job's label |
| JobRun.OnlyOwnPodsGo | internal/controller/jobrunner/jobrunner.go:472-487 | exactly the pods of the job in its namespace go, but for those whose deletion fails |
| JobRun.DefaultNamespace | internal/controller/jobrunner/jobrunner.go:82-95 | namespace and name of a job |
| JobRun.VolumeNamesDistinct | internal/controller/jobrunner/jobrunner.go:348-441 | volume names of different mounts differ |
| JobRun.AssembleVolumes | internal/controller/jobrunner/jobrunner.go:348-441 | volumes and mounts pair up by name, names are distinct, and every mount keeps its own path and type |
| Manifests.ApiServer.CreateOrUpdateResource | internal/controller/downloader/downloader.go:96-117 | the object is stored when nothing interferes; what another client writes between reading and writing is never written over, and the call fails |
| Manifests.ApiServer.ApplyYAML | internal/controller/downloader/downloader.go:62-93 | exactly the documents before the first stopping one take effect, an overtaken object keeps what the other client wrote, and success means all of them |
| Manifests.ApiServer.DeleteYAML | internal/controller/downloader/downloader.go:275-320 | every named object is gone unless its own deletion failed; the count is that of the objects deleted |
| Manifests.LastWriterWins | internal/controller/downloader/downloader.go:62-117 | every named key holds its last document, all others are untouched |
| Manifests.RetryCompletes | internal/controller/downloader/downloader.go:62-90 | applying again after a success or an interruption gives what one complete apply gives |
| Manifests.DeleteUndoesApply | internal/controller/downloader/downloader.go:275-316 | deleting after applying gives the store without the named keys, which is the store of before if and only if they were absent |
| Manifests.DeletedMeans | internal/controller/downloader/downloader.go:290-316 | which objects a deletion removes, in terms of the documents |
| Manifests.AppliedMeans | internal/controller/downloader/downloader.go:62-85 | which documents an apply goes on over |
| Virt.LabelsTell | internal/controller/virt_controller.go:174-184 | once every node is labelled, the label test tells whether some node has the device |
| Virt.InstalledMeans | internal/controller/virt_controller.go:398-551 | what counts as installed |
| Virt.PutLaw | internal/controller/downloader/downloader.go:96-117 | an object written is there with the status it had, a new one without, and nothing else changes |
| Virt.DropLaw | internal/controller/downloader/downloader.go:275-316 | what is deleted is gone and not found, resources go with their definition, and nothing else changes |
| Virt.KubeVirtAppliedIs | internal/controller/virt_controller.go:773-807 | the first part of the installation, whatever was there: KubeVirt deployed, emulation unset |
| Virt.CdiInstalledIs | internal/controller/virt_controller.go:1137-1259 | cleaning up and installing CDI gives a deployed, limited CDI from any state |
| Virt.ManagerInstalledIs | internal/controller/virt_controller.go:1262-1356 | installing the manager gives one available deployment from any state |
| Virt.InstallIs | internal/controller/virt_controller.go:769-837 | one complete installation determines all components, whatever was there before, with emulation exactly if no node has the device |
| Virt.FixedPointStays | internal/controller/virt_controller.go:554-704 | once a reconcile changes nothing, no later one does |
| Virt.OnceInstalled | internal/controller/virt_controller.go:642-658 | a reconcile of an installed Virt corrects the emulation and saves the values, and the next changes nothing |
| Virt.OneInstallation | internal/controller/virt_controller.go:610-641 | from every recoverable store one reconcile completes the installation |
| Virt.StabilisesInTwo | internal/controller/virt_controller.go:610-658 | two reconciles settle every recoverable store for good; from any other, no number of reconciles is ever done |
| Virt.DisabledComesToRest | internal/controller/virt_controller.go:659-703 | switched off, two reconciles come to rest, values saved if there was something to remove, and nothing of Virt is left if and only if it was complete or only its namespace was there; with unreadable values or an unknown kind every reconcile fails and changes nothing |
| Virt.UninstalledThenRestarted | internal/controller/virt_controller.go:429-451 | after an uninstallation the same process can install again, a restarted one never can |
| VirtReconciler.Reconciler.Poll | internal/controller/downloader/downloader.go:120-178 | a wait succeeds if and only if one of its polls within the budget is answered, after no refusal where refusals count, and the cluster then is as awaited; it goes on over polls that come too early |
| VirtReconciler.Reconciler.ApplyYAMLFromURL | internal/controller/downloader/downloader.go:44-93 | a prefix of the documents takes effect, all of them on success |
| VirtReconciler.Reconciler.DeleteYAMLFromURL | internal/controller/downloader/downloader.go:256-320 | of a manifest whose download is answered exactly the documents go whose own deletion is not refused; every document gets its call |
| VirtReconciler.Reconciler.EnsureNamespace | internal/controller/downloader/downloader.go:181-200 | on success the namespace is there, and nothing else changes |
| VirtReconciler.Reconciler.RunKVMCheckAndLabelNodes | internal/controller/virt_controller.go:193-395 | exactly when it succeeds; success means that the checking pods are gone or all nodes were seen labelled |
| VirtReconciler.Reconciler.CheckEmulationNeeded | internal/controller/virt_controller.go:154-190 | success gives true exactly for "true", or for "auto" with no node labelled "true" |
| VirtReconciler.Reconciler.UpdateEmulationSetting | internal/controller/virt_controller.go:724-766 | the resource is written if and only if its effective setting differs, and then has the wanted one |
| VirtReconciler.Reconciler.CleanupCDIResources | internal/controller/virt_controller.go:971-1134 | exactly which parts of CDI go, as a function of the calls that are refused; it never fails |
| VirtReconciler.Reconciler.InstallCDI | internal/controller/virt_controller.go:1137-1259 | touches CDI only; success means deployed and limited, and is certain when everything after the cleanup is answered and every wait has an answered poll in its budget |
| VirtReconciler.Reconciler.InstallKubeVirtManager | internal/controller/virt_controller.go:1262-1356 | touches the manager only; success means available, and is certain when its calls are answered and its waits for readiness have an answered poll in their budgets |
| VirtReconciler.Reconciler.InstallVirtComponents | internal/controller/virt_controller.go:769-837 | under any refusals success means that all components are up and emulation follows the labels; when every call is answered and every wait for readiness has an answered poll in its budget, it succeeds wherever there are nodes, with exactly the studied effect |
| VirtReconciler.Reconciler.IsVirtInstalled | internal/controller/virt_controller.go:398-551 | tells whether all components are up; fails on refusals and on an unknown KubeVirt kind, but not on an unknown CDI kind |
| VirtReconciler.Reconciler.UninstallCDI | internal/controller/virt_controller.go:1359-1393 | exactly which parts of CDI go, call by call; the operator is only tried once the deletion of the resource is answered and its kind known |
| VirtReconciler.Reconciler.UninstallKubeVirtManager | internal/controller/virt_controller.go:1396-1415 | both manifests are tried, and exactly the documents go whose download and deletion are not refused |
| VirtReconciler.RefusalsStayLocal | internal/controller/virt_controller.go:847-947 | manager, CDI and KubeVirt each go when their own calls are answered, and both resources and the namespace with their own call, whatever is refused elsewhere |
| VirtReconciler.NothingRefusedNothingLeft | internal/controller/virt_controller.go:847-947 | an uninstallation touches the components only, and without a refusal leaves none, but for the operator of a CDI of unknown kind |
| VirtReconciler.Reconciler.UninstallVirtComponents | internal/controller/virt_controller.go:847-947 | the store afterwards as a function of which calls are refused: every removal is attempted but for documents that cannot be fetched and the operator of a CDI that was not deleted; only a refusal of the last call, the namespace's deletion, is a failure |
| VirtReconciler.Reconciler.SaveValues | internal/controller/virt_controller.go:70-104 | the values are stored, or nothing changes |
| VirtReconciler.Reconciler.GetValues | internal/controller/virt_controller.go:44-67 | the stored settings, none for a missing or blank ConfigMap, no map for the text `null`, a failure for other text that is not an object or a refused call |
| VirtReconciler.Reconciler.IsNamespacePresent | internal/controller/virt_controller.go:707-711 | says present exactly when the look is answered and the namespace is there; a refused look says absent |
| VirtReconciler.Reconciler.Reconcile | internal/controller/virt_controller.go:554-704 | with answered calls and waits, the effect studied in `Virt`; under any refusals, done means done, refused reads are errors without effect, a running installation keeps all but labels, emulation and values while enabled, a partial one is left alone when switched off |
| VirtReconciler.Reconciler.Converge | internal/controller/virt_controller.go:554-704 | after any number of reconciles under any refusals and configurations, two whose calls and waits are answered complete the feature |
| ArgoCD.Reconciler.Reconcile | internal/controller/argocd_controller.go:173-319 | the effect of one reconcile for every pattern of faults: Helm commands that do something or not and are reported as successful or not, API calls that take effect and are reported as failed; nothing is touched without a managed feature and readable configuration and values |
| ArgoCD.UnmanagedIsUntouched | internal/controller/argocd_controller.go:209-213 | over any run, a feature that is not managed is never touched |
| ArgoCD.SwitchedOn | internal/controller/argocd_controller.go:218-265 | release, namespace, values and verdict of one call on an enabled feature, each in terms of what happens to the calls |
| ArgoCD.SwitchedOff | internal/controller/argocd_controller.go:267-314 | the same for a disabled one |
| ArgoCD.NamespaceIsNotRetried | internal/controller/argocd_controller.go:267-304 | over any run of a disabled feature the release goes with the first uninstallation that does anything, and the namespace if and only if some call sees the release, rightly or by a false report, is told that it is uninstalled, rightly or not, and has its deletion of the namespace carried out |
| ArgoCD.OneChanceOnly | internal/controller/argocd_controller.go:267-304 | without false reports the namespace goes if and only if the call that removes the release is told so and has its deletion carried out |
| ArgoCD.LeftoverStays | internal/controller/argocd_controller.go:267-304 | once the release is gone, a leftover namespace goes exactly when a call is falsely told both that the release is there and that it is uninstalled |
| ArgoCD.DoneWhenOff | internal/controller/argocd_controller.go:267-314 | done means that the release is gone, unless its status was reported as a failure or an uninstallation that did nothing as a success |
| ArgoCD.DoneWhenOn | internal/controller/argocd_controller.go:218-265 | done means saved values, and a release exactly if there was one or it was installed by this call, which a falsely reported status check or installation prevents; the configured version exactly if the release had it or was installed by this call |
| ArgoCD.SettlesInOne | internal/controller/argocd_controller.go:173-319 | without faults one reconcile completes either direction, unless the values are unreadable or the namespace was already missing |
| FeatureGates.VirtWish | internal/controller/virt_controller.go:574-607 | what the virtualisation reconciler reads from any configuration |
| FeatureGates.ArgoWish | internal/controller/argocd_controller.go:194-236 | what the ArgoCD reconciler reads from any configuration, its version included |
| FeatureGates.NoConfiguration | internal/controller/virt_controller.go:564-586 | a missing ConfigMap or key is no wish, text that does not decode an error |
| FeatureGates.WishesAreTheGates | internal/controller/argocd_controller.go:202-222 | both reconcilers agree with the gates of the ConfigMap |
| FeatureGates.WishesAfterWrite | internal/controller/clusterconfig_controller.go:99-117 | after writing the file, both are asked for exactly what the resource says, ArgoCD in the default version |
| FeatureGates.WishesAfterRead | internal/controller/clusterconfig_controller.go:81-117 | after reading it, for what the file says in exact texts |
| FeatureGates.ResourceReachesVirt | internal/controller/virt_controller.go:588-703 | from the resource to the cluster: two reconciles after the file is written Virt is as the resource wants it, or gone |
| FeatureGates.VirtValues | internal/controller/virt_controller.go:604-607 | saving sets the three keys and keeps all others |
| FeatureGates.ArgoValues | internal/controller/argocd_controller.go:232-236 | the same for ArgoCD |

## Left out

- JSON text: a printed configuration is identified with its tree; indentation, escapes and number syntax are not modelled, only the printed length that a guard tests.
- Strings are sequences of Unicode characters; key folding is that of ASCII letters.
- Protocol.FileKeepsItsMeaning: `WriteClusterConfigToFile` and `WriteConfigFile` each take two steps (open, fill); finer tearing of a single write, and outside edits of the file or the resource, are not modelled; one `Reconcile` runs at a time, as the controller runs it, and the in-place writer may overlap with anything.
- Copies.Quiescence: calls do not overlap; `EventLoop` takes them apart.
- EventLoop.EventLoopComesToRest: calls of `SyncClusterConfig` and `SyncK8sToConfigFile` are excluded, because with them the copies need not come to rest; their effect on the file is bounded by `Protocol.FileKeepsItsMeaning`. The versions before the run are those a lagging cache may still serve; those marked "false" among them have to carry the current spec, as is the case when there is just one version (`EventLoop.AgreementIsStable` shows what an older one does).
- MergeAndWriteConfig is not one of the interleaved operations: nothing in the operator calls it, and its effect is that of the file write already interleaved.
- Real time: clocks are counters, waits are numbers of polls that their timeouts leave room for.
- Copies.Reconciled: the creation of the operator's own namespace at the start of `Reconcile` is not modelled; no other step reads it.
- Operator.Node.SyncClusterConfig: the call of the feature manager after the update is left out; it does nothing and always succeeds.
- Watches, event filters, leader election and the manager's work queue are library plumbing; deleting the ConfigMap or the resource from outside is not modelled.
- HTTP downloads, version lookups and the YAML decoder: a manifest is a finite list of documents, a download or lookup one call that succeeds or fails.
- Generated scripts, pod scheduling, Helm and kubectl: only the layout of the printed log, and of each Helm command whether it did anything and whether it is reported as successful, are kept; how the outcome of an ArgoCD command follows from its job is the subject of `JobRun.RunHelmCommand`. The host address is not modelled.
- JobRun.Cluster.RunJob: the job's environment, tolerations and init script are not modelled; the loop over mounts reads each mount's own path and type, which relies on the per-iteration loop variables of Go 1.22, the version the module declares.
- VirtReconciler.Reconciler.ApplyYAMLFromURL: manifests are reduced to the documents the reconciler depends on, and updates of the store either happen and are reported or do not happen; document streams in general are in `Manifests`.
- VirtReconciler.Reconciler.Reconcile: the panic on a values ConfigMap holding `null` counts as a failing call, which is what the controller runtime of the declared version makes of it; the same holds for ArgoCD.
- VirtReconciler.Reconciler.UninstallVirtComponents: deleting a namespace does not cascade in the store, and finalizers are not modelled; deleting a definition does remove its resources.
- VirtReconciler.Reconciler.CheckEmulationNeeded: the labels are what the checking pods last wrote; a label left from an earlier check counts, as it does in the code.
- Virt.StabilisesInTwo: a kind that the client has served is remembered until the process restarts; KubeVirt, CDI, the deployment controller and the checking pods make progress in every answered observation.
- `GetHostInfo`, `RunVirtSetupScript`, the feature script runner, logging and error texts: no property depends on them.
