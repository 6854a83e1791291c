# oooops controllers, modelled in Dafny

oooops is a Kubernetes CI/CD operator. A **pipe** watches the **events** of a
repository (pushes, tags, pull requests). For every watched event, the pipe
controller creates a **flow** that runs the pipe's stages on the event's ref,
unless a flow labelled with the event's revision already exists, in which case
it resets the pipe's own flows that differ. The flow cache is read once per
event, so this does not guarantee one flow per revision. The flow controller then drives each flow to completion:

- It partitions the flow's jobs by stage and deletes stray or duplicate jobs.
- It computes the flow's status: two conditions, one status per stage, and a phase.
- It creates a persistent volume claim for the code.
- It runs a bootstrap **git** job that checks the code out, then a **mario** job.
  The mario job serves the repository's manifest ("mario") of actions.
- It attaches that manifest to the flow.
- Finally it creates one user job per stage, strictly one after another.

Both controllers share one reconcile step over a rate-limited work queue. Informer
handlers feed keys into that queue. Three helper programs complete the core:

- the manifest server, which hands the manifest out once to a bearer-token holder;
- the GitHub webhook receiver, which validates HMAC-SHA1 signed deliveries;
- the code fetcher, which resolves a git source to a ref.

The model follows the source's own form:

- **Store reads** are snapshots. A `Lister<T>` holds the items of an informer
  cache, or the failure its lister reports.
- **Store writes** are values. Every reconciliation returns a `SyncOutcome`: the
  writes it sent, in order, and the error it returned. The API server's answer to
  each write is a parameter `ApiServer = Write -> Option<Err>`.
- **Loops the source runs** are Dafny `while` loops in methods. Each method is
  proved equal to a recursive specification function, and the properties are
  proved about that function. These loops are calculateJobMap,
  calculateStageStatus, generateNextJob, constructContainers, the label copies,
  listWatchedEvents, getPipeWatchers, generateFlow's update loop, syncPipe's
  event loop, attachMario's pod loop, Random and the worker loop.
- **Objects whose fields the source updates** are classes:
  - the work queue (`Reconciler.WorkQueue`);
  - the manifest server with its consume counter and stop channel
    (`MarioServer.Server`);
  - the webhook with its started handlers (`GithubHook.Hook`).

Module layout, one file per module:

| file | module | models |
|---|---|---|
| api.dfy | Api | object metadata, owner references, the data types, lister lookups, writes |
| keys.dfy | Keys | "namespace/name" cache keys and their splitting |
| reconciler.dfy | Reconciler | the work queue, the reconcile step, the worker loop |
| pipe.dfy | PipeSync | isWatched, getPipeWatchers, syncPipe, listWatchedEvents, generateFlow, hash, genName |
| pipe_handler.dfy | PipeHandlers | the pipe controller's informer handlers |
| flow_helper.dfy | FlowHelpers | getFlowFromRef, NewFlowCondition, job conditions, nameJoin, stage keys |
| flow_jobmap.dfy | JobMap | calculateJobMap and cleanInvalidJob's deletions |
| flow_status.dfy | FlowStatusSync | syncFlowStatus, calculateStageStatus, generateFlowStatus, the two conditions |
| flow_job.dfy | FlowJobs | syncJob, generateNextJob, generateActionJob, constructContainers, the git and mario jobs |
| flow_volume.dfy | FlowVolumes | syncPVC, syncConfigMap, generateGitScript |
| flow_mario.dfy | MarioAttach | attachMario |
| flow_sync.dfy | FlowSync | syncFlow |
| flow_handler.dfy | FlowHandlers | the flow controller's informer handlers |
| mario_server.dfy | MarioServer | checkToken, isAcceptable, unwarp, handleFunc's consume-once rule |
| github_hook.dfy | GithubHook | validate, validatePayload, Dispatch |
| hex.dfy | Hex | base16 encoding and decoding (section 8 of RFC 4648), as encoding/hex does it |
| http_errors.dfy | HttpErrors | the structured HTTP errors and status codes |
| source.dfy | Source | Fetch, FetchByGit, gitCheckout |
| random.dfy | Random | the random-name generator |

Constants the source uses but does not show are derived from their use sites:

- `UserJobPrefix` is `"user-"`. A user job is named
  `nameJoin(flow, "user", stage)`, and its stage key is that name with `"<flow>-"`
  trimmed (pkg/controller/flow/sync_job.go:127, pkg/controller/flow/sync.go:87).
- The revision label key is `flow.oooops.com/revision`.
- The value of the stage label key is a chosen constant.

## Model

| member | source | states |
|---|---|---|
| Api.ControllerOf | pkg/controller/flow/handler.go:20-23 | the controller reference is the first owner reference marked controller; None exactly when no reference is marked |
| Api.NewControllerRef | pkg/controller/flow/sync_job.go:99 | the reference a controller stamps on its children is marked controller and block-owner-deletion, and carries the owner's UID, name and the controller's kind |
| Api.SoleControllerRef | pkg/controller/flow/sync_job.go:125-133 | an object whose only owner reference is a new controller reference of an owner is controlled by that owner, and that reference is its controller |
| Api.Filter | pkg/controller/pipe/helper.go:25-31 | the kept elements are exactly the elements the predicate accepts, never more than the input |
| Api.Get | pkg/controller/flow/sync.go:29-35 | a failed lister reports its failure; a found object is in the cache under that namespace and name; NotFound exactly when no cached object has them |
| Api.FirstNamed | pkg/controller/flow/helper.go:19-22 | the lookup finds an object with the namespace and name if and only if the cache holds one |
| Keys.MetaKey | pkg/controller/flow/handler.go:82 | the key is "namespace/name", or the bare name in the empty namespace |
| Keys.DeletionHandlingKey | pkg/controller/flow/handler.go:82-86 | a tombstone yields the key it carries; an object with metadata yields its key; any other object is a key error |
| Keys.IndexOf | pkg/mario/mario.go:233 | the position of the first occurrence of a character, None exactly when it does not occur |
| Keys.SplitKey | pkg/controller/flow/sync.go:24-27 | a key without '/' is a name in the empty namespace; split parts never contain '/' |
| Keys.SplitMetaKey | pkg/controller/pipe/sync.go:26-31 | splitting the key of an object gives back its namespace and name (round trip with MetaKey) |
| Keys.SplitRejectsTwoSeparators | pkg/controller/flow/sync.go:24-27 | a key with two or more '/' is rejected |
| Reconciler.AddKeysAppend | pkg/controller/pipe/handler.go:24-26 | adding two runs of keys is adding their concatenation |
| Reconciler.AddKeysEffect | pkg/controller/flow/handler.go:88 | adding keys to a running queue marks exactly those keys dirty, queues only keys already queued or added, and leaves processing and backoff alone; a shut-down queue ignores adds |
| Reconciler.AddKeysWellFormed | pkg/controller/flow/handler.go:88 | adding any keys keeps the queue well formed: each ready key queued once, and dirty, not processing |
| Reconciler.AddKeyWellFormed | pkg/controller/pipe/handler.go:70 | adding one key keeps the queue well formed |
| Reconciler.AddKeyIdempotent | pkg/controller/pipe/handler.go:70 | adding a key twice is adding it once: the queue deduplicates |
| Reconciler.ProcessedOutcome | pkg/controller/controller.go:28-35 | a processed key leaves processing, the dirty set and the ready queue; a failure raises its requeue count by one and makes it wait out a backoff (unless the queue is shutting down); a success forgets its requeue count; the queue stays well formed |
| Reconciler.WorkQueue.constructor | pkg/controller/controller.go:22 | a new queue is empty, running and well formed |
| Reconciler.WorkQueue.Add | pkg/controller/flow/handler.go:88 | the new queue state is AddKey of the old one |
| Reconciler.WorkQueue.Get | pkg/controller/controller.go:24-27 | quit exactly when the queue is empty (and shutting down), with no change; otherwise the first ready key moves to processing |
| Reconciler.WorkQueue.Done | pkg/controller/controller.go:28 | the key leaves processing, and is queued again if it was added meanwhile |
| Reconciler.WorkQueue.AddRateLimited | pkg/controller/controller.go:31 | the key's failure count grows by one and the key waits for its backoff |
| Reconciler.WorkQueue.Expire | pkg/controller/controller.go:31 | when a waiting key's backoff expires, it leaves the waiting list and is added to the queue |
| Reconciler.ExpiredKeyReady | pkg/controller/controller.go:31 | an expired key is pending again and, unless it is being processed, ready to be handed out; the queue stays well formed; a shut-down queue ignores it |
| Reconciler.FailedKeyRequeued | pkg/controller/controller.go:30-32 | a key whose sync failed on a running queue is handed out again once its backoff expires |
| Reconciler.WorkQueue.Forget | pkg/controller/controller.go:34 | the key's failure count is cleared |
| Reconciler.WorkQueue.ShutDown | pkg/controller/controller.go:24-26 | only the shutting-down flag changes |
| Reconciler.Step | pkg/controller/controller.go:22-37 | quit exactly when the queue is empty, and then the syncer is not consulted and nothing changes; otherwise the error is the syncer's on the first key and the queue is Processed with that outcome |
| Reconciler.RunAll | pkg/controller/controller.go:40-55 | draining processes every ready key: the queue ends empty and the shutdown flag is unchanged |
| Reconciler.ProcessedFields | pkg/controller/controller.go:24-35 | one processed key, field by field: dequeued, no longer dirty, processing unchanged, its count raised or removed, waiting on failure |
| Reconciler.ProcessedWaiting | pkg/controller/controller.go:24-35 | one processed key leaves the queue and, on failure of a running queue, joins the waiting list |
| Reconciler.FailedKeys | pkg/controller/controller.go:30-32 | a key is listed exactly when it is one of the keys and its sync fails |
| Reconciler.RunAllQueues | pkg/controller/controller.go:40-55 | draining keeps the queue well formed, leaves processing alone and clears the drained keys from the dirty set |
| Reconciler.RunAllWaiting | pkg/controller/controller.go:30-32 | after draining a running queue, the failed keys wait out their backoff after those already waiting, in queue order; a shut-down queue adds none |
| Reconciler.RunAllRequeues | pkg/controller/controller.go:30-35 | after draining, each failed key's count is one higher, each successful key is forgotten, and other keys' counts are untouched |
| Reconciler.RunWorker | pkg/controller/controller.go:40-55 | the loop drains the queue, reports the error of every key it syncs in order, reports quit exactly when the queue is shutting down, and leaves the queue in the state RunAll gives; on a running queue it stops where Get would block |
| PipeSync.IsWatched | pkg/controller/pipe/helper.go:8-18 | true exactly when the repositories are equal and the event's trigger is in the pipe's list; false for another repository or an empty list |
| PipeSync.Watchers | pkg/controller/pipe/helper.go:25-31 | the watchers are exactly the pipes of the event's namespace that watch it |
| PipeSync.GetPipeWatchers | pkg/controller/pipe/helper.go:20-33 | a lister failure is returned with no watchers; otherwise the watchers in lister order |
| PipeSync.WatchedEvents | pkg/controller/pipe/sync.go:59-66 | the watched events are exactly the events of any namespace the pipe watches |
| PipeSync.ListWatchedEvents | pkg/controller/pipe/sync.go:53-70 | a lister failure is returned; otherwise the watched events in lister order |
| PipeSync.Hash | pkg/controller/pipe/sync.go:169-177 | the revision hash has 11 characters |
| PipeSync.HashIsLowerHex | pkg/controller/pipe/sync.go:175-176 | every character of the hash is a lower-case hex digit |
| PipeSync.HashKeepsDigestPrefix | pkg/controller/pipe/sync.go:173-176 | the first ten hex digits of the hash decode to the first five bytes of md5("repo@ref") |
| PipeSync.GenName | pkg/controller/pipe/sync.go:180-182 | a flow name is the pipe's name, a dash, then the suffix |
| PipeSync.GenNameFromRandom | pkg/controller/pipe/sync.go:181 | with the random generator's seven letters, the name is the pipe's name, a dash and seven ASCII letters |
| PipeSync.RevisionFlows | pkg/controller/pipe/sync.go:78-82 | the selected flows are exactly the cached flows of the pipe's namespace labelled with the revision |
| PipeSync.ExpectedFlow | pkg/controller/pipe/sync.go:86-120 | the flow to create: the pipe's namespace, the revision label, the pipe as controller, the pipe's selector plus the revision label, the pipe's git at the event's ref, the pipe's stages, no manifest, phase Pending; it is triggered by the event |
| PipeSync.ResetFlow | pkg/controller/pipe/sync.go:141-146 | the update equals the expected flow in git and stages, drops the manifest, sets phase Pending, and keeps metadata, selector, stage statuses and conditions |
| PipeSync.GenerateFlowOutcome | pkg/controller/pipe/sync.go:78-85 | a flow-lister failure is returned with no write |
| PipeSync.GenerateFlowCases | pkg/controller/pipe/sync.go:122-154 | with no flow carrying the revision, exactly the expected flow is created and the create error returned; otherwise only updates are sent and no error is returned |
| PipeSync.UpdatesTargetDifferingFlows | pkg/controller/pipe/sync.go:130-152 | every update resets a selected flow that the pipe controls, the event triggered and that differs from the expected flow, and makes it semantically equal to the expected flow |
| PipeSync.NoUpdateWhenEqual | pkg/controller/pipe/sync.go:140-165 | flows equal to the expected flow in git and stages get no write |
| PipeSync.RerunAfterCreateWritesNothing | pkg/controller/pipe/sync.go:122-152 | once the created flow is in the cache, generating again writes nothing and succeeds, whatever name the rerun draws |
| PipeSync.GenerateFlow | pkg/controller/pipe/sync.go:72-155 | the method sends exactly the writes of GenerateFlowOutcome and returns its error |
| PipeSync.SendUpdates | pkg/controller/pipe/sync.go:130-152 | the loop over the selected flows sends exactly Updates: it stops at a flow not controlled or not triggered, and at the first failed update |
| PipeSync.GenerateFlows | pkg/controller/pipe/sync.go:44-49 | no events, no writes and no error |
| PipeSync.GenerateFlowsError | pkg/controller/pipe/sync.go:44-49 | no error means every event's generateFlow succeeded; an error is the error of one of the events |
| PipeSync.SameRevisionCreatedTwice | pkg/controller/pipe/sync.go:44-128 | two watched events with the same repository and ref, over an empty flow cache, make one pass create two flows with the same revision label and the same code |
| PipeSync.SecondPipeGetsNoFlow | pkg/controller/pipe/sync.go:122-134 | a second pipe of the namespace watching the same repository and ref writes nothing once the first pipe's flow exists, since it does not control that flow |
| PipeSync.SyncPipeOutcome | pkg/controller/pipe/sync.go:19-51 | a malformed key is returned; a missing pipe is success with no writes; writes happen only when both the event and the flow listers succeed |
| PipeSync.NoWritesOnFlowListFailure | pkg/controller/pipe/sync.go:78-85 | when the flow lister fails, the first event returns its failure and nothing is written |
| PipeSync.SyncPipe | pkg/controller/pipe/sync.go:19-51 | the method sends exactly the writes of SyncPipeOutcome and returns its error |
| PipeSync.GenerateAll | pkg/controller/pipe/sync.go:44-49 | the loop over the watched events equals GenerateFlows: in order, stopping at the first error |
| PipeHandlers.PipeKeys | pkg/controller/pipe/handler.go:24-26 | one key per pipe, in order |
| PipeHandlers.ObjKeys | pkg/controller/pipe/handler.go:63-71 | a pipe yields its key; an object without metadata yields none |
| PipeHandlers.EventPipeKeys | pkg/controller/pipe/handler.go:12-27 | a non-event or a watcher-lookup failure enqueues nothing; otherwise the keys of exactly the watching pipes |
| PipeHandlers.UpdateEventKeys | pkg/controller/pipe/handler.go:29-43 | an unchanged resource version or an equal spec enqueues nothing; otherwise it is adding the new event |
| PipeHandlers.NilToEmptyExtraEnqueues | pkg/controller/pipe/handler.go:36-42 | an Extra map going from nil to empty under a new resource version counts as a changed spec, and the watching pipes are enqueued |
| PipeHandlers.DeleteEventKeys | pkg/controller/pipe/handler.go:45-61 | a deleted event, direct or in a tombstone, enqueues what adding it does; other tombstones nothing |
| PipeHandlers.DeletePipeKeys | pkg/controller/pipe/handler.go:77-94 | a deleted pipe, direct or in a tombstone, enqueues its key; anything else nothing |
| PipeHandlers.AddPipe | pkg/controller/pipe/handler.go:63-71 | the queue receives exactly ObjKeys of the object |
| PipeHandlers.UpdatePipe | pkg/controller/pipe/handler.go:73-75 | the queue receives the new pipe's key |
| PipeHandlers.DeletePipe | pkg/controller/pipe/handler.go:77-94 | the queue receives exactly DeletePipeKeys |
| PipeHandlers.AddEvent | pkg/controller/pipe/handler.go:12-27 | the queue receives exactly EventPipeKeys |
| PipeHandlers.UpdateEvent | pkg/controller/pipe/handler.go:29-43 | the queue receives exactly UpdateEventKeys |
| PipeHandlers.DeleteEvent | pkg/controller/pipe/handler.go:45-61 | the queue receives exactly DeleteEventKeys |
| FlowHelpers.GetFlowFromRef | pkg/controller/flow/helper.go:14-28 | another kind or a failing lister yields nothing; a result is a cached flow of the namespace with the reference's name and UID |
| FlowHelpers.GetFlowFromRefResolves | pkg/controller/flow/helper.go:14-28 | in a cache with unique names, a reference resolves exactly when the kind matches and a cached flow has its namespace, name and UID |
| FlowHelpers.NewFlowCondition | pkg/controller/flow/helper.go:31-40 | type, status, reason and message are copied, and both timestamps are the clock's reading |
| FlowHelpers.JobConditionStatus | pkg/controller/flow/helper.go:58-67 | the status of the first condition of the type; None exactly when no condition has it |
| FlowHelpers.IsJobComplete | pkg/controller/flow/helper.go:42-48 | true exactly when the first Complete condition is True; a job without conditions is not complete |
| FlowHelpers.IsJobFailed | pkg/controller/flow/helper.go:50-56 | true exactly when the first Failed condition is True; a job without conditions has not failed |
| FlowHelpers.NameJoin | pkg/controller/flow/helper.go:76-78 | the join's length is the parts' total plus one dash between each, and it starts with the first part |
| FlowHelpers.TrimPrefix | pkg/controller/flow/sync.go:87 | with the prefix present, prefix + result is the input; otherwise the input is unchanged |
| FlowHelpers.StageKeyOfJoinedName | pkg/controller/flow/sync.go:87 | trimming "<flow>-" from a name joined from the flow name and more parts gives the join of those parts |
| FlowHelpers.UserJobKey | pkg/controller/flow/sync_job.go:127 | the user job of a stage is keyed by the user prefix and the stage name, which is a valid stage key |
| JobMap.JobMapEntriesValid | pkg/controller/flow/sync.go:81-118 | every entry has a valid stage key ("git", "mario" or the user prefix) and is a listed job the flow controls whose stage key is its key |
| JobMap.JobMapDeletesListed | pkg/controller/flow/sync.go:93-115 | every deletion is of a listed job the flow controls |
| JobMap.JobMapCoversCandidates | pkg/controller/flow/sync.go:99-117 | every controlled job with a valid stage key has an entry under that key |
| JobMap.JobMapKeepsNewest | pkg/controller/flow/sync.go:99-116 | the entry for a key is the newest of that key's listed candidates; among equally old candidates, the one listed last |
| JobMap.DeletedNeverKept | pkg/controller/flow/sync.go:79-121 | when listed jobs have distinct names, no deleted job is kept in the map |
| JobMap.JobMapDeletesComplete | pkg/controller/flow/sync.go:87-116 | every listed job the flow controls is either kept under its stage key or deleted; a controlled job with an invalid stage key is always deleted |
| JobMap.JobMapPartition | pkg/controller/flow/sync.go:79-121 | when listed jobs have distinct names, the controlled jobs split exactly: a controlled job is kept if and only if it is not deleted, every deletion is of a controlled listed job, and every entry is one |
| JobMap.CalculateJobMap | pkg/controller/flow/sync.go:79-121 | the loop's map and deletions are exactly JobMapOf over all the listed jobs |
| FlowStatusSync.GitVolumeCondition | pkg/controller/flow/sync_status.go:128-166 | True exactly for a bound claim; Unknown exactly for a phase other than pending, bound or lost; False for no claim, pending or lost, each with its reason |
| FlowStatusSync.MarioCondition | pkg/controller/flow/sync_status.go:168-230 | True exactly when a manifest is attached; otherwise False, with the mario job's state first, then the git job's, then GitPending |
| FlowStatusSync.JobPhase | pkg/controller/flow/sync_status.go:69-77 | Failed exactly when the job failed; Complete when complete and not failed; otherwise Running |
| FlowStatusSync.Missing | pkg/controller/flow/sync_status.go:59-67 | n statuses with no job name and phase Missing |
| FlowStatusSync.StageStatusesShape | pkg/controller/flow/sync_status.go:47-85 | the statuses cover the stages up to the last one with a job; each is its stage's status; no later stage has a job |
| FlowStatusSync.StageStatusesMeaning | pkg/controller/flow/sync_status.go:47-85 | a stage with a job is reported with the job's name and phase; a reported stage without a job is Missing; nothing is reported exactly when no stage has a job |
| FlowStatusSync.CalculateStageStatus | pkg/controller/flow/sync_status.go:47-85 | the loop with its missing count builds exactly StageStatuses, looking user jobs up under the user prefix |
| FlowStatusSync.PhaseOf | pkg/controller/flow/sync_status.go:104-125 | a computed phase is never unset |
| FlowStatusSync.PhasePending | pkg/controller/flow/sync_status.go:106-109 | the flow is Pending exactly when no stage has a job |
| FlowStatusSync.PhaseSucceeded | pkg/controller/flow/sync_status.go:118-122 | the flow Succeeded exactly when the last stage has a job that completed without failing |
| FlowStatusSync.PhaseFailed | pkg/controller/flow/sync_status.go:111-116 | the flow Failed exactly when the job of the last stage that has one failed |
| FlowStatusSync.FlowStatusOf | pkg/controller/flow/sync_status.go:87-126 | two conditions, git volume first and mario second; both conditions stamped with the current time; no more stage statuses than stages; a status stamped at another time is never equal to the stored one |
| FlowStatusSync.GenerateFlowStatus | pkg/controller/flow/sync_status.go:87-126 | the method computes exactly FlowStatusOf |
| FlowStatusSync.SyncFlowStatus | pkg/controller/flow/sync_status.go:19-45 | no write and no updated flow when the status is unchanged; otherwise one UpdateStatus carrying only namespace, name, resource version and the new status; an updated flow comes back exactly on success |
| FlowStatusSync.AsWrittenNeverSeesUserJobs | pkg/controller/flow/sync_status.go:53 | when the job map holds only stage keys and no stage is named like one, the bare-name lookup reports no stage at all and the flow stays Pending whatever its jobs do |
| FlowStatusSync.AsWrittenCounterexample | pkg/controller/flow/sync_status.go:53 | a one-stage flow whose job completed is Pending as written and Succeeded with the user-prefix lookup |
| FlowJobs.OwnedMeta | pkg/controller/flow/sync_job.go:125-133 | the metadata of a created job: the flow's namespace, the given name and labels, and the flow as controller |
| FlowJobs.PutAll | pkg/controller/flow/sync_job.go:108-110 | copying every entry gives the union with the source winning on shared keys |
| FlowJobs.PutAbsent | pkg/controller/flow/sync_job.go:111-116 | copying only absent keys gives the union with the existing map winning |
| FlowJobs.GitJob | pkg/controller/flow/sync_job.go:202-267 | named "<flow>-git" with the selector's labels, controlled by the flow, restart Never, the claim and script volumes, one container of the git image running the mounted script |
| FlowJobs.MarioJob | pkg/controller/flow/sync_job.go:269-345 | named "<flow>-mario" with the selector's labels plus the mario stage label on job and pod, service account "mario", the claim volume, one container of the mario image |
| FlowJobs.GenerateMarioJob | pkg/controller/flow/sync_job.go:284-289 | the label-copying loop builds exactly MarioJob |
| FlowJobs.FindAction | pkg/controller/flow/sync_job.go:101-105 | the first action with the name; None exactly when no action has it |
| FlowJobs.FindFirstAction | pkg/controller/flow/sync_job.go:101-105 | the scan stops at the first action carrying the name |
| FlowJobs.ContainersOf | pkg/controller/flow/sync_job.go:160-200 | an error exactly when the template is missing or a user variable takes the version variable's name; otherwise one container whose environment is the version variable followed by the user variables, mounted at the working directory |
| FlowJobs.ConstructContainers | pkg/controller/flow/sync_job.go:160-200 | the environment-building loop computes exactly ContainersOf |
| FlowJobs.UserJob | pkg/controller/flow/sync_job.go:125-152 | named "<flow>-user-<stage>" and a candidate for the stage's user key |
| FlowJobs.ActionJob | pkg/controller/flow/sync_job.go:96-158 | no job and no error exactly when no action matches; an error exactly when the containers fail; a job has the user name, the selector labels over the manifest's labels, restart Never and the claim volume |
| FlowJobs.GenerateActionJob | pkg/controller/flow/sync_job.go:96-158 | the method computes exactly ActionJob |
| FlowJobs.LastStarted | pkg/controller/flow/sync_job.go:60-68 | the index of the last stage with a user job, or -1; no later stage has one |
| FlowJobs.FindLastStarted | pkg/controller/flow/sync_job.go:60-68 | the loop computes exactly LastStarted |
| FlowJobs.NextJob | pkg/controller/flow/sync_job.go:59-94 | once the last stage has a job, no new job is created |
| FlowJobs.GenerateNextJob | pkg/controller/flow/sync_job.go:59-94 | the method computes exactly NextJob |
| FlowJobs.NextJobProgress | pkg/controller/flow/sync_job.go:59-94 | when stage i has no job, no later stage has one, and the stage before it (if any) has a completed job, the next job is stage i's action job |
| FlowJobs.NextJobWaits | pkg/controller/flow/sync_job.go:69-80 | while the last started stage's job has not completed, no new job is created and no error is returned |
| FlowJobs.NextJobInOrder | pkg/controller/flow/sync_job.go:69-91 | a job is produced only for a stage with no job, none after it having one, right after a stage whose job completed |
| FlowJobs.NextJobAfterStatuses | pkg/controller/flow/sync_job.go:87-91 | the stage statuses cover the stages up to the last started one; a new job is for the first stage without a status, and the status before it, if any, is Complete or Failed; when that status is Complete (or there is none) and a stage remains, the next job is that stage's action job |
| FlowJobs.SyncJobOutcome | pkg/controller/flow/sync_job.go:21-57 | at most one create, always of a job competing for a stage without one; without a manifest, the git job exactly when neither bootstrap job exists, the mario job exactly when the git job completed and no mario job exists; with a manifest, the outcome is NextJob's: its error, nothing, or the create of its job with the create's error |
| FlowJobs.SyncJobAdvances | pkg/controller/flow/sync_job.go:21-94 | when stage i is next in order and has an action job, the sync creates exactly that job |
| FlowJobs.SyncJob | pkg/controller/flow/sync_job.go:21-57 | the method sends exactly SyncJobOutcome's writes |
| FlowVolumes.ClaimOf | pkg/controller/flow/sync_pvc.go:22-35 | the claim is named after the flow, the flow's controller reference appended to the template's owners, the selector's labels over the template's, the template's spec kept |
| FlowVolumes.SyncPvcOutcome | pkg/controller/flow/sync_pvc.go:12-43 | an existing claim is never written, and is an error exactly when the flow does not control it; a missing claim is created once from the template and the create error returned |
| FlowVolumes.SyncPvc | pkg/controller/flow/sync_pvc.go:12-43 | the method computes exactly SyncPvcOutcome |
| FlowVolumes.CreatedClaimAccepted | pkg/controller/flow/sync_pvc.go:13-27 | a claim created from a template without its own controller is accepted by the next reconciliation |
| FlowVolumes.GitScript | pkg/controller/flow/sync_cm.go:53-78 | rendering fails exactly when rendering the repository or the ref fails |
| FlowVolumes.ScriptConfigMap | pkg/controller/flow/sync_cm.go:64-75 | named after the flow, controlled by it, with the single entry "git.sh" |
| FlowVolumes.SyncConfigMapOutcome | pkg/controller/flow/sync_cm.go:30-51 | an existing map is never written, and is an error exactly when the flow does not control it; a rendering failure is returned with no write; otherwise the map is created |
| FlowVolumes.GitJobUsesFlowVolumes | pkg/controller/flow/sync_job.go:224-261 | the git job mounts the claim and the config map these syncs create, and runs the script's entry from the mount path |
| MarioAttach.LastFetchedMeaning | pkg/controller/flow/mario.go:34-44 | nothing is fetched exactly when no ready pod of the mario job yields a manifest; otherwise the manifest of the last pod that does |
| MarioAttach.AttachOutcome | pkg/controller/flow/mario.go:16-55 | an attached manifest or a missing mario job does nothing; a listing error is returned; at most one update, carrying a manifest fetched from an eligible pod; attached exactly when the update succeeded |
| MarioAttach.AttachMario | pkg/controller/flow/mario.go:16-55 | the pod loop computes exactly AttachOutcome |
| MarioAttach.AttachOnce | pkg/controller/flow/mario.go:18-20 | once a manifest is attached, attaching again writes nothing |
| FlowSync.SelectedJobs | pkg/controller/flow/sync.go:37-45 | exactly the cached jobs of the namespace carrying every selector label |
| FlowSync.ReconcileTail | pkg/controller/flow/sync.go:56-72 | at most three writes after the deletions; none when the status is unchanged; otherwise the status update comes first, and a failed update ends the pass with its error |
| FlowSync.ReconcileTailCreatesOnlyMissing | pkg/controller/flow/sync.go:56-72 | no write after the deletions deletes, and every job created competes for a stage without an entry |
| FlowSync.ReconcileFlow | pkg/controller/flow/sync.go:54-74 | the deletions come first; at most three more writes; none when the status is unchanged; created jobs fill empty stages; deleted jobs are listed jobs the flow controls |
| FlowSync.SyncFlowOutcome | pkg/controller/flow/sync.go:17-75 | a malformed key is returned; a missing flow is success with nothing done; writes only when every lister succeeds |
| FlowSync.SyncFlow | pkg/controller/flow/sync.go:17-75 | the method sends exactly SyncFlowOutcome's writes and returns its error |
| FlowSync.ReconcileFlowStatusChanged | pkg/controller/flow/sync.go:54-74 | when the status changed, the first write after the deletions is the status update; a failed update ends the pass with its error; a failed claim sync ends it after the claim writes; otherwise the job step runs on the flow carrying the new status and its error is returned |
| FlowSync.StatusRewrittenWhenClockMoves | pkg/controller/flow/sync.go:54-64 | after a status write, a rerun at any other clock reading writes the status again right after the deletions |
| FlowSync.StableOnceStatusWritten | pkg/controller/flow/sync.go:56-64 | once the status is written, a rerun on an unchanged cache at the same clock reading writes nothing beyond the deletions |
| FlowSync.JobMapIgnoresStatus | pkg/controller/flow/sync.go:79-121 | the partition reads only the flow's metadata |
| FlowHandlers.RefKeys | pkg/controller/flow/handler.go:20-30 | at most one key, present exactly when the reference resolves, and then the resolved flow's key |
| FlowHandlers.FlowObjKeys | pkg/controller/flow/handler.go:81-89 | a flow yields its key, a tombstone its carried key, any other object none |
| FlowHandlers.JobKeys | pkg/controller/flow/handler.go:14-31 | a non-job enqueues nothing; a job enqueues the flow its controller reference resolves to |
| FlowHandlers.JobKeysResolve | pkg/controller/flow/handler.go:14-31 | a job's flow is enqueued exactly when the cache holds a flow with the reference's namespace, name and UID |
| FlowHandlers.UpdateJobKeys | pkg/controller/flow/handler.go:33-61 | an unchanged resource version enqueues nothing; otherwise at most two keys, and a key is enqueued exactly when it names the current owner, or the previous owner when the reference changed; the current owner comes last |
| FlowHandlers.UpdateJobAsWrittenMissesOldOwner | pkg/controller/flow/handler.go:47-53 | for a job moved between flows, the handler as written enqueues only the new flow; the corrected one enqueues both |
| FlowHandlers.DeleteJobKeys | pkg/controller/flow/handler.go:63-79 | a deleted job, direct or in a tombstone, enqueues what adding it does; anything else nothing |
| FlowHandlers.DeleteFlowKeys | pkg/controller/flow/handler.go:95-112 | a deleted flow, direct or in a tombstone, enqueues its key; anything else nothing |
| FlowHandlers.AddFlow | pkg/controller/flow/handler.go:81-89 | the queue receives exactly FlowObjKeys of the object |
| FlowHandlers.UpdateFlow | pkg/controller/flow/handler.go:91-93 | the queue receives the current flow's keys |
| FlowHandlers.DeleteFlow | pkg/controller/flow/handler.go:95-112 | the queue receives exactly DeleteFlowKeys |
| FlowHandlers.AddRefFlow | pkg/controller/flow/handler.go:20-30 | the queue receives exactly RefKeys |
| FlowHandlers.AddJob | pkg/controller/flow/handler.go:14-31 | the queue receives exactly JobKeys |
| FlowHandlers.UpdateJob | pkg/controller/flow/handler.go:33-61 | the queue receives exactly UpdateJobKeys (the corrected reference comparison) |
| FlowHandlers.DeleteJob | pkg/controller/flow/handler.go:63-79 | the queue receives exactly DeleteJobKeys |
| MarioServer.TrimLeft | pkg/mario/mario.go:234 | a suffix of the input that does not start with white space, only white space dropped before it |
| MarioServer.TrimRight | pkg/mario/mario.go:234 | a prefix of the input that does not end with white space, only white space dropped after it |
| MarioServer.TrimSpace | pkg/mario/mario.go:234-238 | no white space at either end; text without such white space is unchanged |
| MarioServer.TrimSpaceIdempotent | pkg/mario/mario.go:234-238 | trimming twice is trimming once |
| MarioServer.CheckToken | pkg/mario/mario.go:228-232 | an empty Authorization header is rejected |
| MarioServer.CheckTokenAccepts | pkg/mario/mario.go:228-242 | accepted exactly when the header splits at its first space into the scheme "Bearer" and the configured token, once each part is trimmed |
| MarioServer.CheckTokenPanics | pkg/mario/mario.go:233-238 | the check reads a second field that is not there exactly when the header holds no space and trims to the scheme |
| MarioServer.BearerHeaderAccepted | pkg/mario/mario.go:228-242 | "Bearer " followed by a trimmed token is accepted |
| MarioServer.SchemeIsCaseSensitive | pkg/mario/mario.go:235-237 | a lower-case "bearer" scheme is refused |
| MarioServer.FirstAdmitted | pkg/mario/mario.go:207-214 | the first serializer from an index on that a clause admits; None exactly when none does |
| MarioServer.Negotiate | pkg/mario/mario.go:204-218 | a result is the preferred choice: clauses in order, then serializers in order; None exactly when no clause admits any serializer |
| MarioServer.PreferredUnique | pkg/mario/mario.go:204-218 | the preferred choice is unique |
| MarioServer.IsAcceptable | pkg/mario/mario.go:199-219 | an empty header with serializers takes the first; otherwise the preferred serializer, or none exactly when nothing is admitted |
| MarioServer.WildcardTakesFirst | pkg/mario/mario.go:210-213 | a leading "*/*" clause takes the first serializer |
| MarioServer.Unwrap | pkg/mario/mario.go:258-269 | a structured error passes through; any other becomes 500, "Unknown", with its message |
| MarioServer.MediaTypes | pkg/mario/mario.go:169-173 | the media types of the serializers, in order |
| MarioServer.Respond | pkg/mario/mario.go:180-188 | the manifest is consumed only while the counter is zero |
| MarioServer.RespondChecks | pkg/mario/mario.go:162-195 | the checks run in order: token (401), media type (406), consumption (422); the manifest is consumed exactly when all pass, and its encoding fails exactly when the encoder does |
| MarioServer.Replies | pkg/mario/mario.go:160-197 | one reply per request |
| MarioServer.NoneConsumedAfter | pkg/mario/mario.go:182-186 | once the counter has moved, no request consumes the manifest |
| MarioServer.ConsumedAtMostOnce | pkg/mario/mario.go:180-195 | whatever the requests, at most one of them consumes the manifest |
| MarioServer.ServerConsumesAtMostOnce | pkg/mario/mario.go:180-195 | a freshly started server hands the manifest out at most once |
| MarioServer.Server.constructor | pkg/mario/mario.go:73-84 | a new server has counted nothing and not stopped |
| MarioServer.Server.Handle | pkg/mario/mario.go:160-197 | the reply is Respond's; the counter rises and the stop channel closes exactly when the manifest is consumed, which happens only on a server not yet stopped |
| GithubHook.HeaderValue | pkg/hook/github/hook.go:99 | an absent header reads as "" |
| GithubHook.ValidatePayload | pkg/hook/github/hook.go:132-145 | false without the "sha1=" prefix or with non-hex digits; true exactly when the decoded digits equal the HMAC of the payload keyed with the token |
| GithubHook.SignedPayloadValid | pkg/hook/github/hook.go:132-145 | the signature GitHub computes is accepted |
| GithubHook.OtherDigestRefused | pkg/hook/github/hook.go:141-144 | a signature of any other digest is refused |
| GithubHook.Validate | pkg/hook/github/hook.go:93-130 | validated exactly when all checks pass, returning event type, delivery id and the unmodified payload; each failed check, in order, yields its fixed error (405, 400, 400, 403, 400, the read error, 403) |
| GithubHook.SignedDeliveryValidated | pkg/hook/github/hook.go:93-130 | a POST with the event, delivery and signature headers, JSON content and a correctly signed body is validated with its body intact |
| GithubHook.KindOf | pkg/hook/github/api/v3/event.go:5-9 | the event kinds with a handler are exactly "pull_request", "issue_comment" and "create" |
| GithubHook.DispatchOutcome | pkg/hook/github/hook.go:56-91 | validation errors propagate; unsupported types are ignored; a supported event starts its handler exactly when it decodes, carrying the delivery id; a decode failure is FailToUnmarshal |
| GithubHook.Hook.constructor | pkg/hook/github/hook.go:50-54 | a new hook keeps the token and has started nothing |
| GithubHook.Hook.Dispatch | pkg/hook/github/hook.go:56-91 | an error exactly when rejected; one more handler started exactly when an event starts |
| Hex.EncodeByte | pkg/controller/pipe/sync.go:175 | two digits per byte |
| Hex.Encode | pkg/controller/pipe/sync.go:175 | twice as many digits as bytes |
| Hex.EncodeLowerCase | pkg/controller/pipe/sync.go:175 | the encoding uses lower-case hex digits only |
| Hex.DigitValue | pkg/hook/github/hook.go:137 | a recognised digit, of either case, has a value below 16 |
| Hex.Decode | pkg/hook/github/hook.go:137-140 | an odd-length input fails; a result has half as many bytes as digits |
| Hex.DecodeEncode | pkg/hook/github/hook.go:137 | decoding undoes encoding |
| Hex.EncodePrefix | pkg/controller/pipe/sync.go:175-176 | the first 2k digits encode the first k bytes |
| Hex.EncodeInjective | pkg/controller/pipe/sync.go:175 | different byte strings never share an encoding |
| Source.ResolveRef | pkg/source/source.go:30-48 | branch and revision: the match, or "master" when empty; release: the empty ref, and an error for a non-empty match; pull request and unknown kinds: an error |
| Source.GitCheckoutOutcome | pkg/source/source.go:53-62 | the fetch runs first; the checkout of "origin/" + ref runs exactly when the fetch succeeds; success exactly when every command run succeeds |
| Source.FetchByGit | pkg/source/source.go:29-51 | an unresolved source runs nothing and returns the error; otherwise it fetches the resolved ref from the repository, and each checkout follows a successful fetch |
| Source.Fetch | pkg/source/source.go:25-27 | fetching a code source is fetching its git source |
| Source.BranchDefaultsToMaster | pkg/source/source.go:32-35 | a branch source without a match fetches master and checks out origin/master |
| Source.ReleaseFetchesEmptyRef | pkg/source/source.go:36-39 | a release source fetches the empty ref and checks out the bare "origin/" |
| Random.DrawLettersBound | pkg/utils/random/random.go:17-36 | one draw supplies at most letterIdxMax = 10 letters, all from letterBytes |
| Random.LettersAlphabet | pkg/utils/random/random.go:10-33 | every letter the draws yield is one of the 52 ASCII letters, at most ten per draw |
| Random.LettersPrefix | pkg/utils/random/random.go:25-37 | the letters of the first k draws are a prefix of the letters of all draws |
| Random.UpperCaseCanAppear | pkg/utils/random/random.go:10-29 | a chunk of value 26 yields 'A': upper-case letters can appear |
| Random.Random | pkg/utils/random/random.go:21-40 | a negative count is an error; otherwise the result is the first n letters the draws yield, so it has length n and only letters; too few draws is reported |

## Left out

- I/O and serving are not modelled: the HTTP server of the manifest program (serve,
  waitToShutdown, health, Run), `writeError`'s JSON marshalling and its failure
  branch, the rendering of error messages from their templates, and logging.
- Concurrency is not modelled. This covers the work queue's goroutines, `WaitUntil`'s
  timer, the server's mutex (the consume-once rule is kept, sequentially), and the
  webhook's wait group and handler goroutines (a started handler is recorded in
  `started`).
- External behaviour is taken as parameters, never computed: md5, HMAC-SHA1, the
  clock, `IsPodReady`, `fetchMario`, the Accept parser, the codec encoder, the JSON
  decoder, html/template escaping, the git collaborator, and `rand.Int63`.
- Label selectors are match-labels only. A selector's MatchExpressions, and the
  error converting a selector, are not modelled. attachMario's conversion error is
  folded into the pod listing's error.
- Objects are values. Aliasing between lister objects and the objects the source
  mutates is not captured. For example, attachMario sets the manifest on the cached
  flow itself.
- The caches are fixed snapshots during one reconciliation. Writes do not feed back
  into them until a later call is given new snapshots.
- Creation times are whole seconds (`created`). The condition timestamps are the
  clock parameter `now`.
- FlowSync.StableOnceStatusWritten: holds only for a repeated clock reading. The
  source stamps conditions with metav1.Now(), which never repeats, so the stored
  status never equals the recomputed one. Every pass therefore rewrites the status,
  and the status update re-enqueues the flow through its update handler
  (`FlowSync.StatusRewrittenWhenClockMoves`).
- PipeSync.GenerateFlows: one flow per revision is not guaranteed, and the model
  keeps the source's behaviour. generateFlow reads the flow cache once per event, so
  two watched events with the same repository and ref create two flows in one pass
  (`PipeSync.SameRevisionCreatedTwice`). A second pipe watching the same repository
  and ref in the namespace never gets a flow (`PipeSync.SecondPipeGetsNoFlow`).
- PipeSync.SemanticEqual: sementicEqual compares stage lists with reflect.DeepEqual,
  which tells a nil list from an empty one. The model's sequences do not make that
  distinction.
- Reconciler.RunWorker: on an empty queue that is still running, Get blocks until a
  key is added or a backoff expires. The model returns with quit false instead, and
  those additions (`Reconciler.WorkQueue.Add`, `Reconciler.WorkQueue.Expire`) happen
  between runs.
- Reconciler.WorkQueue.AddRateLimited: the backoff delay's length (client-go's
  per-item exponential limiter) is not modelled; a waiting key stays until
  `Reconciler.WorkQueue.Expire` is called for it.
- FlowSync.SyncFlowOutcome: syncFlow never calls attachMario or syncConfigMap.
  The model keeps them as standalone operations (`MarioAttach.AttachOutcome`,
  `FlowVolumes.SyncConfigMapOutcome`), as the source has them.
- FlowSync.SyncFlow: the flow the status update returns is modelled as the flow
  carrying the new status. The rest of the server's answer, such as a new resource
  version, is not modelled.
- FlowVolumes.SyncPvcOutcome: the source dereferences a missing claim template and
  panics. The model returns an error with no write.
- Random.Random: the source panics on a negative count (`strings.Builder.Grow`), and
  the model returns `NegativeCount`. The source draws without end, while the model's
  draws are finite and running out yields `Exhausted`. The package's test expects
  only `[a-z0-9]`, but the code draws from all 52 letters, and the model follows the
  code (`Random.UpperCaseCanAppear`).
- MarioServer.CheckToken: a header without a space reads a second field that does
  not exist. The handler then panics, and the model yields `TokenIndexPanic`, which
  the server answers with `Aborted`.
- MarioServer.CheckToken: header names are not canonicalised, because the request
  carries the Authorization and Accept values directly.
- GithubHook.HeaderValue: header names are taken as already canonical.
- The value of the stage label key, and the string value of the revision source
  kind, are not shown by the source. The model uses a named constant for the first
  and a constructor for the second.
- Keys.SplitKey: the empty-namespace and two-separator cases follow client-go's
  `SplitMetaNamespaceKey`. Client-go is not part of this model.
- The old flow controller (pkg/controller/flow/flow.go, generate.go, job.go,
  util.go) is not part of this model. It targets another API version and
  redefines the same functions.
- Generated clients, listers, informers and constructors are not part of this model.

## Findings

| source | as written | input that shows it | evidently intended | confidence | as-written member | corrected member |
|---|---|---|---|---|---|---|
| pkg/controller/flow/sync_status.go:53 | calculateStageStatus looks a stage's job up under the bare stage name `jobMap[stage.Name]`. But calculateJobMap keys user jobs as `UserJobPrefix + stage` (pkg/controller/flow/sync.go:87-98), which is where generateNextJob looks (pkg/controller/flow/sync_job.go:64). | A flow with one stage "build" whose job `<flow>-user-build` has completed: the map holds `user-build`, the lookup of `build` misses, and the flow stays Pending forever. | look the job up under `UserJobPrefix + stage.Name` | high; not executed | FlowStatusSync.AsWrittenCounterexample | FlowStatusSync.CalculateStageStatus |
| pkg/controller/flow/handler.go:47 | `refChanged := reflect.DeepEqual(oldRef, curRef)` holds equality, so the old owner is enqueued only when the reference did not change. | A job whose controller moves from flow a to flow b with a new resource version: only b is enqueued, and a keeps counting the job. | `refChanged := !reflect.DeepEqual(oldRef, curRef)` | high; not executed | FlowHandlers.UpdateJobAsWrittenMissesOldOwner | FlowHandlers.UpdateJob |
