/** The data model shared by both controllers: object metadata and owner
    references, the custom kinds (Pipe, Event, Flow, Mario), the cluster kinds
    the flow controller creates (Job, PersistentVolumeClaim, ConfigMap, Pod),
    read-only snapshots of the informer caches, and the writes a reconciliation
    sends to the API server. The core only reads labels, selectors and data
    maps, where a nil Go map behaves like an empty one, so those are plain `map`s.
    An event's `Extra` map is compared with reflect.DeepEqual, which tells nil
    from empty, so it is an `Option` whose `None` is nil. */
module Api {

  datatype Option<T> = None | Some(value: T)

  /** An error value; the core only passes errors on, so a message is enough. */
  datatype Err = Err(message: string)

  datatype Result<T> = Ok(value: T) | Failure(err: Err)

  // ---------------------------------------------------------------------------
  // Metadata and ownership

  /** Group/version and kind of the objects a controller owns. */
  datatype Gvk = Gvk(apiVersion: string, kind: string)

  const PipeKind: string := "Pipe"
  const FlowKind: string := "Flow"

  datatype OwnerRef = OwnerRef(apiVersion: string, kind: string, name: string, uid: string,
                               controller: bool, blockOwnerDeletion: bool)

  /** `created` is the creation timestamp, in seconds. */
  datatype Meta = Meta(namespace: string, name: string, uid: string, resourceVersion: string,
                       labels: map<string, string>, owners: seq<OwnerRef>, created: int)

  /** The first owner reference marked as controller, if any. */
  function ControllerOf(owners: seq<OwnerRef>): (r: Option<OwnerRef>)
    ensures r.None? <==> forall i :: 0 <= i < |owners| ==> !owners[i].controller
    ensures r.Some? ==> exists i :: 0 <= i < |owners| && owners[i] == r.value && r.value.controller &&
                                   forall j :: 0 <= j < i ==> !owners[j].controller
  {
    if owners == [] then None
    else if owners[0].controller then Some(owners[0])
    else
      var r := ControllerOf(owners[1..]);
      assert forall i :: 1 <= i < |owners| ==> owners[i] == owners[1..][i - 1];
      r
  }

  /** An object is controlled by an owner when its controller reference carries the owner's UID. */
  predicate IsControlledBy(m: Meta, owner: Meta)
  {
    ControllerOf(m.owners).Some? && ControllerOf(m.owners).value.uid == owner.uid
  }

  /** The controller reference a controller puts on the objects it creates. */
  function NewControllerRef(owner: Meta, gvk: Gvk): (r: OwnerRef)
    ensures r.controller && r.blockOwnerDeletion
    ensures r.uid == owner.uid && r.name == owner.name && r.kind == gvk.kind
  {
    OwnerRef(gvk.apiVersion, gvk.kind, owner.name, owner.uid, true, true)
  }

  lemma {:induction false} SoleControllerRef(m: Meta, owner: Meta, gvk: Gvk)
    requires m.owners == [NewControllerRef(owner, gvk)]
    ensures IsControlledBy(m, owner)
    ensures ControllerOf(m.owners) == Some(NewControllerRef(owner, gvk))
  {
  }

  // ---------------------------------------------------------------------------
  // Custom kinds

  datatype Stage = Stage(name: string, action: string)

  /** The claim template lives with the git settings; a pipe that does not set one leaves it None. */
  datatype Git = Git(repo: string, ref: string, pullSecret: string, volumeClaimTemplate: Option<Pvc>)

  datatype PipeSpec = PipeSpec(git: Git, when: seq<string>, stages: seq<Stage>, selector: map<string, string>)
  datatype Pipe = Pipe(meta: Meta, spec: PipeSpec)

  datatype EventSpec = EventSpec(repo: string, when: string, ref: string, extra: Option<map<string, string>>)
  datatype Event = Event(meta: Meta, spec: EventSpec)

  datatype EnvVar = EnvVar(name: string, value: string)

  /** The job template of a manifest action; `versionEnvName` names the variable that receives the ref. */
  datatype ActionTemplate = ActionTemplate(image: string, command: seq<string>, args: seq<string>,
                                           workingDir: string, versionEnvName: string)
  datatype Action = Action(name: string, template: Option<ActionTemplate>, env: seq<EnvVar>)

  /** The manifest ("mario") a repository declares its actions in. */
  datatype Mario = Mario(meta: Meta, actions: seq<Action>)

  datatype FlowSpec = FlowSpec(selector: map<string, string>, git: Git, stages: seq<Stage>, mario: Option<Mario>)

  datatype FlowConditionType = GitVolumeReady | MarioReady
  datatype Reason =
    | GitVolumeClaiming | GitVolumePending | GitVolumeBound | GitVolumeLost | GitVolumeUnknown
    | MarioReadyReason | MarioFailed | MarioPending | GitFailed | GitPending

  /** `status` is a condition status string ("True", "False" or "Unknown"); times are in seconds. */
  datatype FlowCondition = FlowCondition(ctype: FlowConditionType, status: string, lastProbeTime: int,
                                         lastTransitionTime: int, reason: Reason, message: string)

  datatype StagePhase = StageMissing | StageRunning | StageComplete | StageFailed
  datatype StageStatus = StageStatus(job: string, phase: StagePhase)

  /** PhaseUnset is the empty phase of a status nobody has written yet. */
  datatype FlowPhase = PhaseUnset | FlowPending | FlowRunning | FlowSucceeded | FlowFailed

  datatype FlowStatus = FlowStatus(phase: FlowPhase, stageStatuses: seq<StageStatus>, conditions: seq<FlowCondition>)
  datatype Flow = Flow(meta: Meta, spec: FlowSpec, status: FlowStatus)

  // ---------------------------------------------------------------------------
  // Cluster kinds

  const CondTrue: string := "True"
  const CondFalse: string := "False"
  const CondUnknown: string := "Unknown"

  const JobComplete: string := "Complete"
  const JobFailed: string := "Failed"

  datatype JobCondition = JobCondition(ctype: string, status: string)

  datatype VolumeSource = ClaimVolume(claimName: string) | ConfigMapVolume(configMap: string, defaultMode: int)
  datatype Volume = Volume(name: string, source: VolumeSource)
  datatype Mount = Mount(name: string, path: string)
  datatype HttpProbe = HttpProbe(path: string, port: int)

  datatype Container = Container(name: string, image: string, command: seq<string>, args: seq<string>,
                                 workingDir: string, env: seq<EnvVar>, mounts: seq<Mount>,
                                 readiness: Option<HttpProbe>)

  /** The pod template of a job. */
  datatype PodTemplate = PodTemplate(labels: map<string, string>, serviceAccount: string, restartPolicy: string,
                                     containers: seq<Container>, volumes: seq<Volume>)

  datatype Job = Job(meta: Meta, template: PodTemplate, conditions: seq<JobCondition>)

  /** `ready` is the verdict of the pod-readiness check, which is not part of this model. */
  datatype Pod = Pod(meta: Meta, ip: string, ready: bool)

  /** `spec` stands for the claim's spec, which the core copies without reading. */
  datatype Pvc = Pvc(meta: Meta, spec: string, phase: string)

  datatype ConfigMap = ConfigMap(meta: Meta, data: map<string, string>)

  // ---------------------------------------------------------------------------
  // Reads and writes

  /** The elements of `s` that `keep` accepts, in their original order. */
  function Filter<T(!new)>(s: seq<T>, keep: T -> bool): (r: seq<T>)
    ensures |r| <= |s|
    ensures forall x :: x in r <==> x in s && keep(x)
  {
    if s == [] then [] else Filter(s[..|s| - 1], keep) + (if keep(s[|s| - 1]) then [s[|s| - 1]] else [])
  }

  /** Filtering one more element appends it when it is kept. */
  lemma FilterSnoc<T(!new)>(s: seq<T>, i: nat, keep: T -> bool)
    requires i < |s|
    ensures Filter(s[..i + 1], keep) == Filter(s[..i], keep) + (if keep(s[i]) then [s[i]] else [])
  {
    assert s[..i + 1][..i] == s[..i];
  }

  /** The contents of one informer cache, or the failure its lister reports. */
  datatype Lister<T> = Lister(items: seq<T>, failure: Option<Err>)

  datatype Lookup<T> = Found(obj: T) | NotFound | LookupFailed(err: Err)
  datatype Listing<T> = Listed(items: seq<T>) | ListFailed(err: Err)

  /** The first object of the cache with the given namespace and name. */
  function Get<T>(l: Lister<T>, metaOf: T -> Meta, ns: string, name: string): (r: Lookup<T>)
    ensures l.failure.Some? ==> r == LookupFailed(l.failure.value)
    ensures l.failure.None? && r.Found? ==> r.obj in l.items && metaOf(r.obj).namespace == ns && metaOf(r.obj).name == name
    ensures l.failure.None? ==> (r.NotFound? <==> forall x :: x in l.items ==> !(metaOf(x).namespace == ns && metaOf(x).name == name))
  {
    if l.failure.Some? then LookupFailed(l.failure.value)
    else FirstNamed(l.items, metaOf, ns, name)
  }

  function FirstNamed<T>(items: seq<T>, metaOf: T -> Meta, ns: string, name: string): (r: Lookup<T>)
    ensures r.Found? || r.NotFound?
    ensures r.Found? ==> r.obj in items && metaOf(r.obj).namespace == ns && metaOf(r.obj).name == name
    ensures r.NotFound? <==> forall x :: x in items ==> !(metaOf(x).namespace == ns && metaOf(x).name == name)
  {
    if items == [] then NotFound
    else if metaOf(items[0]).namespace == ns && metaOf(items[0]).name == name then Found(items[0])
    else FirstNamed(items[1..], metaOf, ns, name)
  }

  function PipeMeta(p: Pipe): Meta { p.meta }
  function EventMeta(e: Event): Meta { e.meta }
  function FlowMeta(f: Flow): Meta { f.meta }
  function JobMeta(j: Job): Meta { j.meta }
  function PvcMeta(p: Pvc): Meta { p.meta }
  function PodMeta(p: Pod): Meta { p.meta }

  /** A write a reconciliation sends to the API server. */
  datatype Write =
    | CreateFlow(flow: Flow)
    | UpdateFlow(flow: Flow)
    | UpdateFlowStatus(flow: Flow)
    | CreateJob(job: Job)
    | DeleteJob(namespace: string, name: string)
    | CreatePvc(pvc: Pvc)
    | CreateConfigMap(configMap: ConfigMap)

  /** How the API server answers each write: None for success. */
  type ApiServer = Write -> Option<Err>

  /** The outcome of a reconciliation: the writes sent, in order, and the error returned. */
  datatype SyncOutcome = SyncOutcome(writes: seq<Write>, err: Option<Err>)

  /** What an informer hands to an event handler. */
  datatype Obj =
    | EventObj(event: Event)
    | PipeObj(pipe: Pipe)
    | FlowObj(flow: Flow)
    | JobObj(job: Job)
    | Tombstone(key: string, inner: Obj)
    | OtherObj
}
