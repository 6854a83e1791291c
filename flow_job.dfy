/** Job creation of the flow reconciler (pkg/controller/flow/sync_job.go):
    the git job that fetches the code, the mario job that serves the manifest,
    and the user-stage jobs, created one after another. */
module FlowJobs {
  import opened Api
  import opened FlowHelpers
  import opened JobMap
  import opened FlowStatusSync

  const GitScriptName: string := "git.sh"
  const GitScriptPath: string := "/app"
  const GitScriptVolumeName: string := "git-script"
  const GitRootVolumeName: string := "git"
  const MarioWorkingDir: string := "/repo"
  /** The label key naming a bootstrap job's stage. */
  const StageLabelKey: string := "flow.oooops.com/stage"
  const RestartNever: string := "Never"
  /** The file mode of the mounted git script, 0755 in octal. */
  const GitScriptMode: int := 493
  const MarioServiceAccount: string := "mario"
  const MarioPort: int := 8080

  /** The controller's settings the builders read: the two images and the flow kind. */
  datatype JobConfig = JobConfig(gitImage: string, marioImage: string, gvk: Gvk)

  /** The metadata of a job the reconciler creates: the flow as sole controller. */
  function OwnedMeta(flow: Flow, name: string, labels: map<string, string>, cfg: JobConfig): (m: Meta)
    ensures m.namespace == flow.meta.namespace && m.name == name && m.labels == labels
    ensures IsControlledBy(m, flow.meta)
  {
    var m := Meta(flow.meta.namespace, name, "", "", labels, [NewControllerRef(flow.meta, cfg.gvk)], 0);
    SoleControllerRef(m, flow.meta, cfg.gvk);
    m
  }

  /** The claim volume holding the checked-out code, named after the flow. */
  function GitRootVolume(flow: Flow): Volume
  {
    Volume(GitRootVolumeName, ClaimVolume(flow.meta.name))
  }

  // ---------------------------------------------------------------------------
  // Label maps

  /** Copies every entry of src into m: src wins on a shared key. */
  method PutAll(m: map<string, string>, src: map<string, string>) returns (r: map<string, string>)
    ensures r == m + src
  {
    r := m;
    var todo := src.Keys;
    while todo != {}
      invariant todo <= src.Keys
      invariant forall k :: k in r <==> k in m || (k in src && k !in todo)
      invariant forall k :: k in r ==> r[k] == if k in src && k !in todo then src[k] else m[k]
      decreases todo
    {
      var k :| k in todo;
      r := r[k := src[k]];
      todo := todo - {k};
    }
  }

  /** Copies the entries of src whose key m lacks: m wins on a shared key. */
  method PutAbsent(m: map<string, string>, src: map<string, string>) returns (r: map<string, string>)
    ensures r == src + m
  {
    r := m;
    var todo := src.Keys;
    while todo != {}
      invariant todo <= src.Keys
      invariant forall k :: k in r <==> k in m || (k in src && k !in todo)
      invariant forall k :: k in r ==> r[k] == if k in m then m[k] else src[k]
      decreases todo
    {
      var k :| k in todo;
      if k !in r {
        r := r[k := src[k]];
      }
      todo := todo - {k};
    }
  }

  // ---------------------------------------------------------------------------
  // Bootstrap jobs

  /** generateGitJob: runs the mounted git script against the flow's claim. */
  function GitJob(flow: Flow, cfg: JobConfig): (j: Job)
    ensures j.meta.name == flow.meta.name + "-git" && j.meta.labels == flow.spec.selector
    ensures j.meta.namespace == flow.meta.namespace
    ensures Candidate(flow, j, FlowStageGit)
    ensures j.conditions == [] && j.template.restartPolicy == RestartNever
    ensures j.template.volumes == [GitRootVolume(flow),
                                   Volume(GitScriptVolumeName, ConfigMapVolume(flow.meta.name, GitScriptMode))]
    ensures |j.template.containers| == 1 && j.template.containers[0].image == cfg.gitImage &&
            j.template.containers[0].command == [GitScriptPath + "/" + GitScriptName]
  {
    var name := flow.meta.name + "-git";
    assert TrimPrefix(name, flow.meta.name + "-") == FlowStageGit by {
      assert (flow.meta.name + "-") + "git" == name;
    }
    var c := Container("git", cfg.gitImage, [GitScriptPath + "/" + GitScriptName], [], MarioWorkingDir, [],
                       [Mount(GitRootVolumeName, MarioWorkingDir), Mount(GitScriptVolumeName, GitScriptPath)], None);
    Job(OwnedMeta(flow, name, flow.spec.selector, cfg),
        PodTemplate(map[], "", RestartNever, [c],
                    [GitRootVolume(flow), Volume(GitScriptVolumeName, ConfigMapVolume(flow.meta.name, GitScriptMode))]),
        [])
  }

  /** The command of the mario container: serve the manifest of the flow's repository and ref. */
  function MarioCommand(flow: Flow): seq<string>
  {
    ["/app/mario", "--remote", flow.spec.git.repo, "--ref", flow.spec.git.ref, "--addr", ":8080", "--token", "test"]
  }

  /** generateMarioJob: the manifest server, labelled as the mario stage, probed on /healthz. */
  function MarioJob(flow: Flow, cfg: JobConfig): (j: Job)
    ensures j.meta.name == flow.meta.name + "-mario" && j.meta.namespace == flow.meta.namespace
    ensures j.meta.labels == flow.spec.selector[StageLabelKey := FlowStageMario] == j.template.labels
    ensures Candidate(flow, j, FlowStageMario)
    ensures j.conditions == [] && j.template.restartPolicy == RestartNever
    ensures j.template.serviceAccount == MarioServiceAccount && j.template.volumes == [GitRootVolume(flow)]
    ensures |j.template.containers| == 1 && j.template.containers[0].image == cfg.marioImage &&
            j.template.containers[0].command == MarioCommand(flow) &&
            j.template.containers[0].readiness == Some(HttpProbe("/healthz", MarioPort))
  {
    var name := flow.meta.name + "-mario";
    assert TrimPrefix(name, flow.meta.name + "-") == FlowStageMario by {
      assert (flow.meta.name + "-") + "mario" == name;
    }
    var labels := flow.spec.selector[StageLabelKey := FlowStageMario];
    var c := Container("mario", cfg.marioImage, MarioCommand(flow), [], MarioWorkingDir, [],
                       [Mount(GitRootVolumeName, MarioWorkingDir)], Some(HttpProbe("/healthz", MarioPort)));
    Job(OwnedMeta(flow, name, labels, cfg),
        PodTemplate(labels, MarioServiceAccount, RestartNever, [c], [GitRootVolume(flow)]),
        [])
  }

  method GenerateMarioJob(flow: Flow, cfg: JobConfig) returns (j: Job)
    ensures j == MarioJob(flow, cfg)
  {
    var labels := PutAll(map[], flow.spec.selector);
    labels := labels[StageLabelKey := FlowStageMario];
    var c := Container("mario", cfg.marioImage, MarioCommand(flow), [], MarioWorkingDir, [],
                       [Mount(GitRootVolumeName, MarioWorkingDir)], Some(HttpProbe("/healthz", MarioPort)));
    j := Job(OwnedMeta(flow, flow.meta.name + "-mario", labels, cfg),
             PodTemplate(labels, MarioServiceAccount, RestartNever, [c], [GitRootVolume(flow)]),
             []);
  }

  // ---------------------------------------------------------------------------
  // User-stage jobs

  /** The first action of the manifest with the given name. */
  function FindAction(actions: seq<Action>, name: string): (r: Option<Action>)
    ensures r.None? <==> forall i :: 0 <= i < |actions| ==> actions[i].name != name
    ensures r.Some? ==> exists i :: 0 <= i < |actions| && actions[i] == r.value && r.value.name == name &&
                                   forall j :: 0 <= j < i ==> actions[j].name != name
  {
    if actions == [] then None
    else if actions[0].name == name then Some(actions[0])
    else
      var r := FindAction(actions[1..], name);
      assert forall i :: 1 <= i < |actions| ==> actions[i] == actions[1..][i - 1];
      r
  }

  /** Whether one of the action's own variables takes the name of the version variable. */
  predicate EnvConflict(action: Action)
    requires action.template.Some?
  {
    exists i :: 0 <= i < |action.env| && action.env[i].name == action.template.value.versionEnvName
  }

  /** constructContainers: one container running the action's template, with
      the version variable first and the action's variables after it. */
  function ContainersOf(action: Action, version: string): (r: Result<seq<Container>>)
    ensures r.Failure? <==> action.template.None? || EnvConflict(action)
    ensures r.Ok? ==> var t := action.template.value;
      && |r.value| == 1 && r.value[0].name == action.name && r.value[0].image == t.image
      && r.value[0].env == [EnvVar(t.versionEnvName, version)] + action.env
      && (forall i :: 0 <= i < |r.value[0].env| && r.value[0].env[i].name == t.versionEnvName ==>
            i == 0 && r.value[0].env[i].value == version)
      && r.value[0].mounts == [Mount(GitRootVolumeName, t.workingDir)]
  {
    if action.template.None? then Failure(Err("no action template"))
    else if EnvConflict(action) then Failure(Err("set an env whose name is confict with version env"))
    else
      var t := action.template.value;
      Ok([Container(action.name, t.image, t.command, t.args, t.workingDir,
                    [EnvVar(t.versionEnvName, version)] + action.env, [Mount(GitRootVolumeName, t.workingDir)], None)])
  }

  method ConstructContainers(action: Action, version: string) returns (r: Result<seq<Container>>)
    ensures r == ContainersOf(action, version)
  {
    if action.template.None? {
      return Failure(Err("no action template"));
    }
    var t := action.template.value;
    var env := [EnvVar(t.versionEnvName, version)];
    var i := 0;
    while i < |action.env|
      invariant 0 <= i <= |action.env|
      invariant env == [EnvVar(t.versionEnvName, version)] + action.env[..i]
      invariant forall j :: 0 <= j < i ==> action.env[j].name != t.versionEnvName
    {
      var e := action.env[i];
      if e.name == t.versionEnvName {
        return Failure(Err("set an env whose name is confict with version env"));
      }
      env := env + [EnvVar(e.name, e.value)];
      assert action.env[..i + 1] == action.env[..i] + [e];
      i := i + 1;
    }
    assert action.env[..i] == action.env;
    return Ok([Container(action.name, t.image, t.command, t.args, t.workingDir, env,
                         [Mount(GitRootVolumeName, t.workingDir)], None)]);
  }

  /** The user job of a stage, given its labels and containers. */
  function UserJob(flow: Flow, stage: Stage, labels: map<string, string>, cs: seq<Container>, cfg: JobConfig): (j: Job)
    ensures j.meta.name == NameJoin([flow.meta.name, "user", stage.name])
    ensures Candidate(flow, j, UserJobPrefix + stage.name)
  {
    var j := Job(OwnedMeta(flow, NameJoin([flow.meta.name, "user", stage.name]), labels, cfg),
                 PodTemplate(map[], "", RestartNever, cs, [GitRootVolume(flow)]), []);
    UserJobKey(flow, j, stage.name);
    j
  }

  /** generateActionJob: the job of stage i, running the first action named
      by the stage; no job when the manifest has no such action. */
  function ActionJob(flow: Flow, i: nat, cfg: JobConfig): (r: Result<Option<Job>>)
    requires i < |flow.spec.stages| && flow.spec.mario.Some?
    ensures var stage := flow.spec.stages[i];
      var mario := flow.spec.mario.value;
      && (r == Ok(None) <==> FindAction(mario.actions, stage.action).None?)
      && (r.Failure? <==> FindAction(mario.actions, stage.action).Some? &&
                          ContainersOf(FindAction(mario.actions, stage.action).value, flow.spec.git.ref).Failure?)
      && (r.Ok? && r.value.Some? ==>
            var j := r.value.value;
            && j.meta.name == NameJoin([flow.meta.name, "user", stage.name])
            && j.meta.namespace == flow.meta.namespace
            && Candidate(flow, j, UserJobPrefix + stage.name)
            && j.meta.labels == mario.meta.labels + flow.spec.selector
            && j.template.restartPolicy == RestartNever && j.template.volumes == [GitRootVolume(flow)]
            && j.conditions == [])
  {
    var stage := flow.spec.stages[i];
    var mario := flow.spec.mario.value;
    match FindAction(mario.actions, stage.action)
    case None => Ok(None)
    case Some(action) =>
      match ContainersOf(action, flow.spec.git.ref)
      case Failure(e) => Failure(e)
      case Ok(cs) => Ok(Some(UserJob(flow, stage, mario.meta.labels + flow.spec.selector, cs, cfg)))
  }

  method GenerateActionJob(flow: Flow, i: nat, cfg: JobConfig) returns (r: Result<Option<Job>>)
    requires i < |flow.spec.stages| && flow.spec.mario.Some?
    ensures r == ActionJob(flow, i, cfg)
  {
    var stage := flow.spec.stages[i];
    var mario := flow.spec.mario.value;
    var k := 0;
    while k < |mario.actions|
      invariant 0 <= k <= |mario.actions|
      invariant forall j :: 0 <= j < k ==> mario.actions[j].name != stage.action
    {
      var action := mario.actions[k];
      if action.name != stage.action {
        k := k + 1;
        continue;
      }
      assert FindAction(mario.actions, stage.action) == Some(action) by {
        FindFirstAction(mario.actions, stage.action, k);
      }
      var labels := PutAll(map[], flow.spec.selector);
      assert labels == flow.spec.selector;
      labels := PutAbsent(labels, mario.meta.labels);
      var cs := ConstructContainers(action, flow.spec.git.ref);
      if cs.Failure? {
        return Failure(cs.err);
      }
      return Ok(Some(UserJob(flow, stage, labels, cs.value, cfg)));
    }
    return Ok(None);
  }

  /** The first action with the name is the one the scan stops at. */
  lemma FindFirstAction(actions: seq<Action>, name: string, k: nat)
    requires k < |actions| && actions[k].name == name
    requires forall j :: 0 <= j < k ==> actions[j].name != name
    ensures FindAction(actions, name) == Some(actions[k])
  {
    var r := FindAction(actions, name);
    var i :| 0 <= i < |actions| && actions[i] == r.value && r.value.name == name &&
             forall j :: 0 <= j < i ==> actions[j].name != name;
    assert i == k;
  }

  /** The index of the last stage whose user job exists, or -1. */
  function LastStarted(stages: seq<Stage>, jobMap: map<string, Job>): (r: int)
    ensures -1 <= r < |stages|
    ensures r >= 0 ==> UserJobPrefix + stages[r].name in jobMap
    ensures forall i :: r < i < |stages| ==> UserJobPrefix + stages[i].name !in jobMap
  {
    if stages == [] then -1
    else if UserJobPrefix + stages[|stages| - 1].name in jobMap then |stages| - 1
    else LastStarted(stages[..|stages| - 1], jobMap)
  }

  /** generateNextJob: nothing once the last stage has a job or while the last
      started stage's job is not complete; otherwise the job of the next stage. */
  function NextJob(flow: Flow, jobMap: map<string, Job>, cfg: JobConfig): (r: Result<Option<Job>>)
    requires flow.spec.mario.Some?
    ensures LastStarted(flow.spec.stages, jobMap) == |flow.spec.stages| - 1 ==> r == Ok(None)
  {
    var stages := flow.spec.stages;
    var last := LastStarted(stages, jobMap);
    if last == |stages| - 1 then Ok(None)
    else if last != -1 && !IsJobComplete(jobMap[UserJobPrefix + stages[last].name]) then Ok(None)
    else ActionJob(flow, last + 1, cfg)
  }

  method GenerateNextJob(flow: Flow, jobMap: map<string, Job>, cfg: JobConfig) returns (r: Result<Option<Job>>)
    requires flow.spec.mario.Some?
    ensures r == NextJob(flow, jobMap, cfg)
  {
    var stages := flow.spec.stages;
    var last := FindLastStarted(stages, jobMap);
    if last == |stages| - 1 {
      return Ok(None);
    }
    if last != -1 {
      var lastJob := jobMap[UserJobPrefix + stages[last].name];
      if !IsJobComplete(lastJob) {
        return Ok(None);
      }
    }
    r := GenerateActionJob(flow, last + 1, cfg);
  }

  /** The loop of generateNextJob that finds the last stage with a job. */
  method FindLastStarted(stages: seq<Stage>, jobMap: map<string, Job>) returns (last: int)
    ensures last == LastStarted(stages, jobMap)
  {
    last := -1;
    var i := 0;
    while i < |stages|
      invariant 0 <= i <= |stages|
      invariant last == LastStarted(stages[..i], jobMap)
    {
      assert stages[..i + 1][..i] == stages[..i];
      if UserJobPrefix + stages[i].name in jobMap {
        last := i;
      }
      i := i + 1;
    }
    assert stages[..i] == stages;
  }

  /** Progress: once every stage before stage i has run up to a completed job
      at stage i - 1, and no stage from i on has a job, the next job is the
      job of stage i. */
  lemma NextJobProgress(flow: Flow, jobMap: map<string, Job>, cfg: JobConfig, i: nat)
    requires flow.spec.mario.Some? && i < |flow.spec.stages|
    requires forall j :: i <= j < |flow.spec.stages| ==> UserJobPrefix + flow.spec.stages[j].name !in jobMap
    requires i > 0 ==> UserJobPrefix + flow.spec.stages[i - 1].name in jobMap &&
                       IsJobComplete(jobMap[UserJobPrefix + flow.spec.stages[i - 1].name])
    ensures NextJob(flow, jobMap, cfg) == ActionJob(flow, i, cfg)
  {
    LastStartedIs(flow.spec.stages, jobMap, i - 1);
  }

  /** While the job of the last started stage has not completed, no job is produced. */
  lemma NextJobWaits(flow: Flow, jobMap: map<string, Job>, cfg: JobConfig, i: nat)
    requires flow.spec.mario.Some? && i < |flow.spec.stages|
    requires UserJobPrefix + flow.spec.stages[i].name in jobMap
    requires !IsJobComplete(jobMap[UserJobPrefix + flow.spec.stages[i].name])
    requires forall j :: i < j < |flow.spec.stages| ==> UserJobPrefix + flow.spec.stages[j].name !in jobMap
    ensures NextJob(flow, jobMap, cfg) == Ok(None)
  {
    LastStartedIs(flow.spec.stages, jobMap, i);
  }

  /** LastStarted is the stage that has a job with none after it. */
  lemma LastStartedIs(stages: seq<Stage>, jobMap: map<string, Job>, last: int)
    requires -1 <= last < |stages|
    requires last >= 0 ==> UserJobPrefix + stages[last].name in jobMap
    requires forall j :: last < j < |stages| ==> UserJobPrefix + stages[j].name !in jobMap
    ensures LastStarted(stages, jobMap) == last
  {
  }

  /** Stages run strictly one after another: a job is produced only for the
      stage right after the last one that has a job, only once that job has
      completed, and never for a stage that already has one. */
  lemma NextJobInOrder(flow: Flow, jobMap: map<string, Job>, cfg: JobConfig)
    requires flow.spec.mario.Some?
    ensures var r := NextJob(flow, jobMap, cfg);
      var stages := flow.spec.stages;
      r.Ok? && r.value.Some? ==>
        exists i :: 0 <= i < |stages| && Candidate(flow, r.value.value, UserJobPrefix + stages[i].name)
          && (forall j :: i <= j < |stages| ==> UserJobPrefix + stages[j].name !in jobMap)
          && (i > 0 ==> UserJobPrefix + stages[i - 1].name in jobMap &&
                        IsJobComplete(jobMap[UserJobPrefix + stages[i - 1].name]))
  {
    var r := NextJob(flow, jobMap, cfg);
    var stages := flow.spec.stages;
    if r.Ok? && r.value.Some? {
      var i := LastStarted(stages, jobMap) + 1;
      assert Candidate(flow, r.value.value, UserJobPrefix + stages[i].name);
    }
  }

  /** The stage a new job is made for is the first stage without a status,
      and the status of the one before it is Complete. */
  lemma NextJobAfterStatuses(flow: Flow, jobMap: map<string, Job>, cfg: JobConfig)
    requires flow.spec.mario.Some?
    ensures var statuses := StageStatuses(flow.spec.stages, jobMap, UserJobPrefix);
      && |statuses| == LastStarted(flow.spec.stages, jobMap) + 1
      && (NextJob(flow, jobMap, cfg).Ok? && NextJob(flow, jobMap, cfg).value.Some? ==>
            |statuses| < |flow.spec.stages| &&
            Candidate(flow, NextJob(flow, jobMap, cfg).value.value, UserJobPrefix + flow.spec.stages[|statuses|].name) &&
            (statuses == [] || statuses[|statuses| - 1].phase == StageComplete || statuses[|statuses| - 1].phase == StageFailed))
      && (|statuses| < |flow.spec.stages| && (statuses == [] || statuses[|statuses| - 1].phase == StageComplete) ==>
            NextJob(flow, jobMap, cfg) == ActionJob(flow, |statuses|, cfg))
  {
    var stages := flow.spec.stages;
    StageStatusesShape(stages, jobMap, UserJobPrefix);
    var statuses := StageStatuses(stages, jobMap, UserJobPrefix);
    var last := LastStarted(stages, jobMap);
    if |statuses| > 0 {
      assert StageLookupKey(stages[|statuses| - 1], UserJobPrefix) in jobMap;
    }
    if last >= 0 {
      assert StageLookupKey(stages[last], UserJobPrefix) in jobMap;
    }
    assert |statuses| == last + 1;
    if |statuses| > 0 {
      assert statuses[last] == StatusAt(stages[last], jobMap, UserJobPrefix);
    }
    if |statuses| < |stages| && (statuses == [] || statuses[|statuses| - 1].phase == StageComplete) {
      NextJobProgress(flow, jobMap, cfg, |statuses|);
    }
  }

  // ---------------------------------------------------------------------------
  // syncJob

  /** With a manifest, syncJob creates exactly the next job, returns the error
      of generating it, and otherwise the error of the create. */
  predicate SyncsNextJob(flow: Flow, jobMap: map<string, Job>, cfg: JobConfig, api: ApiServer, r: SyncOutcome)
    requires flow.spec.mario.Some?
  {
    match NextJob(flow, jobMap, cfg)
    case Failure(e) => r == SyncOutcome([], Some(e))
    case Ok(None) => r == SyncOutcome([], None)
    case Ok(Some(j)) => r == SyncOutcome([CreateJob(j)], api(CreateJob(j)))
  }

  /** What syncJob sends: without a manifest, the git job when neither
      bootstrap job exists, the mario job once the git job completed; with
      one, the next user job, if any. */
  function SyncJobOutcome(flow: Flow, jobMap: map<string, Job>, cfg: JobConfig, api: ApiServer): (r: SyncOutcome)
    ensures |r.writes| <= 1
    ensures forall w :: w in r.writes ==> w.CreateJob? && exists k :: Candidate(flow, w.job, k) && k !in jobMap
    ensures flow.spec.mario.None? ==>
      (r.writes == [CreateJob(GitJob(flow, cfg))] <==> FlowStageGit !in jobMap && FlowStageMario !in jobMap) &&
      (r.writes == [CreateJob(MarioJob(flow, cfg))] <==>
         FlowStageGit in jobMap && FlowStageMario !in jobMap && IsJobComplete(jobMap[FlowStageGit]))
    ensures r.writes == [] ==> r.err.None? || flow.spec.mario.Some?
    ensures r.writes != [] ==> r.err == api(r.writes[0])
    ensures flow.spec.mario.Some? ==> SyncsNextJob(flow, jobMap, cfg, api, r)
  {
    if flow.spec.mario.None? then
      var gitOk := FlowStageGit in jobMap;
      var marioOk := FlowStageMario in jobMap;
      if !gitOk && !marioOk then
        var w := CreateJob(GitJob(flow, cfg));
        SyncOutcome([w], api(w))
      else if !marioOk && IsJobComplete(jobMap[FlowStageGit]) then
        var w := CreateJob(MarioJob(flow, cfg));
        assert MarioJob(flow, cfg) != GitJob(flow, cfg) by {
          assert MarioJob(flow, cfg).template.serviceAccount != GitJob(flow, cfg).template.serviceAccount;
        }
        SyncOutcome([w], api(w))
      else SyncOutcome([], None)
    else
      match NextJob(flow, jobMap, cfg)
      case Failure(e) => SyncOutcome([], Some(e))
      case Ok(None) => SyncOutcome([], None)
      case Ok(Some(j)) =>
        NextJobInOrder(flow, jobMap, cfg);
        var w := CreateJob(j);
        SyncOutcome([w], api(w))
  }

  method SyncJob(flow: Flow, jobMap: map<string, Job>, cfg: JobConfig, api: ApiServer) returns (r: SyncOutcome)
    ensures r == SyncJobOutcome(flow, jobMap, cfg, api)
  {
    if flow.spec.mario.None? {
      var gitOk := FlowStageGit in jobMap;
      var marioOk := FlowStageMario in jobMap;
      if !gitOk && !marioOk {
        var w := CreateJob(GitJob(flow, cfg));
        return SyncOutcome([w], api(w));
      }
      if !marioOk && IsJobComplete(jobMap[FlowStageGit]) {
        var marioJob := GenerateMarioJob(flow, cfg);
        var w := CreateJob(marioJob);
        return SyncOutcome([w], api(w));
      }
      return SyncOutcome([], None);
    }
    var next := GenerateNextJob(flow, jobMap, cfg);
    if next.Failure? {
      return SyncOutcome([], Some(next.err));
    }
    if next.value.None? {
      return SyncOutcome([], None);
    }
    var w := CreateJob(next.value.value);
    return SyncOutcome([w], api(w));
  }

  /** The pipeline advances: once stage i - 1's job has completed and no stage
      from i on has a job, a reconciliation creates stage i's job when its
      action resolves. */
  lemma SyncJobAdvances(flow: Flow, jobMap: map<string, Job>, cfg: JobConfig, api: ApiServer, i: nat)
    requires flow.spec.mario.Some? && i < |flow.spec.stages|
    requires forall j :: i <= j < |flow.spec.stages| ==> UserJobPrefix + flow.spec.stages[j].name !in jobMap
    requires i > 0 ==> UserJobPrefix + flow.spec.stages[i - 1].name in jobMap &&
                       IsJobComplete(jobMap[UserJobPrefix + flow.spec.stages[i - 1].name])
    requires ActionJob(flow, i, cfg).Ok? && ActionJob(flow, i, cfg).value.Some?
    ensures SyncJobOutcome(flow, jobMap, cfg, api).writes == [CreateJob(ActionJob(flow, i, cfg).value.value)]
  {
    NextJobProgress(flow, jobMap, cfg, i);
  }
}
