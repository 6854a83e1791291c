/** The flow status (pkg/controller/flow/sync_status.go): two conditions (git
    volume and manifest), one status per stage up to the last stage that has a
    job, and the overall phase; the status is written back only when it
    changed. User-stage jobs are looked up under the user prefix; the source
    looks them up under the bare stage name (see StageStatusesAsWritten). */
module FlowStatusSync {
  import opened Api
  import opened FlowHelpers

  /** Phases of a PersistentVolumeClaim. */
  const ClaimPending: string := "Pending"
  const ClaimBound: string := "Bound"
  const ClaimLost: string := "Lost"

  // ---------------------------------------------------------------------------
  // Conditions

  /** The git-volume condition, from the claim's phase. */
  function GitVolumeCondition(pvc: Option<Pvc>, now: int): (c: FlowCondition)
    ensures c.ctype == GitVolumeReady && c.lastProbeTime == now && c.lastTransitionTime == now
    ensures c.status == CondTrue <==> pvc.Some? && pvc.value.phase == ClaimBound
    ensures c.status == CondUnknown <==> pvc.Some? && pvc.value.phase != ClaimPending && pvc.value.phase != ClaimBound &&
                                         pvc.value.phase != ClaimLost
    ensures c.status == CondFalse <==> pvc.None? || pvc.value.phase == ClaimPending || pvc.value.phase == ClaimLost
    ensures pvc.None? ==> c.reason == GitVolumeClaiming
    ensures pvc.Some? && pvc.value.phase == ClaimPending ==> c.reason == GitVolumePending
    ensures pvc.Some? && pvc.value.phase == ClaimLost ==> c.reason == GitVolumeLost
  {
    if pvc.None? then
      NewFlowCondition(GitVolumeReady, CondFalse, GitVolumeClaiming, "PersistentVolumeClaim is not created", now)
    else if pvc.value.phase == ClaimPending then
      NewFlowCondition(GitVolumeReady, CondFalse, GitVolumePending, "PersistentVolumeClaim is in pending phase", now)
    else if pvc.value.phase == ClaimBound then
      NewFlowCondition(GitVolumeReady, CondTrue, GitVolumeBound, "PersistentVolumeClaim is bound", now)
    else if pvc.value.phase == ClaimLost then
      NewFlowCondition(GitVolumeReady, CondFalse, GitVolumeLost, "Volume of the PersistentVolumeClaim is lost", now)
    else
      NewFlowCondition(GitVolumeReady, CondUnknown, GitVolumeUnknown, "PersistentVolumeClaim status is unknown", now)
  }

  /** The manifest condition: an attached manifest wins, then the mario job's
      state, then the git job's state. */
  function MarioCondition(flow: Flow, gitJob: Option<Job>, marioJob: Option<Job>, now: int): (c: FlowCondition)
    ensures c.ctype == MarioReady && c.lastProbeTime == now && c.lastTransitionTime == now
    ensures c.status == CondTrue <==> flow.spec.mario.Some?
    ensures c.status == CondTrue || c.status == CondFalse
    ensures flow.spec.mario.None? && marioJob.Some? ==>
      c.reason == (if IsJobFailed(marioJob.value) then MarioFailed else MarioPending)
    ensures flow.spec.mario.None? && marioJob.None? && gitJob.Some? ==>
      c.reason == (if IsJobFailed(gitJob.value) then GitFailed else if IsJobComplete(gitJob.value) then MarioPending else GitPending)
    ensures flow.spec.mario.None? && marioJob.None? && gitJob.None? ==> c.reason == GitPending
  {
    if flow.spec.mario.Some? then
      NewFlowCondition(MarioReady, CondTrue, MarioReadyReason, "Mario is ready", now)
    else if marioJob.Some? then
      if IsJobFailed(marioJob.value) then
        NewFlowCondition(MarioReady, CondFalse, MarioFailed, "Mario job " + marioJob.value.meta.name + " is failed", now)
      else
        NewFlowCondition(MarioReady, CondFalse, MarioPending, "Waiting for mario job to init mario", now)
    else if gitJob.Some? then
      if IsJobFailed(gitJob.value) then
        NewFlowCondition(MarioReady, CondFalse, GitFailed, "Git job " + gitJob.value.meta.name + " is failed", now)
      else if IsJobComplete(gitJob.value) then
        NewFlowCondition(MarioReady, CondFalse, MarioPending, "Waiting for mario job to init mario", now)
      else
        NewFlowCondition(MarioReady, CondFalse, GitPending, "Waiting for git job to fetch code", now)
    else
      NewFlowCondition(MarioReady, CondFalse, GitPending, "Waiting for git job to fetch code", now)
  }

  // ---------------------------------------------------------------------------
  // Stage statuses

  /** A found job's stage phase: Failed overrides Complete, otherwise Running. */
  function JobPhase(job: Job): (p: StagePhase)
    ensures p == StageFailed <==> IsJobFailed(job)
    ensures p == StageComplete <==> IsJobComplete(job) && !IsJobFailed(job)
    ensures p == StageRunning <==> !IsJobComplete(job) && !IsJobFailed(job)
  {
    if IsJobFailed(job) then StageFailed else if IsJobComplete(job) then StageComplete else StageRunning
  }

  /** The job-map key a stage is looked up under. */
  function StageLookupKey(stage: Stage, prefix: string): string
  {
    prefix + stage.name
  }

  function StatusAt(stage: Stage, jobMap: map<string, Job>, prefix: string): StageStatus
  {
    var k := StageLookupKey(stage, prefix);
    if k in jobMap then StageStatus(jobMap[k].meta.name, JobPhase(jobMap[k])) else StageStatus("", StageMissing)
  }

  /** n statuses of stages without a job. */
  function Missing(n: nat): (r: seq<StageStatus>)
    ensures |r| == n && forall i :: 0 <= i < n ==> r[i] == StageStatus("", StageMissing)
  {
    seq(n, _ => StageStatus("", StageMissing))
  }

  /** How many stages at the end have no job. */
  function Trailing(stages: seq<Stage>, jobMap: map<string, Job>, prefix: string): nat
  {
    if stages == [] then 0
    else if StageLookupKey(stages[|stages| - 1], prefix) in jobMap then 0
    else Trailing(stages[..|stages| - 1], jobMap, prefix) + 1
  }

  /** The stage statuses calculateStageStatus builds, stage by stage: a stage
      with a job adds the Missing statuses of the stages skipped since the
      previous one, then its own. */
  function StageStatuses(stages: seq<Stage>, jobMap: map<string, Job>, prefix: string): seq<StageStatus>
  {
    if stages == [] then []
    else
      var init := stages[..|stages| - 1];
      var stage := stages[|stages| - 1];
      if StageLookupKey(stage, prefix) in jobMap then
        StageStatuses(init, jobMap, prefix) + Missing(Trailing(init, jobMap, prefix)) + [StatusAt(stage, jobMap, prefix)]
      else StageStatuses(init, jobMap, prefix)
  }

  /** The statuses cover the stages up to the last one with a job, each being
      the status of its stage; no later stage has a job. */
  predicate Shaped(stages: seq<Stage>, jobMap: map<string, Job>, prefix: string, r: seq<StageStatus>)
  {
    && |r| + Trailing(stages, jobMap, prefix) == |stages|
    && (forall i :: 0 <= i < |r| ==> r[i] == StatusAt(stages[i], jobMap, prefix))
    && (forall i :: |r| <= i < |stages| ==> StageLookupKey(stages[i], prefix) !in jobMap)
    && (r != [] ==> StageLookupKey(stages[|r| - 1], prefix) in jobMap)
  }

  /** The statuses calculateStageStatus builds have that shape. */
  lemma {:induction false} StageStatusesShape(stages: seq<Stage>, jobMap: map<string, Job>, prefix: string)
    ensures Shaped(stages, jobMap, prefix, StageStatuses(stages, jobMap, prefix))
  {
    if stages != [] {
      var init := stages[..|stages| - 1];
      var stage := stages[|stages| - 1];
      StageStatusesShape(init, jobMap, prefix);
      var r0 := StageStatuses(init, jobMap, prefix);
      var r := StageStatuses(stages, jobMap, prefix);
      assert forall i :: 0 <= i < |init| ==> init[i] == stages[i];
      if StageLookupKey(stage, prefix) in jobMap {
        var t := Trailing(init, jobMap, prefix);
        assert r == r0 + Missing(t) + [StatusAt(stage, jobMap, prefix)];
        forall i | 0 <= i < |r|
          ensures r[i] == StatusAt(stages[i], jobMap, prefix)
        {
          if i < |r0| {
            assert r[i] == r0[i];
          } else if i < |init| {
            assert r[i] == StageStatus("", StageMissing);
            assert StageLookupKey(init[i], prefix) !in jobMap;
          }
        }
      }
    }
  }

  /** Each stage that has a job is reported with that job's name and phase; a
      reported stage without a job is Missing with no job name; nothing is
      reported when no stage has a job, and the last reported stage has one. */
  lemma StageStatusesMeaning(stages: seq<Stage>, jobMap: map<string, Job>, prefix: string)
    ensures var r := StageStatuses(stages, jobMap, prefix);
      && |r| <= |stages|
      && (forall i :: 0 <= i < |stages| && StageLookupKey(stages[i], prefix) in jobMap ==>
            i < |r| && r[i] == StageStatus(jobMap[StageLookupKey(stages[i], prefix)].meta.name,
                                           JobPhase(jobMap[StageLookupKey(stages[i], prefix)])))
      && (forall i :: 0 <= i < |r| && StageLookupKey(stages[i], prefix) !in jobMap ==> r[i] == StageStatus("", StageMissing))
      && (r == [] <==> forall i :: 0 <= i < |stages| ==> StageLookupKey(stages[i], prefix) !in jobMap)
      && (r != [] ==> StageLookupKey(stages[|r| - 1], prefix) in jobMap)
  {
    StageStatusesShape(stages, jobMap, prefix);
  }

  /** calculateStageStatus, with user jobs looked up under the user prefix. */
  method CalculateStageStatus(stages: seq<Stage>, jobMap: map<string, Job>) returns (statuses: seq<StageStatus>)
    ensures statuses == StageStatuses(stages, jobMap, UserJobPrefix)
  {
    statuses := [];
    var missingCount := 0;
    var i := 0;
    while i < |stages|
      invariant 0 <= i <= |stages|
      invariant statuses == StageStatuses(stages[..i], jobMap, UserJobPrefix)
      invariant missingCount == Trailing(stages[..i], jobMap, UserJobPrefix)
    {
      var stage := stages[i];
      assert stages[..i + 1][..i] == stages[..i];
      var key := UserJobPrefix + stage.name;
      if key !in jobMap {
        missingCount := missingCount + 1;
        i := i + 1;
        continue;
      }
      ghost var before := statuses;
      var k := 0;
      while k < missingCount
        invariant 0 <= k <= missingCount
        invariant statuses == before + Missing(k)
      {
        statuses := statuses + [StageStatus("", StageMissing)];
        k := k + 1;
      }
      missingCount := 0;
      var job := jobMap[key];
      statuses := statuses + [StageStatus(job.meta.name, JobPhase(job))];
      i := i + 1;
    }
    assert stages[..i] == stages;
  }

  // ---------------------------------------------------------------------------
  // Phase and status

  /** The phase rules: Pending without stage statuses, Failed when the last
      one failed, Succeeded when the last one completed and every stage has a
      status, Running otherwise. */
  function PhaseOf(statuses: seq<StageStatus>, stageCount: nat): (p: FlowPhase)
    ensures p != PhaseUnset
  {
    if |statuses| == 0 then FlowPending
    else if statuses[|statuses| - 1].phase == StageFailed then FlowFailed
    else if statuses[|statuses| - 1].phase == StageComplete && |statuses| == stageCount then FlowSucceeded
    else FlowRunning
  }

  /** The flow is Pending exactly when no stage has a job. */
  lemma PhasePending(stages: seq<Stage>, jobMap: map<string, Job>)
    ensures PhaseOf(StageStatuses(stages, jobMap, UserJobPrefix), |stages|) == FlowPending <==>
      forall i :: 0 <= i < |stages| ==> UserJobPrefix + stages[i].name !in jobMap
  {
    StageStatusesShape(stages, jobMap, UserJobPrefix);
    var r := StageStatuses(stages, jobMap, UserJobPrefix);
    if r != [] {
      assert StageLookupKey(stages[|r| - 1], UserJobPrefix) in jobMap;
    } else {
      forall i | 0 <= i < |stages|
        ensures UserJobPrefix + stages[i].name !in jobMap
      {
        assert StageLookupKey(stages[i], UserJobPrefix) !in jobMap;
      }
    }
  }

  /** The flow has Succeeded exactly when the last stage's job completed without failing. */
  lemma PhaseSucceeded(stages: seq<Stage>, jobMap: map<string, Job>)
    ensures PhaseOf(StageStatuses(stages, jobMap, UserJobPrefix), |stages|) == FlowSucceeded <==>
      (|stages| > 0 && UserJobPrefix + stages[|stages| - 1].name in jobMap &&
       JobPhase(jobMap[UserJobPrefix + stages[|stages| - 1].name]) == StageComplete)
  {
    StageStatusesShape(stages, jobMap, UserJobPrefix);
    var r := StageStatuses(stages, jobMap, UserJobPrefix);
    if |stages| > 0 {
      var lastStage := stages[|stages| - 1];
      if StageLookupKey(lastStage, UserJobPrefix) in jobMap {
        assert |r| == |stages|;
        assert r[|r| - 1] == StatusAt(lastStage, jobMap, UserJobPrefix);
      } else {
        assert |r| < |stages|;
      }
    }
  }

  /** The flow has Failed exactly when the job of the last stage that has one has failed. */
  lemma PhaseFailed(stages: seq<Stage>, jobMap: map<string, Job>)
    ensures PhaseOf(StageStatuses(stages, jobMap, UserJobPrefix), |stages|) == FlowFailed <==>
      exists i :: 0 <= i < |stages| && UserJobPrefix + stages[i].name in jobMap &&
                  IsJobFailed(jobMap[UserJobPrefix + stages[i].name]) &&
                  forall j :: i < j < |stages| ==> UserJobPrefix + stages[j].name !in jobMap
  {
    StageStatusesShape(stages, jobMap, UserJobPrefix);
    var r := StageStatuses(stages, jobMap, UserJobPrefix);
    if r != [] {
      var last := |r| - 1;
      assert StageLookupKey(stages[last], UserJobPrefix) in jobMap;
      assert r[last] == StatusAt(stages[last], jobMap, UserJobPrefix);
      forall j | last < j < |stages|
        ensures UserJobPrefix + stages[j].name !in jobMap
      {
        assert StageLookupKey(stages[j], UserJobPrefix) !in jobMap;
      }
      forall i | 0 <= i < |stages| && UserJobPrefix + stages[i].name in jobMap &&
                 forall j :: i < j < |stages| ==> UserJobPrefix + stages[j].name !in jobMap
        ensures i == last
      {
        assert StageLookupKey(stages[i], UserJobPrefix) in jobMap;
      }
    } else {
      forall i | 0 <= i < |stages|
        ensures UserJobPrefix + stages[i].name !in jobMap
      {
        assert StageLookupKey(stages[i], UserJobPrefix) !in jobMap;
      }
    }
  }

  /** The status generateFlowStatus computes. Its conditions carry the clock,
      so a stored status stamped at another time is never equal to it. */
  function FlowStatusOf(flow: Flow, jobMap: map<string, Job>, pvc: Option<Pvc>, now: int): (s: FlowStatus)
    ensures |s.conditions| == 2 && s.conditions[0].ctype == GitVolumeReady && s.conditions[1].ctype == MarioReady
    ensures s.conditions[0].lastProbeTime == now && s.conditions[1].lastProbeTime == now
    ensures |s.stageStatuses| <= |flow.spec.stages|
    ensures |flow.status.conditions| > 0 && flow.status.conditions[0].lastProbeTime != now ==> s != flow.status
  {
    var gitJob := if FlowStageGit in jobMap then Some(jobMap[FlowStageGit]) else None;
    var marioJob := if FlowStageMario in jobMap then Some(jobMap[FlowStageMario]) else None;
    var statuses := StageStatuses(flow.spec.stages, jobMap, UserJobPrefix);
    StageStatusesShape(flow.spec.stages, jobMap, UserJobPrefix);
    FlowStatus(PhaseOf(statuses, |flow.spec.stages|), statuses,
               [GitVolumeCondition(pvc, now), MarioCondition(flow, gitJob, marioJob, now)])
  }

  method GenerateFlowStatus(flow: Flow, jobMap: map<string, Job>, pvc: Option<Pvc>, now: int) returns (s: FlowStatus)
    ensures s == FlowStatusOf(flow, jobMap, pvc, now)
  {
    var pvcCond := GitVolumeCondition(pvc, now);
    var gitJob := if FlowStageGit in jobMap then Some(jobMap[FlowStageGit]) else None;
    var marioJob := if FlowStageMario in jobMap then Some(jobMap[FlowStageMario]) else None;
    var marioCond := MarioCondition(flow, gitJob, marioJob, now);
    var statuses := CalculateStageStatus(flow.spec.stages, jobMap);
    var length := |statuses|;
    if length == 0 {
      return FlowStatus(FlowPending, statuses, [pvcCond, marioCond]);
    }
    var lastPhase := statuses[length - 1].phase;
    if lastPhase == StageFailed {
      return FlowStatus(FlowFailed, statuses, [pvcCond, marioCond]);
    }
    if lastPhase == StageComplete && length == |flow.spec.stages| {
      return FlowStatus(FlowSucceeded, statuses, [pvcCond, marioCond]);
    }
    return FlowStatus(FlowRunning, statuses, [pvcCond, marioCond]);
  }

  /** The object UpdateStatus is sent: namespace, name, resource version and the new status only. */
  function StatusUpdate(flow: Flow, status: FlowStatus): Flow
  {
    Flow(Meta(flow.meta.namespace, flow.meta.name, "", flow.meta.resourceVersion, map[], [], 0),
         FlowSpec(map[], Git("", "", "", None), [], None), status)
  }

  /** syncFlowStatus: no write when the recomputed status equals the stored
      one; otherwise one UpdateStatus. On success the flow comes back with the
      new status (the rest of the server's answer is not modelled). */
  method SyncFlowStatus(flow: Flow, jobMap: map<string, Job>, pvc: Option<Pvc>, now: int, api: ApiServer)
    returns (updated: Option<Flow>, r: SyncOutcome)
    ensures var s := FlowStatusOf(flow, jobMap, pvc, now);
      && (s == flow.status ==> updated.None? && r == SyncOutcome([], None))
      && (s != flow.status ==> r.writes == [UpdateFlowStatus(StatusUpdate(flow, s))] &&
                               r.err == api(UpdateFlowStatus(StatusUpdate(flow, s))) &&
                               (updated.Some? <==> r.err.None?) &&
                               (updated.Some? ==> updated.value == flow.(status := s)))
  {
    var status := GenerateFlowStatus(flow, jobMap, pvc, now);
    if status == flow.status {
      return None, SyncOutcome([], None);
    }
    var w := UpdateFlowStatus(StatusUpdate(flow, status));
    var err := api(w);
    if err.Some? {
      return None, SyncOutcome([w], err);
    }
    return Some(flow.(status := status)), SyncOutcome([w], None);
  }

  // ---------------------------------------------------------------------------
  // The lookup as written

  /** calculateStageStatus as written: user jobs looked up under the bare stage name. */
  function StageStatusesAsWritten(stages: seq<Stage>, jobMap: map<string, Job>): seq<StageStatus>
  {
    StageStatuses(stages, jobMap, "")
  }

  /** The job map only holds valid stage keys, so with the bare-name lookup a
      stage whose name is not itself a valid key never finds its job: every
      status is empty and the flow stays Pending whatever its jobs do. */
  lemma AsWrittenNeverSeesUserJobs(stages: seq<Stage>, jobMap: map<string, Job>)
    requires forall k :: k in jobMap ==> IsValidStageKey(k)
    requires forall i :: 0 <= i < |stages| ==> !IsValidStageKey(stages[i].name)
    ensures StageStatusesAsWritten(stages, jobMap) == []
    ensures PhaseOf(StageStatusesAsWritten(stages, jobMap), |stages|) == FlowPending
  {
    StageStatusesShape(stages, jobMap, "");
    forall i | 0 <= i < |stages|
      ensures StageLookupKey(stages[i], "") !in jobMap
    {
      assert StageLookupKey(stages[i], "") == stages[i].name;
    }
  }

  /** A one-stage flow whose stage job completed: Pending as written, Succeeded with the user-prefix lookup. */
  lemma AsWrittenCounterexample(job: Job)
    requires job.conditions == [JobCondition(JobComplete, CondTrue)]
    ensures var stages := [Stage("build", "make")];
      var jobMap := map[UserJobPrefix + "build" := job];
      && PhaseOf(StageStatusesAsWritten(stages, jobMap), 1) == FlowPending
      && PhaseOf(StageStatuses(stages, jobMap, UserJobPrefix), 1) == FlowSucceeded
  {
    var stages := [Stage("build", "make")];
    var jobMap := map[UserJobPrefix + "build" := job];
    assert StageLookupKey(stages[0], "") == "build";
    assert "build" != UserJobPrefix + "build";
    assert IsJobComplete(job) && !IsJobFailed(job);
    assert StageLookupKey(stages[0], UserJobPrefix) in jobMap;
    StageStatusesShape(stages, jobMap, "");
    StageStatusesShape(stages, jobMap, UserJobPrefix);
  }
}
