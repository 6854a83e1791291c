/** The flow's volumes: the claim holding the checked-out code
    (pkg/controller/flow/sync_pvc.go) and the config map holding the git
    script (pkg/controller/flow/sync_cm.go). Both are named after the flow,
    created once and never updated. */
module FlowVolumes {
  import opened Api
  import opened FlowJobs

  /** The controller of owners + more is the first controller of owners, or else of more. */
  lemma {:induction false} ControllerOfAppend(owners: seq<OwnerRef>, more: seq<OwnerRef>)
    ensures ControllerOf(owners + more) == if ControllerOf(owners).Some? then ControllerOf(owners) else ControllerOf(more)
  {
    if owners != [] {
      assert (owners + more)[1..] == owners[1..] + more;
      ControllerOfAppend(owners[1..], more);
    } else {
      assert owners + more == more;
    }
  }

  /** The claim created from the flow's template: renamed after the flow,
      the flow's controller reference appended to the template's owners, the
      selector labels laid over the template's. */
  function ClaimOf(flow: Flow, template: Pvc, cfg: JobConfig): (p: Pvc)
    ensures p.meta.name == flow.meta.name && p.meta.namespace == flow.meta.namespace
    ensures p.meta.labels == template.meta.labels + flow.spec.selector && p.spec == template.spec
    ensures p.meta.owners == template.meta.owners + [NewControllerRef(flow.meta, cfg.gvk)]
    ensures IsControlledBy(p.meta, flow.meta) <==>
      ControllerOf(template.meta.owners).None? || ControllerOf(template.meta.owners).value.uid == flow.meta.uid
  {
    var owner := NewControllerRef(flow.meta, cfg.gvk);
    var p := template.(meta := template.meta.(name := flow.meta.name, namespace := flow.meta.namespace,
                                              owners := template.meta.owners + [owner],
                                              labels := template.meta.labels + flow.spec.selector));
    ControllerOfAppend(template.meta.owners, [owner]);
    assert ControllerOf([owner]) == Some(owner);
    p
  }

  /** syncPVC: an existing claim is left alone, and is an error when the flow
      does not control it; a missing claim is created from the template. The
      source dereferences a missing template; the model reports an error. */
  function SyncPvcOutcome(flow: Flow, pvc: Option<Pvc>, cfg: JobConfig, api: ApiServer): (r: SyncOutcome)
    ensures pvc.Some? ==> r.writes == [] && (r.err.None? <==> IsControlledBy(pvc.value.meta, flow.meta))
    ensures pvc.None? && flow.spec.git.volumeClaimTemplate.None? ==> r.writes == [] && r.err.Some?
    ensures pvc.None? && flow.spec.git.volumeClaimTemplate.Some? ==>
      var w := CreatePvc(ClaimOf(flow, flow.spec.git.volumeClaimTemplate.value, cfg));
      r == SyncOutcome([w], api(w))
  {
    if pvc.Some? then
      if !IsControlledBy(pvc.value.meta, flow.meta) then
        SyncOutcome([], Some(Err("can't create pvc, it exists and is not controlled by flow")))
      else SyncOutcome([], None)
    else if flow.spec.git.volumeClaimTemplate.None? then
      SyncOutcome([], Some(Err("no volume claim template")))
    else
      var w := CreatePvc(ClaimOf(flow, flow.spec.git.volumeClaimTemplate.value, cfg));
      SyncOutcome([w], api(w))
  }

  method SyncPvc(flow: Flow, pvc: Option<Pvc>, cfg: JobConfig, api: ApiServer) returns (r: SyncOutcome)
    ensures r == SyncPvcOutcome(flow, pvc, cfg, api)
  {
    if pvc.Some? {
      if !IsControlledBy(pvc.value.meta, flow.meta) {
        return SyncOutcome([], Some(Err("can't create pvc, it exists and is not controlled by flow")));
      }
      return SyncOutcome([], None);
    }
    if flow.spec.git.volumeClaimTemplate.None? {
      return SyncOutcome([], Some(Err("no volume claim template")));
    }
    var template := flow.spec.git.volumeClaimTemplate.value;
    var owner := NewControllerRef(flow.meta, cfg.gvk);
    var labels := PutAll(template.meta.labels, flow.spec.selector);
    var claim := template.(meta := template.meta.(name := flow.meta.name, namespace := flow.meta.namespace,
                                                  owners := template.meta.owners + [owner], labels := labels));
    var w := CreatePvc(claim);
    return SyncOutcome([w], api(w));
  }

  /** A claim created from a template without a controller reference of its
      own is controlled by the flow, so the next reconciliation accepts it. */
  lemma CreatedClaimAccepted(flow: Flow, cfg: JobConfig, api: ApiServer)
    requires flow.spec.git.volumeClaimTemplate.Some?
    requires ControllerOf(flow.spec.git.volumeClaimTemplate.value.meta.owners).None?
    ensures var r := SyncPvcOutcome(flow, None, cfg, api);
      && r.writes != [] && r.writes[0].CreatePvc?
      && SyncPvcOutcome(flow, Some(r.writes[0].pvc), cfg, api) == SyncOutcome([], None)
  {
  }

  /** Executing the git-script template: the repository and the ref as the
      html template renders them. `escape` is the template's rendering of one
      value, which may fail; a failure fails the execution. */
  function GitScript(repo: string, ref: string, escape: string -> Result<string>): (r: Result<string>)
    ensures r.Failure? <==> escape(repo).Failure? || escape(ref).Failure?
  {
    match escape(repo)
    case Failure(e) => Failure(e)
    case Ok(r) =>
      match escape(ref)
      case Failure(e) => Failure(e)
      case Ok(f) => Ok("#!/bin/sh\ngit init\ngit remote add origin " + r + "\n\ngit fetch origin " + f +
                       " --depth=1\n\ngit reset --hard FETCH_HEAD")
  }

  /** generateGitScript: one entry, the script, in a config map named after the flow. */
  function ScriptConfigMap(flow: Flow, cfg: JobConfig, script: string): (cm: ConfigMap)
    ensures cm.meta.name == flow.meta.name && cm.meta.namespace == flow.meta.namespace
    ensures IsControlledBy(cm.meta, flow.meta)
    ensures cm.data == map[GitScriptName := script]
  {
    ConfigMap(OwnedMeta(flow, flow.meta.name, map[], cfg), map[GitScriptName := script])
  }

  /** syncConfigMap: an existing map is left alone, and is an error when the
      flow does not control it; a missing one is created unless rendering the
      script fails. */
  function SyncConfigMapOutcome(flow: Flow, cm: Option<ConfigMap>, cfg: JobConfig, escape: string -> Result<string>,
                                api: ApiServer): (r: SyncOutcome)
    ensures cm.Some? ==> r.writes == [] && (r.err.None? <==> IsControlledBy(cm.value.meta, flow.meta))
    ensures var script := GitScript(flow.spec.git.repo, flow.spec.git.ref, escape);
      && (cm.None? && script.Failure? ==> r == SyncOutcome([], Some(script.err)))
      && (cm.None? && script.Ok? ==>
            var w := CreateConfigMap(ScriptConfigMap(flow, cfg, script.value)); r == SyncOutcome([w], api(w)))
  {
    if cm.Some? then
      if !IsControlledBy(cm.value.meta, flow.meta) then
        SyncOutcome([], Some(Err("can't create cm, it exists and is not controlled by flow")))
      else SyncOutcome([], None)
    else
      match GitScript(flow.spec.git.repo, flow.spec.git.ref, escape)
      case Failure(e) => SyncOutcome([], Some(e))
      case Ok(script) =>
        var w := CreateConfigMap(ScriptConfigMap(flow, cfg, script));
        SyncOutcome([w], api(w))
  }

  /** The git job mounts what these syncs create: the claim named after the
      flow, and the config map named after the flow, whose only entry is the
      script the job's command runs from the mount path. */
  lemma GitJobUsesFlowVolumes(flow: Flow, cfg: JobConfig, script: string, template: Pvc)
    ensures var job := GitJob(flow, cfg);
      var cm := ScriptConfigMap(flow, cfg, script);
      && job.template.volumes[0].source == ClaimVolume(ClaimOf(flow, template, cfg).meta.name)
      && job.template.volumes[1].source.ConfigMapVolume? && job.template.volumes[1].source.configMap == cm.meta.name
      && Mount(GitScriptVolumeName, GitScriptPath) in job.template.containers[0].mounts
      && exists key :: key in cm.data && job.template.containers[0].command == [GitScriptPath + "/" + key]
  {
    var cm := ScriptConfigMap(flow, cfg, script);
    assert GitScriptName in cm.data;
  }
}
