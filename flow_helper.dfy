/** Helpers of the flow reconciler (pkg/controller/flow/helper.go): owner
    resolution, job conditions, flow conditions, job names and the stage key a
    job name stands for. */
module FlowHelpers {
  import opened Api

  /** Stage keys of the two bootstrap jobs and the prefix of user-stage keys. */
  const FlowStageGit: string := "git"
  const FlowStageMario: string := "mario"
  const UserJobPrefix: string := "user-"

  /** The flow a controller reference points to: the kind must be the flow
      kind, the cache must hold a flow of that name in the namespace, and the
      UIDs must agree. Any lister error counts as "no flow". */
  function GetFlowFromRef(ns: string, ref: OwnerRef, kind: string, flows: Lister<Flow>): (r: Option<Flow>)
    ensures ref.kind != kind || flows.failure.Some? ==> r.None?
    ensures r.Some? ==> r.value in flows.items && r.value.meta.namespace == ns &&
                        r.value.meta.name == ref.name && r.value.meta.uid == ref.uid
  {
    if ref.kind != kind then None
    else
      match Get(flows, FlowMeta, ns, ref.name)
      case Found(f) => if f.meta.uid != ref.uid then None else Some(f)
      case _ => None
  }

  /** No two cached flows share a namespace and a name. */
  predicate UniqueNames(flows: seq<Flow>)
  {
    forall i, j :: 0 <= i < j < |flows| ==>
      !(flows[i].meta.namespace == flows[j].meta.namespace && flows[i].meta.name == flows[j].meta.name)
  }

  lemma {:induction false} FirstNamedUnique(flows: seq<Flow>, ns: string, name: string, f: Flow)
    requires UniqueNames(flows) && f in flows && f.meta.namespace == ns && f.meta.name == name
    ensures FirstNamed(flows, FlowMeta, ns, name) == Found(f)
  {
    if flows[0] != f {
      assert f in flows[1..];
      assert !(flows[0].meta.namespace == ns && flows[0].meta.name == name) by {
        var j :| 0 <= j < |flows| && flows[j] == f;
        assert j > 0;
      }
      assert UniqueNames(flows[1..]) by {
        forall i, j | 0 <= i < j < |flows[1..]|
          ensures !(flows[1..][i].meta.namespace == flows[1..][j].meta.namespace && flows[1..][i].meta.name == flows[1..][j].meta.name)
        {
          assert flows[1..][i] == flows[i + 1] && flows[1..][j] == flows[j + 1];
        }
      }
      FirstNamedUnique(flows[1..], ns, name, f);
    }
  }

  /** In a cache where names are unique, a reference resolves exactly when a
      cached flow has its namespace, name and UID. */
  lemma GetFlowFromRefResolves(ns: string, ref: OwnerRef, kind: string, flows: Lister<Flow>)
    requires flows.failure.None? && UniqueNames(flows.items)
    ensures GetFlowFromRef(ns, ref, kind, flows).Some? <==>
      ref.kind == kind && exists f :: f in flows.items && f.meta.namespace == ns && f.meta.name == ref.name && f.meta.uid == ref.uid
  {
    if ref.kind == kind && exists f :: f in flows.items && f.meta.namespace == ns && f.meta.name == ref.name && f.meta.uid == ref.uid {
      var f :| f in flows.items && f.meta.namespace == ns && f.meta.name == ref.name && f.meta.uid == ref.uid;
      FirstNamedUnique(flows.items, ns, ref.name, f);
    }
  }

  /** A flow condition stamped with the clock: both probe and transition time are `now`. */
  function NewFlowCondition(t: FlowConditionType, status: string, reason: Reason, message: string, now: int): (c: FlowCondition)
    ensures c.ctype == t && c.status == status && c.reason == reason && c.message == message
    ensures c.lastProbeTime == now && c.lastTransitionTime == now
  {
    FlowCondition(t, status, now, now, reason, message)
  }

  /** The status of the first condition of the given type, if any. */
  function JobConditionStatus(conds: seq<JobCondition>, t: string): (r: Option<string>)
    ensures r.None? <==> forall i :: 0 <= i < |conds| ==> conds[i].ctype != t
    ensures r.Some? ==> exists i :: 0 <= i < |conds| && conds[i].ctype == t && conds[i].status == r.value &&
                                   forall j :: 0 <= j < i ==> conds[j].ctype != t
  {
    if conds == [] then None
    else if conds[0].ctype == t then Some(conds[0].status)
    else
      var r := JobConditionStatus(conds[1..], t);
      assert forall i :: 1 <= i < |conds| ==> conds[i] == conds[1..][i - 1];
      r
  }

  /** A job is complete when its first Complete condition is True. */
  function IsJobComplete(job: Job): (b: bool)
    ensures b <==> exists i :: 0 <= i < |job.conditions| && job.conditions[i].ctype == JobComplete &&
                             job.conditions[i].status == CondTrue &&
                             forall j :: 0 <= j < i ==> job.conditions[j].ctype != JobComplete
    ensures job.conditions == [] ==> !b
  {
    JobConditionStatus(job.conditions, JobComplete) == Some(CondTrue)
  }

  /** A job has failed when its first Failed condition is True. */
  function IsJobFailed(job: Job): (b: bool)
    ensures b <==> exists i :: 0 <= i < |job.conditions| && job.conditions[i].ctype == JobFailed &&
                             job.conditions[i].status == CondTrue &&
                             forall j :: 0 <= j < i ==> job.conditions[j].ctype != JobFailed
    ensures job.conditions == [] ==> !b
  {
    JobConditionStatus(job.conditions, JobFailed) == Some(CondTrue)
  }

  function TotalLength(parts: seq<string>): nat
  {
    if parts == [] then 0 else |parts[0]| + TotalLength(parts[1..])
  }

  /** The parts joined with "-". */
  function NameJoin(parts: seq<string>): (r: string)
    ensures parts == [] ==> r == ""
    ensures parts != [] ==> |r| == TotalLength(parts) + |parts| - 1
    ensures parts != [] ==> r[..|parts[0]|] == parts[0]
  {
    if parts == [] then ""
    else if |parts| == 1 then parts[0]
    else parts[0] + "-" + NameJoin(parts[1..])
  }

  /** The rest of s after the prefix, or s itself when it does not start with it. */
  function TrimPrefix(s: string, prefix: string): (r: string)
    ensures prefix <= s ==> prefix + r == s
    ensures !(prefix <= s) ==> r == s
  {
    if prefix <= s then s[|prefix|..] else s
  }

  /** The stage a job stands for: its name without the "<flow>-" prefix. */
  function StageKey(flow: Flow, job: Job): string
  {
    TrimPrefix(job.meta.name, flow.meta.name + "-")
  }

  /** The stage keys the flow reconciler knows: the two bootstrap jobs and the user stages. */
  predicate IsValidStageKey(k: string)
  {
    k == FlowStageGit || k == FlowStageMario || UserJobPrefix <= k
  }

  /** Joining the flow name with further parts and trimming "<flow>-" gives the
      parts after the flow name, joined: the job names the reconciler makes
      come back as their stage keys. */
  lemma StageKeyOfJoinedName(flow: Flow, job: Job, rest: seq<string>)
    requires rest != [] && job.meta.name == NameJoin([flow.meta.name] + rest)
    ensures StageKey(flow, job) == NameJoin(rest)
  {
    var parts := [flow.meta.name] + rest;
    assert parts[1..] == rest;
    assert job.meta.name == flow.meta.name + "-" + NameJoin(rest);
    assert (flow.meta.name + "-") + NameJoin(rest) == job.meta.name;
  }

  /** The user job of a stage is keyed by the user prefix and the stage name. */
  lemma UserJobKey(flow: Flow, job: Job, stage: string)
    requires job.meta.name == NameJoin([flow.meta.name, "user", stage])
    ensures StageKey(flow, job) == UserJobPrefix + stage
    ensures IsValidStageKey(StageKey(flow, job))
  {
    assert [flow.meta.name, "user", stage] == [flow.meta.name] + ["user", stage];
    StageKeyOfJoinedName(flow, job, ["user", stage]);
    assert ["user", stage][1..] == [stage];
  }
}
