/** One reconciliation of a flow (syncFlow in pkg/controller/flow/sync.go):
    look the flow up, list its jobs and its claim, partition the jobs, write
    the status, and only when the status changed sync the claim and create
    the next job. */
module FlowSync {
  import opened Api
  import Keys
  import opened FlowHelpers
  import opened JobMap
  import opened FlowStatusSync
  import opened FlowJobs
  import opened FlowVolumes

  /** A match-labels selector picks the objects carrying every one of its labels. */
  predicate Selects(selector: map<string, string>, labels: map<string, string>)
  {
    forall k :: k in selector ==> k in labels && labels[k] == selector[k]
  }

  /** The jobs the job lister returns for the flow: those of the namespace its selector picks. */
  function SelectedJobs(flow: Flow, ns: string, jobs: seq<Job>): (r: seq<Job>)
    ensures forall j :: j in r <==> j in jobs && j.meta.namespace == ns && Selects(flow.spec.selector, j.meta.labels)
  {
    Filter(jobs, (j: Job) => j.meta.namespace == ns && Selects(flow.spec.selector, j.meta.labels))
  }

  /** The writes that follow the deletions, once the partition and the new
      status are known: the status write, then, if the status changed and was
      written, the claim sync and the job sync on the flow carrying the new
      status. */
  function ReconcileTail(flow: Flow, jobMap: map<string, Job>, status: FlowStatus, pvc: Option<Pvc>, cfg: JobConfig,
                         api: ApiServer): (r: SyncOutcome)
    ensures |r.writes| <= 3
    ensures status == flow.status ==> r == SyncOutcome([], None)
    ensures status != flow.status ==>
      && r.writes != [] && r.writes[0] == UpdateFlowStatus(StatusUpdate(flow, status))
      && (api(r.writes[0]).Some? ==> r == SyncOutcome([r.writes[0]], api(r.writes[0])))
  {
    if status == flow.status then SyncOutcome([], None)
    else
      var w := UpdateFlowStatus(StatusUpdate(flow, status));
      var err := api(w);
      if err.Some? then SyncOutcome([w], err)
      else
        var p := SyncPvcOutcome(flow, pvc, cfg, api);
        if p.err.Some? then SyncOutcome([w] + p.writes, p.err)
        else
          var j := SyncJobOutcome(flow.(status := status), jobMap, cfg, api);
          SyncOutcome([w] + p.writes + j.writes, j.err)
  }

  /** A write after the deletions deletes nothing, and a job it creates
      competes for a stage key without an entry. */
  ghost predicate CreatesOnlyMissing(flow: Flow, jobMap: map<string, Job>, w: Write)
  {
    !w.DeleteJob? && (w.CreateJob? ==> exists k :: Candidate(flow, w.job, k) && k !in jobMap)
  }

  /** Whether a job competes for a stage depends on the flow's metadata alone. */
  lemma CandidateReadsMeta(a: Flow, b: Flow, job: Job, k: string)
    requires a.meta == b.meta
    ensures Candidate(a, job, k) == Candidate(b, job, k)
  {
  }

  lemma ReconcileTailCreatesOnlyMissing(flow: Flow, jobMap: map<string, Job>, status: FlowStatus, pvc: Option<Pvc>,
                                        cfg: JobConfig, api: ApiServer)
    ensures forall w :: w in ReconcileTail(flow, jobMap, status, pvc, cfg, api).writes ==> CreatesOnlyMissing(flow, jobMap, w)
  {
    if status != flow.status {
      var w := UpdateFlowStatus(StatusUpdate(flow, status));
      var p := SyncPvcOutcome(flow, pvc, cfg, api);
      assert forall x :: x in p.writes ==> x.CreatePvc?;
      var updated := flow.(status := status);
      var j := SyncJobOutcome(updated, jobMap, cfg, api);
      forall x | x in j.writes
        ensures CreatesOnlyMissing(flow, jobMap, x)
      {
        var k :| Candidate(updated, x.job, k) && k !in jobMap;
        CandidateReadsMeta(updated, flow, x.job, k);
      }
    }
  }

  /** Everything after the lookups: partition the jobs and send the
      deletions, compute the status, then write the rest. Every job created
      competes for a stage without an entry and every job deleted is a listed
      job the flow controls. */
  function ReconcileFlow(flow: Flow, jobs: seq<Job>, pvc: Option<Pvc>, now: int, cfg: JobConfig, api: ApiServer)
    : (r: SyncOutcome)
    ensures var jm := JobMapOf(flow, jobs, |jobs|);
      && jm.deletes <= r.writes
      && |r.writes| <= |jm.deletes| + 3
      && (FlowStatusOf(flow, jm.jobs, pvc, now) == flow.status ==> r == SyncOutcome(jm.deletes, None))
      && (forall w :: w in r.writes && w.CreateJob? ==> exists k :: Candidate(flow, w.job, k) && k !in jm.jobs)
      && (forall w :: w in r.writes && w.DeleteJob? ==>
            exists i :: 0 <= i < |jobs| && w == DeleteOf(jobs[i]) && IsControlledBy(jobs[i].meta, flow.meta))
  {
    var jm := JobMapOf(flow, jobs, |jobs|);
    JobMapDeletesListed(flow, jobs, |jobs|);
    var status := FlowStatusOf(flow, jm.jobs, pvc, now);
    var tail := ReconcileTail(flow, jm.jobs, status, pvc, cfg, api);
    ReconcileTailCreatesOnlyMissing(flow, jm.jobs, status, pvc, cfg, api);
    SyncOutcome(jm.deletes + tail.writes, tail.err)
  }

  /** syncFlow. The listers are the informer caches; the claim is looked up
      under the flow's own name. */
  function SyncFlowOutcome(key: string, flows: Lister<Flow>, jobs: Lister<Job>, pvcs: Lister<Pvc>, now: int,
                           cfg: JobConfig, api: ApiServer): (r: SyncOutcome)
    ensures Keys.SplitKey(key).SplitErr? ==> r == SyncOutcome([], Some(Keys.SplitKey(key).err))
    ensures Keys.SplitKey(key).Split? && Get(flows, FlowMeta, Keys.SplitKey(key).namespace, Keys.SplitKey(key).name).NotFound? ==>
      r == SyncOutcome([], None)
    ensures r.writes != [] ==> flows.failure.None? && jobs.failure.None? && pvcs.failure.None?
  {
    match Keys.SplitKey(key)
    case SplitErr(e) => SyncOutcome([], Some(e))
    case Split(ns, name) =>
      match Get(flows, FlowMeta, ns, name)
      case NotFound => SyncOutcome([], None)
      case LookupFailed(e) => SyncOutcome([], Some(e))
      case Found(flow) =>
        if jobs.failure.Some? then SyncOutcome([], jobs.failure)
        else
          match Get(pvcs, PvcMeta, ns, name)
          case LookupFailed(e) => SyncOutcome([], Some(e))
          case NotFound => ReconcileFlow(flow, SelectedJobs(flow, ns, jobs.items), None, now, cfg, api)
          case Found(pvc) => ReconcileFlow(flow, SelectedJobs(flow, ns, jobs.items), Some(pvc), now, cfg, api)
  }

  method SyncFlow(key: string, flows: Lister<Flow>, jobs: Lister<Job>, pvcs: Lister<Pvc>, now: int,
                  cfg: JobConfig, api: ApiServer) returns (r: SyncOutcome)
    ensures r == SyncFlowOutcome(key, flows, jobs, pvcs, now, cfg, api)
  {
    var split := Keys.SplitKey(key);
    if split.SplitErr? {
      return SyncOutcome([], Some(split.err));
    }
    var ns, name := split.namespace, split.name;
    var found := Get(flows, FlowMeta, ns, name);
    if found.NotFound? {
      return SyncOutcome([], None);
    } else if found.LookupFailed? {
      return SyncOutcome([], Some(found.err));
    }
    var flow := found.obj;
    if jobs.failure.Some? {
      return SyncOutcome([], jobs.failure);
    }
    var selected := SelectedJobs(flow, ns, jobs.items);
    var claim := Get(pvcs, PvcMeta, ns, name);
    if claim.LookupFailed? {
      return SyncOutcome([], Some(claim.err));
    }
    var pvc := if claim.Found? then Some(claim.obj) else None;
    var jobMap, deletes := CalculateJobMap(flow, selected);
    var updated, statusOutcome := SyncFlowStatus(flow, jobMap, pvc, now, api);
    if statusOutcome.err.Some? {
      return SyncOutcome(deletes + statusOutcome.writes, statusOutcome.err);
    }
    if updated.None? {
      return SyncOutcome(deletes, None);
    }
    var pvcOutcome := SyncPvc(flow, pvc, cfg, api);
    if pvcOutcome.err.Some? {
      return SyncOutcome(deletes + (statusOutcome.writes + pvcOutcome.writes), pvcOutcome.err);
    }
    var jobOutcome := SyncJob(updated.value, jobMap, cfg, api);
    return SyncOutcome(deletes + (statusOutcome.writes + pvcOutcome.writes + jobOutcome.writes), jobOutcome.err);
  }

  /** When the recomputed status differs from the stored one, the first write
      after the deletions is the status update; a failed update ends the pass
      with its error; otherwise the claim is synced, and when that succeeds the
      job step runs on the flow carrying the new status. */
  lemma ReconcileFlowStatusChanged(flow: Flow, jobs: seq<Job>, pvc: Option<Pvc>, now: int, cfg: JobConfig, api: ApiServer)
    ensures var jm := JobMapOf(flow, jobs, |jobs|);
      var s := FlowStatusOf(flow, jm.jobs, pvc, now);
      var w := UpdateFlowStatus(StatusUpdate(flow, s));
      var r := ReconcileFlow(flow, jobs, pvc, now, cfg, api);
      var p := SyncPvcOutcome(flow, pvc, cfg, api);
      var j := SyncJobOutcome(flow.(status := s), jm.jobs, cfg, api);
      s != flow.status ==>
        && |r.writes| > |jm.deletes| && r.writes[|jm.deletes|] == w
        && (api(w).Some? ==> r == SyncOutcome(jm.deletes + [w], api(w)))
        && (api(w).None? && p.err.Some? ==> r == SyncOutcome(jm.deletes + ([w] + p.writes), p.err))
        && (api(w).None? && p.err.None? ==> r == SyncOutcome(jm.deletes + ([w] + p.writes + j.writes), j.err))
  {
    var jm := JobMapOf(flow, jobs, |jobs|);
    var s := FlowStatusOf(flow, jm.jobs, pvc, now);
    var tail := ReconcileTail(flow, jm.jobs, s, pvc, cfg, api);
    assert ReconcileFlow(flow, jobs, pvc, now, cfg, api) == SyncOutcome(jm.deletes + tail.writes, tail.err);
  }

  /** The source's clock never repeats a reading, so every pass after a status
      write recomputes a status stamped later, which differs from the stored
      one: the status is written again on every reconciliation. */
  lemma StatusRewrittenWhenClockMoves(flow: Flow, jobs: seq<Job>, pvc: Option<Pvc>, now: int, later: int,
                                      cfg: JobConfig, api: ApiServer)
    requires later != now
    ensures var jm := JobMapOf(flow, jobs, |jobs|);
      var written := flow.(status := FlowStatusOf(flow, jm.jobs, pvc, now));
      var r := ReconcileFlow(written, jobs, pvc, later, cfg, api);
      |r.writes| > |jm.deletes| &&
      r.writes[|jm.deletes|] == UpdateFlowStatus(StatusUpdate(written, FlowStatusOf(written, jm.jobs, pvc, later)))
  {
    var jm := JobMapOf(flow, jobs, |jobs|);
    var written := flow.(status := FlowStatusOf(flow, jm.jobs, pvc, now));
    JobMapIgnoresStatus(flow, written, jobs, |jobs|);
    ReconcileFlowStatusChanged(written, jobs, pvc, later, cfg, api);
  }

  /** Rerunning a reconciliation whose status write succeeded, against caches
      that now hold the written status and no other change, writes nothing but
      the deletions, provided the clock reading is the same. The source's clock
      never repeats (StatusRewrittenWhenClockMoves), so there this fixed point
      is not reached. */
  lemma StableOnceStatusWritten(flow: Flow, jobs: seq<Job>, pvc: Option<Pvc>, now: int, cfg: JobConfig, api: ApiServer)
    ensures var jm := JobMapOf(flow, jobs, |jobs|);
      var written := flow.(status := FlowStatusOf(flow, jm.jobs, pvc, now));
      ReconcileFlow(written, jobs, pvc, now, cfg, api) == SyncOutcome(JobMapOf(written, jobs, |jobs|).deletes, None)
  {
    var jm := JobMapOf(flow, jobs, |jobs|);
    var written := flow.(status := FlowStatusOf(flow, jm.jobs, pvc, now));
    JobMapIgnoresStatus(flow, written, jobs, |jobs|);
  }

  /** The partition reads only the flow's metadata. */
  lemma {:induction false} JobMapIgnoresStatus(flow: Flow, other: Flow, jobs: seq<Job>, n: nat)
    requires n <= |jobs| && other.meta == flow.meta
    ensures JobMapOf(other, jobs, n) == JobMapOf(flow, jobs, n)
  {
    if n > 0 {
      JobMapIgnoresStatus(flow, other, jobs, n - 1);
    }
  }
}
