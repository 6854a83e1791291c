/** Partitioning a flow's jobs by stage (calculateJobMap in
    pkg/controller/flow/sync.go): jobs the flow does not control are ignored,
    a job whose stage key is unknown is deleted, and of two jobs with the same
    key the older one is deleted. Deletions go through cleanInvalidJob, which
    only logs a failed delete, so the API server's answer plays no part. */
module JobMap {
  import opened Api
  import opened FlowHelpers

  datatype JobMapResult = JobMapResult(jobs: map<string, Job>, deletes: seq<Write>)

  function DeleteOf(job: Job): Write
  {
    DeleteJob(job.meta.namespace, job.meta.name)
  }

  /** A job competes for key k when the flow controls it and its stage key is k. */
  predicate Candidate(flow: Flow, job: Job, k: string)
  {
    IsControlledBy(job.meta, flow.meta) && StageKey(flow, job) == k
  }

  /** One iteration of the loop: how one listed job changes the map and the deletions. */
  function JobMapStep(flow: Flow, acc: JobMapResult, job: Job): JobMapResult
  {
    if !IsControlledBy(job.meta, flow.meta) then acc
    else
      var k := StageKey(flow, job);
      if !IsValidStageKey(k) then acc.(deletes := acc.deletes + [DeleteOf(job)])
      else if k in acc.jobs then
        var other := acc.jobs[k];
        if !(job.meta.created < other.meta.created) then JobMapResult(acc.jobs[k := job], acc.deletes + [DeleteOf(other)])
        else acc.(deletes := acc.deletes + [DeleteOf(job)])
      else acc.(jobs := acc.jobs[k := job])
  }

  /** The map and deletions after the first n listed jobs. */
  function JobMapOf(flow: Flow, jobs: seq<Job>, n: nat): JobMapResult
    requires n <= |jobs|
  {
    if n == 0 then JobMapResult(map[], []) else JobMapStep(flow, JobMapOf(flow, jobs, n - 1), jobs[n - 1])
  }

  /** job is one of the first n listed jobs. */
  ghost predicate ListedBefore(jobs: seq<Job>, n: nat, job: Job)
    requires n <= |jobs|
  {
    exists m :: 0 <= m < n && jobs[m] == job
  }

  /** w deletes one of the first n listed jobs, and the flow controls that job. */
  ghost predicate DeletesListedJob(flow: Flow, jobs: seq<Job>, n: nat, w: Write)
    requires n <= |jobs|
  {
    exists i :: 0 <= i < n && w == DeleteOf(jobs[i]) && IsControlledBy(jobs[i].meta, flow.meta)
  }

  /** Every entry of r is one of the first n listed jobs, controlled by the
      flow and filed under its own valid stage key. */
  ghost predicate EntriesValid(flow: Flow, jobs: seq<Job>, n: nat, r: JobMapResult)
    requires n <= |jobs|
  {
    forall k :: k in r.jobs ==> IsValidStageKey(k) && Candidate(flow, r.jobs[k], k) && ListedBefore(jobs, n, r.jobs[k])
  }

  /** Every deletion of r is of one of the first n listed jobs the flow controls. */
  ghost predicate DeletesValid(flow: Flow, jobs: seq<Job>, n: nat, r: JobMapResult)
    requires n <= |jobs|
  {
    forall w :: w in r.deletes ==> DeletesListedJob(flow, jobs, n, w)
  }

  lemma {:induction false} JobMapEntriesValid(flow: Flow, jobs: seq<Job>, n: nat)
    requires n <= |jobs|
    ensures EntriesValid(flow, jobs, n, JobMapOf(flow, jobs, n))
  {
    if n > 0 {
      JobMapEntriesValid(flow, jobs, n - 1);
      var acc := JobMapOf(flow, jobs, n - 1);
      var r := JobMapOf(flow, jobs, n);
      assert r == JobMapStep(flow, acc, jobs[n - 1]);
      forall k | k in r.jobs
        ensures IsValidStageKey(k) && Candidate(flow, r.jobs[k], k) && ListedBefore(jobs, n, r.jobs[k])
      {
        if k in acc.jobs && r.jobs[k] == acc.jobs[k] {
          var m :| 0 <= m < n - 1 && jobs[m] == acc.jobs[k];
          assert jobs[m] == r.jobs[k];
        } else {
          assert jobs[n - 1] == r.jobs[k];
        }
      }
    }
  }

  /** A step deletes, besides what was deleted before, only the new job or
      the entry it replaces, and only when the flow controls the new job. */
  lemma StepDeletes(flow: Flow, acc: JobMapResult, job: Job)
    ensures forall w :: w in JobMapStep(flow, acc, job).deletes ==>
      w in acc.deletes ||
      (IsControlledBy(job.meta, flow.meta) &&
       (w == DeleteOf(job) || (StageKey(flow, job) in acc.jobs && w == DeleteOf(acc.jobs[StageKey(flow, job)]))))
  {
  }

  /** A step changes at most the entry for the new job's stage key: the new
      job takes it unless it is older than the job already there. */
  lemma StepJobs(flow: Flow, acc: JobMapResult, job: Job)
    ensures forall k :: k in JobMapStep(flow, acc, job).jobs &&
                        (k != StageKey(flow, job) || !IsControlledBy(job.meta, flow.meta) || !IsValidStageKey(k)) ==>
      k in acc.jobs && JobMapStep(flow, acc, job).jobs[k] == acc.jobs[k]
    ensures IsControlledBy(job.meta, flow.meta) && IsValidStageKey(StageKey(flow, job)) ==>
      StageKey(flow, job) in JobMapStep(flow, acc, job).jobs &&
      JobMapStep(flow, acc, job).jobs[StageKey(flow, job)] ==
        if StageKey(flow, job) in acc.jobs && job.meta.created < acc.jobs[StageKey(flow, job)].meta.created
        then acc.jobs[StageKey(flow, job)] else job
  {
  }

  lemma {:induction false} JobMapDeletesListed(flow: Flow, jobs: seq<Job>, n: nat)
    requires n <= |jobs|
    ensures DeletesValid(flow, jobs, n, JobMapOf(flow, jobs, n))
  {
    if n > 0 {
      JobMapDeletesListed(flow, jobs, n - 1);
      JobMapEntriesValid(flow, jobs, n - 1);
      var acc := JobMapOf(flow, jobs, n - 1);
      var job := jobs[n - 1];
      var k := StageKey(flow, job);
      StepDeletes(flow, acc, job);
      forall w | w in JobMapOf(flow, jobs, n).deletes
        ensures DeletesListedJob(flow, jobs, n, w)
      {
        if w in acc.deletes {
          var i :| 0 <= i < n - 1 && w == DeleteOf(jobs[i]) && IsControlledBy(jobs[i].meta, flow.meta);
          assert 0 <= i < n;
        } else if w == DeleteOf(job) {
          assert jobs[n - 1] == job;
        } else {
          var m :| 0 <= m < n - 1 && jobs[m] == acc.jobs[k];
          assert Candidate(flow, jobs[m], k);
        }
      }
    }
  }

  /** Among the first n listed jobs, jobs[m] is the newest candidate for k and
      every candidate listed after it is strictly older. */
  predicate IsNewest(flow: Flow, jobs: seq<Job>, n: nat, k: string, m: nat)
    requires n <= |jobs|
  {
    && m < n
    && (forall i :: 0 <= i < n && Candidate(flow, jobs[i], k) ==> jobs[i].meta.created <= jobs[m].meta.created)
    && (forall i :: m < i < n && Candidate(flow, jobs[i], k) ==> jobs[i].meta.created < jobs[m].meta.created)
  }

  lemma IsNewestKept(flow: Flow, jobs: seq<Job>, n: nat, k: string, m: nat)
    requires 0 < n <= |jobs| && IsNewest(flow, jobs, n - 1, k, m)
    requires !Candidate(flow, jobs[n - 1], k) || jobs[n - 1].meta.created < jobs[m].meta.created
    ensures IsNewest(flow, jobs, n, k, m)
  {
  }

  lemma IsNewestReplaced(flow: Flow, jobs: seq<Job>, n: nat, k: string, m: nat)
    requires 0 < n <= |jobs| && IsNewest(flow, jobs, n - 1, k, m)
    requires !(jobs[n - 1].meta.created < jobs[m].meta.created)
    ensures IsNewest(flow, jobs, n, k, n - 1)
  {
  }

  lemma IsNewestFirst(flow: Flow, jobs: seq<Job>, n: nat, k: string)
    requires 0 < n <= |jobs|
    requires forall i :: 0 <= i < n - 1 ==> !Candidate(flow, jobs[i], k)
    ensures IsNewest(flow, jobs, n, k, n - 1)
  {
  }

  /** Every controlled job with a valid stage key has an entry. */
  lemma {:induction false} JobMapCoversCandidates(flow: Flow, jobs: seq<Job>, n: nat)
    requires n <= |jobs|
    ensures forall i :: 0 <= i < n && IsControlledBy(jobs[i].meta, flow.meta) && IsValidStageKey(StageKey(flow, jobs[i])) ==>
      StageKey(flow, jobs[i]) in JobMapOf(flow, jobs, n).jobs
  {
    if n > 0 {
      JobMapCoversCandidates(flow, jobs, n - 1);
    }
  }

  /** Every entry of r is the newest of the first n listed candidates for its key. */
  ghost predicate KeepsNewest(flow: Flow, jobs: seq<Job>, n: nat, r: JobMapResult)
    requires n <= |jobs|
  {
    forall k :: k in r.jobs ==> exists m: nat :: m < n && r.jobs[k] == jobs[m] && IsNewest(flow, jobs, n, k, m)
  }

  /** The entry for a key is the newest of its candidates and, among equally
      new ones, the last listed. */
  lemma {:induction false} JobMapKeepsNewest(flow: Flow, jobs: seq<Job>, n: nat)
    requires n <= |jobs|
    ensures KeepsNewest(flow, jobs, n, JobMapOf(flow, jobs, n))
  {
    if n > 0 {
      JobMapKeepsNewest(flow, jobs, n - 1);
      forall k | k in JobMapOf(flow, jobs, n).jobs
        ensures exists m: nat :: m < n && JobMapOf(flow, jobs, n).jobs[k] == jobs[m] && IsNewest(flow, jobs, n, k, m)
      {
        KeepsNewestAt(flow, jobs, n, k);
      }
    }
  }

  /** The inductive step of JobMapKeepsNewest for one key. */
  lemma KeepsNewestAt(flow: Flow, jobs: seq<Job>, n: nat, k: string)
    requires 0 < n <= |jobs| && KeepsNewest(flow, jobs, n - 1, JobMapOf(flow, jobs, n - 1))
    requires k in JobMapOf(flow, jobs, n).jobs
    ensures exists m: nat :: m < n && JobMapOf(flow, jobs, n).jobs[k] == jobs[m] && IsNewest(flow, jobs, n, k, m)
  {
    var acc := JobMapOf(flow, jobs, n - 1);
    var r := JobMapOf(flow, jobs, n);
    var job := jobs[n - 1];
    var kj := StageKey(flow, job);
    StepJobs(flow, acc, job);
    if k != kj || !IsControlledBy(job.meta, flow.meta) || !IsValidStageKey(kj) {
      var m: nat :| m < n - 1 && acc.jobs[k] == jobs[m] && IsNewest(flow, jobs, n - 1, k, m);
      if k == kj && IsControlledBy(job.meta, flow.meta) {
        // An invalid key has no entry.
        JobMapEntriesValid(flow, jobs, n - 1);
      }
      IsNewestKept(flow, jobs, n, k, m);
      assert r.jobs[k] == jobs[m];
    } else if k !in acc.jobs {
      forall i | 0 <= i < n - 1
        ensures !Candidate(flow, jobs[i], k)
      {
        if Candidate(flow, jobs[i], k) {
          JobMapCoversCandidates(flow, jobs, n - 1);
        }
      }
      IsNewestFirst(flow, jobs, n, k);
      assert r.jobs[k] == jobs[n - 1];
    } else {
      var m: nat :| m < n - 1 && acc.jobs[k] == jobs[m] && IsNewest(flow, jobs, n - 1, k, m);
      if !(job.meta.created < acc.jobs[k].meta.created) {
        IsNewestReplaced(flow, jobs, n, k, m);
        assert r.jobs[k] == jobs[n - 1];
      } else {
        IsNewestKept(flow, jobs, n, k, m);
        assert r.jobs[k] == jobs[m];
      }
    }
  }

  /** No two listed jobs share a name (they all live in the flow's namespace). */
  predicate DistinctNames(jobs: seq<Job>)
  {
    forall i, j :: 0 <= i < j < |jobs| ==> jobs[i].meta.name != jobs[j].meta.name
  }

  /** No deletion of r is of a job r keeps. */
  predicate NoneKeptDeleted(r: JobMapResult)
  {
    forall w, k :: w in r.deletes && k in r.jobs ==> w != DeleteOf(r.jobs[k])
  }

  /** Entries under different keys are deleted by different writes. */
  predicate EntriesApart(r: JobMapResult)
  {
    forall k1, k2 :: k1 in r.jobs && k2 in r.jobs && k1 != k2 ==> DeleteOf(r.jobs[k1]) != DeleteOf(r.jobs[k2])
  }

  /** Neither an entry nor a deletion of r is of a job named like job. */
  predicate NameFresh(r: JobMapResult, job: Job)
  {
    && (forall k :: k in r.jobs ==> DeleteOf(r.jobs[k]) != DeleteOf(job))
    && (forall w :: w in r.deletes ==> w != DeleteOf(job))
  }

  /** A step with a job of a fresh name deletes nothing it keeps. */
  lemma StepNoneKeptDeleted(flow: Flow, acc: JobMapResult, job: Job)
    requires NoneKeptDeleted(acc) && EntriesApart(acc) && NameFresh(acc, job)
    ensures NoneKeptDeleted(JobMapStep(flow, acc, job))
  {
    var r := JobMapStep(flow, acc, job);
    var kj := StageKey(flow, job);
    if IsControlledBy(job.meta, flow.meta) && IsValidStageKey(kj) && kj in acc.jobs &&
       !(job.meta.created < acc.jobs[kj].meta.created) {
      forall w, k | w in r.deletes && k in r.jobs
        ensures w != DeleteOf(r.jobs[k])
      {
        if k != kj {
          assert r.jobs[k] == acc.jobs[k];
        }
      }
    }
  }

  /** With distinct names, no job that is deleted is kept in the map. */
  lemma {:induction false} DeletedNeverKept(flow: Flow, jobs: seq<Job>, n: nat)
    requires n <= |jobs| && DistinctNames(jobs)
    ensures NoneKeptDeleted(JobMapOf(flow, jobs, n))
  {
    if n > 0 {
      DeletedNeverKept(flow, jobs, n - 1);
      JobMapEntriesValid(flow, jobs, n - 1);
      JobMapDeletesListed(flow, jobs, n - 1);
      var acc := JobMapOf(flow, jobs, n - 1);
      var job := jobs[n - 1];
      forall k1, k2 | k1 in acc.jobs && k2 in acc.jobs && k1 != k2
        ensures DeleteOf(acc.jobs[k1]) != DeleteOf(acc.jobs[k2])
      {
        var m1 :| 0 <= m1 < n - 1 && jobs[m1] == acc.jobs[k1];
        var m2 :| 0 <= m2 < n - 1 && jobs[m2] == acc.jobs[k2];
        assert StageKey(flow, jobs[m1]) == k1 && StageKey(flow, jobs[m2]) == k2;
        assert m1 != m2;
      }
      forall k | k in acc.jobs
        ensures DeleteOf(acc.jobs[k]) != DeleteOf(job)
      {
        var m :| 0 <= m < n - 1 && jobs[m] == acc.jobs[k];
        assert jobs[m].meta.name != jobs[n - 1].meta.name;
      }
      forall w | w in acc.deletes
        ensures w != DeleteOf(job)
      {
        var i :| 0 <= i < n - 1 && w == DeleteOf(jobs[i]) && IsControlledBy(jobs[i].meta, flow.meta);
        assert jobs[i].meta.name != jobs[n - 1].meta.name;
      }
      StepNoneKeptDeleted(flow, acc, job);
    }
  }

  /** job is the entry kept under its own stage key in r. */
  predicate Kept(flow: Flow, r: JobMapResult, job: Job)
  {
    StageKey(flow, job) in r.jobs && r.jobs[StageKey(flow, job)] == job
  }

  /** Every listed job the flow controls is either kept under its stage key
      or deleted; one whose stage key is unknown is always deleted. */
  lemma {:induction false} JobMapDeletesComplete(flow: Flow, jobs: seq<Job>, n: nat)
    requires n <= |jobs|
    ensures forall i :: 0 <= i < n && IsControlledBy(jobs[i].meta, flow.meta) ==>
      Kept(flow, JobMapOf(flow, jobs, n), jobs[i]) || DeleteOf(jobs[i]) in JobMapOf(flow, jobs, n).deletes
    ensures forall i :: 0 <= i < n && IsControlledBy(jobs[i].meta, flow.meta) && !IsValidStageKey(StageKey(flow, jobs[i])) ==>
      DeleteOf(jobs[i]) in JobMapOf(flow, jobs, n).deletes
  {
    if n > 0 {
      JobMapDeletesComplete(flow, jobs, n - 1);
      var acc := JobMapOf(flow, jobs, n - 1);
      var r := JobMapOf(flow, jobs, n);
      var job := jobs[n - 1];
      var kj := StageKey(flow, job);
      assert r == JobMapStep(flow, acc, job);
      assert acc.deletes <= r.deletes;
      StepJobs(flow, acc, job);
      forall i | 0 <= i < n && IsControlledBy(jobs[i].meta, flow.meta)
        ensures Kept(flow, r, jobs[i]) || DeleteOf(jobs[i]) in r.deletes
      {
        var k := StageKey(flow, jobs[i]);
        if i < n - 1 && DeleteOf(jobs[i]) !in acc.deletes {
          assert Kept(flow, acc, jobs[i]);
          if k == kj && IsControlledBy(job.meta, flow.meta) && IsValidStageKey(kj) &&
             !(job.meta.created < acc.jobs[k].meta.created) {
            assert DeleteOf(acc.jobs[k]) in r.deletes;
          }
        }
      }
      JobMapEntriesValid(flow, jobs, n);
    }
  }

  /** The exact partition, for listed jobs with distinct names: each job the
      flow controls is kept or deleted and never both, every deletion is of
      such a job, and every entry is one. */
  lemma JobMapPartition(flow: Flow, jobs: seq<Job>)
    requires DistinctNames(jobs)
    ensures var r := JobMapOf(flow, jobs, |jobs|);
      && (forall i :: 0 <= i < |jobs| && IsControlledBy(jobs[i].meta, flow.meta) ==>
            (Kept(flow, r, jobs[i]) <==> DeleteOf(jobs[i]) !in r.deletes))
      && (forall w :: w in r.deletes ==>
            exists i :: 0 <= i < |jobs| && w == DeleteOf(jobs[i]) && IsControlledBy(jobs[i].meta, flow.meta))
      && (forall k :: k in r.jobs ==>
            exists i :: 0 <= i < |jobs| && r.jobs[k] == jobs[i] && IsControlledBy(jobs[i].meta, flow.meta))
  {
    var r := JobMapOf(flow, jobs, |jobs|);
    JobMapDeletesComplete(flow, jobs, |jobs|);
    DeletedNeverKept(flow, jobs, |jobs|);
    JobMapDeletesListed(flow, jobs, |jobs|);
    JobMapEntriesValid(flow, jobs, |jobs|);
  }

  /** calculateJobMap: the map of stage keys to jobs and the deletions it sends. */
  method CalculateJobMap(flow: Flow, jobs: seq<Job>) returns (jobMap: map<string, Job>, deletes: seq<Write>)
    ensures JobMapResult(jobMap, deletes) == JobMapOf(flow, jobs, |jobs|)
  {
    jobMap, deletes := map[], [];
    var i := 0;
    while i < |jobs|
      invariant 0 <= i <= |jobs|
      invariant JobMapResult(jobMap, deletes) == JobMapOf(flow, jobs, i)
    {
      var job := jobs[i];
      i := i + 1;
      if !IsControlledBy(job.meta, flow.meta) {
        continue;
      }
      var stage := TrimPrefix(job.meta.name, flow.meta.name + "-");
      if !(stage == FlowStageGit || stage == FlowStageMario) && !(UserJobPrefix <= stage) {
        deletes := deletes + [DeleteJob(job.meta.namespace, job.meta.name)];
        continue;
      }
      if stage in jobMap {
        var other := jobMap[stage];
        var older := job;
        if !(older.meta.created < other.meta.created) {
          older := other;
          jobMap := jobMap[stage := job];
        }
        deletes := deletes + [DeleteJob(older.meta.namespace, older.meta.name)];
        continue;
      }
      jobMap := jobMap[stage := job];
    }
  }
}
