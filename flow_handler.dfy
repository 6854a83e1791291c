/** The flow controller's informer handlers (pkg/controller/flow/handler.go):
    a changed job enqueues the flow that controls it, a changed flow enqueues
    its own key. On a job update the previous owner is enqueued when the
    controller reference changed; the source does so when it did not (see
    UpdateJobKeysAsWritten). */
module FlowHandlers {
  import opened Api
  import Keys
  import opened Reconciler
  import opened FlowHelpers

  /** The key of the flow a controller reference resolves to, if it resolves. */
  function RefKeys(ns: string, ref: Option<OwnerRef>, flows: Lister<Flow>): (ks: seq<string>)
    ensures |ks| <= 1
    ensures ks != [] <==> ref.Some? && GetFlowFromRef(ns, ref.value, FlowKind, flows).Some?
    ensures ks != [] ==> ks == [Keys.MetaKey(GetFlowFromRef(ns, ref.value, FlowKind, flows).value.meta)]
  {
    if ref.None? then []
    else
      match GetFlowFromRef(ns, ref.value, FlowKind, flows)
      case None => []
      case Some(f) => [Keys.MetaKey(f.meta)]
  }

  /** The keys addFlow enqueues for any object: its deletion-handling key, if it has one. */
  function FlowObjKeys(obj: Obj): (ks: seq<string>)
    ensures obj.FlowObj? ==> ks == [Keys.MetaKey(obj.flow.meta)]
    ensures obj.Tombstone? ==> ks == [obj.key]
    ensures obj.OtherObj? ==> ks == []
  {
    match Keys.DeletionHandlingKey(obj)
    case KeyOk(k) => [k]
    case KeyErr(_) => []
  }

  /** The keys addJob enqueues: the key of the flow controlling the job, if it is in the cache. */
  function JobKeys(obj: Obj, flows: Lister<Flow>): (ks: seq<string>)
    ensures !obj.JobObj? ==> ks == []
    ensures obj.JobObj? ==> ks == RefKeys(obj.job.meta.namespace, ControllerOf(obj.job.meta.owners), flows)
  {
    if !obj.JobObj? then [] else RefKeys(obj.job.meta.namespace, ControllerOf(obj.job.meta.owners), flows)
  }

  /** A job's flow is enqueued exactly when the cache holds a flow whose namespace,
      name and UID are those of the job's controller reference of the flow kind. */
  lemma JobKeysResolve(job: Job, flows: Lister<Flow>)
    requires flows.failure.None? && UniqueNames(flows.items)
    ensures JobKeys(JobObj(job), flows) != [] <==>
      var ref := ControllerOf(job.meta.owners);
      ref.Some? && ref.value.kind == FlowKind &&
      exists f :: f in flows.items && f.meta.namespace == job.meta.namespace && f.meta.name == ref.value.name &&
                  f.meta.uid == ref.value.uid
  {
    var ref := ControllerOf(job.meta.owners);
    if ref.Some? {
      GetFlowFromRefResolves(job.meta.namespace, ref.value, FlowKind, flows);
    }
  }

  /** The keys updateJob enqueues: nothing when the resource version is
      unchanged; otherwise the previous owner when the controller reference
      changed, then the current owner. */
  function UpdateJobKeys(oldObj: Obj, cur: Obj, flows: Lister<Flow>): (ks: seq<string>)
    ensures !oldObj.JobObj? || !cur.JobObj? ==> ks == []
    ensures oldObj.JobObj? && cur.JobObj? && oldObj.job.meta.resourceVersion == cur.job.meta.resourceVersion ==> ks == []
    ensures oldObj.JobObj? && cur.JobObj? && oldObj.job.meta.resourceVersion != cur.job.meta.resourceVersion ==>
      var oldRef := ControllerOf(oldObj.job.meta.owners);
      var curRef := ControllerOf(cur.job.meta.owners);
      && |ks| <= 2
      && (forall k :: k in ks <==>
            k in RefKeys(cur.job.meta.namespace, curRef, flows) ||
            (oldRef != curRef && k in RefKeys(oldObj.job.meta.namespace, oldRef, flows)))
      && (RefKeys(cur.job.meta.namespace, curRef, flows) != [] ==>
            ks != [] && ks[|ks| - 1] == RefKeys(cur.job.meta.namespace, curRef, flows)[0])
  {
    if !oldObj.JobObj? || !cur.JobObj? then []
    else if oldObj.job.meta.resourceVersion == cur.job.meta.resourceVersion then []
    else
      var oldRef := ControllerOf(oldObj.job.meta.owners);
      var curRef := ControllerOf(cur.job.meta.owners);
      var refChanged := oldRef != curRef;
      (if oldRef.Some? && refChanged then RefKeys(oldObj.job.meta.namespace, oldRef, flows) else []) +
      RefKeys(cur.job.meta.namespace, curRef, flows)
  }

  /** updateJob as written: `refChanged` holds the equality of the two references. */
  function UpdateJobKeysAsWritten(oldObj: Obj, cur: Obj, flows: Lister<Flow>): seq<string>
  {
    if !oldObj.JobObj? || !cur.JobObj? then []
    else if oldObj.job.meta.resourceVersion == cur.job.meta.resourceVersion then []
    else
      var oldRef := ControllerOf(oldObj.job.meta.owners);
      var curRef := ControllerOf(cur.job.meta.owners);
      var refChanged := oldRef == curRef;
      (if oldRef.Some? && refChanged then RefKeys(oldObj.job.meta.namespace, oldRef, flows) else []) +
      RefKeys(cur.job.meta.namespace, curRef, flows)
  }

  /** A job moved from flow a to flow b: as written only b is enqueued, and a,
      whose status still counts the job, is not; the corrected handler enqueues both. */
  lemma UpdateJobAsWrittenMissesOldOwner(a: Flow, b: Flow, oldJob: Job, curJob: Job, gvk: Gvk)
    requires gvk.kind == FlowKind
    requires a.meta.namespace == b.meta.namespace == oldJob.meta.namespace == curJob.meta.namespace
    requires a.meta.name != b.meta.name
    requires oldJob.meta.owners == [NewControllerRef(a.meta, gvk)]
    requires curJob.meta.owners == [NewControllerRef(b.meta, gvk)]
    requires oldJob.meta.resourceVersion != curJob.meta.resourceVersion
    ensures var flows := Lister([a, b], None);
      var asWritten := UpdateJobKeysAsWritten(JobObj(oldJob), JobObj(curJob), flows);
      var corrected := UpdateJobKeys(JobObj(oldJob), JobObj(curJob), flows);
      && Keys.MetaKey(a.meta) !in asWritten && Keys.MetaKey(b.meta) in asWritten
      && Keys.MetaKey(a.meta) in corrected && Keys.MetaKey(b.meta) in corrected
  {
    var flows := Lister([a, b], None);
    SoleControllerRef(oldJob.meta, a.meta, gvk);
    SoleControllerRef(curJob.meta, b.meta, gvk);
    var oldRef := NewControllerRef(a.meta, gvk);
    var curRef := NewControllerRef(b.meta, gvk);
    assert oldRef != curRef by {
      assert oldRef.name != curRef.name;
    }
    assert GetFlowFromRef(oldJob.meta.namespace, oldRef, FlowKind, flows) == Some(a);
    assert Get(flows, FlowMeta, curJob.meta.namespace, curRef.name) == Found(b) by {
      assert FirstNamed([a, b], FlowMeta, curJob.meta.namespace, curRef.name) == FirstNamed([b], FlowMeta, curJob.meta.namespace, curRef.name);
    }
    assert GetFlowFromRef(curJob.meta.namespace, curRef, FlowKind, flows) == Some(b);
    assert Keys.MetaKey(a.meta) != Keys.MetaKey(b.meta) by {
      var p := if a.meta.namespace == "" then "" else a.meta.namespace + "/";
      assert Keys.MetaKey(a.meta) == p + a.meta.name && Keys.MetaKey(b.meta) == p + b.meta.name;
      assert (p + a.meta.name)[|p|..] == a.meta.name;
      assert (p + b.meta.name)[|p|..] == b.meta.name;
    }
  }

  /** The keys deleteJob enqueues: those of adding the job, unwrapped from a tombstone if need be. */
  function DeleteJobKeys(obj: Obj, flows: Lister<Flow>): (ks: seq<string>)
    ensures obj.JobObj? ==> ks == JobKeys(obj, flows)
    ensures obj.Tombstone? && obj.inner.JobObj? ==> ks == JobKeys(obj.inner, flows)
    ensures !obj.JobObj? && !(obj.Tombstone? && obj.inner.JobObj?) ==> ks == []
  {
    if obj.JobObj? then JobKeys(obj, flows)
    else if obj.Tombstone? && obj.inner.JobObj? then JobKeys(obj.inner, flows)
    else []
  }

  /** The keys deleteFlow enqueues: the flow's key, unwrapped from a tombstone if need be. */
  function DeleteFlowKeys(obj: Obj): (ks: seq<string>)
    ensures obj.FlowObj? ==> ks == [Keys.MetaKey(obj.flow.meta)]
    ensures obj.Tombstone? && obj.inner.FlowObj? ==> ks == [Keys.MetaKey(obj.inner.flow.meta)]
    ensures !obj.FlowObj? && !(obj.Tombstone? && obj.inner.FlowObj?) ==> ks == []
  {
    if obj.FlowObj? then FlowObjKeys(obj)
    else if obj.Tombstone? && obj.inner.FlowObj? then FlowObjKeys(obj.inner)
    else []
  }

  method AddFlow(q: WorkQueue, obj: Obj)
    modifies q
    ensures q.State() == AddKeys(old(q.State()), FlowObjKeys(obj))
  {
    var key := Keys.DeletionHandlingKey(obj);
    if key.KeyErr? {
      return;
    }
    q.Add(key.key);
  }

  method UpdateFlow(q: WorkQueue, oldObj: Obj, cur: Obj)
    modifies q
    ensures q.State() == AddKeys(old(q.State()), FlowObjKeys(cur))
  {
    AddFlow(q, cur);
  }

  method DeleteFlow(q: WorkQueue, obj: Obj)
    modifies q
    ensures q.State() == AddKeys(old(q.State()), DeleteFlowKeys(obj))
  {
    if obj.FlowObj? {
      AddFlow(q, obj);
      return;
    }
    if !obj.Tombstone? || !obj.inner.FlowObj? {
      return;
    }
    AddFlow(q, obj.inner);
  }

  /** Enqueues the flow a controller reference resolves to, if any. */
  method AddRefFlow(q: WorkQueue, ns: string, ref: Option<OwnerRef>, flows: Lister<Flow>)
    modifies q
    ensures q.State() == AddKeys(old(q.State()), RefKeys(ns, ref, flows))
  {
    if ref.None? {
      return;
    }
    var flow := GetFlowFromRef(ns, ref.value, FlowKind, flows);
    if flow.None? {
      return;
    }
    AddFlow(q, FlowObj(flow.value));
  }

  method AddJob(q: WorkQueue, obj: Obj, flows: Lister<Flow>)
    modifies q
    ensures q.State() == AddKeys(old(q.State()), JobKeys(obj, flows))
  {
    if !obj.JobObj? {
      return;
    }
    AddRefFlow(q, obj.job.meta.namespace, ControllerOf(obj.job.meta.owners), flows);
  }

  method UpdateJob(q: WorkQueue, oldObj: Obj, cur: Obj, flows: Lister<Flow>)
    modifies q
    ensures q.State() == AddKeys(old(q.State()), UpdateJobKeys(oldObj, cur, flows))
  {
    if !oldObj.JobObj? || !cur.JobObj? {
      return;
    }
    if oldObj.job.meta.resourceVersion == cur.job.meta.resourceVersion {
      return;
    }
    var oldRef := ControllerOf(oldObj.job.meta.owners);
    var curRef := ControllerOf(cur.job.meta.owners);
    var refChanged := oldRef != curRef;
    ghost var start := q.State();
    ghost var first: seq<string> := [];
    if oldRef.Some? && refChanged {
      AddRefFlow(q, oldObj.job.meta.namespace, oldRef, flows);
      first := RefKeys(oldObj.job.meta.namespace, oldRef, flows);
    }
    AddRefFlow(q, cur.job.meta.namespace, curRef, flows);
    AddKeysAppend(start, first, RefKeys(cur.job.meta.namespace, curRef, flows));
  }

  method DeleteJob(q: WorkQueue, obj: Obj, flows: Lister<Flow>)
    modifies q
    ensures q.State() == AddKeys(old(q.State()), DeleteJobKeys(obj, flows))
  {
    if obj.JobObj? {
      AddJob(q, obj, flows);
      return;
    }
    if !obj.Tombstone? || !obj.inner.JobObj? {
      return;
    }
    AddJob(q, obj.inner, flows);
  }
}
