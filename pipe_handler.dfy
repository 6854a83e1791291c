/** The pipe controller's informer handlers (pkg/controller/pipe/handler.go):
    a changed event enqueues the keys of the pipes watching it, a changed pipe
    enqueues its own key. Each handler is modelled as a method on the work
    queue, specified by the keys it adds. */
module PipeHandlers {
  import opened Api
  import Keys
  import opened Reconciler
  import opened PipeSync

  /** The cache keys of the given pipes, in order. */
  function PipeKeys(ps: seq<Pipe>): (ks: seq<string>)
    ensures |ks| == |ps| && forall i :: 0 <= i < |ps| ==> ks[i] == Keys.MetaKey(ps[i].meta)
  {
    seq(|ps|, i requires 0 <= i < |ps| => Keys.MetaKey(ps[i].meta))
  }

  /** The keys addPipe enqueues for any object: its deletion-handling key, if it has one. */
  function ObjKeys(obj: Obj): (ks: seq<string>)
    ensures |ks| <= 1
    ensures obj.PipeObj? ==> ks == [Keys.MetaKey(obj.pipe.meta)]
    ensures obj.OtherObj? ==> ks == []
  {
    match Keys.DeletionHandlingKey(obj)
    case KeyOk(k) => [k]
    case KeyErr(_) => []
  }

  /** The keys addEvent enqueues: those of the pipes of the event's namespace that watch it. */
  function EventPipeKeys(obj: Obj, pipes: Lister<Pipe>): (ks: seq<string>)
    ensures !obj.EventObj? || pipes.failure.Some? ==> ks == []
    ensures obj.EventObj? && pipes.failure.None? ==>
      forall k :: k in ks <==> exists p :: p in pipes.items && p.meta.namespace == obj.event.meta.namespace &&
                                          Watches(p, obj.event) && k == Keys.MetaKey(p.meta)
  {
    if !obj.EventObj? || pipes.failure.Some? then []
    else
      var ws := Watchers(pipes.items, obj.event);
      var ks := PipeKeys(ws);
      assert forall k :: k in ks ==> exists p :: p in ws && k == Keys.MetaKey(p.meta) by {
        forall k | k in ks ensures exists p :: p in ws && k == Keys.MetaKey(p.meta) {
          var i :| 0 <= i < |ks| && ks[i] == k;
          assert ws[i] in ws;
        }
      }
      assert forall p :: p in ws ==> Keys.MetaKey(p.meta) in ks by {
        forall p | p in ws ensures Keys.MetaKey(p.meta) in ks {
          var i :| 0 <= i < |ws| && ws[i] == p;
          assert ks[i] == Keys.MetaKey(p.meta);
        }
      }
      ks
  }

  /** The keys updateEvent enqueues: none when the resource version or the spec
      is unchanged, otherwise those of adding the new event. */
  function UpdateEventKeys(oldObj: Obj, cur: Obj, pipes: Lister<Pipe>): (ks: seq<string>)
    ensures !oldObj.EventObj? || !cur.EventObj? ==> ks == []
    ensures oldObj.EventObj? && cur.EventObj? && oldObj.event.meta.resourceVersion == cur.event.meta.resourceVersion ==> ks == []
    ensures oldObj.EventObj? && cur.EventObj? && oldObj.event.spec == cur.event.spec ==> ks == []
    ensures (oldObj.EventObj? && cur.EventObj? && oldObj.event.meta.resourceVersion != cur.event.meta.resourceVersion &&
             oldObj.event.spec != cur.event.spec) ==> ks == EventPipeKeys(cur, pipes)
  {
    if !oldObj.EventObj? || !cur.EventObj? then []
    else if oldObj.event.meta.resourceVersion == cur.event.meta.resourceVersion then []
    else if oldObj.event.spec == cur.event.spec then []
    else EventPipeKeys(cur, pipes)
  }

  /** An event whose Extra map goes from nil to empty under a new resource
      version has a changed spec, so the pipes watching it are enqueued. */
  lemma NilToEmptyExtraEnqueues(e: Event, rv: string, pipes: Lister<Pipe>)
    requires e.spec.extra == None && rv != e.meta.resourceVersion
    ensures var cur := e.(meta := e.meta.(resourceVersion := rv), spec := e.spec.(extra := Some(map[])));
      UpdateEventKeys(EventObj(e), EventObj(cur), pipes) == EventPipeKeys(EventObj(cur), pipes)
  {
  }

  /** The keys deleteEvent enqueues: those of adding the event, unwrapped from a tombstone if need be. */
  function DeleteEventKeys(obj: Obj, pipes: Lister<Pipe>): (ks: seq<string>)
    ensures obj.EventObj? ==> ks == EventPipeKeys(obj, pipes)
    ensures obj.Tombstone? && obj.inner.EventObj? ==> ks == EventPipeKeys(obj.inner, pipes)
    ensures !obj.EventObj? && !(obj.Tombstone? && obj.inner.EventObj?) ==> ks == []
  {
    if obj.EventObj? then EventPipeKeys(obj, pipes)
    else if obj.Tombstone? && obj.inner.EventObj? then EventPipeKeys(obj.inner, pipes)
    else []
  }

  /** The keys deletePipe enqueues: the pipe's key, unwrapped from a tombstone if need be. */
  function DeletePipeKeys(obj: Obj): (ks: seq<string>)
    ensures obj.PipeObj? ==> ks == [Keys.MetaKey(obj.pipe.meta)]
    ensures obj.Tombstone? && obj.inner.PipeObj? ==> ks == [Keys.MetaKey(obj.inner.pipe.meta)]
    ensures !obj.PipeObj? && !(obj.Tombstone? && obj.inner.PipeObj?) ==> ks == []
  {
    if obj.PipeObj? then ObjKeys(obj)
    else if obj.Tombstone? && obj.inner.PipeObj? then ObjKeys(obj.inner)
    else []
  }

  method AddPipe(q: WorkQueue, obj: Obj)
    modifies q
    ensures q.State() == AddKeys(old(q.State()), ObjKeys(obj))
  {
    var key := Keys.DeletionHandlingKey(obj);
    if key.KeyErr? {
      return;
    }
    q.Add(key.key);
  }

  method UpdatePipe(q: WorkQueue, oldObj: Obj, cur: Obj)
    modifies q
    ensures q.State() == AddKeys(old(q.State()), ObjKeys(cur))
  {
    AddPipe(q, cur);
  }

  method DeletePipe(q: WorkQueue, obj: Obj)
    modifies q
    ensures q.State() == AddKeys(old(q.State()), DeletePipeKeys(obj))
  {
    if obj.PipeObj? {
      AddPipe(q, obj);
      return;
    }
    if !obj.Tombstone? || !obj.inner.PipeObj? {
      return;
    }
    AddPipe(q, obj.inner);
  }

  method AddEvent(q: WorkQueue, obj: Obj, pipes: Lister<Pipe>)
    modifies q
    ensures q.State() == AddKeys(old(q.State()), EventPipeKeys(obj, pipes))
  {
    if !obj.EventObj? {
      return;
    }
    var listed := GetPipeWatchers(pipes, obj.event);
    if listed.ListFailed? {
      return;
    }
    var watchers := listed.items;
    var i := 0;
    while i < |watchers|
      invariant 0 <= i <= |watchers|
      invariant q.State() == AddKeys(old(q.State()), PipeKeys(watchers[..i]))
    {
      ghost var before := q.State();
      AddPipe(q, PipeObj(watchers[i]));
      assert PipeKeys(watchers[..i + 1]) == PipeKeys(watchers[..i]) + [Keys.MetaKey(watchers[i].meta)];
      AddKeysSnoc(old(q.State()), PipeKeys(watchers[..i]), Keys.MetaKey(watchers[i].meta));
      i := i + 1;
    }
    assert watchers[..i] == watchers;
  }

  method UpdateEvent(q: WorkQueue, oldObj: Obj, cur: Obj, pipes: Lister<Pipe>)
    modifies q
    ensures q.State() == AddKeys(old(q.State()), UpdateEventKeys(oldObj, cur, pipes))
  {
    if !oldObj.EventObj? || !cur.EventObj? {
      return;
    }
    if oldObj.event.meta.resourceVersion == cur.event.meta.resourceVersion {
      return;
    }
    if oldObj.event.spec == cur.event.spec {
      return;
    }
    AddEvent(q, cur, pipes);
  }

  method DeleteEvent(q: WorkQueue, obj: Obj, pipes: Lister<Pipe>)
    modifies q
    ensures q.State() == AddKeys(old(q.State()), DeleteEventKeys(obj, pipes))
  {
    if obj.EventObj? {
      AddEvent(q, obj, pipes);
      return;
    }
    if !obj.Tombstone? || !obj.inner.EventObj? {
      return;
    }
    AddEvent(q, obj.inner, pipes);
  }
}
