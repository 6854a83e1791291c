/** The reconcile step shared by both controllers (pkg/controller/controller.go):
    pop a key from a rate-limited work queue, run the syncer on it, then either
    hand the key to the rate limiter, which adds it again once its backoff
    delay expires (ExpireKey), or forget its failures, and always mark it done.
    The queue keeps client-go's semantics: a key is queued at most once, a key
    added while it is being processed is queued again when it is done, and
    nothing is added once the queue shuts down. */
module Reconciler {
  import opened Api

  /** The whole queue: ready keys in order, keys waiting to be processed
      (`dirty`), keys handed out (`processing`), the shutdown flag, the failure
      count per key and the keys whose backoff delay has not expired yet. */
  datatype QueueState = QueueState(queue: seq<string>, dirty: set<string>, processing: set<string>,
                                   shuttingDown: bool, requeues: map<string, nat>, waiting: seq<string>)

  /** The invariant client-go's queue keeps: a ready key is queued once and
      is dirty and not in processing; a dirty key that is not queued is in processing. */
  predicate WellFormed(s: QueueState)
  {
    && (forall i, j :: 0 <= i < j < |s.queue| ==> s.queue[i] != s.queue[j])
    && (forall k :: k in s.queue ==> k in s.dirty && k !in s.processing)
    && (forall k :: k in s.dirty && k !in s.queue ==> k in s.processing)
  }

  /** Add: ignored after shutdown or when the key is already dirty; a key in processing is only marked dirty. */
  function AddKey(s: QueueState, k: string): (r: QueueState)
  {
    if s.shuttingDown || k in s.dirty then s
    else if k in s.processing then s.(dirty := s.dirty + {k})
    else s.(dirty := s.dirty + {k}, queue := s.queue + [k])
  }

  function AddKeys(s: QueueState, ks: seq<string>): (r: QueueState)
    decreases |ks|
  {
    if ks == [] then s else AddKeys(AddKey(s, ks[0]), ks[1..])
  }

  /** Adding a sequence of keys one more key at a time. */
  lemma {:induction false} AddKeysSnoc(s: QueueState, ks: seq<string>, k: string)
    ensures AddKeys(s, ks + [k]) == AddKey(AddKeys(s, ks), k)
    decreases |ks|
  {
    if ks != [] {
      assert (ks + [k])[1..] == ks[1..] + [k];
      AddKeysSnoc(AddKey(s, ks[0]), ks[1..], k);
    }
  }

  /** Adding two runs of keys is adding their concatenation. */
  lemma {:induction false} AddKeysAppend(s: QueueState, ks: seq<string>, more: seq<string>)
    ensures AddKeys(s, ks + more) == AddKeys(AddKeys(s, ks), more)
    decreases |ks|
  {
    if ks == [] {
      assert ks + more == more;
    } else {
      assert (ks + more)[1..] == ks[1..] + more;
      AddKeysAppend(AddKey(s, ks[0]), ks[1..], more);
    }
  }

  /** Adding keys makes each of them pending (unless the queue is shutting down)
      and queues no other key; nothing is handed out or taken away. */
  lemma {:induction false} AddKeysEffect(s: QueueState, ks: seq<string>)
    ensures s.shuttingDown ==> AddKeys(s, ks) == s
    ensures !s.shuttingDown ==> AddKeys(s, ks).dirty == s.dirty + (set k | k in ks)
    ensures forall k :: k in AddKeys(s, ks).queue ==> k in s.queue || k in ks
    ensures AddKeys(s, ks).processing == s.processing && AddKeys(s, ks).requeues == s.requeues
    decreases |ks|
  {
    if ks != [] {
      AddKeysEffect(AddKey(s, ks[0]), ks[1..]);
      assert (set k | k in ks) == {ks[0]} + (set k | k in ks[1..]);
    }
  }

  /** Adding keeps the queue well formed, whatever keys are added. */
  lemma {:induction false} AddKeysWellFormed(s: QueueState, ks: seq<string>)
    requires WellFormed(s)
    ensures WellFormed(AddKeys(s, ks))
    decreases |ks|
  {
    if ks != [] {
      AddKeyWellFormed(s, ks[0]);
      AddKeysWellFormed(AddKey(s, ks[0]), ks[1..]);
    }
  }

  /** Get (when a key is ready): the first ready key moves to processing. */
  function GetKey(s: QueueState): (r: QueueState)
    requires |s.queue| > 0
  {
    s.(queue := s.queue[1..], processing := s.processing + {s.queue[0]}, dirty := s.dirty - {s.queue[0]})
  }

  /** Done: the key leaves processing and is queued again if it was added meanwhile. */
  function DoneKey(s: QueueState, k: string): (r: QueueState)
  {
    s.(processing := s.processing - {k}, queue := if k in s.dirty then s.queue + [k] else s.queue)
  }

  /** AddRateLimited: one more failure for the key, and the key waits out its backoff (unless shutting down). */
  function AddRateLimitedKey(s: QueueState, k: string): (r: QueueState)
  {
    var n := if k in s.requeues then s.requeues[k] else 0;
    s.(requeues := s.requeues[k := n + 1], waiting := if s.shuttingDown then s.waiting else s.waiting + [k])
  }

  /** The backoff delay of the i-th waiting key expires: it leaves the waiting
      list and is added to the queue (which ignores it after shutdown). */
  function ExpireKey(s: QueueState, i: nat): (r: QueueState)
    requires i < |s.waiting|
  {
    AddKey(s.(waiting := s.waiting[..i] + s.waiting[i + 1..]), s.waiting[i])
  }

  /** Forget: the key's failure count is cleared. */
  function ForgetKey(s: QueueState, k: string): (r: QueueState)
  {
    s.(requeues := s.requeues - {k})
  }

  /** The queue after the step processed its first ready key with the given sync outcome. */
  function Processed(s: QueueState, failed: bool): (r: QueueState)
    requires |s.queue| > 0
  {
    var k := s.queue[0];
    if failed then DoneKey(AddRateLimitedKey(GetKey(s), k), k) else DoneKey(ForgetKey(GetKey(s), k), k)
  }

  /** Adding keeps the queue well formed. */
  lemma AddKeyWellFormed(s: QueueState, k: string)
    requires WellFormed(s)
    ensures WellFormed(AddKey(s, k))
  {
    if !s.shuttingDown && k !in s.dirty && k !in s.processing {
      assert k !in s.queue;
    }
  }

  /** Adding a key that is already pending changes nothing: the queue deduplicates. */
  lemma {:induction false} AddKeyIdempotent(s: QueueState, k: string)
    ensures AddKey(AddKey(s, k), k) == AddKey(s, k)
  {
  }

  /** A processed key leaves processing, is never queued again by the step, and
      exactly one of AddRateLimited or Forget has acted on it. */
  lemma ProcessedOutcome(s: QueueState, failed: bool)
    requires WellFormed(s) && |s.queue| > 0
    ensures var k := s.queue[0]; var r := Processed(s, failed);
      && k !in r.processing && k !in r.dirty && k !in r.queue
      && r.queue == s.queue[1..]
      && (failed ==> k in r.requeues && r.requeues[k] == (if k in s.requeues then s.requeues[k] else 0) + 1
                     && r.waiting == (if s.shuttingDown then s.waiting else s.waiting + [k]))
      && (!failed ==> k !in r.requeues && r.waiting == s.waiting)
      && WellFormed(r)
  {
    var k := s.queue[0];
    assert k !in s.queue[1..] by {
      forall j | 0 <= j < |s.queue[1..]| ensures s.queue[1..][j] != k {
        assert s.queue[1..][j] == s.queue[j + 1];
      }
    }
  }

  /** Once its delay expires a waiting key is pending again and, unless it is
      being processed, ready to be handed out; the queue stays well formed and
      the failure counts are untouched. */
  lemma ExpiredKeyReady(s: QueueState, i: nat)
    requires WellFormed(s) && i < |s.waiting|
    ensures var k := s.waiting[i]; var r := ExpireKey(s, i);
      && WellFormed(r)
      && |r.waiting| == |s.waiting| - 1
      && r.processing == s.processing && r.requeues == s.requeues
      && (!s.shuttingDown ==> k in r.dirty && (k !in s.processing ==> k in r.queue))
      && (s.shuttingDown ==> r.queue == s.queue && r.dirty == s.dirty)
  {
    AddKeyWellFormed(s.(waiting := s.waiting[..i] + s.waiting[i + 1..]), s.waiting[i]);
  }

  /** A key whose sync failed is handed out again once its backoff expires. */
  lemma FailedKeyRequeued(s: QueueState)
    requires WellFormed(s) && |s.queue| > 0 && !s.shuttingDown
    ensures var r := Processed(s, true);
      && |r.waiting| > 0 && r.waiting[|r.waiting| - 1] == s.queue[0]
      && s.queue[0] in ExpireKey(r, |r.waiting| - 1).queue
  {
    ProcessedOutcome(s, true);
    var r := Processed(s, true);
    ExpiredKeyReady(r, |r.waiting| - 1);
  }

  /** A rate-limited queue of keys; the fields are the parts of QueueState. */
  class WorkQueue {
    var queue: seq<string>
    var dirty: set<string>
    var processing: set<string>
    var shuttingDown: bool
    var requeues: map<string, nat>
    var waiting: seq<string>

    function State(): QueueState
      reads this
    {
      QueueState(queue, dirty, processing, shuttingDown, requeues, waiting)
    }

    constructor ()
      ensures State() == QueueState([], {}, {}, false, map[], [])
      ensures WellFormed(State())
    {
      queue, dirty, processing, shuttingDown, requeues, waiting := [], {}, {}, false, map[], [];
    }

    method Add(k: string)
      modifies this
      ensures State() == AddKey(old(State()), k)
    {
      if shuttingDown || k in dirty {
        return;
      }
      dirty := dirty + {k};
      if k in processing {
        return;
      }
      queue := queue + [k];
    }

    /** Get hands out the first ready key, or reports quit once the queue is
        shut down and drained. On an empty queue that is still running Get
        would block, which a sequential model cannot express: callers only
        call it when a key is ready or the queue is shutting down. */
    method Get() returns (k: string, quit: bool)
      requires |queue| > 0 || shuttingDown
      modifies this
      ensures quit <==> |old(queue)| == 0
      ensures quit ==> State() == old(State())
      ensures !quit ==> k == old(queue[0]) && State() == GetKey(old(State()))
    {
      if |queue| == 0 {
        return "", true;
      }
      k := queue[0];
      queue := queue[1..];
      processing := processing + {k};
      dirty := dirty - {k};
      quit := false;
    }

    method Done(k: string)
      modifies this
      ensures State() == DoneKey(old(State()), k)
    {
      processing := processing - {k};
      if k in dirty {
        queue := queue + [k];
      }
    }

    method AddRateLimited(k: string)
      modifies this
      ensures State() == AddRateLimitedKey(old(State()), k)
    {
      var n := if k in requeues then requeues[k] else 0;
      requeues := requeues[k := n + 1];
      if !shuttingDown {
        waiting := waiting + [k];
      }
    }

    /** The rate limiter's timer for the i-th waiting key fires. */
    method Expire(i: nat)
      requires i < |waiting|
      modifies this
      ensures State() == ExpireKey(old(State()), i)
    {
      var k := waiting[i];
      waiting := waiting[..i] + waiting[i + 1..];
      Add(k);
    }

    method Forget(k: string)
      modifies this
      ensures State() == ForgetKey(old(State()), k)
    {
      requeues := requeues - {k};
    }

    method ShutDown()
      modifies this
      ensures State() == old(State()).(shuttingDown := true)
    {
      shuttingDown := true;
    }
  }

  /** The reconcile step built by BuildRateLimitingReconciler. */
  method Step(q: WorkQueue, syncer: string -> Option<Err>) returns (quit: bool, err: Option<Err>)
    requires |q.queue| > 0 || q.shuttingDown
    modifies q
    ensures quit <==> |old(q.queue)| == 0
    ensures quit ==> err.None? && q.State() == old(q.State())
    ensures !quit ==> err == syncer(old(q.queue[0])) && q.State() == Processed(old(q.State()), err.Some?)
  {
    var key;
    key, quit := q.Get();
    if quit {
      return true, None;
    }
    err := syncer(key);
    if err.Some? {
      q.AddRateLimited(key);
      q.Done(key);
      return false, err;
    }
    q.Forget(key);
    q.Done(key);
    return false, None;
  }

  /** The errors the syncer reports for the given keys, in order. */
  function SyncErrors(keys: seq<string>, syncer: string -> Option<Err>): seq<Err>
  {
    if keys == [] then []
    else (if syncer(keys[0]).Some? then [syncer(keys[0]).value] else []) + SyncErrors(keys[1..], syncer)
  }

  lemma {:induction false} SyncErrorsAppend(keys: seq<string>, k: string, syncer: string -> Option<Err>)
    ensures SyncErrors(keys + [k], syncer) == SyncErrors(keys, syncer) + (if syncer(k).Some? then [syncer(k).value] else [])
  {
    if keys != [] {
      assert (keys + [k])[1..] == keys[1..] + [k];
      SyncErrorsAppend(keys[1..], k, syncer);
    }
  }

  /** The queue after the worker has processed every ready key in order, each
      with the outcome the syncer reports for it. */
  function RunAll(s: QueueState, syncer: string -> Option<Err>): (r: QueueState)
    ensures r.queue == [] && r.shuttingDown == s.shuttingDown
    decreases |s.queue|
  {
    if |s.queue| == 0 then s else RunAll(Processed(s, syncer(s.queue[0]).Some?), syncer)
  }

  /** A key's failure count, zero when it has none. */
  function RequeueCount(s: QueueState, k: string): nat
  {
    if k in s.requeues then s.requeues[k] else 0
  }

  /** The keys whose sync fails, in order. */
  function FailedKeys(keys: seq<string>, syncer: string -> Option<Err>): (r: seq<string>)
    ensures forall k :: k in r <==> k in keys && syncer(k).Some?
  {
    if keys == [] then [] else (if syncer(keys[0]).Some? then [keys[0]] else []) + FailedKeys(keys[1..], syncer)
  }

  /** One processed key, field by field. */
  lemma ProcessedFields(s: QueueState, failed: bool)
    requires WellFormed(s) && |s.queue| > 0
    ensures var k := s.queue[0]; var t := Processed(s, failed);
      && WellFormed(t) && s.queue == [k] + t.queue && k !in t.queue
      && t.shuttingDown == s.shuttingDown && t.processing == s.processing && t.dirty == s.dirty - {k}
      && t.waiting == s.waiting + (if failed && !s.shuttingDown then [k] else [])
      && t.requeues == if failed then s.requeues[k := RequeueCount(s, k) + 1] else s.requeues - {k}
  {
    ProcessedOutcome(s, failed);
  }

  /** The ready queue and waiting list after one processed key. */
  lemma ProcessedWaiting(s: QueueState, failed: bool)
    requires WellFormed(s) && |s.queue| > 0
    ensures var t := Processed(s, failed);
      && WellFormed(t) && t.queue == s.queue[1..] && t.shuttingDown == s.shuttingDown
      && t.waiting == s.waiting + (if failed && !s.shuttingDown then [s.queue[0]] else [])
  {
    ProcessedOutcome(s, failed);
  }

  /** Draining a well-formed queue keeps it well formed, leaves processing
      alone and clears the drained keys from the dirty set. */
  lemma {:induction false} RunAllQueues(s: QueueState, syncer: string -> Option<Err>)
    requires WellFormed(s)
    ensures var r := RunAll(s, syncer);
      WellFormed(r) && r.processing == s.processing && r.dirty == s.dirty - (set k | k in s.queue)
    decreases |s.queue|
  {
    if |s.queue| > 0 {
      var k := s.queue[0];
      var t := Processed(s, syncer(k).Some?);
      ProcessedFields(s, syncer(k).Some?);
      RunAllQueues(t, syncer);
      assert (set x | x in s.queue) == {k} + (set x | x in t.queue);
    }
  }

  /** Unless the queue is shutting down, the keys whose sync failed wait out
      their backoff after the keys already waiting, in queue order. */
  lemma {:induction false} RunAllWaiting(s: QueueState, syncer: string -> Option<Err>)
    requires WellFormed(s)
    ensures RunAll(s, syncer).waiting == s.waiting + (if s.shuttingDown then [] else FailedKeys(s.queue, syncer))
    decreases |s.queue|
  {
    if |s.queue| > 0 {
      var k := s.queue[0];
      var t := Processed(s, syncer(k).Some?);
      ProcessedWaiting(s, syncer(k).Some?);
      RunAllWaiting(t, syncer);
      var failed := if syncer(k).Some? then [k] else [];
      assert FailedKeys(s.queue, syncer) == failed + FailedKeys(t.queue, syncer);
      if !s.shuttingDown {
        assert s.waiting + failed + FailedKeys(t.queue, syncer) == s.waiting + (failed + FailedKeys(t.queue, syncer));
      }
    }
  }

  /** Draining a well-formed queue: every key whose sync failed has its failure
      count raised by one, every key whose sync succeeded is forgotten, and the
      counts of keys that were not ready are untouched. */
  lemma {:induction false} RunAllRequeues(s: QueueState, syncer: string -> Option<Err>)
    requires WellFormed(s)
    ensures var r := RunAll(s, syncer);
      && (forall k :: k in s.queue && syncer(k).None? ==> k !in r.requeues)
      && (forall k :: k in s.queue && syncer(k).Some? ==> RequeueCount(r, k) == RequeueCount(s, k) + 1)
      && (forall k :: k !in s.queue ==> (k in r.requeues <==> k in s.requeues) && RequeueCount(r, k) == RequeueCount(s, k))
    decreases |s.queue|
  {
    if |s.queue| > 0 {
      var k := s.queue[0];
      var t := Processed(s, syncer(k).Some?);
      ProcessedFields(s, syncer(k).Some?);
      RunAllRequeues(t, syncer);
    }
  }

  /** The worker loop of WaitUntil: run steps, reporting every error, until a
      step reports quit. When the queue is empty but still running the worker
      would block in Get until a key is added or a backoff expires; the model
      then returns with quit false, and those additions happen between runs. */
  method RunWorker(q: WorkQueue, syncer: string -> Option<Err>) returns (quit: bool, reported: seq<Err>)
    modifies q
    ensures |q.queue| == 0 && q.shuttingDown == old(q.shuttingDown)
    ensures quit <==> q.shuttingDown
    ensures reported == SyncErrors(old(q.queue), syncer)
    ensures q.State() == RunAll(old(q.State()), syncer)
  {
    ghost var keys := q.queue;
    ghost var n := 0;
    quit, reported := false, [];
    while !quit
      invariant 0 <= n <= |keys| && q.queue == keys[n..]
      invariant q.shuttingDown == old(q.shuttingDown)
      invariant reported == SyncErrors(keys[..n], syncer)
      invariant quit ==> |q.queue| == 0 && q.shuttingDown
      invariant RunAll(q.State(), syncer) == RunAll(old(q.State()), syncer)
      decreases |q.queue|, if quit then 0 else 1
    {
      if |q.queue| == 0 && !q.shuttingDown {
        assert keys[..n] == keys;
        return;
      }
      ghost var k := if |q.queue| > 0 then q.queue[0] else "";
      var err;
      quit, err := Step(q, syncer);
      if err.Some? {
        reported := reported + [err.value];
      }
      if !quit {
        assert keys[..n + 1] == keys[..n] + [k];
        SyncErrorsAppend(keys[..n], k, syncer);
        n := n + 1;
      }
    }
    assert keys[..n] == keys;
  }
}
