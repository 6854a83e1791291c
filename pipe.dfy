/** The pipe reconciler (pkg/controller/pipe/helper.go, pkg/controller/pipe/sync.go):
    a pipe watches the events of its repository whose trigger it lists; for every
    watched event it makes sure one flow, labelled with the event's revision
    hash, runs the pipe's stages on the event's ref. */
module PipeSync {
  import opened Api
  import Hex
  import Random
  import Keys

  /** The label that carries a flow's revision hash. */
  const RevisionLabelKey: string := "flow.oooops.com/revision"
  /** Hex digits of the digest kept in a revision hash. */
  const HashLength: nat := 11
  /** Letters of the random suffix of a flow name. */
  const NameSuffixLength: nat := 7

  /** An md5 digest: 16 bytes. */
  type Digest = s: seq<Hex.byte> | |s| == 16 witness seq(16, i => 0)

  // ---------------------------------------------------------------------------
  // Matching events to pipes (helper.go)

  /** A pipe watches an event of its own repository whose trigger it lists. */
  predicate Watches(pipe: Pipe, event: Event)
  {
    pipe.spec.git.repo == event.spec.repo && event.spec.when in pipe.spec.when
  }

  method IsWatched(pipe: Pipe, event: Event) returns (b: bool)
    ensures b <==> Watches(pipe, event)
    ensures pipe.spec.git.repo != event.spec.repo ==> !b
    ensures pipe.spec.when == [] ==> !b
  {
    if pipe.spec.git.repo != event.spec.repo {
      return false;
    }
    var i := 0;
    while i < |pipe.spec.when|
      invariant 0 <= i <= |pipe.spec.when|
      invariant event.spec.when !in pipe.spec.when[..i]
    {
      if pipe.spec.when[i] == event.spec.when {
        return true;
      }
      assert pipe.spec.when[..i + 1] == pipe.spec.when[..i] + [pipe.spec.when[i]];
      i := i + 1;
    }
    assert pipe.spec.when[..i] == pipe.spec.when;
    return false;
  }

  /** The pipes of the event's namespace that watch it, in lister order. */
  function Watchers(pipes: seq<Pipe>, event: Event): (r: seq<Pipe>)
    ensures forall p :: p in r <==> p in pipes && p.meta.namespace == event.meta.namespace && Watches(p, event)
  {
    Filter(pipes, (p: Pipe) => p.meta.namespace == event.meta.namespace && Watches(p, event))
  }

  method GetPipeWatchers(pipes: Lister<Pipe>, event: Event) returns (r: Listing<Pipe>)
    ensures pipes.failure.Some? ==> r == ListFailed(pipes.failure.value)
    ensures pipes.failure.None? ==> r == Listed(Watchers(pipes.items, event))
  {
    if pipes.failure.Some? {
      return ListFailed(pipes.failure.value);
    }
    var items := pipes.items;
    var watchers: seq<Pipe> := [];
    var i := 0;
    while i < |items|
      invariant 0 <= i <= |items|
      invariant watchers == Watchers(items[..i], event)
    {
      var watched := false;
      if items[i].meta.namespace == event.meta.namespace {
        watched := IsWatched(items[i], event);
      }
      FilterSnoc(items, i, (p: Pipe) => p.meta.namespace == event.meta.namespace && Watches(p, event));
      if watched {
        watchers := watchers + [items[i]];
      }
      i := i + 1;
    }
    assert items[..i] == items;
    return Listed(watchers);
  }

  // ---------------------------------------------------------------------------
  // Revisions and names (sync.go)

  /** The events of any namespace that the pipe watches, in lister order. */
  function WatchedEvents(pipe: Pipe, events: seq<Event>): (r: seq<Event>)
    ensures forall e :: e in r <==> e in events && Watches(pipe, e)
  {
    Filter(events, (e: Event) => Watches(pipe, e))
  }

  method ListWatchedEvents(pipe: Pipe, events: Lister<Event>) returns (r: Listing<Event>)
    ensures events.failure.Some? ==> r == ListFailed(events.failure.value)
    ensures events.failure.None? ==> r == Listed(WatchedEvents(pipe, events.items))
  {
    if events.failure.Some? {
      return ListFailed(events.failure.value);
    }
    var items := events.items;
    var watched: seq<Event> := [];
    var i := 0;
    while i < |items|
      invariant 0 <= i <= |items|
      invariant watched == WatchedEvents(pipe, items[..i])
    {
      var w := IsWatched(pipe, items[i]);
      FilterSnoc(items, i, (e: Event) => Watches(pipe, e));
      if w {
        watched := watched + [items[i]];
      }
      i := i + 1;
    }
    assert items[..i] == items;
    return Listed(watched);
  }

  /** The revision an event stands for: the first 11 hex digits of md5("repo@ref"). */
  function Hash(event: Event, md5: string -> Digest): (h: string)
    ensures |h| == HashLength
  {
    Hex.Encode(md5(event.spec.repo + "@" + event.spec.ref))[..HashLength]
  }

  /** The hash is written in lower-case hex digits. */
  lemma HashIsLowerHex(event: Event, md5: string -> Digest)
    ensures forall i :: 0 <= i < |Hash(event, md5)| ==> Hash(event, md5)[i] in Hex.Digits
  {
    Hex.EncodeLowerCase(md5(event.spec.repo + "@" + event.spec.ref));
  }

  /** The hash keeps the first five bytes of the digest intact (and half of the sixth). */
  lemma HashKeepsDigestPrefix(event: Event, md5: string -> Digest)
    ensures Hex.Decode(Hash(event, md5)[..10]) == Some(md5(event.spec.repo + "@" + event.spec.ref)[..5])
  {
    var d := md5(event.spec.repo + "@" + event.spec.ref);
    Hex.EncodePrefix(d, 5);
    assert Hash(event, md5)[..10] == Hex.Encode(d)[..10];
    Hex.DecodeEncode(d[..5]);
  }

  /** A flow name: the pipe's name, a dash and a random suffix. */
  function GenName(pipe: Pipe, suffix: string): (name: string)
    ensures |name| == |pipe.meta.name| + 1 + |suffix|
    ensures name[..|pipe.meta.name|] == pipe.meta.name && name[|pipe.meta.name|] == '-'
    ensures name[|pipe.meta.name| + 1..] == suffix
  {
    pipe.meta.name + "-" + suffix
  }

  /** With a suffix from the random generator, a flow name is the pipe's name, a
      dash and seven ASCII letters. */
  lemma GenNameFromRandom(pipe: Pipe, draws: seq<Random.Draw>)
    requires NameSuffixLength <= |Random.Letters(draws)|
    ensures var name := GenName(pipe, Random.Letters(draws)[..NameSuffixLength]);
      |name| == |pipe.meta.name| + 8 &&
      forall i :: |pipe.meta.name| < i < |name| ==> name[i] in Random.LetterBytes
  {
    Random.LettersAlphabet(draws);
    var name := GenName(pipe, Random.Letters(draws)[..NameSuffixLength]);
    forall i | |pipe.meta.name| < i < |name|
      ensures name[i] in Random.LetterBytes
    {
      assert name[i] == Random.Letters(draws)[i - |pipe.meta.name| - 1];
    }
  }

  /** A flow was triggered by an event when it runs the event's repository at the event's ref. */
  predicate IsTriggeredBy(flow: Flow, event: Event)
  {
    flow.spec.git.repo == event.spec.repo && flow.spec.git.ref == event.spec.ref
  }

  /** Two flows are equal for the pipe when their git settings and stages are. */
  predicate SemanticEqual(a: Flow, b: Flow)
  {
    a.spec.git == b.spec.git && a.spec.stages == b.spec.stages
  }

  /** Does a flow carry the given revision label? */
  predicate HasRevision(f: Flow, hashCode: string)
  {
    RevisionLabelKey in f.meta.labels && f.meta.labels[RevisionLabelKey] == hashCode
  }

  /** The flows of the namespace labelled with the revision, in lister order. */
  function RevisionFlows(flows: seq<Flow>, ns: string, hashCode: string): (r: seq<Flow>)
    ensures forall f :: f in r <==> f in flows && f.meta.namespace == ns && HasRevision(f, hashCode)
  {
    Filter(flows, (f: Flow) => f.meta.namespace == ns && HasRevision(f, hashCode))
  }

  /** The flow the pipe wants for an event. Its selector is the pipe's selector
      plus the revision label, built on a copy: the pipe itself is untouched. */
  function ExpectedFlow(pipe: Pipe, event: Event, hashCode: string, name: string, gvk: Gvk): (f: Flow)
    ensures f.meta.namespace == pipe.meta.namespace && f.meta.name == name
    ensures f.meta.labels == map[RevisionLabelKey := hashCode] && HasRevision(f, hashCode)
    ensures f.meta.owners == [NewControllerRef(pipe.meta, gvk)] && IsControlledBy(f.meta, pipe.meta)
    ensures f.spec.selector.Keys == pipe.spec.selector.Keys + {RevisionLabelKey}
    ensures f.spec.selector[RevisionLabelKey] == hashCode
    ensures forall k :: k in pipe.spec.selector && k != RevisionLabelKey ==> f.spec.selector[k] == pipe.spec.selector[k]
    ensures f.spec.git == pipe.spec.git.(ref := event.spec.ref) && f.spec.stages == pipe.spec.stages
    ensures f.spec.mario.None? && f.status.phase == FlowPending
    ensures pipe.spec.git.repo == event.spec.repo ==> IsTriggeredBy(f, event)
  {
    var meta := Meta(pipe.meta.namespace, name, "", "", map[RevisionLabelKey := hashCode],
                     [NewControllerRef(pipe.meta, gvk)], 0);
    var spec := FlowSpec(pipe.spec.selector[RevisionLabelKey := hashCode], pipe.spec.git.(ref := event.spec.ref),
                         pipe.spec.stages, None);
    Flow(meta, spec, FlowStatus(FlowPending, [], []))
  }

  /** The update sent for a flow that differs from the expected one: manifest
      dropped, git and stages taken from the expected flow, phase back to Pending. */
  function ResetFlow(f: Flow, expected: Flow): (u: Flow)
    ensures SemanticEqual(u, expected)
    ensures u.spec.mario.None? && u.status.phase == FlowPending
    ensures u.meta == f.meta && u.spec.selector == f.spec.selector
    ensures u.status.stageStatuses == f.status.stageStatuses && u.status.conditions == f.status.conditions
  {
    f.(spec := f.spec.(mario := None, git := expected.spec.git, stages := expected.spec.stages),
       status := f.status.(phase := FlowPending))
  }

  /** The updates for the labelled flows: the scan stops (successfully) at a flow
      the pipe does not control or the event did not trigger, and at the first
      failed update, whose error is dropped. */
  function Updates(flows: seq<Flow>, pipe: Pipe, event: Event, expected: Flow, api: ApiServer): seq<Write>
  {
    if flows == [] then []
    else
      var f := flows[0];
      if !IsControlledBy(f.meta, pipe.meta) || !IsTriggeredBy(f, event) then []
      else if SemanticEqual(f, expected) then Updates(flows[1..], pipe, event, expected, api)
      else
        var w := UpdateFlow(ResetFlow(f, expected));
        if api(w).Some? then [w] else [w] + Updates(flows[1..], pipe, event, expected, api)
  }

  /** generateFlow for one event, over a snapshot of the flow cache. */
  function GenerateFlowOutcome(pipe: Pipe, event: Event, flows: Lister<Flow>, md5: string -> Digest,
                               suffix: string, gvk: Gvk, api: ApiServer): (r: SyncOutcome)
    ensures flows.failure.Some? ==> r == SyncOutcome([], flows.failure)
  {
    if flows.failure.Some? then SyncOutcome([], flows.failure)
    else
      var hashCode := Hash(event, md5);
      var selected := RevisionFlows(flows.items, pipe.meta.namespace, hashCode);
      var expected := ExpectedFlow(pipe, event, hashCode, GenName(pipe, suffix), gvk);
      if selected == [] then SyncOutcome([CreateFlow(expected)], api(CreateFlow(expected)))
      else SyncOutcome(Updates(selected, pipe, event, expected, api), None)
  }

  /** With no flow labelled with the event's revision, the expected flow is
      created; otherwise only updates are sent and no error is returned. */
  lemma GenerateFlowCases(pipe: Pipe, event: Event, flows: Lister<Flow>, md5: string -> Digest,
                          suffix: string, gvk: Gvk, api: ApiServer)
    ensures var r := GenerateFlowOutcome(pipe, event, flows, md5, suffix, gvk, api);
      && (flows.failure.None? && RevisionFlows(flows.items, pipe.meta.namespace, Hash(event, md5)) == [] ==>
            var f := ExpectedFlow(pipe, event, Hash(event, md5), GenName(pipe, suffix), gvk);
            r == SyncOutcome([CreateFlow(f)], api(CreateFlow(f))))
      && (flows.failure.None? && RevisionFlows(flows.items, pipe.meta.namespace, Hash(event, md5)) != [] ==>
            r.err.None? && forall w :: w in r.writes ==> w.UpdateFlow?)
  {
    if flows.failure.None? {
      var hashCode := Hash(event, md5);
      var selected := RevisionFlows(flows.items, pipe.meta.namespace, hashCode);
      var expected := ExpectedFlow(pipe, event, hashCode, GenName(pipe, suffix), gvk);
      UpdatesAreUpdates(selected, pipe, event, expected, api);
    }
  }

  lemma {:induction false} UpdatesAreUpdates(flows: seq<Flow>, pipe: Pipe, event: Event, expected: Flow, api: ApiServer)
    ensures forall w :: w in Updates(flows, pipe, event, expected, api) ==> w.UpdateFlow?
  {
    if flows != [] {
      UpdatesAreUpdates(flows[1..], pipe, event, expected, api);
    }
  }

  /** Every update is the reset of a listed flow that the pipe controls, that
      the event triggered and that differs from the expected flow; the updated
      flow then equals the expected one. */
  lemma {:induction false} UpdatesTargetDifferingFlows(flows: seq<Flow>, pipe: Pipe, event: Event, expected: Flow, api: ApiServer)
    ensures forall w :: w in Updates(flows, pipe, event, expected, api) ==>
      w.UpdateFlow? && SemanticEqual(w.flow, expected) &&
      exists f :: f in flows && w.flow == ResetFlow(f, expected) && !SemanticEqual(f, expected) &&
                  IsControlledBy(f.meta, pipe.meta) && IsTriggeredBy(f, event)
  {
    if flows != [] {
      UpdatesTargetDifferingFlows(flows[1..], pipe, event, expected, api);
      forall w | w in Updates(flows, pipe, event, expected, api)
        ensures exists f :: f in flows && w.flow == ResetFlow(f, expected) && !SemanticEqual(f, expected) &&
                            IsControlledBy(f.meta, pipe.meta) && IsTriggeredBy(f, event)
      {
        if w !in Updates(flows[1..], pipe, event, expected, api) {
          assert w.flow == ResetFlow(flows[0], expected);
        } else {
          var f :| f in flows[1..] && w.flow == ResetFlow(f, expected) && !SemanticEqual(f, expected) &&
                   IsControlledBy(f.meta, pipe.meta) && IsTriggeredBy(f, event);
          assert f in flows;
        }
      }
    }
  }

  /** Flows that already equal the expected one get no write. */
  lemma {:induction false} NoUpdateWhenEqual(flows: seq<Flow>, pipe: Pipe, event: Event, expected: Flow, api: ApiServer)
    requires forall f :: f in flows ==> SemanticEqual(f, expected)
    ensures Updates(flows, pipe, event, expected, api) == []
  {
    if flows != [] {
      NoUpdateWhenEqual(flows[1..], pipe, event, expected, api);
    }
  }

  /** Running generateFlow again once the flow it created is in the cache
      writes nothing, whatever name the rerun would have picked. */
  lemma RerunAfterCreateWritesNothing(pipe: Pipe, event: Event, md5: string -> Digest, first: string,
                                      second: string, gvk: Gvk, api: ApiServer)
    ensures var created := ExpectedFlow(pipe, event, Hash(event, md5), GenName(pipe, first), gvk);
      GenerateFlowOutcome(pipe, event, Lister([created], None), md5, second, gvk, api) == SyncOutcome([], None)
  {
    var h := Hash(event, md5);
    var created := ExpectedFlow(pipe, event, h, GenName(pipe, first), gvk);
    var expected := ExpectedFlow(pipe, event, h, GenName(pipe, second), gvk);
    var selected := RevisionFlows([created], pipe.meta.namespace, h);
    assert created in selected;
    assert forall f :: f in selected ==> f == created;
    NoUpdateWhenEqual(selected, pipe, event, expected, api);
  }

  /** generateFlow for one event. The flow name's random suffix is a parameter. */
  method GenerateFlow(pipe: Pipe, event: Event, flows: Lister<Flow>, md5: string -> Digest,
                      suffix: string, gvk: Gvk, api: ApiServer) returns (r: SyncOutcome)
    ensures r == GenerateFlowOutcome(pipe, event, flows, md5, suffix, gvk, api)
  {
    var hashCode := Hash(event, md5);
    if flows.failure.Some? {
      return SyncOutcome([], flows.failure);
    }
    var selected := RevisionFlows(flows.items, pipe.meta.namespace, hashCode);
    var expected := ExpectedFlow(pipe, event, hashCode, GenName(pipe, suffix), gvk);
    if selected == [] {
      return SyncOutcome([CreateFlow(expected)], api(CreateFlow(expected)));
    }
    var writes := SendUpdates(selected, pipe, event, expected, api);
    return SyncOutcome(writes, None);
  }

  /** The loop of generateFlow over the labelled flows. */
  method SendUpdates(selected: seq<Flow>, pipe: Pipe, event: Event, expected: Flow, api: ApiServer)
    returns (writes: seq<Write>)
    ensures writes == Updates(selected, pipe, event, expected, api)
  {
    writes := [];
    var i := 0;
    while i < |selected|
      invariant 0 <= i <= |selected|
      invariant Updates(selected, pipe, event, expected, api) == writes + Updates(selected[i..], pipe, event, expected, api)
    {
      var f := selected[i];
      UpdatesFrom(selected, i, pipe, event, expected, api);
      if !IsControlledBy(f.meta, pipe.meta) || !IsTriggeredBy(f, event) {
        assert writes + [] == writes;
        return;
      }
      if !SemanticEqual(f, expected) {
        var w := UpdateFlow(ResetFlow(f, expected));
        if api(w).Some? {
          writes := writes + [w];
          return;
        }
        assert writes + ([w] + Updates(selected[i + 1..], pipe, event, expected, api)) ==
               writes + [w] + Updates(selected[i + 1..], pipe, event, expected, api);
        writes := writes + [w];
      }
      i := i + 1;
    }
    assert selected[i..] == [];
    assert writes + [] == writes;
  }

  /** One step of the scan, at position i. */
  lemma UpdatesFrom(flows: seq<Flow>, i: nat, pipe: Pipe, event: Event, expected: Flow, api: ApiServer)
    requires i < |flows|
    ensures var f := flows[i];
      var w := UpdateFlow(ResetFlow(f, expected));
      var rest := Updates(flows[i + 1..], pipe, event, expected, api);
      Updates(flows[i..], pipe, event, expected, api) ==
        if !IsControlledBy(f.meta, pipe.meta) || !IsTriggeredBy(f, event) then []
        else if SemanticEqual(f, expected) then rest
        else if api(w).Some? then [w] else [w] + rest
  {
    assert flows[i..][1..] == flows[i + 1..];
  }

  // ---------------------------------------------------------------------------
  // The sync handler

  /** generateFlow over the watched events in order, stopping at the first error. */
  function GenerateFlows(pipe: Pipe, events: seq<Event>, flows: Lister<Flow>, md5: string -> Digest,
                         suffix: Event -> string, gvk: Gvk, api: ApiServer): (r: SyncOutcome)
    ensures events == [] ==> r == SyncOutcome([], None)
  {
    if events == [] then SyncOutcome([], None)
    else
      var o := GenerateFlowOutcome(pipe, events[0], flows, md5, suffix(events[0]), gvk, api);
      if o.err.Some? then o
      else
        var rest := GenerateFlows(pipe, events[1..], flows, md5, suffix, gvk, api);
        SyncOutcome(o.writes + rest.writes, rest.err)
  }

  /** The error of a pipe's sync is the first error of one of its events:
      no error means every event's flow was generated without one. */
  lemma {:induction false} GenerateFlowsError(pipe: Pipe, events: seq<Event>, flows: Lister<Flow>, md5: string -> Digest,
                                              suffix: Event -> string, gvk: Gvk, api: ApiServer)
    ensures GenerateFlows(pipe, events, flows, md5, suffix, gvk, api).err.None? ==>
      forall e :: e in events ==> GenerateFlowOutcome(pipe, e, flows, md5, suffix(e), gvk, api).err.None?
    ensures GenerateFlows(pipe, events, flows, md5, suffix, gvk, api).err.Some? ==>
      exists e :: e in events && GenerateFlowOutcome(pipe, e, flows, md5, suffix(e), gvk, api).err ==
                                 GenerateFlows(pipe, events, flows, md5, suffix, gvk, api).err
  {
    if events != [] {
      GenerateFlowsError(pipe, events[1..], flows, md5, suffix, gvk, api);
      assert forall e :: e in events ==> e == events[0] || e in events[1..];
    }
  }

  /** The flow cache is read once per event, so two watched events for the same
      repository and ref (a push and a tag, or events from two namespaces) each
      find no flow with their revision, and one pass creates two flows for that
      revision that run the same code. */
  lemma SameRevisionCreatedTwice(pipe: Pipe, e1: Event, e2: Event, md5: string -> Digest,
                                 suffix: Event -> string, gvk: Gvk, api: ApiServer)
    requires e1.spec.repo == e2.spec.repo && e1.spec.ref == e2.spec.ref
    requires forall w :: api(w).None?
    ensures var h := Hash(e1, md5);
      var f1 := ExpectedFlow(pipe, e1, h, GenName(pipe, suffix(e1)), gvk);
      var f2 := ExpectedFlow(pipe, e2, h, GenName(pipe, suffix(e2)), gvk);
      && GenerateFlows(pipe, [e1, e2], Lister([], None), md5, suffix, gvk, api) == SyncOutcome([CreateFlow(f1), CreateFlow(f2)], None)
      && HasRevision(f1, h) && HasRevision(f2, h) && SemanticEqual(f1, f2)
  {
    assert Hash(e2, md5) == Hash(e1, md5);
    assert [e1, e2][1..] == [e2];
  }

  /** A second pipe of the namespace that watches the same repository and ref
      never gets a flow of its own: the first pipe's flow carries the revision,
      so nothing is created, and the scan stops at that flow because the second
      pipe does not control it. */
  lemma SecondPipeGetsNoFlow(p1: Pipe, p2: Pipe, e: Event, md5: string -> Digest, s1: string, s2: string,
                             gvk: Gvk, api: ApiServer)
    requires p1.meta.namespace == p2.meta.namespace && p1.meta.uid != p2.meta.uid
    requires Watches(p1, e) && Watches(p2, e)
    ensures var created := ExpectedFlow(p1, e, Hash(e, md5), GenName(p1, s1), gvk);
      && !IsControlledBy(created.meta, p2.meta)
      && GenerateFlowOutcome(p2, e, Lister([created], None), md5, s2, gvk, api) == SyncOutcome([], None)
  {
    var h := Hash(e, md5);
    var created := ExpectedFlow(p1, e, h, GenName(p1, s1), gvk);
    var selected := RevisionFlows([created], p2.meta.namespace, h);
    assert created in selected;
    assert forall f :: f in selected ==> f == created;
    assert selected == [created];
  }

  /** syncPipe: split the key, find the pipe (a missing pipe is done), list the
      watched events and generate their flows. The caches are snapshots that do
      not change during one reconciliation. */
  function SyncPipeOutcome(key: string, pipes: Lister<Pipe>, events: Lister<Event>, flows: Lister<Flow>,
                           md5: string -> Digest, suffix: Event -> string, gvk: Gvk, api: ApiServer): (r: SyncOutcome)
    ensures Keys.SplitKey(key).SplitErr? ==> r == SyncOutcome([], Some(Keys.SplitKey(key).err))
    ensures Keys.SplitKey(key).Split? && Get(pipes, PipeMeta, Keys.SplitKey(key).namespace, Keys.SplitKey(key).name).NotFound? ==>
      r == SyncOutcome([], None)
    ensures r.writes != [] ==> events.failure.None? && flows.failure.None?
  {
    match Keys.SplitKey(key)
    case SplitErr(e) => SyncOutcome([], Some(e))
    case Split(ns, name) =>
      match Get(pipes, PipeMeta, ns, name)
      case NotFound => SyncOutcome([], None)
      case LookupFailed(e) => SyncOutcome([], Some(e))
      case Found(pipe) =>
        if events.failure.Some? then SyncOutcome([], events.failure)
        else
          var r := GenerateFlows(pipe, WatchedEvents(pipe, events.items), flows, md5, suffix, gvk, api);
          assert r.writes != [] ==> flows.failure.None? by {
            if flows.failure.Some? {
              NoWritesOnFlowListFailure(pipe, WatchedEvents(pipe, events.items), flows, md5, suffix, gvk, api);
            }
          }
          r
  }

  lemma {:induction false} NoWritesOnFlowListFailure(pipe: Pipe, events: seq<Event>, flows: Lister<Flow>, md5: string -> Digest,
                                                     suffix: Event -> string, gvk: Gvk, api: ApiServer)
    requires flows.failure.Some?
    ensures GenerateFlows(pipe, events, flows, md5, suffix, gvk, api) == if events == [] then SyncOutcome([], None) else SyncOutcome([], flows.failure)
  {
  }

  method SyncPipe(key: string, pipes: Lister<Pipe>, events: Lister<Event>, flows: Lister<Flow>,
                  md5: string -> Digest, suffix: Event -> string, gvk: Gvk, api: ApiServer) returns (r: SyncOutcome)
    ensures r == SyncPipeOutcome(key, pipes, events, flows, md5, suffix, gvk, api)
  {
    var split := Keys.SplitKey(key);
    if split.SplitErr? {
      return SyncOutcome([], Some(split.err));
    }
    var found := Get(pipes, PipeMeta, split.namespace, split.name);
    if found.NotFound? {
      return SyncOutcome([], None);
    } else if found.LookupFailed? {
      return SyncOutcome([], Some(found.err));
    }
    var pipe := found.obj;
    var listed := ListWatchedEvents(pipe, events);
    if listed.ListFailed? {
      return SyncOutcome([], Some(listed.err));
    }
    r := GenerateAll(pipe, listed.items, flows, md5, suffix, gvk, api);
  }

  /** The loop of syncPipe over the watched events: generate each one's
      flow, stopping at the first error. */
  method GenerateAll(pipe: Pipe, watched: seq<Event>, flows: Lister<Flow>, md5: string -> Digest,
                     suffix: Event -> string, gvk: Gvk, api: ApiServer) returns (r: SyncOutcome)
    ensures r == GenerateFlows(pipe, watched, flows, md5, suffix, gvk, api)
  {
    var writes: seq<Write> := [];
    var i := 0;
    while i < |watched|
      invariant 0 <= i <= |watched|
      invariant GenerateFlows(pipe, watched, flows, md5, suffix, gvk, api) ==
        SyncOutcome(writes + GenerateFlows(pipe, watched[i..], flows, md5, suffix, gvk, api).writes,
                    GenerateFlows(pipe, watched[i..], flows, md5, suffix, gvk, api).err)
    {
      var o := GenerateFlow(pipe, watched[i], flows, md5, suffix(watched[i]), gvk, api);
      GenerateFlowsFrom(pipe, watched, i, flows, md5, suffix, gvk, api);
      if o.err.Some? {
        return SyncOutcome(writes + o.writes, o.err);
      }
      var rest := GenerateFlows(pipe, watched[i + 1..], flows, md5, suffix, gvk, api);
      assert writes + (o.writes + rest.writes) == writes + o.writes + rest.writes;
      writes := writes + o.writes;
      i := i + 1;
    }
    assert watched[i..] == [];
    assert writes + [] == writes;
    return SyncOutcome(writes, None);
  }

  /** One step of syncPipe's loop, at position i. */
  lemma GenerateFlowsFrom(pipe: Pipe, events: seq<Event>, i: nat, flows: Lister<Flow>, md5: string -> Digest,
                          suffix: Event -> string, gvk: Gvk, api: ApiServer)
    requires i < |events|
    ensures var o := GenerateFlowOutcome(pipe, events[i], flows, md5, suffix(events[i]), gvk, api);
      var rest := GenerateFlows(pipe, events[i + 1..], flows, md5, suffix, gvk, api);
      GenerateFlows(pipe, events[i..], flows, md5, suffix, gvk, api) ==
        if o.err.Some? then o else SyncOutcome(o.writes + rest.writes, rest.err)
  {
    assert events[i..][1..] == events[i + 1..];
  }
}
