/** Attaching the manifest to a flow (attachMario in
    pkg/controller/flow/mario.go): the manifest is fetched from the ready pods
    of the flow's mario job and written into the flow's spec, once. */
module MarioAttach {
  import opened Api
  import opened FlowHelpers

  /** fetchMario: GET on port 8080 of the pod's IP with the bearer token
      "test", the body decoded as a manifest. Given as a function of the IP. */
  type Fetcher = string -> Result<Mario>

  /** A pod the manifest may come from: ready, and controlled by the mario job. */
  predicate Eligible(pod: Pod, marioJob: Job)
  {
    pod.ready && IsControlledBy(pod.meta, marioJob.meta)
  }

  predicate FetchesFrom(pod: Pod, marioJob: Job, fetch: Fetcher)
  {
    Eligible(pod, marioJob) && fetch(pod.ip).Ok?
  }

  /** The manifest of the last eligible pod whose fetch succeeds: a failed
      fetch is skipped and a later success overrides an earlier one. */
  function LastFetched(pods: seq<Pod>, marioJob: Job, fetch: Fetcher): Option<Mario>
  {
    if pods == [] then None
    else if FetchesFrom(pods[|pods| - 1], marioJob, fetch) then Some(fetch(pods[|pods| - 1].ip).value)
    else LastFetched(pods[..|pods| - 1], marioJob, fetch)
  }

  /** Nothing is fetched exactly when no eligible pod's fetch succeeds;
      otherwise the manifest is that of the last pod whose fetch succeeds. */
  lemma {:induction false} LastFetchedMeaning(pods: seq<Pod>, marioJob: Job, fetch: Fetcher)
    ensures var r := LastFetched(pods, marioJob, fetch);
      && (r.None? <==> forall i :: 0 <= i < |pods| ==> !FetchesFrom(pods[i], marioJob, fetch))
      && (r.Some? ==> exists i :: 0 <= i < |pods| && FetchesFrom(pods[i], marioJob, fetch) &&
                                 fetch(pods[i].ip) == Ok(r.value) &&
                                 forall j :: i < j < |pods| ==> !FetchesFrom(pods[j], marioJob, fetch))
  {
    if pods != [] {
      var init := pods[..|pods| - 1];
      LastFetchedMeaning(init, marioJob, fetch);
      assert forall i :: 0 <= i < |init| ==> init[i] == pods[i];
      var r := LastFetched(pods, marioJob, fetch);
      if FetchesFrom(pods[|pods| - 1], marioJob, fetch) {
        assert fetch(pods[|pods| - 1].ip) == Ok(r.value);
      }
    }
  }

  /** One more pod: it overrides the manifest when its fetch succeeds. */
  lemma LastFetchedSnoc(pods: seq<Pod>, i: nat, marioJob: Job, fetch: Fetcher)
    requires i < |pods|
    ensures LastFetched(pods[..i + 1], marioJob, fetch)
         == if FetchesFrom(pods[i], marioJob, fetch) then Some(fetch(pods[i].ip).value)
            else LastFetched(pods[..i], marioJob, fetch)
  {
    assert pods[..i + 1][..i] == pods[..i];
  }

  /** Whether the manifest was attached, and the writes and error of the attempt. */
  datatype Attach = Attach(attached: bool, outcome: SyncOutcome)

  /** The flow with the manifest in its spec. */
  function WithMario(flow: Flow, m: Mario): Flow
  {
    flow.(spec := flow.spec.(mario := Some(m)))
  }

  /** attachMario. `pods` is the listing of the pods the mario job's selector
      picks in the flow's namespace, or the error converting the selector or
      listing. */
  function AttachOutcome(flow: Flow, jobMap: map<string, Job>, pods: Listing<Pod>, fetch: Fetcher, api: ApiServer)
    : (r: Attach)
    ensures flow.spec.mario.Some? || FlowStageMario !in jobMap ==> r == Attach(false, SyncOutcome([], None))
    ensures flow.spec.mario.None? && FlowStageMario in jobMap && pods.ListFailed? ==>
      r == Attach(false, SyncOutcome([], Some(pods.err)))
    ensures |r.outcome.writes| <= 1
    ensures r.attached <==> r.outcome.writes != [] && r.outcome.err.None?
    ensures r.outcome.writes != [] ==>
      flow.spec.mario.None? && FlowStageMario in jobMap && pods.Listed? &&
      r.outcome.err == api(r.outcome.writes[0]) &&
      exists i :: 0 <= i < |pods.items| && Eligible(pods.items[i], jobMap[FlowStageMario]) &&
                  fetch(pods.items[i].ip).Ok? &&
                  r.outcome.writes == [UpdateFlow(WithMario(flow, fetch(pods.items[i].ip).value))]
    ensures flow.spec.mario.None? && FlowStageMario in jobMap && pods.Listed? ==>
      (r.outcome.writes == [] <==> forall i :: 0 <= i < |pods.items| ==> !FetchesFrom(pods.items[i], jobMap[FlowStageMario], fetch))
  {
    if flow.spec.mario.Some? || FlowStageMario !in jobMap then Attach(false, SyncOutcome([], None))
    else if pods.ListFailed? then Attach(false, SyncOutcome([], Some(pods.err)))
    else
      LastFetchedMeaning(pods.items, jobMap[FlowStageMario], fetch);
      match LastFetched(pods.items, jobMap[FlowStageMario], fetch)
      case None => Attach(false, SyncOutcome([], None))
      case Some(m) =>
        var w := UpdateFlow(WithMario(flow, m));
        var err := api(w);
        Attach(err.None?, SyncOutcome([w], err))
  }

  method AttachMario(flow: Flow, jobMap: map<string, Job>, pods: Listing<Pod>, fetch: Fetcher, api: ApiServer)
    returns (attached: bool, r: SyncOutcome)
    ensures Attach(attached, r) == AttachOutcome(flow, jobMap, pods, fetch, api)
  {
    if flow.spec.mario.Some? {
      return false, SyncOutcome([], None);
    }
    if FlowStageMario !in jobMap {
      return false, SyncOutcome([], None);
    }
    var marioJob := jobMap[FlowStageMario];
    if pods.ListFailed? {
      return false, SyncOutcome([], Some(pods.err));
    }
    var items := pods.items;
    var mario: Option<Mario> := None;
    var i := 0;
    while i < |items|
      invariant 0 <= i <= |items|
      invariant mario == LastFetched(items[..i], marioJob, fetch)
    {
      var pod := items[i];
      LastFetchedSnoc(items, i, marioJob, fetch);
      if pod.ready && IsControlledBy(pod.meta, marioJob.meta) {
        var m := fetch(pod.ip);
        if m.Failure? {
          i := i + 1;
          continue;
        }
        mario := Some(m.value);
      }
      i := i + 1;
    }
    assert items[..i] == items;
    if mario.None? {
      return false, SyncOutcome([], None);
    }
    var w := UpdateFlow(WithMario(flow, mario.value));
    var err := api(w);
    if err.Some? {
      return false, SyncOutcome([w], err);
    }
    return true, SyncOutcome([w], None);
  }

  /** Once a manifest is attached, attaching again writes nothing. */
  lemma AttachOnce(flow: Flow, m: Mario, jobMap: map<string, Job>, pods: Listing<Pod>, fetch: Fetcher, api: ApiServer)
    ensures AttachOutcome(WithMario(flow, m), jobMap, pods, fetch, api) == Attach(false, SyncOutcome([], None))
  {
  }
}
