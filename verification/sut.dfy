/** The systems under test of src/suts/: `SUTBase` (SingleStream),
    `SUTMultistream` and `SUTServer`. Each owns the sample library, one
    backend and the item(s) it is about to run; what a SUT hands to LoadGen
    with `QuerySamplesComplete` is kept as `reported`, one entry per call.
    (A server pool's completions report through the pool's own log.) */
module Suts {
  import opened Wrappers
  import opened Items
  import opened Responses
  import Flags
  import Workloads
  import Squad
  import ImageDataset
  import Placement
  import Backend
  import RequestPool
  import PostProcess

  // -------------------------------------------------------- the library

  /** The `QSLBase*` a SUT holds: the SQuAD library or an image library. */
  datatype Library = TextLibrary(squad: Squad.Qsl) | ImageLibrary(images: ImageDataset.Qsl)

  /** `LoadSamplesToRam` of whichever library it is. */
  function LoadSamples(lib: Library, samples: seq<nat>): (r: Result<Library>)
    ensures r.Ok? ==> r.value.TextLibrary? == lib.TextLibrary?
  {
    match lib
    case TextLibrary(q) => var l :- Squad.LoadSamples(q, samples); Ok(TextLibrary(l))
    case ImageLibrary(q) => var l :- ImageDataset.LoadSamples(q, samples); Ok(ImageLibrary(l))
  }

  /** `UnloadSamplesFromRam` of whichever library it is. */
  function UnloadSamples(lib: Library): (r: Result<Library>)
    ensures r.Ok? ==> r.value.TextLibrary? == lib.TextLibrary?
    ensures lib.TextLibrary? ==> r.Ok?
  {
    match lib
    case TextLibrary(q) => Ok(TextLibrary(Squad.UnloadSamples(q)))
    case ImageLibrary(q) => var l :- ImageDataset.UnloadSamples(q); Ok(ImageLibrary(l))
  }

  /** `GetSample` of whichever library it is: an item for `samples[0]`
      carrying every response id and sample index it was given. */
  function GetSample(lib: Library, samples: seq<nat>, queryIds: seq<nat>): (r: Result<Item>)
    ensures |samples| == 0 ==> r == Err(Unchecked)
    ensures r.Ok? ==> r.value.responseIds == queryIds && r.value.sampleIdxs == samples
  {
    match lib
    case TextLibrary(q) => Squad.GetSample(q, samples, queryIds)
    case ImageLibrary(q) => ImageDataset.GetSample(q, samples, queryIds)
  }

  /** `GetSamplesBatchedMultistream` of whichever library it is: batch `i`
      answers query positions [i * bs, i * bs + bs). */
  function GetSamplesBatchedMultistream(lib: Library, samples: seq<nat>, queryIds: seq<nat>, bs: nat, numBatches: nat)
    : (r: Result<seq<Item>>)
    ensures |samples| == 0 ==> r == Err(Unchecked)
    ensures r.Ok? ==> |r.value| == numBatches
    ensures r.Ok? ==>
      forall i :: 0 <= i < numBatches ==> Placement.AnswersPositions(r.value[i], samples, queryIds, i * bs, bs)
  {
    match lib
    case TextLibrary(q) => Squad.GetSamplesBatchedMultistream(q, samples, queryIds, bs, numBatches)
    case ImageLibrary(q) => ImageDataset.GetSamplesBatchedMultistream(q, samples, queryIds, bs, numBatches)
  }

  // ------------------------------------------------------------ the SUT

  datatype Kind = Base | Multistream | Server

  /** The scenario each SUT is built for. */
  function ScenarioOf(kind: Kind): Flags.Scenario
  {
    match kind
    case Base => Flags.SingleStream
    case Multistream => Flags.MultiStream
    case Server => Flags.Server
  }

  /** `async` records which of the two backend pointers holds the backend:
      `backend_ov_async_` when set, `backend_ov_` otherwise (the other one
      stays null). `item` is `qitem_`, `items` is `qitems_`. */
  datatype Sut = Sut(
    kind: Kind,
    batch: nat,
    library: Library,
    async: bool,
    backend: Backend.Backend,
    item: Item,
    items: seq<Item>,
    reported: seq<seq<Response>>)

  /** The backend is loaded for the SUT's scenario, and each SUT uses the
      pointer it filled: `SUTBase` the synchronous one, the others the
      asynchronous one. */
  predicate Valid(s: Sut)
  {
    && Backend.Ready(s.backend) && s.backend.scenario == ScenarioOf(s.kind)
    && s.async == (s.kind != Base)
  }

  /** The pool of an asynchronous SUT's backend. */
  function PoolOf(s: Sut): RequestPool.Pool
    requires Valid(s) && s.kind != Base
  {
    s.backend.resource.pool
  }

  /** The `SUTBase` constructor (which the other two call with `async`
      set): the backend is created behind the pointer `async` selects and
      loaded at once; a failing load propagates. */
  function NewSut(kind: Kind, batch: nat, library: Library, workload: Workloads.WorkloadName,
                  props: Backend.Properties, supported: set<(string, Backend.Key)>, optimalRequests: Option<nat>)
    : (r: Result<Sut>)
    ensures r.Ok? <==> Backend.Load(ScenarioOf(kind), workload, batch, props, supported, optimalRequests).Ok?
    ensures r.Ok? ==>
      && Valid(r.value) && r.value.kind == kind && r.value.batch == batch && r.value.library == library
      && r.value.async == (kind != Base) && r.value.reported == [] && r.value.items == []
      && (r.value.backend.resource.Single? <==> kind == Base)
      && (kind == Multistream ==> r.value.backend.resource.pool.kind == RequestPool.ClosedLoop)
      && (kind == Server ==> r.value.backend.resource.pool.kind == RequestPool.ServerQueue)
      && (kind != Base ==> r.value.backend.resource.pool.responses == [])
  {
    var backend :- Backend.Load(ScenarioOf(kind), workload, batch, props, supported, optimalRequests);
    Ok(Sut(kind, batch, library, kind != Base, backend, EmptyItem(), [], []))
  }

  /** The sample indices of a query, in order. */
  function Indices(queries: seq<QuerySample>): (r: seq<nat>)
    ensures |r| == |queries| && forall i :: 0 <= i < |queries| ==> r[i] == queries[i].index
  {
    seq(|queries|, i requires 0 <= i < |queries| => queries[i].index)
  }

  /** The response ids of a query, in order. */
  function Ids(queries: seq<QuerySample>): (r: seq<nat>)
    ensures |r| == |queries| && forall i :: 0 <= i < |queries| ==> r[i] == queries[i].id
  {
    seq(|queries|, i requires 0 <= i < |queries| => queries[i].id)
  }

  // ---------------------------------------------------------- SUTBase

  /** `SUTBase::RunOneItem`: `predict` into fresh result and count vectors
      and into the response-id vector it was given, then one harness call
      with one response: the first id, the address of the first result and
      4 bytes per value of the first count. An empty id or count vector
      there is indexed anyway. `&result[0]` only forms an address, as
      `&results[idx]` does for the request pools, so an empty result
      vector gives a response of `4 * counts[0]` bytes at its end. */
  function BaseRunOneItem(s: Sut, responseIds: seq<nat>, outs: PostProcess.Outputs): (r: Result<Sut>)
    requires Valid(s) && s.kind == Base && PostProcess.AllConsistent(outs)
    ensures var p := Backend.Predict(s.backend, s.item, outs, Buffers(responseIds, [], []));
      && (p.Err? ==> r == Err(p.error))
      && (p.Ok? ==> (r.Ok? <==> |responseIds| > 0 && |p.value.counts| > 0))
      && (r.Err? && p.Ok? ==> r.error == Unchecked)
      && (r.Ok? ==>
            r.value == s.(reported := s.reported + [[Response(responseIds[0], Local, 0, FloatBytes * p.value.counts[0])]]))
  {
    var buffers :- Backend.Predict(s.backend, s.item, outs, Buffers(responseIds, [], []));
    if |responseIds| == 0 || |buffers.counts| == 0 then Err(Unchecked)
    else Ok(s.(reported := s.reported + [[Response(responseIds[0], Local, 0, FloatBytes * buffers.counts[0])]]))
  }

  /** `SUTBase::IssueQuery`: only `samples[0]` is used (it is read before
      anything is checked); the unused batch count still divides by the
      batch size; the item is fetched for that one sample and run. */
  function BaseIssueQuery(s: Sut, queries: seq<QuerySample>, outs: PostProcess.Outputs): (r: Result<Sut>)
    requires Valid(s) && s.kind == Base && PostProcess.AllConsistent(outs)
    ensures |queries| == 0 || s.batch == 0 ==> r == Err(Unchecked)
    ensures r.Ok? ==>
      && r.value.item.sampleIdxs == [queries[0].index] && r.value.item.responseIds == [queries[0].id]
      && GetSample(s.library, [queries[0].index], [queries[0].id]) == Ok(r.value.item)
      && r.value == s.(item := r.value.item, reported := r.value.reported)
      && |r.value.reported| == |s.reported| + 1 && r.value.reported[..|s.reported|] == s.reported
      && |r.value.reported[|s.reported|]| == 1 && r.value.reported[|s.reported|][0].id == queries[0].id
  {
    if |queries| == 0 || s.batch == 0 then Err(Unchecked)
    else
      var item :- GetSample(s.library, [queries[0].index], [queries[0].id]);
      var r := BaseRunOneItem(s.(item := item), [queries[0].id], outs);
      assert r.Ok? ==> r.value.reported[..|s.reported|] == s.reported;
      r
  }

  /** Only the first sample of a SingleStream query matters: two queries
      that start alike are answered alike. */
  lemma {:induction false} BaseIssueQueryReadsFirstOnly(s: Sut, q1: seq<QuerySample>, q2: seq<QuerySample>, outs: PostProcess.Outputs)
    requires Valid(s) && s.kind == Base && PostProcess.AllConsistent(outs)
    requires |q1| > 0 && |q2| > 0 && q1[0] == q2[0]
    ensures BaseIssueQuery(s, q1, outs) == BaseIssueQuery(s, q2, outs)
  {
  }

  /** One iteration of `SUTBase::WarmUp`: the item fetched and run through
      the synchronous request, the backend left as it was. */
  function BaseWarmUpRound(b: Backend.Backend, loaded: Library, samples: seq<nat>, ids: seq<nat>, outs: PostProcess.Outputs)
    : (r: Result<Item>)
    requires PostProcess.AllConsistent(outs)
    ensures r.Ok? <==> GetSample(loaded, samples, ids).Ok? && Backend.Warmup(b, GetSample(loaded, samples, ids).value, outs).Ok?
    ensures r.Ok? ==> GetSample(loaded, samples, ids) == Ok(r.value) && Backend.Warmup(b, r.value, outs) == Ok(b)
  {
    var item :- GetSample(loaded, samples, ids);
    var _ :- Backend.Warmup(b, item, outs);
    Ok(item)
  }

  /** The iterations of `SUTBase::WarmUp`, starting from the item `qitem_`
      held before: afterwards `qitem_` holds the last fetched item, and each
      iteration ran it through the synchronous request. */
  method BaseWarmUpRounds(b: Backend.Backend, loaded: Library, samples: seq<nat>, ids: seq<nat>, first: Item,
                          outs: seq<PostProcess.Outputs>) returns (r: Result<Item>)
    requires forall k :: 0 <= k < |outs| ==> PostProcess.AllConsistent(outs[k])
    ensures r.Ok? && |outs| == 0 ==> r.value == first
    ensures r.Ok? && |outs| > 0 ==> GetSample(loaded, samples, ids) == Ok(r.value)
    ensures r.Ok? ==> WarmedUp(b, r.value, outs, |outs|)
  {
    var item := first;
    var k := 0;
    while k < |outs|
      invariant k <= |outs|
      invariant k == 0 ==> item == first
      invariant k > 0 ==> GetSample(loaded, samples, ids) == Ok(item)
      invariant WarmedUp(b, item, outs, k)
    {
      ghost var before := item;
      item :- BaseWarmUpRound(b, loaded, samples, ids, outs[k]);
      WarmedUpStep(b, before, item, outs, k);
      k := k + 1;
    }
    return Ok(item);
  }

  /** The first `k` warm-up iterations each ran `item` successfully. */
  predicate WarmedUp(b: Backend.Backend, item: Item, outs: seq<PostProcess.Outputs>, k: nat)
    requires k <= |outs|
    requires forall j :: 0 <= j < |outs| ==> PostProcess.AllConsistent(outs[j])
  {
    forall j :: 0 <= j < k ==> Backend.Warmup(b, item, outs[j]).Ok?
  }

  lemma {:induction false} WarmedUpStep(b: Backend.Backend, before: Item, item: Item, outs: seq<PostProcess.Outputs>, k: nat)
    requires k < |outs| && forall j :: 0 <= j < |outs| ==> PostProcess.AllConsistent(outs[j])
    requires k > 0 ==> before == item
    requires WarmedUp(b, before, outs, k) && Backend.Warmup(b, item, outs[k]).Ok?
    ensures WarmedUp(b, item, outs, k + 1)
  {
  }

  /** `SUTBase::WarmUp`: `batch_size` copies of sample 0 with response id 1
      are loaded; every iteration fetches their item into `qitem_` and runs
      it through the synchronous request, discarding the outputs; then the
      samples are unloaded. Nothing is reported. */
  method BaseWarmUp(s: Sut, iterations: nat, outs: seq<PostProcess.Outputs>) returns (r: Result<Sut>)
    requires Valid(s) && s.kind == Base
    requires |outs| == iterations && forall k :: 0 <= k < iterations ==> PostProcess.AllConsistent(outs[k])
    ensures r.Ok? ==>
      && LoadSamples(s.library, Repeat(0, s.batch)).Ok?
      && r.value == s.(library := r.value.library, item := r.value.item)
      && UnloadSamples(LoadSamples(s.library, Repeat(0, s.batch)).value) == Ok(r.value.library)
      && (iterations == 0 ==> r.value.item == s.item)
      && (iterations > 0 ==>
            && s.batch > 0
            && r.value.item.sampleIdxs == Repeat(0, s.batch) && r.value.item.responseIds == Repeat(1, s.batch)
            && GetSample(LoadSamples(s.library, Repeat(0, s.batch)).value, Repeat(0, s.batch), Repeat(1, s.batch)) == Ok(r.value.item))
      && forall k :: 0 <= k < iterations ==> Backend.Warmup(s.backend, r.value.item, outs[k]) == Ok(s.backend)
  {
    var samples := Repeat(0, s.batch);
    var ids := Repeat(1, s.batch);
    var loaded :- LoadSamples(s.library, samples);
    var item :- BaseWarmUpRounds(s.backend, loaded, samples, ids, s.item, outs);
    var unloaded :- UnloadSamples(loaded);
    return Ok(s.(library := unloaded, item := item));
  }

  // --------------------------------------------------- SUTMultistream

  /** `SUTMultistream::RunOneItem`, one wave: every pending item goes to
      `predict_async` (which waits for all of them), then the pool's
      accumulated responses are reported in one harness call, then the
      backend is reset and the items are cleared. */
  function MultistreamRunOneItem(s: Sut, answers: seq<RequestPool.Completion>): (r: Result<Sut>)
    requires Valid(s) && s.kind == Multistream
    requires |answers| == |s.items| && forall j :: 0 <= j < |answers| ==> PostProcess.AllConsistent(answers[j].outs)
    ensures var w := Backend.PredictAsync(s.backend, s.items, answers);
      (r.Ok? <==> w.Ok?) && (r.Err? ==> r.error == w.error)
    ensures r.Ok? ==>
      && r.value.kind == Multistream && Valid(r.value) && r.value.items == []
      && r.value == s.(backend := r.value.backend, items := [], reported := r.value.reported)
    ensures r.Ok? ==>
      var q := PoolOf(r.value);
      q.responses == [] && RequestPool.AllIdle(q) && q.fault.None?
    ensures r.Ok? ==>
      var w := Backend.PredictAsync(s.backend, s.items, answers).value.resource.pool;
      r.value.reported == s.reported + [PoolOf(s).responses + RequestPool.SlotWindows(w.slots, |w.slots|)]
  {
    var b :- Backend.PredictAsync(s.backend, s.items, answers);
    // Neither call can fail on a closed-loop backend.
    var responses := Backend.QuerySampleResponses(b).value;
    var c := Backend.Reset(b).value;
    Ok(s.(backend := c, items := [], reported := s.reported + [responses]))
  }

  /** A wave starts exactly the pending items, in order: the pool's history
      grows by one entry per item. */
  lemma {:induction false} MultistreamRunStartsItems(s: Sut, answers: seq<RequestPool.Completion>)
    requires Valid(s) && s.kind == Multistream
    requires |answers| == |s.items| && forall j :: 0 <= j < |answers| ==> PostProcess.AllConsistent(answers[j].outs)
    requires MultistreamRunOneItem(s, answers).Ok?
    ensures var r := MultistreamRunOneItem(s, answers).value;
      && |PoolOf(r).history| == |PoolOf(s).history| + |s.items|
      && RequestPool.StartedSince(PoolOf(s).history, PoolOf(r).history) == s.items
  {
    WaveHistory(s.backend, s.items, answers);
  }

  /** `predict_async` followed by `reset` on a MultiStream backend: the
      history grows by the items, in order. */
  lemma {:induction false} WaveHistory(b: Backend.Backend, items: seq<Item>, answers: seq<RequestPool.Completion>)
    requires Backend.Ready(b) && b.scenario == Flags.MultiStream
    requires |answers| == |items| && forall j :: 0 <= j < |answers| ==> PostProcess.AllConsistent(answers[j].outs)
    requires Backend.PredictAsync(b, items, answers).Ok?
    ensures var w := Backend.PredictAsync(b, items, answers).value;
      && Backend.Reset(w).Ok? && Backend.Reset(w).value.resource.Queue?
      && |Backend.Reset(w).value.resource.pool.history| == |b.resource.pool.history| + |items|
      && RequestPool.StartedSince(b.resource.pool.history, Backend.Reset(w).value.resource.pool.history) == items
  {
    var w := Backend.PredictAsync(b, items, answers).value;
    assert Backend.Reset(w).value.resource.pool.history == w.resource.pool.history;
  }

  /** `SUTMultistream::IssueQuery`: indices and ids in sample order,
      `samples.size() / batch_size` batches (the rest of the query is never
      submitted) appended to `qitems_`, then one wave. */
  function MultistreamIssueQuery(s: Sut, queries: seq<QuerySample>, answers: seq<RequestPool.Completion>)
    : (r: Result<Sut>)
    requires Valid(s) && s.kind == Multistream
    requires s.batch > 0 ==> |answers| == |s.items| + |queries| / s.batch
    requires forall j :: 0 <= j < |answers| ==> PostProcess.AllConsistent(answers[j].outs)
    ensures s.batch == 0 || |queries| == 0 ==> r == Err(Unchecked)
    ensures r.Ok? ==>
      && r.value.kind == Multistream && Valid(r.value) && r.value.items == [] && PoolOf(r.value).responses == []
      && |r.value.reported| == |s.reported| + 1 && r.value.reported[..|s.reported|] == s.reported
      && |PoolOf(r.value).history| == |PoolOf(s).history| + |s.items| + |queries| / s.batch
  {
    if s.batch == 0 || |queries| == 0 then Err(Unchecked)
    else
      var numBatches := |queries| / s.batch;
      var items :- GetSamplesBatchedMultistream(s.library, Indices(queries), Ids(queries), s.batch, numBatches);
      var r := MultistreamRunOneItem(s.(items := s.items + items), answers);
      if r.Err? then r
      else
        assert r.value.reported[..|s.reported|] == s.reported;
        MultistreamRunStartsItems(s.(items := s.items + items), answers);
        r
  }

  /** With nothing pending, a query's wave submits its ids in query order,
      up to the last whole batch: the tail of a query that does not fill a
      batch is never run. */
  lemma {:induction false} MultistreamIssueQueryOrder(s: Sut, queries: seq<QuerySample>, answers: seq<RequestPool.Completion>,
                                                      whole: nat)
    requires Valid(s) && s.kind == Multistream && s.items == []
    requires s.batch > 0 ==> |answers| == |queries| / s.batch
    requires forall j :: 0 <= j < |answers| ==> PostProcess.AllConsistent(answers[j].outs)
    requires MultistreamIssueQuery(s, queries, answers).Ok?
    requires whole == |queries| / s.batch * s.batch
    ensures whole <= |queries|
    ensures Placement.AllResponseIds(RequestPool.StartedSince(PoolOf(s).history, PoolOf(MultistreamIssueQuery(s, queries, answers).value).history))
      == Ids(queries)[..whole]
  {
    var numBatches := |queries| / s.batch;
    var items := GetSamplesBatchedMultistream(s.library, Indices(queries), Ids(queries), s.batch, numBatches).value;
    var t := s.(items := s.items + items);
    assert s.items + items == items;
    MultistreamRunStartsItems(t, answers);
    Placement.BatchesCoverQueries(items, Indices(queries), Ids(queries), s.batch);
    assert |items| * s.batch == whole;
  }

  /** `SUTMultistream::WarmUp`: `batch_size * nireq` copies of sample 0
      (response id 1) are loaded; every iteration forms `nireq` batches of
      them and runs one `predict_async`; then the samples are unloaded and
      the backend is reset. The harness is never called. */
  method MultistreamWarmUp(s: Sut, iterations: nat, answers: seq<seq<RequestPool.Completion>>) returns (r: Result<Sut>)
    requires Valid(s) && s.kind == Multistream
    requires |answers| == iterations
    requires forall k :: 0 <= k < iterations ==>
      |answers[k]| == s.backend.nireq && forall j :: 0 <= j < |answers[k]| ==> PostProcess.AllConsistent(answers[k][j].outs)
    ensures r.Ok? ==>
      && r.value.kind == Multistream && Valid(r.value)
      && r.value.reported == s.reported && r.value.items == s.items && r.value.item == s.item
      && PoolOf(r.value).responses == []
      && |PoolOf(r.value).history| == |PoolOf(s).history| + iterations * s.backend.nireq
      && (iterations > 0 ==> s.batch * s.backend.nireq > 0)
  {
    var n := s.backend.nireq;
    var samples := Repeat(0, s.batch * n);
    var ids := Repeat(1, s.batch * n);
    var loaded :- LoadSamples(s.library, samples);
    var b := s.backend;
    var k := 0;
    while k < iterations
      invariant k <= iterations
      invariant Backend.Ready(b) && b.scenario == Flags.MultiStream && b.nireq == n
      invariant |b.resource.pool.history| == |PoolOf(s).history| + k * n
      invariant k > 0 ==> s.batch * n > 0
    {
      var items :- GetSamplesBatchedMultistream(loaded, samples, ids, s.batch, n);
      b :- Backend.PredictAsync(b, items, answers[k]);
      Placement.MulSucc(k, n);
      k := k + 1;
    }
    var unloaded :- UnloadSamples(loaded);
    var c := Backend.Reset(b).value;
    return Ok(s.(library := unloaded, backend := c));
  }

  // ------------------------------------------------------- SUTServer

  /** `SUTServer::IssueQuery` and `RunOneItem`: every index and id of the
      query packed into one item, which is submitted once, without waiting
      and without a harness call of the SUT's own. */
  function ServerIssueQuery(s: Sut, queries: seq<QuerySample>, answer: RequestPool.Completion): (r: Result<Sut>)
    requires Valid(s) && s.kind == Server && PostProcess.AllConsistent(answer.outs)
    ensures |queries| == 0 ==> r == Err(Unchecked)
    ensures r.Ok? ==> Valid(r.value) && r.value == s.(backend := r.value.backend)
    ensures r.Ok? ==>
      var p := PoolOf(s);
      var q := PoolOf(r.value);
      |q.history| == |p.history| + 1 && q.history[..|p.history|] == p.history
      && q.history[|p.history|].item.responseIds == Ids(queries)
      && q.history[|p.history|].item.sampleIdxs == Indices(queries)
      && |q.running| > 0 && q.running[|q.running| - 1] == RequestPool.Running(q.history[|p.history|].id, answer)
  {
    var item :- GetSample(s.library, Indices(queries), Ids(queries));
    var b :- Backend.PredictAsyncServer(s.backend, item, answer);
    Ok(s.(backend := b))
  }

  /** The loop of `SUTServer::WarmUp`: the same item is submitted once per
      answer. While the pool is warming up, nothing it completes is
      reported. */
  method ServerSubmitEach(b: Backend.Backend, item: Item, answers: seq<RequestPool.Completion>)
    returns (r: Result<Backend.Backend>)
    requires Backend.Ready(b) && b.scenario == Flags.Server && b.resource.pool.warmup
    requires forall k :: 0 <= k < |answers| ==> PostProcess.AllConsistent(answers[k].outs)
    ensures r.Ok? ==> Backend.Ready(r.value) && r.value.scenario == Flags.Server && r.value.resource.pool.warmup
    ensures r.Ok? ==>
      var p := b.resource.pool;
      var q := r.value.resource.pool;
      && q.reported == p.reported
      && |p.history| <= |q.history| && q.history[..|p.history|] == p.history
      && RequestPool.StartedSince(p.history, q.history) == Repeat(item, |answers|)
  {
    ghost var p := b.resource.pool;
    ghost var started: seq<RequestPool.Started> := [];
    var c := b;
    var k := 0;
    while k < |answers|
      invariant k <= |answers| && |started| == k
      invariant Backend.Ready(c) && c.scenario == Flags.Server
      invariant c.resource.pool.warmup && c.resource.pool.reported == p.reported
      invariant c.resource.pool.history == p.history + started
      invariant forall e <- started :: e.item == item
    {
      ghost var before := c.resource.pool.history;
      c :- Backend.PredictAsyncServer(c, item, answers[k]);
      ghost var e := c.resource.pool.history[|before|];
      assert c.resource.pool.history == before + [e];
      started := started + [e];
      k := k + 1;
    }
    assert c.resource.pool.history[..|p.history|] == p.history;
    RequestPool.StartedSinceIs(p.history, c.resource.pool.history, Repeat(item, k));
    return Ok(c);
  }

  /** `SUTServer::WarmUp`: the server warm-up flag is set first; `batch_size`
      copies of sample 0 (response id 1) are loaded and fetched as one item,
      which is submitted `iterations` times; then the samples are unloaded
      and the backend reset waits for every request, clears the pool and
      unsets the flag. No completion during the warm-up reaches the
      harness. */
  method ServerWarmUp(s: Sut, answers: seq<RequestPool.Completion>) returns (r: Result<Sut>)
    requires Valid(s) && s.kind == Server
    requires forall k :: 0 <= k < |answers| ==> PostProcess.AllConsistent(answers[k].outs)
    ensures r.Ok? ==> Valid(r.value) && r.value.kind == Server
    ensures r.Ok? ==>
      var p := PoolOf(s);
      var q := PoolOf(r.value);
      && r.value.reported == s.reported && r.value.items == s.items && r.value.item == s.item
      && q.reported == p.reported && !q.warmup && q.responses == []
      && |p.history| <= |q.history| && q.history[..|p.history|] == p.history
      && |RequestPool.StartedSince(p.history, q.history)| == |answers|
      && forall it <- RequestPool.StartedSince(p.history, q.history) :: it.responseIds == Repeat(1, s.batch) && it.sampleIdxs == Repeat(0, s.batch)
  {
    var b := Backend.SetServerWarmup(s.backend, true).value;
    var samples := Repeat(0, s.batch);
    var ids := Repeat(1, s.batch);
    var loaded :- LoadSamples(s.library, samples);
    var item :- GetSample(loaded, samples, ids);
    b :- ServerSubmitEach(b, item, answers);
    var unloaded :- UnloadSamples(loaded);
    var c :- Backend.Reset(b);
    assert c.resource.pool.history == b.resource.pool.history;
    return Ok(s.(library := unloaded, backend := c));
  }
}
