/** The OpenVINO backend of src/backend_ov.h: the device configuration and
    request resources `load` sets up for a scenario, and the synchronous,
    closed-loop and server ways of running items. Reading and compiling the
    network is outside the model: what the compiled network reports (its
    optimal number of requests, which properties each device supports) and
    what it answers for an inference are parameters. */
module Backend {
  import opened Wrappers
  import opened Items
  import opened Responses
  import opened Workloads
  import Flags
  import Text
  import Devices
  import PostProcess
  import RequestPool
  import Seqs

  /** `OVBackendProperties`. */
  datatype Properties = Properties(
    device: string,
    nstreams: string,
    inferPrecision: string,
    nthreads: int,
    nireq: nat,
    allowAutoBatching: bool,
    extensions: string)

  const DefaultProperties := Properties("CPU", "", "", 0, 1, false, "")

  // ------------------------------------------------------ configuration

  datatype Hint = Latency | Throughput

  /** The properties `load` may put into the compile-time configuration. */
  datatype Key = AllowAutoBatching | PerformanceMode | NumStreams | InferenceNumThreads | InferencePrecision

  datatype Value = Flag(on: bool) | Mode(hint: Hint) | Count(n: int) | Named(text: string)

  type Config = map<Key, Value>

  /** `ov::AnyMap::insert`: an entry is added only when its key is absent;
      an existing entry keeps its value. */
  function Insert(cfg: Config, k: Key, v: Value): (r: Config)
    ensures r.Keys == cfg.Keys + {k}
    ensures forall key :: key in cfg ==> r[key] == cfg[key]
    ensures k !in cfg ==> r[k] == v
  {
    if k in cfg then cfg else cfg[k := v]
  }

  /** One pass of the per-device loop of `load` for device `d`: the
      performance hint by scenario; outside SingleStream, the stream count
      when the device has one and it reads as a positive number; the
      thread count for "CPU" when positive; the precision when the device
      has one. `std::stoi` failing on a stream count throws. */
  function DeviceStep(scenario: Flags.Scenario, nthreads: int, d: string,
                      nstreams: map<string, string>, precisions: map<string, string>, cfg: Config): (r: Result<Config>)
    ensures r.Err? <==> scenario != Flags.SingleStream && d in nstreams && Text.Stoi(nstreams[d]).Err?
    ensures r.Err? ==> r.error == InvalidArgument || r.error == OutOfRange
    ensures r.Ok? ==> cfg.Keys <= r.value.Keys && forall key :: key in cfg ==> r.value[key] == cfg[key]
    ensures r.Ok? ==> PerformanceMode in r.value
    ensures r.Ok? && PerformanceMode !in cfg ==>
      r.value[PerformanceMode] == Mode(if scenario == Flags.SingleStream then Latency else Throughput)
    ensures r.Ok? ==> (NumStreams in r.value <==> NumStreams in cfg || (scenario != Flags.SingleStream && d in nstreams && Text.Stoi(nstreams[d]).value > 0))
    ensures r.Ok? && NumStreams !in cfg && NumStreams in r.value ==> r.value[NumStreams].Count? && r.value[NumStreams].n > 0
    ensures r.Ok? ==> (InferenceNumThreads in r.value <==> InferenceNumThreads in cfg || (d == "CPU" && nthreads > 0))
    ensures r.Ok? && InferenceNumThreads !in cfg && InferenceNumThreads in r.value ==>
      r.value[InferenceNumThreads] == Count(nthreads)
    ensures r.Ok? ==> (InferencePrecision in r.value <==> InferencePrecision in cfg || d in precisions)
    ensures r.Ok? && NumStreams !in cfg && scenario != Flags.SingleStream && d in nstreams
            && Text.Stoi(nstreams[d]).Ok? && Text.Stoi(nstreams[d]).value > 0 ==>
      NumStreams in r.value && r.value[NumStreams] == Count(Text.Stoi(nstreams[d]).value)
  {
    var withHint := Insert(cfg, PerformanceMode, Mode(if scenario == Flags.SingleStream then Latency else Throughput));
    var withStreams :-
      if scenario != Flags.SingleStream && d in nstreams then
        var v :- Text.Stoi(nstreams[d]);
        Ok(if v > 0 then Insert(withHint, NumStreams, Count(v)) else withHint)
      else Ok(withHint);
    var withThreads := if d == "CPU" && nthreads > 0 then Insert(withStreams, InferenceNumThreads, Count(nthreads)) else withStreams;
    Ok(if d in precisions then Insert(withThreads, InferencePrecision, Named(precisions[d])) else withThreads)
  }

  /** The per-device loop of `load`, from device `devices[0]` on. */
  function DeviceEntries(scenario: Flags.Scenario, nthreads: int, devices: seq<string>,
                         nstreams: map<string, string>, precisions: map<string, string>, cfg: Config): (r: Result<Config>)
    ensures r.Err? ==> r.error == InvalidArgument || r.error == OutOfRange
    ensures r.Ok? ==> cfg.Keys <= r.value.Keys && forall key :: key in cfg ==> r.value[key] == cfg[key]
    ensures r.Ok? && |devices| > 0 ==> PerformanceMode in r.value
    ensures r.Ok? && |devices| > 0 && PerformanceMode !in cfg ==>
      r.value[PerformanceMode] == Mode(if scenario == Flags.SingleStream then Latency else Throughput)
    ensures r.Ok? && scenario == Flags.SingleStream ==> (NumStreams in r.value <==> NumStreams in cfg)
    ensures r.Ok? && NumStreams !in cfg && NumStreams in r.value ==> r.value[NumStreams].Count? && r.value[NumStreams].n > 0
    ensures r.Ok? ==>
      (InferenceNumThreads in r.value <==> InferenceNumThreads in cfg || ("CPU" in devices && nthreads > 0))
    ensures r.Ok? && InferenceNumThreads !in cfg && InferenceNumThreads in r.value ==>
      r.value[InferenceNumThreads] == Count(nthreads)
    decreases |devices|
  {
    if |devices| == 0 then Ok(cfg)
    else
      var next :- DeviceStep(scenario, nthreads, devices[0], nstreams, precisions, cfg);
      var rest :- DeviceEntries(scenario, nthreads, devices[1..], nstreams, precisions, next);
      assert "CPU" in devices <==> devices[0] == "CPU" || "CPU" in devices[1..];
      Ok(rest)
  }

  /** One turn of the device loop. */
  lemma {:induction false} EntriesUnfold(scenario: Flags.Scenario, nthreads: int, devices: seq<string>,
                      nstreams: map<string, string>, precisions: map<string, string>, cfg: Config)
    requires |devices| > 0
    ensures var next := DeviceStep(scenario, nthreads, devices[0], nstreams, precisions, cfg);
      DeviceEntries(scenario, nthreads, devices, nstreams, precisions, cfg)
        == if next.Err? then Err(next.error) else DeviceEntries(scenario, nthreads, devices[1..], nstreams, precisions, next.value)
  {
  }

  /** Entries are inserted, never overwritten: with several devices the
      first device whose stream count is positive sets the stream count for
      all of them, and a later device's count is dropped. */
  lemma {:induction false} FirstPositiveStreamCountWins(scenario: Flags.Scenario, nthreads: int, devices: seq<string>,
                                                        nstreams: map<string, string>, precisions: map<string, string>,
                                                        cfg: Config, k: nat)
    requires scenario != Flags.SingleStream && NumStreams !in cfg
    requires k < |devices| && devices[k] in nstreams
    requires Text.Stoi(nstreams[devices[k]]).Ok? && Text.Stoi(nstreams[devices[k]]).value > 0
    requires forall i :: 0 <= i < k && devices[i] in nstreams ==> Text.Stoi(nstreams[devices[i]]) == Ok(0)
    ensures var r := DeviceEntries(scenario, nthreads, devices, nstreams, precisions, cfg);
      r.Ok? ==> NumStreams in r.value && r.value[NumStreams] == Count(Text.Stoi(nstreams[devices[k]]).value)
    decreases k
  {
    EntriesUnfold(scenario, nthreads, devices, nstreams, precisions, cfg);
    var next := DeviceStep(scenario, nthreads, devices[0], nstreams, precisions, cfg);
    if next.Ok? && k == 0 {
      var r := DeviceEntries(scenario, nthreads, devices[1..], nstreams, precisions, next.value);
      assert NumStreams in next.value;
    } else if next.Ok? {
      assert devices[0] in nstreams ==> Text.Stoi(nstreams[devices[0]]) == Ok(0);
      assert NumStreams !in next.value;
      forall i | 0 <= i < k - 1 && devices[1..][i] in nstreams
        ensures Text.Stoi(nstreams[devices[1..][i]]) == Ok(0)
      {
        assert devices[1..][i] == devices[i + 1];
      }
      FirstPositiveStreamCountWins(scenario, nthreads, devices[1..], nstreams, precisions, next.value, k - 1);
    }
  }

  /** The loop in a concrete case: "CPU:2,GPU:4" in a throughput scenario
      asks for two streams. */
  lemma {:induction false} TwoDevicesTwoStreams()
    ensures var r := DeviceEntries(Flags.Offline, 0, ["CPU", "GPU"], map["CPU" := "2", "GPU" := "4"], map[], map[]);
      r.Ok? ==> r.value[NumStreams] == Count(2)
  {
    var devices := ["CPU", "GPU"];
    var ns := map["CPU" := "2", "GPU" := "4"];
    Text.StoiRoundTrip(2);
    assert Text.IntToString(2) == "2";
    FirstPositiveStreamCountWins(Flags.Offline, 0, devices, ns, map[], map[], 0);
  }

  /** The configuration `load` compiles with. The device string is split
      into devices; the stream counts and precisions are parsed per device,
      and each device they name must support the property (a `logic_error`
      otherwise); `supported` holds the (device, property) pairs the
      devices report. */
  function DeviceConfig(scenario: Flags.Scenario, props: Properties, supported: set<(string, Key)>): (r: Result<Config>)
    ensures r.Ok? ==> AllowAutoBatching in r.value && r.value[AllowAutoBatching] == Flag(props.allowAutoBatching)
    ensures r.Ok? && scenario == Flags.SingleStream ==> NumStreams !in r.value
    ensures r.Ok? && NumStreams in r.value ==> r.value[NumStreams].Count? && r.value[NumStreams].n > 0
    ensures r.Ok? && |Devices.ParseDevices(props.device)| > 0 ==>
      PerformanceMode in r.value && r.value[PerformanceMode] == Mode(if scenario == Flags.SingleStream then Latency else Throughput)
    ensures r.Ok? ==> (InferenceNumThreads in r.value <==> "CPU" in Devices.ParseDevices(props.device) && props.nthreads > 0)
    ensures r.Ok? ==>
      var ns := Devices.ParseValuePerDevice(Devices.ParseDevices(props.device), props.nstreams);
      ns.Ok? && forall d :: d in ns.value ==> (d, NumStreams) in supported
  {
    var devices := Devices.ParseDevices(props.device);
    var nstreams :- Devices.ParseValuePerDevice(devices, props.nstreams);
    var _ :- Supports(nstreams.Keys, NumStreams, supported);
    var precisions :- Devices.ParseValuePerDevice(devices, props.inferPrecision);
    var _ :- Supports(precisions.Keys, InferencePrecision, supported);
    DeviceEntries(scenario, props.nthreads, devices, nstreams, precisions, map[AllowAutoBatching := Flag(props.allowAutoBatching)])
  }

  /** The `check_device_supports` loop over one parsed map. */
  function Supports(devices: set<string>, k: Key, supported: set<(string, Key)>): (r: Result<bool>)
    ensures r.Ok? <==> forall d :: d in devices ==> (d, k) in supported
    ensures r.Err? ==> r.error == LogicError
  {
    if forall d :: d in devices ==> (d, k) in supported then Ok(true) else Err(LogicError)
  }

  // ---------------------------------------------------------- resources

  /** What `load` creates for the scenario: one synchronous request for
      SingleStream, the closed-loop pool for Offline and MultiStream, the
      server pool for Server. */
  datatype Resource = Single(slot: RequestPool.Slot) | Queue(pool: RequestPool.Pool)

  datatype Backend = Backend(
    scenario: Flags.Scenario,
    workload: WorkloadName,
    batch: nat,
    nireq: nat,
    config: Config,
    resource: Resource)

  /** The resource matches the scenario, and a pool is valid. */
  predicate Ready(b: Backend)
  {
    match b.scenario
    case SingleStream => b.resource.Single?
    case Offline => b.resource.Queue? && b.resource.pool.kind == RequestPool.ClosedLoop && RequestPool.Valid(b.resource.pool)
    case MultiStream => b.resource.Queue? && b.resource.pool.kind == RequestPool.ClosedLoop && RequestPool.Valid(b.resource.pool)
    case Server => b.resource.Queue? && b.resource.pool.kind == RequestPool.ServerQueue && RequestPool.Valid(b.resource.pool)
  }

  /** `load`: the configuration, then the number of requests (the compiled
      network's optimal number when it reports one, the configured number
      otherwise), then the resource for the scenario, sized by that number. */
  function Load(scenario: Flags.Scenario, workload: WorkloadName, batch: nat, props: Properties,
                supported: set<(string, Key)>, optimalRequests: Option<nat>): (r: Result<Backend>)
    ensures r.Err? <==> DeviceConfig(scenario, props, supported).Err?
    ensures r.Ok? ==>
      var b := r.value;
      && Ready(b) && b.scenario == scenario && b.workload == workload && b.batch == batch
      && b.config == DeviceConfig(scenario, props, supported).value
      && b.nireq == (if optimalRequests.Some? then optimalRequests.value else props.nireq)
      && (b.resource.Single? <==> scenario == Flags.SingleStream)
      && (b.resource.Queue? ==>
           && |b.resource.pool.slots| == b.nireq && |b.resource.pool.idle| == b.nireq
           && b.resource.pool.workload == workload && b.resource.pool.batch == batch
           && b.resource.pool.fault.None? && b.resource.pool.responses == [])
  {
    var config :- DeviceConfig(scenario, props, supported);
    var nireq := if optimalRequests.Some? then optimalRequests.value else props.nireq;
    var resource :=
      match scenario
      case SingleStream => Single(RequestPool.FreshSlot)
      case Offline => Queue(RequestPool.NewPool(RequestPool.ClosedLoop, workload, nireq, batch))
      case MultiStream => Queue(RequestPool.NewPool(RequestPool.ClosedLoop, workload, nireq, batch))
      case Server => Queue(RequestPool.NewPool(RequestPool.ServerQueue, workload, nireq, batch));
    Ok(Backend(scenario, workload, batch, nireq, config, resource))
  }

  // ------------------------------------------------------------ running

  /** An input tensor handed to the input of that name. */
  datatype Binding = Binding(name: string, tensor: Tensor)

  /** The `set_tensor` loop: input j gets tensor j; a tensor list shorter
      than the input names is read past its end. */
  function Bind(names: seq<string>, tensors: seq<Tensor>): (r: Result<seq<Binding>>)
    ensures r.Ok? <==> |names| <= |tensors|
    ensures r.Err? ==> r.error == Unchecked
    ensures r.Ok? ==> |r.value| == |names| && forall j :: 0 <= j < |names| ==> r.value[j] == Binding(names[j], tensors[j])
  {
    if |tensors| < |names| then Err(Unchecked)
    else Ok(seq(|names|, j requires 0 <= j < |names| => Binding(names[j], tensors[j])))
  }

  /** `predict`: binds the item's tensors to the network's inputs by
      position, runs the synchronous request (whose outputs are `outs`) and
      applies the post-processor with batch size 1 to the caller's buffers.
      Only SingleStream creates that request; outside it the request is
      default-constructed, and the first `set_tensor` (after reading tensor 0)
      fires OpenVINO's not-initialised assertion. */
  function Predict(b: Backend, item: Item, outs: PostProcess.Outputs, buffers: Buffers): (r: Result<Buffers>)
    requires PostProcess.AllConsistent(outs)
    ensures !b.resource.Single? ==> r == Err(if |item.tensors| == 0 then Unchecked else AssertionFailed)
    ensures b.resource.Single? && |item.tensors| < |WorkloadOf(b.workload).inputNames| ==> r == Err(Unchecked)
    ensures b.resource.Single? && |item.tensors| >= |WorkloadOf(b.workload).inputNames| ==>
      r == PostProcess.PostProcess(b.workload, item, outs, 1, buffers)
    ensures r.Ok? ==> PostProcess.Extends(buffers, r.value)
  {
    if !b.resource.Single? then Err(if |item.tensors| == 0 then Unchecked else AssertionFailed) else
    var _ :- Bind(WorkloadOf(b.workload).inputNames, item.tensors);
    PostProcess.PostProcess(b.workload, item, outs, 1, buffers)
  }

  /** `warmup`: the same as `predict`, into buffers of its own that are then
      dropped; nothing of the backend changes. */
  function Warmup(b: Backend, item: Item, outs: PostProcess.Outputs): (r: Result<Backend>)
    requires PostProcess.AllConsistent(outs)
    ensures r.Ok? <==> Predict(b, item, outs, NoBuffers).Ok?
    ensures r.Ok? ==> r.value == b
    ensures r.Err? ==> r.error == Predict(b, item, outs, NoBuffers).error
  {
    var _ :- Predict(b, item, outs, NoBuffers);
    Ok(b)
  }

  datatype Submitted = Submitted(pool: RequestPool.Pool, ids: seq<nat>)

  /** The submission loop of `predict_async`: per item, in order, one idle
      request acquired, the item bound to it and the request started. */
  function SubmitAll(p: RequestPool.Pool, items: seq<Item>, answers: seq<RequestPool.Completion>): (r: Result<Submitted>)
    requires RequestPool.Valid(p) && |answers| == |items|
    requires forall j :: 0 <= j < |answers| ==> PostProcess.AllConsistent(answers[j].outs)
    ensures p.fault.Some? && |items| > 0 ==> r == Err(Rethrown(p.fault.value))
    ensures r.Ok? ==>
      var q := r.value.pool;
      && RequestPool.Valid(q) && |r.value.ids| == |items|
      && q.kind == p.kind && q.workload == p.workload && q.batch == p.batch && |q.slots| == |p.slots|
      && q.responses == p.responses && q.warmup == p.warmup
      && q.history == p.history + RequestPool.Starts(r.value.ids, items)
    decreases |items|
  {
    if |items| == 0 then
      assert p.history + [] == p.history;
      Ok(Submitted(p, []))
    else
      var a :- RequestPool.Acquire(p);
      var q :- RequestPool.Start(a.pool, a.id, items[0], answers[0]);
      var rest :- SubmitAll(q, items[1..], answers[1..]);
      var ids := [a.id] + rest.ids;
      RequestPool.StartsCons(a.id, rest.ids, items);
      Seqs.AppendAssoc(p.history, [RequestPool.Started(a.id, items[0])], RequestPool.Starts(rest.ids, items[1..]));
      Ok(Submitted(rest.pool, ids))
  }

  /** The closed-loop pool exists (Offline and MultiStream); otherwise its
      pointer is null. */
  predicate HasClosedLoop(b: Backend)
  {
    b.scenario == Flags.Offline || b.scenario == Flags.MultiStream
  }

  /** The server pool exists (Server); otherwise its pointer is null. */
  predicate HasServerQueue(b: Backend)
  {
    b.scenario == Flags.Server
  }

  /** `predict_async`: every item submitted in order, then one `wait_all`
      after the last. On success every request is idle again and the pool's
      response list has grown by the responses of every slot's buffers.
      Without a closed-loop pool the null pointer is dereferenced. */
  function PredictAsync(b: Backend, items: seq<Item>, answers: seq<RequestPool.Completion>): (r: Result<Backend>)
    requires Ready(b)
    requires |answers| == |items| && forall j :: 0 <= j < |answers| ==> PostProcess.AllConsistent(answers[j].outs)
    ensures !HasClosedLoop(b) ==> r == Err(Unchecked)
    ensures HasClosedLoop(b) && b.resource.pool.fault.Some? ==> r == Err(Rethrown(b.resource.pool.fault.value))
    ensures r.Ok? ==> Ready(r.value) && r.value.resource.Queue? && HasClosedLoop(r.value)
    ensures r.Ok? && r.value.resource.Queue? ==>
      var p := b.resource.pool;
      var q := r.value.resource.pool;
      && r.value.scenario == b.scenario && r.value.workload == b.workload && r.value.nireq == b.nireq
      && RequestPool.AllIdle(q) && q.running == [] && q.fault.None?
      && |q.history| == |p.history| + |items| && q.history[..|p.history|] == p.history
      && RequestPool.StartedSince(p.history, q.history) == items
      && q.responses == p.responses + RequestPool.SlotWindows(q.slots, |q.slots|)
  {
    if !HasClosedLoop(b) then Err(Unchecked) else
    var p := b.resource.pool;
    var s :- SubmitAll(p, items, answers);
    var q :- RequestPool.WaitAll(s.pool);
    RequestPool.StartedSinceStarts(p.history, s.ids, items);
    Ok(b.(resource := Queue(q)))
  }

  /** `get_query_sample_responses`: the closed-loop pool's response list. */
  function QuerySampleResponses(b: Backend): (r: Result<seq<Response>>)
    requires Ready(b)
    ensures r.Ok? <==> HasClosedLoop(b)
    ensures r.Ok? ==> r.value == b.resource.pool.responses
    ensures r.Err? ==> r.error == Unchecked
  {
    if !HasClosedLoop(b) then Err(Unchecked) else Ok(b.resource.pool.responses)
  }

  /** `predict_async_server`: one idle request acquired, the item bound and
      the request started; no waiting. */
  function PredictAsyncServer(b: Backend, item: Item, answer: RequestPool.Completion): (r: Result<Backend>)
    requires Ready(b) && PostProcess.AllConsistent(answer.outs)
    ensures !HasServerQueue(b) ==> r == Err(Unchecked)
    ensures HasServerQueue(b) && b.resource.pool.fault.Some? ==> r == Err(Rethrown(b.resource.pool.fault.value))
    ensures r.Ok? ==> Ready(r.value) && r.value.resource.Queue? && HasServerQueue(r.value)
    ensures r.Ok? && r.value.resource.Queue? ==>
      var p := b.resource.pool;
      var q := r.value.resource.pool;
      && r.value.scenario == b.scenario && r.value.workload == b.workload && r.value.nireq == b.nireq
      && |q.history| == |p.history| + 1 && q.history[..|p.history|] == p.history
      && q.history[|p.history|].item == item
      && |q.running| > 0 && q.running[|q.running| - 1] == RequestPool.Running(q.history[|p.history|].id, answer)
      && q.responses == p.responses && q.warmup == p.warmup
      && (p.warmup ==> q.reported == p.reported)
  {
    if !HasServerQueue(b) then Err(Unchecked) else
    var a :- RequestPool.Acquire(b.resource.pool);
    var q :- RequestPool.Start(a.pool, a.id, item, answer);
    Ok(b.(resource := Queue(q)))
  }

  /** `reset`: Offline and MultiStream reset the closed-loop pool; Server
      waits for every request, resets the server pool and ends its warm-up;
      SingleStream does nothing. */
  function Reset(b: Backend): (r: Result<Backend>)
    requires Ready(b)
    ensures b.scenario == Flags.SingleStream ==> r == Ok(b)
    ensures (b.scenario == Flags.Offline || b.scenario == Flags.MultiStream) ==>
      r == Ok(b.(resource := Queue(RequestPool.Reset(b.resource.pool))))
    ensures b.scenario == Flags.Server ==>
      var w := RequestPool.WaitAll(b.resource.pool);
      && (r.Err? <==> w.Err?)
      && (r.Ok? ==> r.value.resource.Queue? && r.value.resource.pool == RequestPool.SetWarmup(RequestPool.Reset(w.value), false))
      && (r.Ok? && b.resource.pool.warmup ==> r.value.resource.pool.reported == b.resource.pool.reported)
    ensures r.Ok? ==> Ready(r.value) && r.value.scenario == b.scenario
    ensures r.Ok? ==> r.value.workload == b.workload && r.value.nireq == b.nireq && r.value.batch == b.batch
    ensures r.Ok? && r.value.resource.Queue? ==> r.value.resource.pool.responses == [] && !(b.scenario == Flags.Server && r.value.resource.pool.warmup)
  {
    match b.scenario
    case SingleStream => Ok(b)
    case Offline => Ok(b.(resource := Queue(RequestPool.Reset(b.resource.pool))))
    case MultiStream => Ok(b.(resource := Queue(RequestPool.Reset(b.resource.pool))))
    case Server =>
      var w :- RequestPool.WaitAll(b.resource.pool);
      Ok(b.(resource := Queue(RequestPool.SetWarmup(RequestPool.Reset(w), false))))
  }

  /** `set_server_warmup`. */
  function SetServerWarmup(b: Backend, warmup: bool): (r: Result<Backend>)
    requires Ready(b)
    ensures r.Ok? <==> HasServerQueue(b)
    ensures r.Err? ==> r.error == Unchecked
    ensures r.Ok? ==> Ready(r.value) && r.value.resource.Queue? && r.value.resource.pool == b.resource.pool.(warmup := warmup)
    ensures r.Ok? ==> r.value.scenario == b.scenario && r.value.workload == b.workload && r.value.nireq == b.nireq
  {
    if !HasServerQueue(b) then Err(Unchecked)
    else Ok(b.(resource := Queue(RequestPool.SetWarmup(b.resource.pool, warmup))))
  }
}
