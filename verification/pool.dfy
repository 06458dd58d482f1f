/** The inference-request pools of src/infer_request_wrap.h: a fixed set of
    request slots, a FIFO of idle slot ids, the exception a completion
    callback recorded, per-slot result buffers and the responses built from
    them.

    Every mutation in the program happens under the pool's mutex, so each
    operation is modelled as one atomic step. The device is outside the
    model: when a request is started, the caller supplies what the device
    will answer for it (its outputs and an optional exception), and the
    request joins a FIFO of running requests. A call that would block
    completes the oldest running request and tries again, which is one of
    the interleavings the threaded program allows; with nothing running
    the wait can never end, which the model reports as `Deadlock`. */
module RequestPool {
  import opened Wrappers
  import opened Items
  import opened Responses
  import opened Workloads
  import TopK
  import PostProcess

  /** `InferRequestsQueue` (closed loop: responses collected by `wait_all`)
      or `InferRequestsQueueServer` (each completion reports at once). */
  datatype Kind = ClosedLoop | ServerQueue

  /** An `InferReqWrap`: the item bound by the last `set_inputs` and the
      buffers the post-processor appends to. Its id is its position. */
  datatype Slot = Slot(input: Item, buffers: Buffers)

  const FreshSlot := Slot(EmptyItem(), NoBuffers)

  /** What the device answers for a started request: the output tensors,
      and the exception the completion callback receives, if any. */
  datatype Completion = Completion(outs: PostProcess.Outputs, fault: Option<Fault>)

  /** A started request that has not completed yet. */
  datatype Running = Running(id: nat, completion: Completion)

  /** A `start_async` call: which request ran which item. */
  datatype Started = Started(id: nat, item: Item)

  datatype Pool = Pool(
    kind: Kind,
    workload: WorkloadName,
    batch: nat,
    slots: seq<Slot>,
    idle: seq<nat>,
    running: seq<Running>,
    fault: Option<Fault>,
    responses: seq<Response>,
    warmup: bool,
    history: seq<Started>,
    reported: seq<seq<Response>>)

  // ---------------------------------------------------------- history

  /** The items a pool started between two states of its history, in
      order. */
  function StartedSince(before: seq<Started>, after: seq<Started>): (items: seq<Item>)
    requires |before| <= |after|
    ensures |items| == |after| - |before|
    ensures forall j :: 0 <= j < |items| ==> items[j] == after[|before| + j].item
  {
    seq(|after| - |before|, j requires 0 <= j < |after| - |before| => after[|before| + j].item)
  }

  /** Two histories that differ by `items` started in order. */
  lemma {:induction false} StartedSinceIs(before: seq<Started>, after: seq<Started>, items: seq<Item>)
    requires |after| == |before| + |items|
    requires forall j :: 0 <= j < |items| ==> after[|before| + j].item == items[j]
    ensures StartedSince(before, after) == items
  {
  }

  /** The history entries of starting request `ids[j]` on `items[j]`, in order. */
  function Starts(ids: seq<nat>, items: seq<Item>): (h: seq<Started>)
    requires |ids| == |items|
    ensures |h| == |items|
    ensures forall j :: 0 <= j < |items| ==> h[j] == Started(ids[j], items[j])
  {
    seq(|items|, j requires 0 <= j < |items| => Started(ids[j], items[j]))
  }

  lemma {:induction false} StartsCons(id: nat, ids: seq<nat>, items: seq<Item>)
    requires |items| == |ids| + 1
    ensures Starts([id] + ids, items) == [Started(id, items[0])] + Starts(ids, items[1..])
  {
    var lhs := Starts([id] + ids, items);
    var rhs := [Started(id, items[0])] + Starts(ids, items[1..]);
    forall j | 0 <= j < |items|
      ensures lhs[j] == rhs[j]
    {
      if j > 0 {
        assert ([id] + ids)[j] == ids[j - 1];
        assert items[1..][j - 1] == items[j];
      }
    }
  }

  /** A history extended by starting `items` started exactly `items`. */
  lemma {:induction false} StartedSinceStarts(h: seq<Started>, ids: seq<nat>, items: seq<Item>)
    requires |ids| == |items|
    ensures StartedSince(h, h + Starts(ids, items)) == items
  {
    var after := h + Starts(ids, items);
    forall j | 0 <= j < |items|
      ensures after[|h| + j].item == items[j]
    {
      assert after[|h| + j] == Starts(ids, items)[j];
    }
    StartedSinceIs(h, after, items);
  }

  // ------------------------------------------------------------ slots

  /** `InferReqWrap::set_inputs(Item)`: binds the item and hands tensor i to
      input i for every input name; an item with fewer tensors than the
      network has inputs is read past its end. */
  function SetInputs(s: Slot, item: Item, inputNames: seq<string>): (r: Result<Slot>)
    ensures r.Ok? <==> |inputNames| <= |item.tensors|
    ensures r.Err? ==> r.error == Unchecked
    ensures r.Ok? ==> r.value.buffers == s.buffers
  {
    if |item.tensors| < |inputNames| then Err(Unchecked) else Ok(s.(input := item))
  }

  /** `InferReqWrap::get_batch_size`: the bound item's sample count. */
  function BatchSizeOf(s: Slot): nat
  {
    |s.input.sampleIdxs|
  }

  /** After binding an item, the request's batch size is that item's
      number of sample indices, whatever was bound before. */
  lemma {:induction false} SetInputsBatchSize(s: Slot, item: Item, inputNames: seq<string>)
    requires |inputNames| <= |item.tensors|
    ensures SetInputs(s, item, inputNames).Ok?
    ensures BatchSizeOf(SetInputs(s, item, inputNames).value) == |item.sampleIdxs|
    ensures SetInputs(s, item, inputNames).value.input == item
  {
  }

  /** `InferReqWrap::reset`: the three buffers (and the response scratch
      list) emptied; the bound item stays. */
  function ResetSlot(s: Slot): (r: Slot)
    ensures r.input == s.input && r.buffers == NoBuffers
    ensures WellFormed(r.buffers)
  {
    Slot(s.input, NoBuffers)
  }

  // ------------------------------------------------------- invariant

  function RunningIds(rs: seq<Running>): (ids: seq<nat>)
    ensures |ids| == |rs| && forall i :: 0 <= i < |rs| ==> ids[i] == rs[i].id
  {
    seq(|rs|, i requires 0 <= i < |rs| => rs[i].id)
  }

  /** The ids the pool knows the whereabouts of: idle ones, then running ones. */
  function Tracked(p: Pool): seq<nat>
  {
    p.idle + RunningIds(p.running)
  }

  /** Idle and running ids are slot ids and no id is in two places; every
      slot's buffers pair ids with counts; every pending answer is a
      consistent set of tensors. */
  predicate Valid(p: Pool)
  {
    && (forall i :: 0 <= i < |Tracked(p)| ==> Tracked(p)[i] < |p.slots|)
    && TopK.Distinct(Tracked(p))
    && (forall i :: 0 <= i < |p.slots| ==> WellFormed(p.slots[i].buffers))
    && (forall i :: 0 <= i < |p.running| ==> PostProcess.AllConsistent(p.running[i].completion.outs))
  }

  /** A slot the caller holds: acquired, neither idle nor running. */
  predicate Held(p: Pool, id: nat)
  {
    id < |p.slots| && id !in p.idle && id !in RunningIds(p.running)
  }

  /** What a completion never touches. */
  predicate SameSetup(p: Pool, q: Pool)
  {
    && q.kind == p.kind && q.workload == p.workload && q.batch == p.batch
    && |q.slots| == |p.slots| && q.responses == p.responses
    && q.warmup == p.warmup && q.history == p.history
  }

  // ------------------------------------------------------ pigeonhole

  /** The elements of a sequence, as a set. */
  function Elems(s: seq<nat>): (r: set<nat>)
    ensures forall x :: x in r <==> x in s
  {
    if |s| == 0 then {} else Elems(s[..|s| - 1]) + {s[|s| - 1]}
  }

  lemma {:induction false} DistinctCard(s: seq<nat>)
    requires TopK.Distinct(s)
    ensures |Elems(s)| == |s|
  {
    if |s| > 0 {
      var front := s[..|s| - 1];
      var last := s[|s| - 1];
      assert TopK.Distinct(front);
      DistinctCard(front);
      assert forall i :: 0 <= i < |front| ==> front[i] != last;
      assert last !in Elems(front);
    }
  }

  lemma {:induction false} HeadNotInTail(s: seq<nat>)
    requires TopK.Distinct(s) && |s| > 0
    ensures s[0] !in s[1..] && TopK.Distinct(s[1..])
  {
    assert forall i :: 0 <= i < |s| - 1 ==> s[1..][i] == s[i + 1];
  }

  /** Distinct ids below n number at most n, and exactly n of them are all
      of 0 .. n-1. */
  lemma {:induction false} Pigeonhole(s: seq<nat>, n: nat)
    requires TopK.Distinct(s) && forall i :: 0 <= i < |s| ==> s[i] < n
    ensures |s| <= n
    ensures |s| == n ==> forall k :: 0 <= k < n ==> k in s
  {
    var ids := TopK.Range(n);
    var inS := Elems(s);
    var below := Elems(ids);
    assert TopK.Distinct(ids);
    DistinctCard(s);
    DistinctCard(ids);
    forall x | x in inS
      ensures x in below
    {
      assert ids[x] == x;
    }
    assert below == inS + (below - inS);
    if |s| == n {
      forall k | 0 <= k < n
        ensures k in s
      {
        assert ids[k] == k;
        assert k in ids && k in below;
      }
    }
  }

  /** The pool never tracks more ids than it has requests: idle ids never
      exceed N, and N idle ids mean every request is idle and none runs. */
  lemma {:induction false} TrackedBound(p: Pool)
    requires Valid(p)
    ensures |p.idle| + |p.running| <= |p.slots|
    ensures |p.idle| == |p.slots| ==> p.running == [] && forall k :: 0 <= k < |p.slots| ==> k in p.idle
  {
    Pigeonhole(Tracked(p), |p.slots|);
    if |p.idle| == |p.slots| {
      assert Tracked(p)[..|p.idle|] == p.idle;
      assert |Tracked(p)| == |p.slots|;
      forall k | 0 <= k < |p.slots|
        ensures k in p.idle
      {
        assert k in Tracked(p);
        var i :| 0 <= i < |Tracked(p)| && Tracked(p)[i] == k;
        assert Tracked(p)[i] == p.idle[i];
      }
    }
  }

  // ------------------------------------------------------- operations

  /** The constructor of either pool: request `id` for every id below
      `nireq`, each pushed onto the idle queue in ascending order. */
  function NewPool(kind: Kind, workload: WorkloadName, nireq: nat, batch: nat): (p: Pool)
    ensures Valid(p)
    ensures |p.slots| == nireq && forall i :: 0 <= i < nireq ==> p.slots[i] == FreshSlot
    ensures |p.idle| == nireq && forall i :: 0 <= i < nireq ==> p.idle[i] == i
    ensures p.running == [] && p.fault == None && p.responses == [] && !p.warmup
    ensures p.history == [] && p.reported == []
  {
    Pool(kind, workload, batch, Repeat(FreshSlot, nireq), TopK.Range(nireq), [], None, [], false, [], [])
  }

  /** The completion callback (`put_idle_request`) for the oldest running
      request. The post-processor runs first, whether or not the request
      failed. The closed-loop pool keeps the grown buffers; the server pool
      turns them into responses, reports them unless warming up, and
      clears the slot. Only then is the exception looked at: a failed
      request's exception replaces any recorded one and its id is not
      re-queued; a successful request's id goes to the back of the queue.
      An exception the post-processor throws (a missing output tensor, a
      failed assertion) leaves the callback before any of that: it reaches
      the runtime's callback thread, not a waiter, so nothing is reported
      or recorded, the id is not re-queued and the request is lost to the
      pool. Undefined behaviour in the post-processor ends the model. */
  function Complete(p: Pool): (r: Result<Pool>)
    requires Valid(p) && |p.running| > 0
    ensures var run := p.running[0];
      var slot := p.slots[run.id];
      var pp := PostProcess.PostProcess(p.workload, slot.input, run.completion.outs, p.batch, slot.buffers);
      && (r.Err? <==> pp.Err? && !pp.error.IsException())
      && (r.Err? ==> r.error == pp.error)
      && (r.Ok? ==> Valid(r.value) && SameSetup(p, r.value) && r.value.running == p.running[1..])
      && (pp.Err? && pp.error.IsException() ==>
        && r == Ok(p.(running := p.running[1..]))
        && run.id !in Tracked(r.value))
      && (pp.Ok? ==>
        && r.Ok?
        && (run.completion.fault.Some? ==> r.value.fault == run.completion.fault && r.value.idle == p.idle)
        && (run.completion.fault.None? ==> r.value.fault == p.fault && r.value.idle == p.idle + [run.id])
        && (p.kind == ClosedLoop ==>
             r.value.slots == p.slots[run.id := Slot(slot.input, pp.value)] && r.value.reported == p.reported)
        && (p.kind == ServerQueue ==>
             && r.value.slots == p.slots[run.id := Slot(slot.input, NoBuffers)]
             && r.value.reported == p.reported + (if p.warmup then [] else [Windows(pp.value, Request(run.id))])))
  {
    var run := p.running[0];
    assert Tracked(p)[|p.idle|] == run.id;
    var slot := p.slots[run.id];
    assert PostProcess.AllConsistent(run.completion.outs);
    match PostProcess.PostProcess(p.workload, slot.input, run.completion.outs, p.batch, slot.buffers)
    case Err(e) =>
      if e.IsException() then
        LoseFirstRunning(p);
        Ok(p.(running := p.running[1..]))
      else Err(e)
    case Ok(grown) =>
      var kept := if p.kind == ClosedLoop then grown else NoBuffers;
      var reported := if p.kind == ClosedLoop || p.warmup then p.reported else p.reported + [Windows(grown, Request(run.id))];
      Ok(Settle(p, p.slots[run.id := Slot(slot.input, kept)], reported))
  }

  /** Dropping the oldest running request without re-queueing it keeps the
      pool valid, and its id is then tracked nowhere. */
  lemma {:induction false} LoseFirstRunning(p: Pool)
    requires Valid(p) && |p.running| > 0
    ensures Valid(p.(running := p.running[1..]))
    ensures p.running[0].id !in Tracked(p.(running := p.running[1..]))
  {
    var q := p.(running := p.running[1..]);
    assert RunningIds(p.running[1..]) == RunningIds(p.running)[1..];
    assert Tracked(q) == p.idle + RunningIds(p.running)[1..];
    assert forall i :: 0 <= i < |Tracked(q)| ==> Tracked(q)[i] == Tracked(p)[if i < |p.idle| then i else i + 1];
    assert forall i :: 0 <= i < |q.running| ==> q.running[i] == p.running[i + 1];
    DropFirstRunning(p.idle, RunningIds(p.running));
    assert p.running[0].id == Tracked(p)[|p.idle|];
    forall i | 0 <= i < |Tracked(q)|
      ensures Tracked(q)[i] != p.running[0].id
    {
      var i' := if i < |p.idle| then i else i + 1;
      assert Tracked(q)[i] == Tracked(p)[i'] && i' != |p.idle|;
    }
  }

  /** The rest of the callback once the slot's buffers and the report are
      settled: the exception check under the lock. */
  function Settle(p: Pool, slots: seq<Slot>, reported: seq<seq<Response>>): (r: Pool)
    requires Valid(p) && |p.running| > 0 && |slots| == |p.slots|
    requires forall i :: 0 <= i < |slots| ==> WellFormed(slots[i].buffers)
    ensures Valid(r) && SameSetup(p, r)
    ensures r.slots == slots && r.reported == reported && r.running == p.running[1..]
    ensures var run := p.running[0];
      && (run.completion.fault.Some? ==> r.fault == run.completion.fault && r.idle == p.idle)
      && (run.completion.fault.None? ==> r.fault == p.fault && r.idle == p.idle + [run.id])
  {
    var run := p.running[0];
    assert Tracked(p)[|p.idle|] == run.id;
    var q := p.(slots := slots, reported := reported, running := p.running[1..]);
    assert RunningIds(p.running[1..]) == RunningIds(p.running)[1..];
    assert Tracked(q) == p.idle + RunningIds(p.running)[1..];
    assert forall i :: 0 <= i < |Tracked(q)| ==> Tracked(q)[i] == Tracked(p)[if i < |p.idle| then i else i + 1];
    assert forall i :: 0 <= i < |q.running| ==> q.running[i] == p.running[i + 1];
    DropFirstRunning(p.idle, RunningIds(p.running));
    if run.completion.fault.Some? then
      q.(fault := run.completion.fault)
    else
      assert Tracked(q.(idle := q.idle + [run.id])) == p.idle + [run.id] + RunningIds(p.running)[1..];
      RequeueSame(p.idle, RunningIds(p.running));
      q.(idle := q.idle + [run.id])
  }

  /** Forgetting the first running id keeps the rest distinct. */
  lemma {:induction false} DropFirstRunning(idle: seq<nat>, run: seq<nat>)
    requires |run| > 0 && TopK.Distinct(idle + run)
    ensures TopK.Distinct(idle + run[1..])
  {
    var a := idle + run;
    var b := idle + run[1..];
    forall i, j | 0 <= i < j < |b|
      ensures b[i] != b[j]
    {
      var i' := if i < |idle| then i else i + 1;
      var j' := if j < |idle| then j else j + 1;
      assert b[i] == a[i'] && b[j] == a[j'];
    }
  }

  /** Moving the first running id to the back of the idle ids leaves the
      tracked ids as they were. */
  lemma {:induction false} RequeueSame(idle: seq<nat>, run: seq<nat>)
    requires |run| > 0
    ensures idle + [run[0]] + run[1..] == idle + run
  {
    var a := idle + run;
    var b := idle + [run[0]] + run[1..];
    assert |a| == |b|;
    assert forall i :: 0 <= i < |b| ==> b[i] == a[i];
    assert a == b;
  }

  datatype Acquired = Acquired(id: nat, pool: Pool)

  /** `get_idle_request`: a recorded exception is rethrown; otherwise the
      front of the idle queue is removed and returned. With the queue empty
      the call waits for a completion. */
  function Acquire(p: Pool): (r: Result<Acquired>)
    requires Valid(p)
    ensures p.fault.Some? ==> r == Err(Rethrown(p.fault.value))
    ensures p.fault.None? && |p.idle| > 0 ==> r == Ok(Acquired(p.idle[0], p.(idle := p.idle[1..])))
    ensures r.Ok? ==>
      && Valid(r.value.pool) && SameSetup(p, r.value.pool) && r.value.pool.fault.None?
      && Held(r.value.pool, r.value.id)
    ensures r.Ok? && (p.warmup || p.kind == ClosedLoop) ==> r.value.pool.reported == p.reported
    ensures r.Err? && r.error.Rethrown? ==> r.error.fault in FaultsSeen(p)
    decreases |p.running|
  {
    if p.fault.Some? then Err(Rethrown(p.fault.value))
    else if |p.idle| > 0 then
      TakeIdle(p);
      Ok(Acquired(p.idle[0], p.(idle := p.idle[1..])))
    else if |p.running| > 0 then
      var q :- Complete(p);
      FaultsSeenAfterComplete(p, q);
      SilentCompletion(p, q);
      Acquire(q)
    else Err(Deadlock)
  }

  /** Taking the front idle id keeps the pool valid and hands the caller
      a request that is neither idle nor running. */
  lemma {:induction false} TakeIdle(p: Pool)
    requires Valid(p) && |p.idle| > 0
    ensures Valid(p.(idle := p.idle[1..])) && Held(p.(idle := p.idle[1..]), p.idle[0])
  {
    var q := p.(idle := p.idle[1..]);
    assert Tracked(q) == Tracked(p)[1..];
    assert p.idle[0] == Tracked(p)[0];
    HeadNotInTail(Tracked(p));
  }

  /** A completion reports nothing in a closed-loop pool or while the
      server pool warms up. */
  lemma {:induction false} SilentCompletion(p: Pool, q: Pool)
    requires Valid(p) && |p.running| > 0 && Complete(p) == Ok(q)
    ensures q.warmup == p.warmup && q.kind == p.kind
    ensures p.warmup || p.kind == ClosedLoop ==> q.reported == p.reported
  {
  }

  /** The recorded exception and every one a running request will raise. */
  function FaultsSeen(p: Pool): set<Fault>
  {
    (if p.fault.Some? then {p.fault.value} else {})
      + set i | 0 <= i < |p.running| && p.running[i].completion.fault.Some? :: p.running[i].completion.fault.value
  }

  lemma {:induction false} FaultsSeenAfterComplete(p: Pool, q: Pool)
    requires Valid(p) && |p.running| > 0 && Complete(p) == Ok(q)
    ensures FaultsSeen(q) <= FaultsSeen(p)
  {
    forall i | 0 <= i < |q.running| && q.running[i].completion.fault.Some?
      ensures q.running[i].completion.fault.value in FaultsSeen(p)
    {
      assert q.running[i] == p.running[i + 1];
    }
    if p.running[0].completion.fault.Some? {
      assert p.running[0].completion.fault.value in FaultsSeen(p);
    }
  }

  /** `set_inputs` then `start_async` on a request the caller holds: the
      item is bound and the request starts running with the device's
      answer queued behind the others. */
  function Start(p: Pool, id: nat, item: Item, answer: Completion): (r: Result<Pool>)
    requires Valid(p) && Held(p, id) && PostProcess.AllConsistent(answer.outs)
    ensures r.Err? <==> |item.tensors| < |WorkloadOf(p.workload).inputNames|
    ensures r.Err? ==> r.error == Unchecked
    ensures r.Ok? ==>
      && Valid(r.value) && |r.value.slots| == |p.slots|
      && r.value.slots[id].input == item && BatchSizeOf(r.value.slots[id]) == |item.sampleIdxs|
      && r.value.slots[id].buffers == p.slots[id].buffers
      && r.value.running == p.running + [Running(id, answer)]
      && r.value.history == p.history + [Started(id, item)]
      && r.value.idle == p.idle && r.value.fault == p.fault && r.value.reported == p.reported
      && r.value.responses == p.responses
      && r.value.kind == p.kind && r.value.workload == p.workload && r.value.batch == p.batch
      && r.value.warmup == p.warmup
  {
    var slot :- SetInputs(p.slots[id], item, WorkloadOf(p.workload).inputNames);
    var q := p.(slots := p.slots[id := slot], running := p.running + [Running(id, answer)],
                history := p.history + [Started(id, item)]);
    assert Tracked(q) == Tracked(p) + [id];
    Ok(q)
  }

  /** How many responses the first `n` slots' counts ask for. */
  function CountTotal(slots: seq<Slot>, n: nat): nat
    requires n <= |slots|
  {
    if n == 0 then 0 else CountTotal(slots, n - 1) + |slots[n - 1].buffers.counts|
  }

  /** The `wait_all` loop: for each slot in id order, one response per
      recorded count, each a window into that slot's results. */
  function SlotWindows(slots: seq<Slot>, n: nat): (rs: seq<Response>)
    requires n <= |slots|
    requires forall i :: 0 <= i < |slots| ==> WellFormed(slots[i].buffers)
    ensures |rs| == CountTotal(slots, n)
  {
    if n == 0 then [] else SlotWindows(slots, n - 1) + Windows(slots[n - 1].buffers, Request(n - 1))
  }

  /** Responses are ordered by slot id, then by position in the slot's
      counts: response k of slot i sits after all responses of the slots
      before it, carries the slot's id k, starts at the sum of the slot's
      earlier counts and is 4 * count k bytes long. */
  lemma {:induction false} SlotWindowsAt(slots: seq<Slot>, n: nat, i: nat, k: nat)
    requires n <= |slots| && forall j :: 0 <= j < |slots| ==> WellFormed(slots[j].buffers)
    requires i < n && k < |slots[i].buffers.counts|
    ensures CountTotal(slots, i) + k < CountTotal(slots, n)
    ensures var b := slots[i].buffers;
      SlotWindows(slots, n)[CountTotal(slots, i) + k]
        == Response(b.responseIds[k], Request(i), Sum(b.counts[..k]), FloatBytes * b.counts[k])
  {
    if i < n - 1 {
      SlotWindowsAt(slots, n - 1, i, k);
      CountTotalMono(slots, i + 1, n - 1);
    }
  }

  lemma {:induction false} CountTotalMono(slots: seq<Slot>, m: nat, n: nat)
    requires m <= n <= |slots|
    ensures CountTotal(slots, m) <= CountTotal(slots, n)
    decreases n - m
  {
    if m < n {
      CountTotalMono(slots, m, n - 1);
    }
  }

  /** Every id below N is idle. */
  predicate AllIdle(p: Pool)
  {
    forall k :: 0 <= k < |p.slots| ==> k in p.idle
  }

  /** `wait_all`: a recorded exception is rethrown; otherwise it waits
      until all N requests are idle. The closed-loop pool then appends the
      responses of every slot's buffers to its list, without clearing
      either; the server pool only waits. */
  function WaitAll(p: Pool): (r: Result<Pool>)
    requires Valid(p)
    ensures p.fault.Some? ==> r == Err(Rethrown(p.fault.value))
    ensures r.Ok? ==>
      && Valid(r.value) && r.value.fault.None? && r.value.running == [] && AllIdle(r.value)
      && r.value.kind == p.kind && r.value.workload == p.workload && r.value.batch == p.batch
      && |r.value.slots| == |p.slots| && r.value.warmup == p.warmup && r.value.history == p.history
      && r.value.responses == p.responses
           + (if p.kind == ClosedLoop then SlotWindows(r.value.slots, |r.value.slots|) else [])
    ensures r.Ok? && (p.warmup || p.kind == ClosedLoop) ==> r.value.reported == p.reported
    ensures r.Err? && r.error.Rethrown? ==> r.error.fault in FaultsSeen(p)
    decreases |p.running|
  {
    if p.fault.Some? then Err(Rethrown(p.fault.value))
    else if |p.idle| == |p.slots| then
      TrackedBound(p);
      Ok(if p.kind == ClosedLoop then p.(responses := p.responses + SlotWindows(p.slots, |p.slots|)) else p)
    else if |p.running| > 0 then
      var q :- Complete(p);
      FaultsSeenAfterComplete(p, q);
      WaitAll(q)
    else Err(Deadlock)
  }

  /** Either pool's `reset`: the response list and every slot's buffers
      emptied. The idle queue, the running requests and the recorded
      exception are left as they are. */
  function Reset(p: Pool): (r: Pool)
    ensures r.responses == [] && |r.slots| == |p.slots|
    ensures forall i :: 0 <= i < |p.slots| ==> r.slots[i] == ResetSlot(p.slots[i])
    ensures r.fault == p.fault && r.idle == p.idle && r.running == p.running
    ensures r.kind == p.kind && r.workload == p.workload && r.batch == p.batch
    ensures r.warmup == p.warmup && r.history == p.history && r.reported == p.reported
    ensures Valid(p) ==> Valid(r)
  {
    p.(responses := [], slots := seq(|p.slots|, i requires 0 <= i < |p.slots| => ResetSlot(p.slots[i])))
  }

  /** `InferRequestsQueueServer::set_warmup`. */
  function SetWarmup(p: Pool, warmup: bool): (r: Pool)
    ensures r == p.(warmup := warmup)
    ensures Valid(p) ==> Valid(r)
  {
    p.(warmup := warmup)
  }

  /** `warmup_put_idle_req`: the id goes to the back of the idle queue,
      unchecked. */
  function WarmupPutIdle(p: Pool, id: nat): (r: Pool)
    ensures r.idle == p.idle + [id]
    ensures r == p.(idle := p.idle + [id])
  {
    p.(idle := p.idle + [id])
  }

  /** Returning a held request keeps the pool valid; returning one that is
      already idle would queue its id twice. */
  lemma {:induction false} WarmupPutIdleValid(p: Pool, id: nat)
    requires Valid(p)
    ensures Held(p, id) ==> Valid(WarmupPutIdle(p, id))
    ensures id in p.idle ==> !Valid(WarmupPutIdle(p, id))
  {
    var q := WarmupPutIdle(p, id);
    if Held(p, id) {
      assert Tracked(q) == p.idle + [id] + RunningIds(p.running);
      forall i, j | 0 <= i < j < |Tracked(q)|
        ensures Tracked(q)[i] != Tracked(q)[j]
      {
        if i == |p.idle| || j == |p.idle| {
          var other := if i == |p.idle| then j else i;
          assert Tracked(q)[other] in p.idle || Tracked(q)[other] in RunningIds(p.running);
        } else {
          var i' := if i < |p.idle| then i else i - 1;
          var j' := if j < |p.idle| then j else j - 1;
          assert Tracked(q)[i] == Tracked(p)[i'] && Tracked(q)[j] == Tracked(p)[j'];
        }
      }
      forall i | 0 <= i < |Tracked(q)|
        ensures Tracked(q)[i] < |q.slots|
      {
        if i != |p.idle| {
          assert Tracked(q)[i] == Tracked(p)[if i < |p.idle| then i else i - 1];
        }
      }
    }
    if id in p.idle {
      var i :| 0 <= i < |p.idle| && p.idle[i] == id;
      assert q.idle[i] == id && q.idle[|p.idle|] == id;
      assert Tracked(q)[i] == q.idle[i] && Tracked(q)[|p.idle|] == q.idle[|p.idle|];
      assert !TopK.Distinct(Tracked(q));
    }
  }

  // -------------------------------------------------------- properties

  /** Once an exception is recorded, acquiring and waiting rethrow it,
      and resetting the pool does not clear it. */
  lemma {:induction false} FaultIsSticky(p: Pool)
    requires Valid(p) && p.fault.Some?
    ensures Acquire(p) == Err(Rethrown(p.fault.value))
    ensures WaitAll(p) == Err(Rethrown(p.fault.value))
    ensures Reset(p).fault == p.fault
    ensures Acquire(Reset(p)) == Err(Rethrown(p.fault.value))
    ensures WaitAll(Reset(p)) == Err(Rethrown(p.fault.value))
  {
  }

  /** A request whose outputs the post-processor cannot read is lost: if it
      is the only one running, `wait_all` waits for an idle queue that can
      never fill again, and an empty idle queue makes acquiring wait
      forever too. */
  lemma {:induction false} LostRequestHangs(p: Pool)
    requires Valid(p) && p.fault.None? && |p.running| == 1
    requires p.running[0].completion.outs == map[]
    ensures WaitAll(p) == Err(Deadlock)
    ensures p.idle == [] ==> Acquire(p) == Err(Deadlock)
  {
    TrackedBound(p);
    var q := p.(running := []);
    assert p.running[1..] == [];
    assert Complete(p) == Ok(q);
    assert |q.idle| != |q.slots|;
  }

  /** Two acquisitions with no completion between them hand out two
      different requests. */
  lemma {:induction false} AcquireTwiceDistinct(p: Pool)
    requires Valid(p) && p.fault.None? && |p.idle| >= 2
    ensures var a := Acquire(p);
      && a.Ok? && Acquire(a.value.pool).Ok?
      && Acquire(a.value.pool).value.id != a.value.id
  {
    var a := Acquire(p);
    assert a.value.pool.idle == p.idle[1..];
    assert p.idle[1..][0] == Tracked(p)[1];
    assert p.idle[0] == Tracked(p)[0];
  }
}
