/** The in-memory sample lists every dataset of src/datasets keeps, and the
    rules src/datasets/squad.h and src/datasets/image_dataset.h share for
    sizing them on the first load and for placing each loaded sample: by
    request position in Offline and MultiStream (which also records the
    sample index at that position), by sample index in SingleStream and
    Server; and the way both cut a query into batches. Accesses through
    `operator[]` are unchecked, so a position outside a list is undefined
    behaviour. */
module Placement {
  import opened Wrappers
  import opened Items
  import Flags

  /** The per-slot loaded data, plus MultiStream's `sample_list_inmemory_`. */
  datatype Memory<T> = Memory(slots: seq<T>, sampleList: seq<nat>)

  /** `std::vector::resize(n)` on a list of indices: the first `n` entries
      kept, zeros appended when it grows. */
  function Resize(s: seq<nat>, n: nat): (r: seq<nat>)
    ensures |r| == n
    ensures forall k :: 0 <= k < n ==> r[k] == if k < |s| then s[k] else 0
  {
    if n <= |s| then s[..n] else s + seq(n - |s|, _ => 0)
  }

  /** Whether slots are addressed by sample index (SingleStream, Server). */
  predicate BySample(scenario: Flags.Scenario)
  {
    scenario == Flags.SingleStream || scenario == Flags.Server
  }

  /** The number of slots the first load creates: every sample of the data
      set when slots are addressed by sample index, one per requested
      sample otherwise. */
  function FirstLoadSize(scenario: Flags.Scenario, totalCount: nat, n: nat): nat
  {
    if BySample(scenario) then totalCount else n
  }

  /** The first-load sizing: only when the slot list is empty is it resized
      (to empty slots), and in MultiStream the index list with it. */
  function Prepare<T>(m: Memory<T>, scenario: Flags.Scenario, totalCount: nat, n: nat, empty: T): (r: Memory<T>)
    ensures |m.slots| > 0 ==> r == m
    ensures |m.slots| == 0 ==>
      && |r.slots| == FirstLoadSize(scenario, totalCount, n)
      && (forall k :: 0 <= k < |r.slots| ==> r.slots[k] == empty)
      && r.sampleList == (if scenario == Flags.MultiStream then Resize(m.sampleList, n) else m.sampleList)
  {
    if |m.slots| > 0 then m
    else
      var list := if scenario == Flags.MultiStream then Resize(m.sampleList, n) else m.sampleList;
      Memory(seq(FirstLoadSize(scenario, totalCount, n), _ => empty), list)
  }

  /** The slot request `i`, asking for `sample`, is stored in. */
  function SlotOf(scenario: Flags.Scenario, i: nat, sample: nat): nat
  {
    if BySample(scenario) then sample else i
  }

  /** Every write of one placement is inside its list. */
  predicate Fits<T>(m: Memory<T>, scenario: Flags.Scenario, i: nat, sample: nat)
  {
    && SlotOf(scenario, i, sample) < |m.slots|
    && (scenario == Flags.MultiStream ==> i < |m.sampleList|)
  }

  /** Storing the data `v` of request `i`. */
  function Place<T>(m: Memory<T>, scenario: Flags.Scenario, i: nat, sample: nat, v: T): (r: Result<Memory<T>>)
    ensures r.Ok? <==> Fits(m, scenario, i, sample)
    ensures r.Err? ==> r.error == Unchecked
    ensures r.Ok? ==>
      && |r.value.slots| == |m.slots| && |r.value.sampleList| == |m.sampleList|
      && r.value.slots[SlotOf(scenario, i, sample)] == v
      && (forall k :: 0 <= k < |m.slots| && k != SlotOf(scenario, i, sample) ==> r.value.slots[k] == m.slots[k])
      && (scenario == Flags.MultiStream ==> r.value.sampleList[i] == sample)
      && (forall k :: 0 <= k < |m.sampleList| && (k != i || scenario != Flags.MultiStream) ==> r.value.sampleList[k] == m.sampleList[k])
  {
    if !Fits(m, scenario, i, sample) then Err(Unchecked)
    else
      var slots := m.slots[SlotOf(scenario, i, sample) := v];
      Ok(Memory(slots, if scenario == Flags.MultiStream then m.sampleList[i := sample] else m.sampleList))
  }

  /** No later request from `i` on asks for the same sample as request `j`. */
  predicate LastRequest(samples: seq<nat>, j: nat)
    requires j < |samples|
  {
    forall j' :: j < j' < |samples| ==> samples[j'] != samples[j]
  }

  /** The last request for the sample request `i` asks for. */
  function LastOf(samples: seq<nat>, i: nat): (j: nat)
    requires i < |samples|
    ensures i <= j < |samples| && samples[j] == samples[i]
    ensures LastRequest(samples, j)
    decreases |samples| - i
  {
    if exists j' :: i < j' < |samples| && samples[j'] == samples[i] then
      var j' :| i < j' < |samples| && samples[j'] == samples[i];
      LastOf(samples, j')
    else i
  }

  /** The load loop from request `i` on: the data of request `j` is
      `values[j]` (or the exception producing it threw), then it is placed.
      The lists keep their sizes, so whether a request fits does not depend
      on the requests before it. */
  function PlaceAll<T>(m: Memory<T>, scenario: Flags.Scenario, samples: seq<nat>, values: seq<Result<T>>, i: nat): (r: Result<Memory<T>>)
    requires |values| == |samples| && i <= |samples|
    ensures r.Err? <==> exists j :: i <= j < |samples| && (values[j].Err? || !Fits(m, scenario, j, samples[j]))
    ensures r.Err? ==> r.error == Unchecked || exists j :: i <= j < |samples| && values[j] == Err(r.error)
    ensures r.Ok? ==> |r.value.slots| == |m.slots| && |r.value.sampleList| == |m.sampleList|
    decreases |samples| - i
  {
    if i == |samples| then Ok(m)
    else if values[i].Err? then Err(values[i].error)
    else
      var m' :- Place(m, scenario, i, samples[i], values[i].value);
      PlaceAll(m', scenario, samples, values, i + 1)
  }

  /** Offline and MultiStream: slot `j` holds request `j`'s data, the other
      slots are untouched, and MultiStream records sample `j` at `j`. */
  lemma {:induction false} PlaceAllByPosition<T>(m: Memory<T>, scenario: Flags.Scenario, samples: seq<nat>, values: seq<Result<T>>, i: nat)
    requires |values| == |samples| && i <= |samples| && !BySample(scenario)
    requires PlaceAll(m, scenario, samples, values, i).Ok?
    ensures var r := PlaceAll(m, scenario, samples, values, i).value;
      && (i < |samples| ==> |samples| <= |m.slots|)
      && (forall j :: i <= j < |samples| ==> values[j].Ok? && r.slots[j] == values[j].value)
      && (forall k :: 0 <= k < |m.slots| && !(i <= k < |samples|) ==> r.slots[k] == m.slots[k])
      && (scenario == Flags.MultiStream && i < |samples| ==> |samples| <= |m.sampleList|)
      && (scenario == Flags.MultiStream ==> forall j :: i <= j < |samples| ==> r.sampleList[j] == samples[j])
      && (forall k :: 0 <= k < |m.sampleList| && !(scenario == Flags.MultiStream && i <= k < |samples|) ==> r.sampleList[k] == m.sampleList[k])
    decreases |samples| - i
  {
    if i < |samples| {
      var m' := Place(m, scenario, i, samples[i], values[i].value).value;
      PlaceAllByPosition(m', scenario, samples, values, i + 1);
      assert Fits(m, scenario, |samples| - 1, samples[|samples| - 1]);
    }
  }

  /** SingleStream and Server: the slot of a sample holds the data of the
      last request for it, slots no request names are untouched, and the
      index list is not used. */
  lemma {:induction false} PlaceAllBySample<T>(m: Memory<T>, scenario: Flags.Scenario, samples: seq<nat>, values: seq<Result<T>>, i: nat)
    requires |values| == |samples| && i <= |samples| && BySample(scenario)
    requires PlaceAll(m, scenario, samples, values, i).Ok?
    ensures var r := PlaceAll(m, scenario, samples, values, i).value;
      && (forall j :: i <= j < |samples| ==> values[j].Ok? && samples[j] < |m.slots|)
      && (forall j :: i <= j < |samples| && LastRequest(samples, j) ==> r.slots[samples[j]] == values[j].value)
      && (forall k :: 0 <= k < |m.slots| && (forall j :: i <= j < |samples| ==> samples[j] != k) ==> r.slots[k] == m.slots[k])
      && r.sampleList == m.sampleList
    decreases |samples| - i
  {
    if i < |samples| {
      var m' := Place(m, scenario, i, samples[i], values[i].value).value;
      PlaceAllBySample(m', scenario, samples, values, i + 1);
    }
  }

  /** On a first Offline or MultiStream load every request fits: the load
      succeeds exactly when every sample's data could be produced, and slot
      `i` then holds request `i`'s data. */
  lemma {:induction false} FirstLoadByPosition<T>(scenario: Flags.Scenario, totalCount: nat, samples: seq<nat>, values: seq<Result<T>>, empty: T, list: seq<nat>)
    requires !BySample(scenario) && |values| == |samples|
    ensures var r := PlaceAll(Prepare(Memory([], list), scenario, totalCount, |samples|, empty), scenario, samples, values, 0);
      && (r.Ok? <==> forall j :: 0 <= j < |samples| ==> values[j].Ok?)
      && (r.Ok? ==> |r.value.slots| == |samples| && forall j :: 0 <= j < |samples| ==> r.value.slots[j] == values[j].value)
      && (r.Ok? && scenario == Flags.MultiStream ==> r.value.sampleList == samples)
  {
    var m := Prepare(Memory([], list), scenario, totalCount, |samples|, empty);
    assert forall j :: 0 <= j < |samples| ==> Fits(m, scenario, j, samples[j]);
    if PlaceAll(m, scenario, samples, values, 0).Ok? {
      PlaceAllByPosition(m, scenario, samples, values, 0);
    }
  }

  /** On a first SingleStream or Server load the slots are the whole data
      set: the load succeeds exactly when every sample's data could be
      produced and every sample index is below `totalCount`. */
  lemma {:induction false} FirstLoadBySample<T>(scenario: Flags.Scenario, totalCount: nat, samples: seq<nat>, values: seq<Result<T>>, empty: T, list: seq<nat>)
    requires BySample(scenario) && |values| == |samples|
    ensures var r := PlaceAll(Prepare(Memory([], list), scenario, totalCount, |samples|, empty), scenario, samples, values, 0);
      && (r.Ok? <==> forall j :: 0 <= j < |samples| ==> values[j].Ok? && samples[j] < totalCount)
      && (r.Ok? ==> |r.value.slots| == totalCount && r.value.sampleList == list)
  {
    var m := Prepare(Memory([], list), scenario, totalCount, |samples|, empty);
    if PlaceAll(m, scenario, samples, values, 0).Ok? {
      PlaceAllBySample(m, scenario, samples, values, 0);
    }
  }

  // ------------------------------------------------------------ batching

  /** The first position of `x` in `list`, or `|list|` (`std::find`). */
  function Find(list: seq<nat>, x: nat): (k: nat)
    ensures k <= |list|
    ensures k < |list| ==> list[k] == x
    ensures forall j :: 0 <= j < k ==> list[j] != x
  {
    if |list| == 0 then 0
    else if list[0] == x then 0
    else 1 + Find(list[1..], x)
  }

  /** The loop of a batch that copies query positions [lo, lo + bs): the
      response ids and the sample indices, one position at a time. */
  function BatchQueries(samples: seq<nat>, queryIds: seq<nat>, lo: nat, bs: nat): (r: Result<(seq<nat>, seq<nat>)>)
    ensures r.Ok? <==> bs == 0 || (lo + bs <= |samples| && lo + bs <= |queryIds|)
    ensures r.Err? ==> r.error == Unchecked
    ensures r.Ok? && bs > 0 ==> r.value == (queryIds[lo..lo + bs], samples[lo..lo + bs])
    ensures r.Ok? && bs == 0 ==> r.value == ([], [])
  {
    if bs == 0 then Ok(([], []))
    else if lo + bs <= |samples| && lo + bs <= |queryIds| then Ok((queryIds[lo..lo + bs], samples[lo..lo + bs]))
    else Err(Unchecked)
  }

  /** `item` answers query positions [lo, lo + bs): their response ids
      and sample indices, in order. */
  predicate AnswersPositions(item: Item, samples: seq<nat>, queryIds: seq<nat>, lo: nat, bs: nat)
  {
    && |item.responseIds| == bs && |item.sampleIdxs| == bs
    && (bs > 0 ==> lo + bs <= |samples| && lo + bs <= |queryIds|
                   && item.responseIds == queryIds[lo..lo + bs] && item.sampleIdxs == samples[lo..lo + bs])
  }

  /** One batch: the tensors it views (or the exception reaching them
      threw), then its queries, as one Item. */
  function MakeBatch(tensors: Result<seq<Tensor>>, samples: seq<nat>, queryIds: seq<nat>, lo: nat, bs: nat): (r: Result<Item>)
    ensures tensors.Err? ==> r == Err(tensors.error)
    ensures tensors.Ok? ==> (r.Ok? <==> BatchQueries(samples, queryIds, lo, bs).Ok?)
    ensures r.Err? ==> tensors.Err? || r.error == Unchecked
    ensures r.Ok? ==> r.value.tensors == tensors.value && AnswersPositions(r.value, samples, queryIds, lo, bs)
  {
    var ts :- tensors;
    var q :- BatchQueries(samples, queryIds, lo, bs);
    Ok(MultiTensorItem(ts, q.0, q.1))
  }

  /** The response ids of `items`, one item after the other. */
  function AllResponseIds(items: seq<Item>): seq<nat>
  {
    if |items| == 0 then [] else AllResponseIds(items[..|items| - 1]) + items[|items| - 1].responseIds
  }

  lemma {:induction false} MulSucc(n: nat, bs: nat)
    ensures n * bs + bs == (n + 1) * bs
    ensures n * bs <= (n + 1) * bs
  {
  }

  /** Batch `i` answering query positions [i * bs, i * bs + bs) makes the
      batches answer the first `|items| * bs` queries exactly once, in
      order. */
  lemma {:induction false} BatchesCoverQueries(items: seq<Item>, samples: seq<nat>, queryIds: seq<nat>, bs: nat)
    requires forall i :: 0 <= i < |items| ==> AnswersPositions(items[i], samples, queryIds, i * bs, bs)
    ensures |items| * bs <= |queryIds|
    ensures AllResponseIds(items) == queryIds[..|items| * bs]
  {
    if |items| > 0 {
      var n := |items| - 1;
      var pre := items[..n];
      var nb := n * bs;
      MulSucc(n, bs);
      assert forall i :: 0 <= i < n ==> pre[i] == items[i];
      BatchesCoverQueries(pre, samples, queryIds, bs);
      assert AllResponseIds(items) == AllResponseIds(pre) + items[n].responseIds;
      assert AnswersPositions(items[n], samples, queryIds, nb, bs);
      if bs > 0 {
        assert queryIds[..nb] + queryIds[nb..nb + bs] == queryIds[..nb + bs];
      }
    }
  }
}
