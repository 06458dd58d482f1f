/** The SQuAD v1.1 sample library of src/datasets/squad.h: the three token
    tensors of each sample copied into memory, and the items cut from them.
    Reading the preprocessed samples from JSON (the constructor) is outside
    the model: the parsed rows are given. */
module Squad {
  import opened Wrappers
  import opened Items
  import opened Placement
  import Flags

  /** `max_seq_length_`: the tokens of one sample. */
  const MaxSeqLength: nat := 384

  /** The parsed rows: per sample, its token ids, input mask and segment ids. */
  datatype Rows = Rows(inputIds: seq<seq<int>>, inputMask: seq<seq<int>>, segmentIds: seq<seq<int>>)

  /** The three tensors loaded for one sample. */
  datatype Slot = Slot(ids: Tensor, mask: Tensor, segments: Tensor)

  const EmptySlot := Slot(Unset, Unset, Unset)

  datatype Qsl = Qsl(scenario: Flags.Scenario, totalCount: nat, perfCount: nat, rows: Rows, memory: Memory<Slot>)

  /** A library over `rows` with nothing loaded. */
  function NewQsl(scenario: Flags.Scenario, totalCount: nat, perfCount: nat, rows: Rows): (q: Qsl)
    ensures q.memory.slots == [] && q.memory.sampleList == [] && q.rows == rows
  {
    Qsl(scenario, totalCount, perfCount, rows, Memory([], []))
  }

  /** `TotalSampleCount`: the number of parsed token-id rows. */
  function TotalSampleCount(q: Qsl): (n: nat)
    ensures n == |q.rows.inputIds|
  {
    |q.rows.inputIds|
  }

  /** The first `MaxSeqLength` entries of row `sample`, read with `.at`. */
  function Row(rows: seq<seq<int>>, sample: nat): (r: Result<seq<int>>)
    ensures r.Ok? <==> sample < |rows| && MaxSeqLength <= |rows[sample]|
    ensures r.Err? ==> r.error == OutOfRange
    ensures r.Ok? ==> |r.value| == MaxSeqLength && forall j :: 0 <= j < MaxSeqLength ==> r.value[j] == rows[sample][j]
  {
    if sample < |rows| && MaxSeqLength <= |rows[sample]| then Ok(rows[sample][..MaxSeqLength]) else Err(OutOfRange)
  }

  /** The three `1 x 384` tensors of one sample. */
  function SampleSlot(rows: Rows, sample: nat): (r: Result<Slot>)
    ensures r.Err? ==> r.error == OutOfRange
    ensures r.Ok? <==> Row(rows.inputIds, sample).Ok? && Row(rows.inputMask, sample).Ok? && Row(rows.segmentIds, sample).Ok?
    ensures r.Ok? ==>
      && r.value.ids == Owned(rows.inputIds[sample][..MaxSeqLength], [1, MaxSeqLength])
      && r.value.mask == Owned(rows.inputMask[sample][..MaxSeqLength], [1, MaxSeqLength])
      && r.value.segments == Owned(rows.segmentIds[sample][..MaxSeqLength], [1, MaxSeqLength])
  {
    var ids :- Row(rows.inputIds, sample);
    var mask :- Row(rows.inputMask, sample);
    var segments :- Row(rows.segmentIds, sample);
    Ok(Slot(Owned(ids, [1, MaxSeqLength]), Owned(mask, [1, MaxSeqLength]), Owned(segments, [1, MaxSeqLength])))
  }

  /** `LoadSamplesToRam`: the first-load sizing, then per request the copy
      of its sample's rows and the placement. */
  function LoadSamples(q: Qsl, samples: seq<nat>): (r: Result<Qsl>)
    ensures r.Err? ==> r.error == OutOfRange || r.error == Unchecked
    ensures r.Ok? ==> r.value == q.(memory := r.value.memory)
  {
    var m := Prepare(q.memory, q.scenario, q.totalCount, |samples|, EmptySlot);
    var placed := PlaceAll(m, q.scenario, samples, SlotValues(q.rows, samples), 0);
    if placed.Ok? then Ok(q.(memory := placed.value)) else Err(placed.error)
  }

  /** The tensors of each request, or why they cannot be cut. */
  function SlotValues(rows: Rows, samples: seq<nat>): (values: seq<Result<Slot>>)
    ensures |values| == |samples|
    ensures forall i :: 0 <= i < |samples| ==> values[i] == SampleSlot(rows, samples[i])
  {
    seq(|samples|, i requires 0 <= i < |samples| => SampleSlot(rows, samples[i]))
  }

  /** A first Offline or MultiStream load succeeds exactly when every
      requested sample's rows are long enough, and slot `i` then holds
      request `i`'s tensors. */
  lemma {:induction false} FirstLoadByPosition(q: Qsl, samples: seq<nat>)
    requires q.memory.slots == [] && !BySample(q.scenario)
    ensures var r := LoadSamples(q, samples);
      && (r.Ok? <==> forall i :: 0 <= i < |samples| ==> SampleSlot(q.rows, samples[i]).Ok?)
      && (r.Ok? ==>
        && |r.value.memory.slots| == |samples|
        && (forall i :: 0 <= i < |samples| ==> r.value.memory.slots[i] == SampleSlot(q.rows, samples[i]).value)
        && (q.scenario == Flags.MultiStream ==> r.value.memory.sampleList == samples))
  {
    Placement.FirstLoadByPosition(q.scenario, q.totalCount, samples, SlotValues(q.rows, samples), EmptySlot, q.memory.sampleList);
  }

  /** A first SingleStream or Server load makes a slot per sample of the
      data set; it succeeds exactly when every requested sample is below
      `totalCount` with long enough rows, and the slot of a requested
      sample then holds that sample's tensors. */
  lemma {:induction false} FirstLoadBySample(q: Qsl, samples: seq<nat>)
    requires q.memory.slots == [] && BySample(q.scenario)
    ensures var r := LoadSamples(q, samples);
      && (r.Ok? <==> forall i :: 0 <= i < |samples| ==> SampleSlot(q.rows, samples[i]).Ok? && samples[i] < q.totalCount)
      && (r.Ok? ==>
        && |r.value.memory.slots| == q.totalCount
        && forall i :: 0 <= i < |samples| ==>
          samples[i] < q.totalCount && r.value.memory.slots[samples[i]] == SampleSlot(q.rows, samples[i]).value)
  {
    var values := SlotValues(q.rows, samples);
    var m := Prepare(q.memory, q.scenario, q.totalCount, |samples|, EmptySlot);
    Placement.FirstLoadBySample(q.scenario, q.totalCount, samples, values, EmptySlot, q.memory.sampleList);
    if PlaceAll(m, q.scenario, samples, values, 0).Ok? {
      LastValueSameSample(m, q.scenario, samples, values, q.rows);
    }
  }

  /** Every request for a sample places the same slot, so the last one's is
      the first one's. */
  lemma {:induction false} LastValueSameSample(m: Memory<Slot>, scenario: Flags.Scenario, samples: seq<nat>, values: seq<Result<Slot>>, rows: Rows)
    requires BySample(scenario) && |values| == |samples|
    requires forall i :: 0 <= i < |samples| ==> values[i] == SampleSlot(rows, samples[i]) && values[i].Ok?
    requires PlaceAll(m, scenario, samples, values, 0).Ok?
    ensures forall i :: 0 <= i < |samples| ==>
      (samples[i] < |m.slots| && PlaceAll(m, scenario, samples, values, 0).value.slots[samples[i]] == SampleSlot(rows, samples[i]).value)
  {
    PlaceAllBySample(m, scenario, samples, values, 0);
    forall i | 0 <= i < |samples|
      ensures PlaceAll(m, scenario, samples, values, 0).value.slots[samples[i]] == SampleSlot(rows, samples[i]).value
    {
      var j := LastOf(samples, i);
      assert LastRequest(samples, j);
    }
  }

  /** `UnloadSamplesFromRam`: the three tensor lists are cleared; the
      MultiStream index list is not. */
  function UnloadSamples(q: Qsl): (r: Qsl)
    ensures r.memory.slots == [] && r.memory.sampleList == q.memory.sampleList
    ensures r == q.(memory := r.memory)
  {
    q.(memory := q.memory.(slots := []))
  }

  /** `GetSample`: the three tensors of the slot of `samples[0]`, with every
      response id and sample index passed through. */
  function GetSample(q: Qsl, samples: seq<nat>, queryIds: seq<nat>): (r: Result<Item>)
    ensures r.Ok? <==> |samples| > 0 && samples[0] < |q.memory.slots|
    ensures r.Err? ==> r.error == Unchecked
    ensures r.Ok? ==>
      var s := q.memory.slots[samples[0]];
      r.value == MultiTensorItem([s.ids, s.mask, s.segments], queryIds, samples)
  {
    if |samples| == 0 || samples[0] >= |q.memory.slots| then Err(Unchecked)
    else
      var s := q.memory.slots[samples[0]];
      Ok(MultiTensorItem([s.ids, s.mask, s.segments], queryIds, samples))
  }

  /** The three `bs x 384` views starting at the data of slot `start`. */
  function Views(start: nat, bs: nat): seq<Tensor>
  {
    [View(InputIds, start, [bs, MaxSeqLength]), View(InputMask, start, [bs, MaxSeqLength]), View(SegmentIds, start, [bs, MaxSeqLength])]
  }

  /** Making the views reads the data of slot `start`: outside the list that
      is undefined behaviour, and the data of a tensor never set trips
      OpenVINO's not-initialised assertion. */
  function ViewsAt(q: Qsl, start: nat, bs: nat): (r: Result<seq<Tensor>>)
    ensures r.Ok? <==> (start < |q.memory.slots| && q.memory.slots[start].ids != Unset
      && q.memory.slots[start].mask != Unset && q.memory.slots[start].segments != Unset)
    ensures r.Err? ==> r.error == (if start < |q.memory.slots| then AssertionFailed else Unchecked)
    ensures r.Ok? ==> r.value == Views(start, bs)
  {
    if start >= |q.memory.slots| then Err(Unchecked)
    else
      var s := q.memory.slots[start];
      if s.ids == Unset || s.mask == Unset || s.segments == Unset then Err(AssertionFailed)
      else Ok(Views(start, bs))
  }

  /** Batch `i` of `GetSamplesBatched`: it views from slot
      `(i * bs) % perf_count` and answers positions [i * bs, i * bs + bs). */
  function Batched(q: Qsl, samples: seq<nat>, queryIds: seq<nat>, bs: nat, i: nat): (r: Result<Item>)
    ensures q.perfCount == 0 ==> r == Err(Unchecked)
    ensures q.perfCount > 0 ==> r == MakeBatch(ViewsAt(q, (i * bs) % q.perfCount, bs), samples, queryIds, i * bs, bs)
  {
    if q.perfCount == 0 then Err(Unchecked)
    else MakeBatch(ViewsAt(q, (i * bs) % q.perfCount, bs), samples, queryIds, i * bs, bs)
  }

  /** `GetSamplesBatched`: `numBatches` batches of `bs` queries each. */
  function GetSamplesBatched(q: Qsl, samples: seq<nat>, queryIds: seq<nat>, bs: nat, numBatches: nat): (r: Result<seq<Item>>)
    ensures r.Ok? <==> forall i :: 0 <= i < numBatches ==> Batched(q, samples, queryIds, bs, i).Ok?
    ensures r.Ok? ==> |r.value| == numBatches && (numBatches > 0 ==> q.perfCount > 0)
    ensures r.Ok? ==> forall i :: 0 <= i < numBatches ==>
      q.perfCount > 0 && AnswersPositions(r.value[i], samples, queryIds, i * bs, bs)
      && r.value[i].tensors == Views((i * bs) % q.perfCount, bs)
  {
    var rs := seq(numBatches, i requires 0 <= i < numBatches => Batched(q, samples, queryIds, bs, i));
    assert forall i :: 0 <= i < numBatches ==> rs[i] == Batched(q, samples, queryIds, bs, i);
    assert forall i :: 0 <= i < numBatches && rs[i].Ok? ==>
      q.perfCount > 0 && AnswersPositions(rs[i].value, samples, queryIds, i * bs, bs)
      && rs[i].value.tensors == Views((i * bs) % q.perfCount, bs);
    AllOk(rs)
  }

  /** `GetSamplesBatchedServer` is not implemented for SQuAD. */
  function GetSamplesBatchedServer(q: Qsl): (r: Result<seq<Item>>)
    ensures r == Err(RuntimeError)
  {
    Err(RuntimeError)
  }

  /** `GetSamplesBatchedMultistream`: the position of `samples[0]` in the
      MultiStream index list is found (`logic_error` when absent); batch `i`
      views from that position plus `i * bs` and answers positions
      [i * bs, i * bs + bs). */
  function GetSamplesBatchedMultistream(q: Qsl, samples: seq<nat>, queryIds: seq<nat>, bs: nat, numBatches: nat): (r: Result<seq<Item>>)
    ensures |samples| == 0 ==> r == Err(Unchecked)
    ensures |samples| > 0 && Find(q.memory.sampleList, samples[0]) == |q.memory.sampleList| ==> r == Err(LogicError)
    ensures r.Ok? ==>
      && |samples| > 0
      && var index := Find(q.memory.sampleList, samples[0]);
      && index < |q.memory.sampleList| && q.memory.sampleList[index] == samples[0]
      && |r.value| == numBatches
      && forall i :: 0 <= i < numBatches ==>
        AnswersPositions(r.value[i], samples, queryIds, i * bs, bs) && r.value[i].tensors == Views(index + i * bs, bs)
  {
    if |samples| == 0 then Err(Unchecked)
    else
      var index := Find(q.memory.sampleList, samples[0]);
      if index == |q.memory.sampleList| then Err(LogicError)
      else
        var rs := seq(numBatches, i requires 0 <= i < numBatches =>
          MakeBatch(ViewsAt(q, index + i * bs, bs), samples, queryIds, i * bs, bs));
        assert forall i :: 0 <= i < numBatches ==> rs[i] == MakeBatch(ViewsAt(q, index + i * bs, bs), samples, queryIds, i * bs, bs);
        AllOk(rs)
  }

  // ------------------------------------------------ the batch views as written

  /** A slot a load has filled: three owned `1 x 384` tensors. */
  predicate Filled(s: Slot)
  {
    && s.ids.Owned? && |s.ids.data| == MaxSeqLength
    && s.mask.Owned? && |s.mask.data| == MaxSeqLength
    && s.segments.Owned? && |s.segments.data| == MaxSeqLength
  }

  /** A `bs x 384` tensor spans more than one sequence exactly when `bs`
      exceeds one. */
  lemma {:induction false} WiderThanRow(bs: nat)
    ensures bs > 1 <==> bs * MaxSeqLength > MaxSeqLength
  {
    if bs > 1 {
      assert bs * MaxSeqLength == MaxSeqLength + (bs - 1) * MaxSeqLength;
    } else {
      assert bs == 0 || bs == 1;
    }
  }

  /** A first Offline or MultiStream load fills slot `s` with request `s`'s
      three tensors. */
  lemma {:induction false} LoadedSlot(q: Qsl, samples: seq<nat>, loaded: Qsl, s: nat)
    requires q.memory.slots == [] && !BySample(q.scenario)
    requires LoadSamples(q, samples) == Ok(loaded) && s < |loaded.memory.slots|
    ensures s < |samples| && SampleSlot(q.rows, samples[s]).Ok?
    ensures loaded.memory.slots[s] == SampleSlot(q.rows, samples[s]).value
    ensures Filled(loaded.memory.slots[s])
  {
    FirstLoadByPosition(q, samples);
  }

  /** As written, batch `i` of an Offline query is a `bs x 384` view that
      starts at the data of one slot, and that slot's tensor holds only 384
      values: for `bs > 1` the view reaches past it. */
  lemma {:induction false} OfflineBatchReachesPastSlot(q: Qsl, samples: seq<nat>, loaded: Qsl, querySamples: seq<nat>, queryIds: seq<nat>, bs: nat, numBatches: nat, i: nat)
    requires q.memory.slots == [] && q.scenario == Flags.Offline
    requires LoadSamples(q, samples) == Ok(loaded)
    requires GetSamplesBatched(loaded, querySamples, queryIds, bs, numBatches).Ok? && i < numBatches
    ensures q.perfCount > 0
    ensures var start := (i * bs) % q.perfCount;
      && start < |loaded.memory.slots|
      && GetSamplesBatched(loaded, querySamples, queryIds, bs, numBatches).value[i].tensors[0] == View(InputIds, start, [bs, MaxSeqLength])
      && loaded.memory.slots[start].ids.Owned?
      && loaded.memory.slots[start].ids.shape == [1, MaxSeqLength] && |loaded.memory.slots[start].ids.data| == MaxSeqLength
      && (bs > 1 <==> bs * MaxSeqLength > |loaded.memory.slots[start].ids.data|)
  {
    var r := GetSamplesBatched(loaded, querySamples, queryIds, bs, numBatches);
    assert loaded.perfCount == q.perfCount;
    var start := (i * bs) % q.perfCount;
    assert Batched(loaded, querySamples, queryIds, bs, i).Ok?;
    assert ViewsAt(loaded, start, bs).Ok?;
    LoadedSlot(q, samples, loaded, start);
    assert r.value[i].tensors == Views(start, bs);
    WiderThanRow(bs);
  }

  /** As written, batch `i` of a MultiStream query loaded first is a
      `bs x 384` view that starts at the data of slot `lo = i * bs` alone, whose
      tensor holds only 384 values: for `bs > 1` the view reaches past it. */
  lemma {:induction false} MultistreamBatchReachesPastSlot(q: Qsl, samples: seq<nat>, loaded: Qsl, queryIds: seq<nat>, bs: nat, numBatches: nat, i: nat, lo: nat)
    requires q.memory.slots == [] && q.scenario == Flags.MultiStream
    requires LoadSamples(q, samples) == Ok(loaded)
    requires GetSamplesBatchedMultistream(loaded, samples, queryIds, bs, numBatches).Ok? && i < numBatches && lo == i * bs
    ensures lo < |loaded.memory.slots| && lo < |samples| && SampleSlot(q.rows, samples[lo]).Ok?
    ensures GetSamplesBatchedMultistream(loaded, samples, queryIds, bs, numBatches).value[i].tensors[0] == View(InputIds, lo, [bs, MaxSeqLength])
    ensures loaded.memory.slots[lo].ids == Owned(q.rows.inputIds[samples[lo]][..MaxSeqLength], [1, MaxSeqLength])
    ensures bs > 1 <==> bs * MaxSeqLength > |loaded.memory.slots[lo].ids.data|
  {
    MultistreamViewsAt(q, samples, loaded, queryIds, bs, numBatches, i, lo);
    LoadedSlot(q, samples, loaded, lo);
    WiderThanRow(bs);
  }

  /** After a first MultiStream load, batch `i` views from slot
      `lo = i * bs`, a slot of the load. */
  lemma {:induction false} MultistreamViewsAt(q: Qsl, samples: seq<nat>, loaded: Qsl, queryIds: seq<nat>, bs: nat, numBatches: nat, i: nat, lo: nat)
    requires q.memory.slots == [] && q.scenario == Flags.MultiStream
    requires LoadSamples(q, samples) == Ok(loaded)
    requires GetSamplesBatchedMultistream(loaded, samples, queryIds, bs, numBatches).Ok? && i < numBatches && lo == i * bs
    ensures lo < |samples| == |loaded.memory.slots|
    ensures GetSamplesBatchedMultistream(loaded, samples, queryIds, bs, numBatches).value[i].tensors == Views(lo, bs)
  {
    FirstMultistreamList(q, samples, loaded);
    var r := GetSamplesBatchedMultistream(loaded, samples, queryIds, bs, numBatches);
    assert AnswersPositions(r.value[i], samples, queryIds, lo, bs);
    assert bs == 0 ==> lo == 0;
  }

  // ------------------------------------------------ the batch as intended

  /** The `store` tensor of a slot. */
  function Field(s: Slot, store: Store): (t: Tensor)
    ensures Filled(s) ==> t.Owned? && |t.data| == MaxSeqLength
  {
    match store
    case InputIds => s.ids
    case InputMask => s.mask
    case SegmentIds => s.segments
  }

  /** The `store` rows of `slots`, back to back. */
  function Packed(slots: seq<Slot>, store: Store): (data: seq<int>)
    requires forall k :: 0 <= k < |slots| ==> Filled(slots[k])
    ensures |data| == |slots| * MaxSeqLength
  {
    if |slots| == 0 then []
    else
      var n := |slots|;
      assert Filled(slots[n - 1]);
      RowBound(n, n - 1, 0);
      Packed(slots[..n - 1], store) + Field(slots[n - 1], store).data
  }

  /** Row `k` of the packed rows is slot `k`'s sequence. */
  lemma {:induction false} PackedAt(slots: seq<Slot>, store: Store, k: nat, j: nat)
    requires forall k :: 0 <= k < |slots| ==> Filled(slots[k])
    requires k < |slots| && j < MaxSeqLength
    ensures k * MaxSeqLength + j < |Packed(slots, store)|
    ensures Packed(slots, store)[k * MaxSeqLength + j] == Field(slots[k], store).data[j]
  {
    var n := |slots|;
    var front := slots[..n - 1];
    RowBound(n, k, j);
    if k < n - 1 {
      RowBound(n - 1, k, j);
      PackedAt(front, store, k, j);
      assert front[k] == slots[k];
    } else {
      assert k * MaxSeqLength == |Packed(front, store)|;
    }
  }

  /** Position `j` of row `k` lies inside `n` rows. */
  lemma {:induction false} RowBound(n: nat, k: nat, j: nat)
    requires k < n && j < MaxSeqLength
    ensures k * MaxSeqLength + j < n * MaxSeqLength
    ensures n * MaxSeqLength == (n - 1) * MaxSeqLength + MaxSeqLength
  {
  }

  /** The batch the view is evidently meant to be: the `bs` sequences from
      slot `start` on, packed into one `bs x 384` tensor per list, as the
      image library's single buffer gives its batches. Slots past the list
      are undefined behaviour, and a slot no load filled fails OpenVINO's
      not-initialised assertion. */
  function PackedViewsAt(q: Qsl, start: nat, bs: nat): (r: Result<seq<Tensor>>)
    ensures r.Ok? <==> start + bs <= |q.memory.slots| && forall k :: start <= k < start + bs ==> Filled(q.memory.slots[k])
    ensures r.Err? ==> r.error == (if start + bs <= |q.memory.slots| then AssertionFailed else Unchecked)
    ensures r.Ok? ==> |r.value| == 3 && forall t :: 0 <= t < 3 ==>
      r.value[t].Owned? && r.value[t].shape == [bs, MaxSeqLength] && |r.value[t].data| == bs * MaxSeqLength
  {
    if start + bs > |q.memory.slots| then Err(Unchecked)
    else
      var slots := q.memory.slots[start .. start + bs];
      if exists k :: 0 <= k < bs && !Filled(slots[k]) then Err(AssertionFailed)
      else
        assert forall k :: start <= k < start + bs ==> Filled(q.memory.slots[k]) by {
          forall k | start <= k < start + bs ensures Filled(q.memory.slots[k]) {
            assert slots[k - start] == q.memory.slots[k];
          }
        }
        Ok([Owned(Packed(slots, InputIds), [bs, MaxSeqLength]),
            Owned(Packed(slots, InputMask), [bs, MaxSeqLength]),
            Owned(Packed(slots, SegmentIds), [bs, MaxSeqLength])])
  }

  /** Batch `i` of the packed getter, the slots counted from `index`. */
  function PackedBatch(q: Qsl, index: nat, samples: seq<nat>, queryIds: seq<nat>, bs: nat, i: nat): (r: Result<Item>)
    ensures r.Ok? <==> PackedViewsAt(q, index + i * bs, bs).Ok? && BatchQueries(samples, queryIds, i * bs, bs).Ok?
    ensures r.Ok? ==> AnswersPositions(r.value, samples, queryIds, i * bs, bs) && Ok(r.value.tensors) == PackedViewsAt(q, index + i * bs, bs)
  {
    MakeBatch(PackedViewsAt(q, index + i * bs, bs), samples, queryIds, i * bs, bs)
  }

  /** `GetSamplesBatchedMultistream` with the packed batch: batch `i` packs
      the slots from the position of `samples[0]` plus `i * bs`. */
  function GetSamplesBatchedMultistreamPacked(q: Qsl, samples: seq<nat>, queryIds: seq<nat>, bs: nat, numBatches: nat): (r: Result<seq<Item>>)
    ensures r.Ok? ==> |r.value| == numBatches
    ensures |samples| == 0 ==> r == Err(Unchecked)
    ensures |samples| > 0 && Find(q.memory.sampleList, samples[0]) == |q.memory.sampleList| ==> r == Err(LogicError)
    ensures |samples| > 0 ==>
      var index := Find(q.memory.sampleList, samples[0]);
      index < |q.memory.sampleList| ==> (r.Ok? <==> forall i :: 0 <= i < numBatches ==> PackedBatch(q, index, samples, queryIds, bs, i).Ok?)
    ensures r.Ok? ==>
      && |samples| > 0
      && var index := Find(q.memory.sampleList, samples[0]);
      && index < |q.memory.sampleList| && q.memory.sampleList[index] == samples[0]
      && |r.value| == numBatches
      && forall i :: 0 <= i < numBatches ==> Ok(r.value[i]) == PackedBatch(q, index, samples, queryIds, bs, i)
  {
    if |samples| == 0 then Err(Unchecked)
    else
      var index := Find(q.memory.sampleList, samples[0]);
      if index == |q.memory.sampleList| then Err(LogicError)
      else
        var rs := seq(numBatches, i requires 0 <= i < numBatches => PackedBatch(q, index, samples, queryIds, bs, i));
        assert forall i :: 0 <= i < numBatches ==> rs[i] == PackedBatch(q, index, samples, queryIds, bs, i);
        AllOk(rs)
  }

  /** After a first MultiStream load, the packed getter fails only when a
      batch reaches past the query. */
  lemma {:induction false} PackedMultistreamSucceeds(q: Qsl, samples: seq<nat>, loaded: Qsl, queryIds: seq<nat>, bs: nat, numBatches: nat)
    requires q.memory.slots == [] && q.scenario == Flags.MultiStream
    requires LoadSamples(q, samples) == Ok(loaded) && |samples| > 0 && |queryIds| >= |samples|
    ensures GetSamplesBatchedMultistreamPacked(loaded, samples, queryIds, bs, numBatches).Ok? <==> numBatches * bs <= |samples|
  {
    FirstMultistreamList(q, samples, loaded);
    if numBatches * bs <= |samples| {
      forall i | 0 <= i < numBatches
        ensures PackedBatch(loaded, 0, samples, queryIds, bs, i).Ok?
      {
        BatchInside(numBatches, bs, i);
        PackedBatchInside(q, samples, loaded, queryIds, bs, i);
      }
    } else {
      assert numBatches > 0 && bs > 0;
      BatchInside(numBatches, bs, numBatches - 1);
      assert !BatchQueries(samples, queryIds, (numBatches - 1) * bs, bs).Ok?;
      assert !PackedBatch(loaded, 0, samples, queryIds, bs, numBatches - 1).Ok?;
    }
  }

  /** A first MultiStream load lists the query's samples, so the query's
      first sample is found at position 0. */
  lemma {:induction false} FirstMultistreamList(q: Qsl, samples: seq<nat>, loaded: Qsl)
    requires q.memory.slots == [] && q.scenario == Flags.MultiStream
    requires LoadSamples(q, samples) == Ok(loaded)
    ensures loaded.memory.sampleList == samples && |loaded.memory.slots| == |samples|
    ensures |samples| > 0 ==> Find(loaded.memory.sampleList, samples[0]) == 0
  {
    FirstLoadByPosition(q, samples);
  }

  /** After a first MultiStream load, a batch inside the query packs. */
  lemma {:induction false} PackedBatchInside(q: Qsl, samples: seq<nat>, loaded: Qsl, queryIds: seq<nat>, bs: nat, i: nat)
    requires q.memory.slots == [] && q.scenario == Flags.MultiStream
    requires LoadSamples(q, samples) == Ok(loaded) && |queryIds| >= |samples|
    requires i * bs + bs <= |samples|
    ensures PackedBatch(loaded, 0, samples, queryIds, bs, i).Ok?
  {
    FirstLoadByPosition(q, samples);
    forall s | i * bs <= s < i * bs + bs ensures Filled(loaded.memory.slots[s]) {
      LoadedSlot(q, samples, loaded, s);
    }
  }

  /** After a first MultiStream load, packed batch `i` is the batch packed
      from slot `lo = i * bs` and answers query positions [lo, lo + bs). */
  lemma {:induction false} PackedMultistreamBatchAt(q: Qsl, samples: seq<nat>, loaded: Qsl, queryIds: seq<nat>, bs: nat, numBatches: nat, i: nat, lo: nat)
    requires q.memory.slots == [] && q.scenario == Flags.MultiStream
    requires LoadSamples(q, samples) == Ok(loaded)
    requires GetSamplesBatchedMultistreamPacked(loaded, samples, queryIds, bs, numBatches).Ok? && i < numBatches && lo == i * bs
    ensures var item := GetSamplesBatchedMultistreamPacked(loaded, samples, queryIds, bs, numBatches).value[i];
      && Ok(item.tensors) == PackedViewsAt(loaded, lo, bs)
      && AnswersPositions(item, samples, queryIds, lo, bs)
  {
    FirstMultistreamList(q, samples, loaded);
    var r := GetSamplesBatchedMultistreamPacked(loaded, samples, queryIds, bs, numBatches);
    assert Ok(r.value[i]) == PackedBatch(loaded, 0, samples, queryIds, bs, i);
  }

  /** Batch `i` of `n` batches of `bs` ends at `(i + 1) * bs`, within `n * bs`. */
  lemma {:induction false} BatchInside(n: nat, bs: nat, i: nat)
    requires i < n
    ensures i * bs + bs <= n * bs && (i == n - 1 ==> i * bs + bs == n * bs)
  {
    var d := n - i - 1;
    assert n * bs == i * bs + bs + d * bs;
  }

  /** Slot `s` holds the tensors of request `s`, for every request. */
  predicate HoldsRequests(m: Memory<Slot>, rows: Rows, samples: seq<nat>)
  {
    && |m.slots| == |samples|
    && forall s :: 0 <= s < |samples| ==> SampleSlot(rows, samples[s]).Ok? && m.slots[s] == SampleSlot(rows, samples[s]).value
  }

  /** A first Offline or MultiStream load holds its requests. */
  lemma {:induction false} FirstLoadHolds(q: Qsl, samples: seq<nat>, loaded: Qsl)
    requires q.memory.slots == [] && !BySample(q.scenario)
    requires LoadSamples(q, samples) == Ok(loaded)
    ensures HoldsRequests(loaded.memory, q.rows, samples)
  {
    FirstLoadByPosition(q, samples);
  }

  /** After a first Offline or MultiStream load, position `j` of row `k` of
      the batch packed from slot `lo` is token `j` of request `lo + k`, in
      all three lists. */
  lemma {:induction false} PackedLoadedRow(q: Qsl, samples: seq<nat>, loaded: Qsl, lo: nat, bs: nat, k: nat, j: nat)
    requires q.memory.slots == [] && !BySample(q.scenario)
    requires LoadSamples(q, samples) == Ok(loaded) && PackedViewsAt(loaded, lo, bs).Ok?
    requires k < bs && j < MaxSeqLength
    ensures lo + k < |samples| && SampleSlot(q.rows, samples[lo + k]).Ok?
    ensures k * MaxSeqLength + j < bs * MaxSeqLength
    ensures var ts := PackedViewsAt(loaded, lo, bs).value;
      && ts[0].data[k * MaxSeqLength + j] == q.rows.inputIds[samples[lo + k]][j]
      && ts[1].data[k * MaxSeqLength + j] == q.rows.inputMask[samples[lo + k]][j]
      && ts[2].data[k * MaxSeqLength + j] == q.rows.segmentIds[samples[lo + k]][j]
  {
    FirstLoadHolds(q, samples, loaded);
    PackedRow(loaded, q.rows, samples, lo, bs, k, j);
  }

  /** Row `k` of the batch packed from slot `lo` over slots that hold their
      requests. */
  lemma {:induction false} PackedRow(q: Qsl, rows: Rows, samples: seq<nat>, lo: nat, bs: nat, k: nat, j: nat)
    requires HoldsRequests(q.memory, rows, samples) && PackedViewsAt(q, lo, bs).Ok?
    requires k < bs && j < MaxSeqLength
    ensures lo + k < |samples| && SampleSlot(rows, samples[lo + k]).Ok?
    ensures k * MaxSeqLength + j < bs * MaxSeqLength
    ensures var ts := PackedViewsAt(q, lo, bs).value;
      && ts[0].data[k * MaxSeqLength + j] == rows.inputIds[samples[lo + k]][j]
      && ts[1].data[k * MaxSeqLength + j] == rows.inputMask[samples[lo + k]][j]
      && ts[2].data[k * MaxSeqLength + j] == rows.segmentIds[samples[lo + k]][j]
  {
    var slots := q.memory.slots[lo .. lo + bs];
    assert slots[k] == q.memory.slots[lo + k];
    RowBound(bs, k, j);
    PackedAt(slots, InputIds, k, j);
    PackedAt(slots, InputMask, k, j);
    PackedAt(slots, SegmentIds, k, j);
  }
}
