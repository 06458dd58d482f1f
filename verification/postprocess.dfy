/** The post-processors of src/postprocess/post_processors.h: each reads a
    finished request's output tensors and appends, to the request's buffers,
    response ids, per-response counts and result values. Only the layout is
    modelled; element values are reals and their float rounding is not. */
module PostProcess {
  import opened Wrappers
  import opened Seqs
  import opened Items
  import opened Responses
  import TopK
  import opened Workloads

  /** An output tensor: its shape and its elements in row-major order. */
  datatype OutTensor = OutTensor(shape: seq<nat>, data: seq<real>)

  predicate Consistent(t: OutTensor)
  {
    |t.data| == TopK.Product(t.shape)
  }

  /** A finished request's outputs, by tensor name. */
  type Outputs = map<string, OutTensor>

  predicate AllConsistent(outs: Outputs)
  {
    forall name :: name in outs ==> Consistent(outs[name])
  }

  /** `req.get_tensor(name)`, which throws (an `ov::Exception`, a
      `runtime_error`) when the network has no tensor of that name. */
  function Output(outs: Outputs, name: string): (r: Result<OutTensor>)
    ensures r.Ok? <==> name in outs
    ensures r.Ok? ==> r.value == outs[name]
    ensures r.Err? ==> r.error == RuntimeError
  {
    if name in outs then Ok(outs[name]) else Err(RuntimeError)
  }

  /** `b` is a prefix of `r` in all three vectors. */
  predicate Extends(b: Buffers, r: Buffers)
  {
    && |b.responseIds| <= |r.responseIds| && r.responseIds[..|b.responseIds|] == b.responseIds
    && |b.counts| <= |r.counts| && r.counts[..|b.counts|] == b.counts
    && |b.results| <= |r.results| && r.results[..|b.results|] == b.results
  }

  lemma {:induction false} AppendExtends(b: Buffers, extra: Buffers)
    ensures Extends(b, Append(b, extra))
  {
  }

  // ------------------------------------------------------------ RetinaNet

  /** Boxes are scaled from the 800 x 800 input image to [0, 1]. */
  const ImageSide: real := 800.0
  const ScoreThreshold: real := 0.05
  /** Floats per kept detection. */
  const RecordSize: nat := 7

  /** The predictions among the first `n` whose score reaches the
      threshold, in order. */
  function KeptIndices(scores: seq<real>, n: nat): (ks: seq<nat>)
    requires n <= |scores|
    ensures forall k :: 0 <= k < |ks| ==> ks[k] < n && scores[ks[k]] >= ScoreThreshold
  {
    if n == 0 then []
    else KeptIndices(scores, n - 1) + (if scores[n - 1] >= ScoreThreshold then [n - 1] else [])
  }

  predicate Increasing(ks: seq<nat>)
  {
    forall k, l :: 0 <= k < l < |ks| ==> ks[k] < ks[l]
  }

  /** The kept predictions come in increasing order, each once. */
  lemma {:induction false} KeptIndicesIncreasing(scores: seq<real>, n: nat)
    requires n <= |scores|
    ensures Increasing(KeptIndices(scores, n))
  {
    if n > 0 {
      KeptIndicesIncreasing(scores, n - 1);
      var prev := KeptIndices(scores, n - 1);
      if scores[n - 1] >= ScoreThreshold {
        assert KeptIndices(scores, n) == prev + [n - 1];
        SnocIncreasing(prev, n - 1);
      } else {
        assert KeptIndices(scores, n) == prev + [];
        assert KeptIndices(scores, n) == prev;
      }
    }
  }

  lemma {:induction false} SnocIncreasing(ks: seq<nat>, x: nat)
    requires Increasing(ks) && forall k :: 0 <= k < |ks| ==> ks[k] < x
    ensures Increasing(ks + [x])
  {
    var r := ks + [x];
    forall k, l | 0 <= k < l < |r|
      ensures r[k] < r[l]
    {
      assert r[k] == ks[k];
      if l < |ks| {
        assert r[l] == ks[l];
      }
    }
  }

  /** Every prediction among the first `n` that reaches the threshold is kept. */
  lemma {:induction false} KeptIndicesComplete(scores: seq<real>, n: nat, i: nat)
    requires n <= |scores| && i < n && scores[i] >= ScoreThreshold
    ensures i in KeptIndices(scores, n)
  {
    var prev := KeptIndices(scores, n - 1);
    if i < n - 1 {
      KeptIndicesComplete(scores, n - 1, i);
      if scores[n - 1] >= ScoreThreshold {
        assert KeptIndices(scores, n) == prev + [n - 1];
      } else {
        assert KeptIndices(scores, n) == prev + [];
      }
    } else {
      assert KeptIndices(scores, n) == prev + [n - 1];
    }
  }

  /** Prediction `i`'s four box coordinates and its label lie within the
      output tensors; the code reads them only for a kept prediction and
      never checks. */
  predicate Readable(boxes: seq<real>, labels: seq<real>, i: nat)
  {
    4 * i + 3 < |boxes| && i < |labels|
  }

  /** Detection `i` as reported: sample index, then the box with its
      coordinates reordered from the network's x-first (xmin, ymin, xmax,
      ymax) to y-first (ymin, xmin, ymax, xmax), then score and class. */
  function Record(sample: nat, boxes: seq<real>, scores: seq<real>, labels: seq<real>, i: nat): (rec: seq<real>)
    requires i < |scores| && Readable(boxes, labels, i)
    ensures |rec| == RecordSize
  {
    [sample as real,
     boxes[4 * i + 1] / ImageSide, boxes[4 * i] / ImageSide,
     boxes[4 * i + 3] / ImageSide, boxes[4 * i + 2] / ImageSide,
     scores[i], labels[i]]
  }

  /** Which sample a detection is attributed to. */
  datatype SampleChoice =
    /** `sample_idxs[i]`, indexed by the prediction number. */
    | ByPrediction
    /** `sample_idxs[0]`, the one image the item holds. */
    | FirstSample

  /** The sample index of prediction `i`; reading past `sample_idxs` is unchecked. */
  function SampleOf(item: Item, i: nat, choice: SampleChoice): (r: Result<nat>)
    ensures r.Err? ==> r.error == Unchecked
    ensures choice == ByPrediction ==> (r.Ok? <==> i < |item.sampleIdxs|)
    ensures choice == FirstSample ==> (r.Ok? <==> 0 < |item.sampleIdxs|)
  {
    match choice
    case ByPrediction => if i < |item.sampleIdxs| then Ok(item.sampleIdxs[i]) else Err(Unchecked)
    case FirstSample => if 0 < |item.sampleIdxs| then Ok(item.sampleIdxs[0]) else Err(Unchecked)
  }

  /** The detection loop over the first `n` predictions. */
  function Records(item: Item, boxes: seq<real>, scores: seq<real>, labels: seq<real>, choice: SampleChoice, n: nat): (r: Result<seq<real>>)
    requires n <= |scores|
    ensures r.Ok? ==> |r.value| == RecordSize * |KeptIndices(scores, n)|
    ensures r.Err? ==> r.error == Unchecked
  {
    if n == 0 then Ok([])
    else
      var prev :- Records(item, boxes, scores, labels, choice, n - 1);
      if scores[n - 1] >= ScoreThreshold then
        var sample :- SampleOf(item, n - 1, choice);
        if !Readable(boxes, labels, n - 1) then Err(Unchecked)
        else Ok(prev + Record(sample, boxes, scores, labels, n - 1))
      else Ok(prev)
  }

  /** Every kept prediction among `ks` has a sample to be attributed to. */
  predicate SamplesAvailable(item: Item, ks: seq<nat>, choice: SampleChoice)
  {
    forall k :: 0 <= k < |ks| ==> SampleOf(item, ks[k], choice).Ok?
  }

  /** Every kept prediction among `ks` lies within the box and label tensors. */
  predicate AllReadable(boxes: seq<real>, labels: seq<real>, ks: seq<nat>)
  {
    forall k :: 0 <= k < |ks| ==> Readable(boxes, labels, ks[k])
  }

  lemma {:induction false} FirstSampleAvailable(item: Item, ks: seq<nat>)
    ensures SamplesAvailable(item, ks, FirstSample) <==> |item.sampleIdxs| > 0 || |ks| == 0
  {
    if |ks| > 0 {
      assert SampleOf(item, ks[0], FirstSample).Ok? <==> 0 < |item.sampleIdxs|;
    }
  }

  /** The loop succeeds exactly when every kept prediction has a sample
      and its box and label can be read. */
  lemma {:induction false} RecordsOk(item: Item, boxes: seq<real>, scores: seq<real>, labels: seq<real>, choice: SampleChoice, n: nat)
    requires n <= |scores|
    ensures Records(item, boxes, scores, labels, choice, n).Ok?
      <==> SamplesAvailable(item, KeptIndices(scores, n), choice) && AllReadable(boxes, labels, KeptIndices(scores, n))
  {
    if n > 0 {
      RecordsOk(item, boxes, scores, labels, choice, n - 1);
      var prevKs := KeptIndices(scores, n - 1);
      if scores[n - 1] >= ScoreThreshold {
        assert KeptIndices(scores, n) == prevKs + [n - 1];
        KeptSnoc(item, boxes, labels, choice, prevKs, n - 1);
      } else {
        assert KeptIndices(scores, n) == prevKs;
      }
    }
  }

  /** One more kept prediction adds its own sample and bounds to what the
      earlier ones need. */
  lemma {:induction false} KeptSnoc(item: Item, boxes: seq<real>, labels: seq<real>, choice: SampleChoice, ks: seq<nat>, i: nat)
    ensures SamplesAvailable(item, ks + [i], choice) <==> SamplesAvailable(item, ks, choice) && SampleOf(item, i, choice).Ok?
    ensures AllReadable(boxes, labels, ks + [i]) <==> AllReadable(boxes, labels, ks) && Readable(boxes, labels, i)
  {
    var all := ks + [i];
    assert forall k :: 0 <= k < |ks| ==> all[k] == ks[k];
    assert all[|ks|] == i;
  }

  /** On success, record k is the k-th kept detection. */
  lemma {:induction false} RecordAt(item: Item, boxes: seq<real>, scores: seq<real>, labels: seq<real>, choice: SampleChoice, n: nat, k: nat)
    requires n <= |scores|
    requires Records(item, boxes, scores, labels, choice, n).Ok?
    requires k < |KeptIndices(scores, n)|
    ensures var ks := KeptIndices(scores, n);
      && SampleOf(item, ks[k], choice).Ok? && Readable(boxes, labels, ks[k])
      && TopK.Chunks(Records(item, boxes, scores, labels, choice, n).value, RecordSize, |ks|)[k]
         == Record(SampleOf(item, ks[k], choice).value, boxes, scores, labels, ks[k])
  {
    var prevKs := KeptIndices(scores, n - 1);
    var ks := KeptIndices(scores, n);
    if scores[n - 1] >= ScoreThreshold {
      if k < |prevKs| {
        RecordKeptEarlier(item, boxes, scores, labels, choice, n, k);
        RecordAt(item, boxes, scores, labels, choice, n - 1, k);
        assert ks[k] == prevKs[k];
      } else {
        RecordKeptLast(item, boxes, scores, labels, choice, n);
        assert k == |ks| - 1 && ks[k] == n - 1;
      }
    } else {
      RecordsSkip(item, boxes, scores, labels, choice, n);
      RecordAt(item, boxes, scores, labels, choice, n - 1, k);
      assert ks == prevKs;
    }
  }

  /** Keeping prediction n - 1 leaves the earlier records where they were. */
  lemma {:induction false} RecordKeptEarlier(item: Item, boxes: seq<real>, scores: seq<real>, labels: seq<real>, choice: SampleChoice, n: nat, k: nat)
    requires 0 < n <= |scores|
    requires Records(item, boxes, scores, labels, choice, n).Ok? && scores[n - 1] >= ScoreThreshold
    requires k < |KeptIndices(scores, n - 1)|
    ensures Records(item, boxes, scores, labels, choice, n - 1).Ok?
    ensures var ks, prevKs := KeptIndices(scores, n), KeptIndices(scores, n - 1);
      && |ks| == |prevKs| + 1 && ks[k] == prevKs[k]
      && TopK.Chunks(Records(item, boxes, scores, labels, choice, n).value, RecordSize, |ks|)[k]
         == TopK.Chunks(Records(item, boxes, scores, labels, choice, n - 1).value, RecordSize, |prevKs|)[k]
  {
    RecordsKeep(item, boxes, scores, labels, choice, n);
    var prev := Records(item, boxes, scores, labels, choice, n - 1).value;
    var rec := Record(SampleOf(item, n - 1, choice).value, boxes, scores, labels, n - 1);
    TopK.ChunksSnoc(prev, rec, RecordSize, |KeptIndices(scores, n - 1)|);
  }

  /** Keeping prediction n - 1 puts its record last. */
  lemma {:induction false} RecordKeptLast(item: Item, boxes: seq<real>, scores: seq<real>, labels: seq<real>, choice: SampleChoice, n: nat)
    requires 0 < n <= |scores|
    requires Records(item, boxes, scores, labels, choice, n).Ok? && scores[n - 1] >= ScoreThreshold
    ensures var ks := KeptIndices(scores, n);
      && |ks| == |KeptIndices(scores, n - 1)| + 1 && ks[|ks| - 1] == n - 1
      && SampleOf(item, n - 1, choice).Ok? && Readable(boxes, labels, n - 1)
      && TopK.Chunks(Records(item, boxes, scores, labels, choice, n).value, RecordSize, |ks|)[|ks| - 1]
         == Record(SampleOf(item, n - 1, choice).value, boxes, scores, labels, n - 1)
  {
    RecordsKeep(item, boxes, scores, labels, choice, n);
    var prev := Records(item, boxes, scores, labels, choice, n - 1).value;
    var rec := Record(SampleOf(item, n - 1, choice).value, boxes, scores, labels, n - 1);
    TopK.ChunksSnoc(prev, rec, RecordSize, |KeptIndices(scores, n - 1)|);
  }

  /** A prediction that reaches the threshold adds its record at the end. */
  lemma {:induction false} RecordsKeep(item: Item, boxes: seq<real>, scores: seq<real>, labels: seq<real>, choice: SampleChoice, n: nat)
    requires 0 < n <= |scores|
    requires Records(item, boxes, scores, labels, choice, n).Ok? && scores[n - 1] >= ScoreThreshold
    ensures KeptIndices(scores, n) == KeptIndices(scores, n - 1) + [n - 1]
    ensures Records(item, boxes, scores, labels, choice, n - 1).Ok? && SampleOf(item, n - 1, choice).Ok?
    ensures Readable(boxes, labels, n - 1)
    ensures Records(item, boxes, scores, labels, choice, n).value
      == Records(item, boxes, scores, labels, choice, n - 1).value
         + Record(SampleOf(item, n - 1, choice).value, boxes, scores, labels, n - 1)
  {
  }

  /** A prediction below the threshold adds nothing. */
  lemma {:induction false} RecordsSkip(item: Item, boxes: seq<real>, scores: seq<real>, labels: seq<real>, choice: SampleChoice, n: nat)
    requires 0 < n <= |scores|
    requires Records(item, boxes, scores, labels, choice, n).Ok? && scores[n - 1] < ScoreThreshold
    ensures KeptIndices(scores, n) == KeptIndices(scores, n - 1)
    ensures Records(item, boxes, scores, labels, choice, n - 1) == Records(item, boxes, scores, labels, choice, n)
  {
    assert KeptIndices(scores, n) == KeptIndices(scores, n - 1) + [];
  }

  /** All records at once. */
  lemma {:induction false} RecordsLayout(item: Item, boxes: seq<real>, scores: seq<real>, labels: seq<real>, choice: SampleChoice, n: nat)
    requires n <= |scores|
    requires Records(item, boxes, scores, labels, choice, n).Ok?
    ensures var ks := KeptIndices(scores, n);
      var r := Records(item, boxes, scores, labels, choice, n).value;
      forall k :: 0 <= k < |ks| ==> (SampleOf(item, ks[k], choice).Ok? && Readable(boxes, labels, ks[k])
        && TopK.Chunks(r, RecordSize, |ks|)[k] == Record(SampleOf(item, ks[k], choice).value, boxes, scores, labels, ks[k]))
  {
    forall k | 0 <= k < |KeptIndices(scores, n)|
      ensures var ks := KeptIndices(scores, n);
        SampleOf(item, ks[k], choice).Ok? && Readable(boxes, labels, ks[k])
        && TopK.Chunks(Records(item, boxes, scores, labels, choice, n).value, RecordSize, |ks|)[k]
           == Record(SampleOf(item, ks[k], choice).value, boxes, scores, labels, ks[k])
    {
      RecordAt(item, boxes, scores, labels, choice, n, k);
    }
  }

  /** `postprocess_ssd_retinanet`: all detections of the item go to one
      response, the item's first id, whose count is the number of floats
      appended. */
  function RetinaNetWith(item: Item, boxes: seq<real>, scores: seq<real>, labels: seq<real>, choice: SampleChoice): (r: Result<Buffers>)
    ensures r.Err? ==> r.error == Unchecked
  {
    var recs :- Records(item, boxes, scores, labels, choice, |scores|);
    if |item.responseIds| == 0 then Err(Unchecked)
    else Ok(Buffers([item.responseIds[0]], [|recs|], recs))
  }

  /** As the source is written: detection i is attributed to `sample_idxs[i]`. */
  function RetinaNetAsWritten(item: Item, boxes: seq<real>, scores: seq<real>, labels: seq<real>): (r: Result<Buffers>)
    ensures r.Ok? <==> (|item.responseIds| > 0
      && (forall k :: 0 <= k < |KeptIndices(scores, |scores|)| ==> KeptIndices(scores, |scores|)[k] < |item.sampleIdxs|)
      && AllReadable(boxes, labels, KeptIndices(scores, |scores|)))
  {
    RecordsOk(item, boxes, scores, labels, ByPrediction, |scores|);
    RetinaNetWith(item, boxes, scores, labels, ByPrediction)
  }

  /** Every detection of the single-image item attributed to its sample. */
  function RetinaNetCorrected(item: Item, boxes: seq<real>, scores: seq<real>, labels: seq<real>): (r: Result<Buffers>)
    ensures r.Ok? <==> (|item.responseIds| > 0 && (|item.sampleIdxs| > 0 || |KeptIndices(scores, |scores|)| == 0)
      && AllReadable(boxes, labels, KeptIndices(scores, |scores|)))
  {
    RecordsOk(item, boxes, scores, labels, FirstSample, |scores|);
    FirstSampleAvailable(item, KeptIndices(scores, |scores|));
    RetinaNetWith(item, boxes, scores, labels, FirstSample)
  }

  /** The code as written: one response, the item's first id, with count 7
      per kept detection, and results holding exactly those records in
      prediction order, kept detection k tagged with `sample_idxs` at its
      prediction index. */
  lemma {:induction false} RetinaNetLayout(item: Item, boxes: seq<real>, scores: seq<real>, labels: seq<real>)
    requires |item.responseIds| > 0
    requires forall k :: 0 <= k < |KeptIndices(scores, |scores|)| ==> KeptIndices(scores, |scores|)[k] < |item.sampleIdxs|
    requires AllReadable(boxes, labels, KeptIndices(scores, |scores|))
    ensures var ks := KeptIndices(scores, |scores|);
      var r := RetinaNetAsWritten(item, boxes, scores, labels);
      && r.Ok?
      && r.value.responseIds == [item.responseIds[0]]
      && r.value.counts == [RecordSize * |ks|]
      && |r.value.results| == RecordSize * |ks|
      && WellFormed(r.value)
      && forall k :: 0 <= k < |ks| ==>
        TopK.Chunks(r.value.results, RecordSize, |ks|)[k] == Record(item.sampleIdxs[ks[k]], boxes, scores, labels, ks[k])
  {
    RecordsOk(item, boxes, scores, labels, ByPrediction, |scores|);
    RecordsLayout(item, boxes, scores, labels, ByPrediction, |scores|);
    var recs := Records(item, boxes, scores, labels, ByPrediction, |scores|).value;
    assert RetinaNetAsWritten(item, boxes, scores, labels).value.counts == [|recs|];
    assert Sum([|recs|]) == |recs| by {
      assert [|recs|][..0] == [];
    }
  }

  /** The intended attribution: the same layout with every record tagged
      with the item's one sample index. */
  lemma {:induction false} RetinaNetCorrectedLayout(item: Item, boxes: seq<real>, scores: seq<real>, labels: seq<real>)
    requires |item.responseIds| > 0 && |item.sampleIdxs| > 0
    requires AllReadable(boxes, labels, KeptIndices(scores, |scores|))
    ensures var ks := KeptIndices(scores, |scores|);
      var r := RetinaNetCorrected(item, boxes, scores, labels);
      && r.Ok?
      && r.value.responseIds == [item.responseIds[0]]
      && r.value.counts == [RecordSize * |ks|]
      && |r.value.results| == RecordSize * |ks|
      && WellFormed(r.value)
      && forall k :: 0 <= k < |ks| ==>
        TopK.Chunks(r.value.results, RecordSize, |ks|)[k] == Record(item.sampleIdxs[0], boxes, scores, labels, ks[k])
  {
    RecordsOk(item, boxes, scores, labels, FirstSample, |scores|);
    RecordsLayout(item, boxes, scores, labels, FirstSample, |scores|);
    var recs := Records(item, boxes, scores, labels, FirstSample, |scores|).value;
    assert RetinaNetCorrected(item, boxes, scores, labels).value.counts == [|recs|];
    assert Sum([|recs|]) == |recs| by {
      assert [|recs|][..0] == [];
    }
  }

  /** With no prediction reaching the threshold, the code as written reads
      no box, label or sample index: it appends the item's first id with
      count 0 and no results, whatever the box and label tensors hold. */
  lemma {:induction false} RetinaNetNothingKept(item: Item, boxes: seq<real>, scores: seq<real>, labels: seq<real>)
    requires |item.responseIds| > 0
    requires forall i :: 0 <= i < |scores| ==> scores[i] < ScoreThreshold
    ensures RetinaNetAsWritten(item, boxes, scores, labels) == Ok(Buffers([item.responseIds[0]], [0], []))
  {
    NoneKept(scores, |scores|);
  }

  /** Below the threshold throughout, nothing is kept. */
  lemma {:induction false} NoneKept(scores: seq<real>, n: nat)
    requires n <= |scores|
    requires forall i :: 0 <= i < n ==> scores[i] < ScoreThreshold
    ensures KeptIndices(scores, n) == []
  {
    if n > 0 {
      NoneKept(scores, n - 1);
      assert KeptIndices(scores, n) == [] + [];
    }
  }

  /** With one image and two confident detections, the code as written
      reads `sample_idxs[1]`, past the end; attributing both to the image
      reports them under its index. */
  lemma {:induction false} RetinaNetSecondDetection()
    ensures var item := LabelledItem(Unset, [9], [5], 0);
      var boxes := [0.0, 0.0, 8.0, 8.0, 0.0, 0.0, 16.0, 16.0];
      var scores := [0.5, 0.5];
      var labels := [1.0, 2.0];
      && RetinaNetAsWritten(item, boxes, scores, labels) == Err(Unchecked)
      && RetinaNetCorrected(item, boxes, scores, labels).Ok?
      && RetinaNetCorrected(item, boxes, scores, labels).value.results[0] == 5.0
      && RetinaNetCorrected(item, boxes, scores, labels).value.results[7] == 5.0
  {
    var item := LabelledItem(Unset, [9], [5], 0);
    var boxes := [0.0, 0.0, 8.0, 8.0, 0.0, 0.0, 16.0, 16.0];
    var scores := [0.5, 0.5];
    var labels := [1.0, 2.0];
    assert KeptIndices(scores, 1) == [0];
    assert KeptIndices(scores, 2) == [0, 1];
    assert KeptIndices(scores, |scores|)[1] >= |item.sampleIdxs|;
    RetinaNetCorrectedLayout(item, boxes, scores, labels);
    var r := RetinaNetCorrected(item, boxes, scores, labels).value;
    TopK.ChunkAt(r.results, RecordSize, 2, 0);
    TopK.ChunkAt(r.results, RecordSize, 2, 1);
    assert r.results[0] == r.results[0 .. 7][0];
    assert r.results[7] == r.results[7 .. 14][0];
  }

  // ------------------------------------------------------- classification

  /** `static_cast<float>(res[j] - 1)` with `res[j]` unsigned: the top index
      minus one, modulo 2^32 (index 0 wraps around). */
  function ClassValue(index: nat): real
  {
    ((index - 1) % 0x1_0000_0000) as real
  }

  /** `postprocess_classification`: the top-1 index of every batch row of the
      output, one response per row with the item's ids in order, count 1. */
  function Classification(item: Item, out: OutTensor): (r: Result<Buffers>)
    requires Consistent(out)
    ensures r.Ok? ==> |r.value.responseIds| == |r.value.counts| == |r.value.results|
    ensures r.Ok? ==> forall j :: 0 <= j < |r.value.counts| ==> r.value.counts[j] == 1
  {
    var res :- TopK.TopResults(1, out.shape, out.data);
    if |item.responseIds| < |res| then Err(Unchecked)
    else Ok(Buffers(item.responseIds[..|res|], Repeat(1, |res|), seq(|res|, j requires 0 <= j < |res| => ClassValue(res[j]))))
  }

  /** `v` is the class value of an index of `row` whose element is no
      smaller than any other of the row. */
  ghost predicate IsTopClass(row: seq<real>, v: real)
  {
    exists a: nat :: a < |row| && v == ClassValue(a) && forall k :: 0 <= k < |row| ==> row[a] >= row[k]
  }

  /** The classification output: one entry per batch row, in row order, with
      the item's ids; the failure cases; and the value for row j is that of
      an index whose element is a largest of row j. */
  lemma {:induction false} ClassificationLayout(item: Item, out: OutTensor)
    requires Consistent(out)
    ensures var r := Classification(item, out);
      && (r == Err(AssertionFailed) <==> |out.shape| == 0 || out.shape[0] == 0)
      && (|out.shape| > 0 && out.shape[0] > 0 && TopK.Product(out.shape[1..]) > 0 ==>
          var b := out.shape[0];
          var len := TopK.Product(out.shape[1..]);
          && |out.data| == b * len
          && (r == Err(Unchecked) <==> |item.responseIds| < b)
          && (r.Ok? ==>
            && r.value.responseIds == item.responseIds[..b]
            && |r.value.results| == b
            && WellFormed(r.value)
            && forall j :: 0 <= j < b ==> IsTopClass(TopK.Chunks(out.data, len, b)[j], r.value.results[j])))
  {
    var r := Classification(item, out);
    if |out.shape| > 0 && out.shape[0] > 0 && TopK.Product(out.shape[1..]) > 0 {
      var b := out.shape[0];
      var len := TopK.Product(out.shape[1..]);
      assert |out.data| == b * len;
      TopK.TopOneSucceeds(out.shape, out.data);
      var res := TopK.TopRows(out.data, len, 1, b);
      if r.Ok? {
        OnesSum(b);
        forall j | 0 <= j < b
          ensures IsTopClass(TopK.Chunks(out.data, len, b)[j], r.value.results[j])
        {
          TopClassOfRow(out.data, len, b, res, j);
        }
      }
    }
  }

  /** Row j's selection of the top 1 is the j-th index. */
  lemma {:induction false} TopClassOfRow(data: seq<real>, len: nat, b: nat, res: seq<nat>, j: nat)
    requires |data| == b * len && 1 <= len && j < b
    requires res == TopK.TopRows(data, len, 1, b)
    ensures IsTopClass(TopK.Chunks(data, len, b)[j], ClassValue(res[j]))
  {
    var row := TopK.Chunks(data, len, b)[j];
    var sel := TopK.Chunks(res, 1, b)[j];
    assert TopK.IsTopSelection(row, sel, 1);
    TopK.ChunkElem(res, 1, b, j, 0);
    var a := res[j];
    assert sel == [a];
    forall k | 0 <= k < |row|
      ensures row[a] >= row[k]
    {
      if k != a {
        assert k !in sel;
      }
    }
  }

  lemma {:induction false} OnesSum(n: nat)
    ensures Sum(Repeat<nat>(1, n)) == n
  {
    if n > 0 {
      var ones := Repeat<nat>(1, n);
      assert ones[..n - 1] == Repeat<nat>(1, n - 1);
      assert Sum(ones) == Sum(ones[..n - 1]) + ones[n - 1];
      OnesSum(n - 1);
    }
  }

  // ----------------------------------------------------------------- BERT

  /** `xs[0], ys[0], xs[1], ys[1], ...`: start and end logits side by side. */
  function Interleave(xs: seq<real>, ys: seq<real>): (r: seq<real>)
    requires |xs| == |ys|
    ensures |r| == 2 * |xs|
    ensures forall i :: 0 <= i < |xs| ==> r[2 * i] == xs[i] && r[2 * i + 1] == ys[i]
  {
    if |xs| == 0 then []
    else
      var rest := Interleave(xs[1..], ys[1..]);
      assert forall i :: 1 <= i < |xs| ==> rest[2 * (i - 1)] == xs[i] && rest[2 * (i - 1) + 1] == ys[i];
      [xs[0], ys[0]] + rest
  }

  /** The inner loop: `xs[i]` and `ys[i]` stored at `base + 2i` and
      `base + 2i + 1` amount to splicing their interleaving in at `base`. */
  function WritePairs(res: seq<real>, base: nat, xs: seq<real>, ys: seq<real>): (r: seq<real>)
    requires |xs| == |ys| && base + 2 * |xs| <= |res|
    ensures r == res[..base] + Interleave(xs, ys) + res[base + 2 * |xs|..]
    decreases |xs|
  {
    if |xs| == 0 then
      assert res == res[..base] + res[base..];
      res
    else
      var next := res[base := xs[0]][base + 1 := ys[0]];
      assert next[..base + 2] == res[..base] + [xs[0], ys[0]];
      assert next[base + 2 + 2 * (|xs| - 1)..] == res[base + 2 * |xs|..];
      WritePairs(next, base + 2, xs[1..], ys[1..])
  }

  /** Sample `j`'s `offset` logits. */
  function Slice(out: seq<real>, offset: nat, j: nat): (s: seq<real>)
    requires j * offset + offset <= |out|
    ensures |s| == offset
  {
    out[j * offset .. j * offset + offset]
  }

  lemma {:induction false} BlockBounds(j: nat, batch: nat, offset: nat, stride: nat)
    requires j < batch && stride <= 2 * offset
    ensures 0 <= j * offset && 0 <= j * stride
    ensures j * offset + offset <= batch * offset
    ensures j * stride + 2 * offset <= 2 * (batch * offset)
  {
    assert j * offset + offset == (j + 1) * offset;
    assert (j + 1) * offset <= batch * offset;
    assert j * stride <= j * (2 * offset);
  }

  /** The outer loop from sample `j` on: sample j's pairs are written from
      `n0 + j * stride`. */
  function WriteSamples(res: seq<real>, n0: nat, stride: nat, offset: nat, out0: seq<real>, out1: seq<real>, j: nat, batch: nat): (r: seq<real>)
    requires |res| == n0 + 2 * |out0| && stride <= 2 * offset && j <= batch
    requires batch * offset <= |out0| && batch * offset <= |out1|
    ensures |r| == |res|
    decreases batch - j
  {
    if j == batch then res
    else
      BlockBounds(j, batch, offset, stride);
      var next := WritePairs(res, n0 + j * stride, Slice(out0, offset, j), Slice(out1, offset, j));
      WriteSamples(next, n0, stride, offset, out0, out1, j + 1, batch)
  }

  /** `postprocess_bert_common` with sample j's pairs written from
      `n0 + j * stride`: `offset = size / batch` logits per sample, results
      grown by 2 * size zeros, then per sample one id and count 2 * offset. */
  function BertWith(b: Buffers, item: Item, batch: nat, out0: seq<real>, out1: seq<real>, perResponse: bool): (r: Result<Buffers>)
    ensures r.Err? ==> r.error == Unchecked
    ensures r.Err? <==> batch == 0 || |out1| < batch * (|out0| / batch) || |item.responseIds| < batch
    ensures r.Ok? ==>
      var offset := |out0| / batch;
      && r.value.responseIds == b.responseIds + item.responseIds[..batch]
      && r.value.counts == b.counts + Repeat(2 * offset, batch)
      && |r.value.results| == |b.results| + 2 * |out0|
      && r.value.results[..|b.results|] == b.results
  {
    if batch == 0 then Err(Unchecked)
    else
      var offset := |out0| / batch;
      DivBound(|out0|, batch);
      if |out1| < batch * offset || |item.responseIds| < batch then Err(Unchecked)
      else
        var stride := if perResponse then 2 * offset else offset;
        Ok(Buffers(b.responseIds + item.responseIds[..batch], b.counts + Repeat(2 * offset, batch),
                   WriteAll(b.results, stride, offset, out0, out1, batch)))
  }

  lemma {:induction false} DivBound(n: nat, d: nat)
    requires d > 0
    ensures d * (n / d) <= n
  {
  }

  /** The results grown by `2 * |out0|` zeros and every sample's pairs
      written from `|prefix| + j * stride`: what was there stays. */
  function WriteAll(prefix: seq<real>, stride: nat, offset: nat, out0: seq<real>, out1: seq<real>, batch: nat): (w: seq<real>)
    requires stride <= 2 * offset && batch * offset <= |out0| && batch * offset <= |out1|
    ensures |w| == |prefix| + 2 * |out0|
    ensures w[..|prefix|] == prefix
  {
    var res := prefix + Repeat(0.0, 2 * |out0|);
    WriteSamplesKeepsPrefix(res, |prefix|, stride, offset, out0, out1, 0, batch);
    assert res[..|prefix|] == prefix;
    WriteSamples(res, |prefix|, stride, offset, out0, out1, 0, batch)
  }

  lemma {:induction false} WriteSamplesKeepsPrefix(res: seq<real>, n0: nat, stride: nat, offset: nat, out0: seq<real>, out1: seq<real>, j: nat, batch: nat)
    requires |res| == n0 + 2 * |out0| && stride <= 2 * offset && j <= batch
    requires batch * offset <= |out0| && batch * offset <= |out1|
    ensures WriteSamples(res, n0, stride, offset, out0, out1, j, batch)[..n0] == res[..n0]
    decreases batch - j
  {
    if j < batch {
      BlockBounds(j, batch, offset, stride);
      var next := WritePairs(res, n0 + j * stride, Slice(out0, offset, j), Slice(out1, offset, j));
      WritePairsKeepsPrefix(res, n0 + j * stride, Slice(out0, offset, j), Slice(out1, offset, j), n0);
      WriteSamplesKeepsPrefix(next, n0, stride, offset, out0, out1, j + 1, batch);
    }
  }

  /** Pairs written from `base` on leave the values before `n0 <= base` alone. */
  lemma {:induction false} WritePairsKeepsPrefix(res: seq<real>, base: nat, xs: seq<real>, ys: seq<real>, n0: nat)
    requires |xs| == |ys| && base + 2 * |xs| <= |res| && n0 <= base
    ensures |WritePairs(res, base, xs, ys)| == |res|
    ensures WritePairs(res, base, xs, ys)[..n0] == res[..n0]
  {
    var r := WritePairs(res, base, xs, ys);
    assert r[..n0] == res[..base][..n0];
  }

  /** As the source is written: sample j's pairs start at `n0 + j * offset`,
      although its response window starts at `n0 + 2 * j * offset`. */
  function BertAsWritten(b: Buffers, item: Item, batch: nat, out0: seq<real>, out1: seq<real>): Result<Buffers>
  {
    BertWith(b, item, batch, out0, out1, false)
  }

  /** Sample j's pairs start at `n0 + 2 * j * offset`, where its window starts. */
  function BertCorrected(b: Buffers, item: Item, batch: nat, out0: seq<real>, out1: seq<real>): Result<Buffers>
  {
    BertWith(b, item, batch, out0, out1, true)
  }

  /** The interleaved logits of the first `j` samples, one after the other. */
  function Blocks(out0: seq<real>, out1: seq<real>, offset: nat, j: nat): (r: seq<real>)
    requires j * offset <= |out0| && j * offset <= |out1|
    ensures |r| == j * (2 * offset)
  {
    if j == 0 then []
    else
      PeelLast(j, offset);
      Blocks(out0, out1, offset, j - 1) + Interleave(Slice(out0, offset, j - 1), Slice(out1, offset, j - 1))
  }

  lemma {:induction false} PeelLast(j: nat, offset: nat)
    requires j > 0
    ensures (j - 1) * offset + offset == j * offset
    ensures (j - 1) * (2 * offset) + 2 * offset == j * (2 * offset)
  {
  }

  /** Chunk j of the blocks is sample j's interleaved logits. */
  lemma {:induction false} BlocksChunks(out0: seq<real>, out1: seq<real>, offset: nat, n: nat, j: nat)
    requires n * offset <= |out0| && n * offset <= |out1| && j < n
    ensures j * offset + offset <= |out0| && j * offset + offset <= |out1|
    ensures TopK.Chunks(Blocks(out0, out1, offset, n), 2 * offset, n)[j]
      == Interleave(Slice(out0, offset, j), Slice(out1, offset, j))
  {
    assert (n - 1) * offset + offset == n * offset;
    BlockBounds(j, n, offset, 2 * offset);
    var prev := Blocks(out0, out1, offset, n - 1);
    var last := Interleave(Slice(out0, offset, n - 1), Slice(out1, offset, n - 1));
    TopK.ChunksSnoc(prev, last, 2 * offset, n - 1);
    if j < n - 1 {
      BlocksChunks(out0, out1, offset, n - 1, j);
    }
  }

  /** Writing sample j's pairs right after the first j blocks turns the
      zeros there into block j. */
  lemma {:induction false} SpliceBlock(p: seq<real>, out0: seq<real>, out1: seq<real>, offset: nat, j: nat, z: nat)
    requires j * offset + offset <= |out0| && j * offset + offset <= |out1|
    requires z >= 2 * offset
    ensures j * offset <= |out0| && j * offset <= |out1|
    ensures (j + 1) * offset <= |out0| && (j + 1) * offset <= |out1|
    ensures var res := p + Blocks(out0, out1, offset, j) + Repeat(0.0, z);
      && |p| + j * (2 * offset) + 2 * offset <= |res|
      && WritePairs(res, |p| + j * (2 * offset), Slice(out0, offset, j), Slice(out1, offset, j))
         == p + Blocks(out0, out1, offset, j + 1) + Repeat(0.0, z - 2 * offset)
  {
    assert (j + 1) * offset == j * offset + offset;
    var pre := p + Blocks(out0, out1, offset, j);
    var xs, ys := Slice(out0, offset, j), Slice(out1, offset, j);
    SpliceIntoZeros(pre, xs, ys, z);
    assert Blocks(out0, out1, offset, j + 1) == Blocks(out0, out1, offset, j) + Interleave(xs, ys);
    AppendAssoc(p, Blocks(out0, out1, offset, j), Interleave(xs, ys));
  }

  /** Pairs written over the zeros that follow `pre` put their
      interleaving right after `pre`. */
  lemma {:induction false} SpliceIntoZeros(pre: seq<real>, xs: seq<real>, ys: seq<real>, z: nat)
    requires |xs| == |ys| && 2 * |xs| <= z
    ensures |pre| + 2 * |xs| <= |pre + Repeat(0.0, z)|
    ensures WritePairs(pre + Repeat(0.0, z), |pre|, xs, ys) == pre + Interleave(xs, ys) + Repeat(0.0, z - 2 * |xs|)
  {
    var res := pre + Repeat(0.0, z);
    assert res[..|pre|] == pre;
    assert res[|pre| + 2 * |xs|..] == Repeat(0.0, z - 2 * |xs|);
  }


  /** One turn of the outer loop with stride 2 * offset, when the first j
      blocks are in place and zeros follow. */
  lemma {:induction false} WriteSamplesSpliceStep(p: seq<real>, offset: nat, out0: seq<real>, out1: seq<real>, j: nat, batch: nat, z: nat)
    requires j < batch && batch * offset <= |out0| && batch * offset <= |out1|
    requires j * offset <= |out0| && j * offset <= |out1|
    requires j * (2 * offset) + z == 2 * |out0|
    ensures (j + 1) * offset <= |out0| && (j + 1) * offset <= |out1|
    ensures (j + 1) * (2 * offset) + (z - 2 * offset) == 2 * |out0| && z >= 2 * offset
    ensures WriteSamples(p + Blocks(out0, out1, offset, j) + Repeat(0.0, z), |p|, 2 * offset, offset, out0, out1, j, batch)
      == WriteSamples(p + Blocks(out0, out1, offset, j + 1) + Repeat(0.0, z - 2 * offset), |p|, 2 * offset, offset, out0, out1, j + 1, batch)
  {
    SpliceArith(j, batch, offset, |out0|, |out1|, z);
    SpliceBlock(p, out0, out1, offset, j, z);
    var res := p + Blocks(out0, out1, offset, j) + Repeat(0.0, z);
    WriteSamplesUnfold(res, |p|, 2 * offset, offset, out0, out1, j, batch);
  }

  /** The sizes one turn of the outer loop moves between. */
  lemma {:induction false} SpliceArith(j: nat, batch: nat, offset: nat, n0: nat, n1: nat, z: nat)
    requires j < batch && batch * offset <= n0 && batch * offset <= n1
    requires j * (2 * offset) + z == 2 * n0
    ensures j * offset + offset <= n0 && j * offset + offset <= n1
    ensures z >= 2 * offset && (j + 1) * (2 * offset) + (z - 2 * offset) == 2 * n0
  {
    BlockBounds(j, batch, offset, 2 * offset);
    assert (j + 1) * (2 * offset) == j * (2 * offset) + 2 * offset;
  }

  lemma {:induction false} WriteSamplesUnfold(res: seq<real>, n0: nat, stride: nat, offset: nat, out0: seq<real>, out1: seq<real>, j: nat, batch: nat)
    requires |res| == n0 + 2 * |out0| && stride <= 2 * offset && j < batch
    requires batch * offset <= |out0| && batch * offset <= |out1|
    ensures j * offset + offset <= |out0| && j * offset + offset <= |out1|
    ensures n0 + j * stride + 2 * offset <= |res|
    ensures WriteSamples(res, n0, stride, offset, out0, out1, j, batch)
      == WriteSamples(WritePairs(res, n0 + j * stride, Slice(out0, offset, j), Slice(out1, offset, j)), n0, stride, offset, out0, out1, j + 1, batch)
  {
    BlockBounds(j, batch, offset, stride);
  }

  lemma {:induction false} WriteSamplesDone(p: seq<real>, offset: nat, out0: seq<real>, out1: seq<real>, batch: nat, z: nat)
    requires batch * offset <= |out0| && batch * offset <= |out1|
    requires batch * (2 * offset) + z == 2 * |out0|
    ensures WriteSamples(p + Blocks(out0, out1, offset, batch) + Repeat(0.0, z), |p|, 2 * offset, offset, out0, out1, batch, batch)
      == p + Blocks(out0, out1, offset, batch) + Repeat(0.0, 2 * |out0| - batch * (2 * offset))
  {
    assert batch * (2 * offset) == 2 * (batch * offset);
  }

  /** With stride 2 * offset each sample lands right after the previous one. */
  lemma {:induction false} WriteSamplesInOrder(p: seq<real>, offset: nat, out0: seq<real>, out1: seq<real>, j: nat, batch: nat, z: nat)
    requires j <= batch && batch * offset <= |out0| && batch * offset <= |out1|
    requires j * offset <= |out0| && j * offset <= |out1|
    requires j * (2 * offset) + z == 2 * |out0|
    ensures batch * (2 * offset) <= 2 * |out0|
    ensures WriteSamples(p + Blocks(out0, out1, offset, j) + Repeat(0.0, z), |p|, 2 * offset, offset, out0, out1, j, batch)
      == p + Blocks(out0, out1, offset, batch) + Repeat(0.0, 2 * |out0| - batch * (2 * offset))
    decreases batch - j
  {
    if j < batch {
      WriteSamplesSpliceStep(p, offset, out0, out1, j, batch, z);
      WriteSamplesInOrder(p, offset, out0, out1, j + 1, batch, z - 2 * offset);
    } else {
      WriteSamplesDone(p, offset, out0, out1, batch, z);
    }
  }

  /** The BERT layout: per sample one id (the item's, in order) and one
      count of 2 * offset; the results keep what was there and then hold
      the samples' interleaved logits one after the other, so that response
      window j holds exactly sample j's pairs; zeros fill the rest. */
  lemma {:induction false} BertLayout(b: Buffers, item: Item, batch: nat, out0: seq<real>, out1: seq<real>)
    requires batch > 0 && |item.responseIds| >= batch && |out1| >= |out0|
    ensures var offset := |out0| / batch;
      var r := BertCorrected(b, item, batch, out0, out1);
      && batch * offset <= |out0|
      && r.Ok?
      && r.value.responseIds == b.responseIds + item.responseIds[..batch]
      && r.value.counts == b.counts + Repeat(2 * offset, batch)
      && r.value.results == b.results + Blocks(out0, out1, offset, batch) + Repeat(0.0, 2 * |out0| - batch * (2 * offset))
      && forall j :: 0 <= j < batch ==> (j * offset + offset <= |out0| && j * offset + offset <= |out1|
           && TopK.Chunks(Blocks(out0, out1, offset, batch), 2 * offset, batch)[j]
              == Interleave(Slice(out0, offset, j), Slice(out1, offset, j)))
  {
    var offset := |out0| / batch;
    DivBound(|out0|, batch);
    BertLayoutResults(b, item, batch, out0, out1);
    forall j | 0 <= j < batch
      ensures j * offset + offset <= |out0| && j * offset + offset <= |out1|
        && TopK.Chunks(Blocks(out0, out1, offset, batch), 2 * offset, batch)[j]
           == Interleave(Slice(out0, offset, j), Slice(out1, offset, j))
    {
      BlocksChunks(out0, out1, offset, batch, j);
    }
  }

  lemma {:induction false} BertLayoutResults(b: Buffers, item: Item, batch: nat, out0: seq<real>, out1: seq<real>)
    requires batch > 0 && |item.responseIds| >= batch && |out1| >= |out0|
    ensures var offset := |out0| / batch;
      var r := BertCorrected(b, item, batch, out0, out1);
      && batch * offset <= |out0|
      && r.Ok?
      && r.value.responseIds == b.responseIds + item.responseIds[..batch]
      && r.value.counts == b.counts + Repeat(2 * offset, batch)
      && r.value.results == b.results + Blocks(out0, out1, offset, batch) + Repeat(0.0, 2 * |out0| - batch * (2 * offset))
  {
    var offset := |out0| / batch;
    DivBound(|out0|, batch);
    BertWithResults(b, item, batch, out0, out1, true, offset, 2 * offset);
    assert b.results + Blocks(out0, out1, offset, 0) + Repeat(0.0, 2 * |out0|) == b.results + Repeat(0.0, 2 * |out0|);
    WriteSamplesInOrder(b.results, offset, out0, out1, 0, batch, 2 * |out0|);
  }

  /** With batch 1 the two layouts coincide, and position n0 + 2i holds
      start logit i and n0 + 2i + 1 end logit i. */
  lemma {:induction false} BertBatchOne(b: Buffers, item: Item, out0: seq<real>, out1: seq<real>)
    requires |item.responseIds| >= 1 && |out1| >= |out0|
    ensures BertCorrected(b, item, 1, out0, out1).Ok?
    ensures BertAsWritten(b, item, 1, out0, out1) == BertCorrected(b, item, 1, out0, out1)
    ensures forall i :: 0 <= i < |out0| ==>
      && BertCorrected(b, item, 1, out0, out1).value.results[|b.results| + 2 * i] == out0[i]
      && BertCorrected(b, item, 1, out0, out1).value.results[|b.results| + 2 * i + 1] == out1[i]
  {
    var res := b.results + Repeat(0.0, 2 * |out0|);
    var ys := out1[..|out0|];
    BatchOneResults(b, item, out0, out1);
    var rs := BertCorrected(b, item, 1, out0, out1).value.results;
    assert rs == WritePairs(res, |b.results|, out0, ys);
    forall i | 0 <= i < |out0|
      ensures rs[|b.results| + 2 * i] == out0[i] && rs[|b.results| + 2 * i + 1] == out1[i]
    {
      WritePairsAt(res, |b.results|, out0, ys, i);
      assert ys[i] == out1[i];
    }
  }

  /** With batch 1 both layouts write the one sample's pairs right after
      the old results. */
  lemma {:induction false} BatchOneResults(b: Buffers, item: Item, out0: seq<real>, out1: seq<real>)
    requires |item.responseIds| >= 1 && |out1| >= |out0|
    ensures BertCorrected(b, item, 1, out0, out1).Ok?
    ensures BertAsWritten(b, item, 1, out0, out1) == BertCorrected(b, item, 1, out0, out1)
    ensures |b.results| + 2 * |out0| <= |b.results + Repeat(0.0, 2 * |out0|)|
    ensures BertCorrected(b, item, 1, out0, out1).value.results
      == WritePairs(b.results + Repeat(0.0, 2 * |out0|), |b.results|, out0, out1[..|out0|])
  {
    var offset := |out0|;
    BertWithResults(b, item, 1, out0, out1, false, offset, offset);
    BertWithResults(b, item, 1, out0, out1, true, offset, 2 * offset);
    var res := b.results + Repeat(0.0, 2 * |out0|);
    OneSample(res, |b.results|, offset, offset, out0, out1);
    OneSample(res, |b.results|, 2 * offset, offset, out0, out1);
    assert out0[..offset] == out0;
  }

  /** The outer loop over a single sample is one run of the inner loop. */
  lemma {:induction false} OneSample(res: seq<real>, n0: nat, stride: nat, offset: nat, out0: seq<real>, out1: seq<real>)
    requires |res| == n0 + 2 * |out0| && stride <= 2 * offset && offset <= |out0| && offset <= |out1|
    ensures offset <= |out0| && n0 + 2 * offset <= |res|
    ensures WriteSamples(res, n0, stride, offset, out0, out1, 0, 1) == WritePairs(res, n0, out0[..offset], out1[..offset])
  {
    assert 0 * offset == 0 && 0 * stride == 0 && 1 * offset == offset;
    assert Slice(out0, offset, 0) == out0[..offset] && Slice(out1, offset, 0) == out1[..offset];
    WriteSamplesUnfold(res, n0, stride, offset, out0, out1, 0, 1);
  }

  /** After the inner loop, `base + 2i` holds `xs[i]` and `base + 2i + 1` holds `ys[i]`. */
  lemma {:induction false} WritePairsAt(res: seq<real>, base: nat, xs: seq<real>, ys: seq<real>, i: nat)
    requires |xs| == |ys| && base + 2 * |xs| <= |res| && i < |xs|
    ensures base + 2 * i + 1 < |WritePairs(res, base, xs, ys)|
    ensures WritePairs(res, base, xs, ys)[base + 2 * i] == xs[i]
    ensures WritePairs(res, base, xs, ys)[base + 2 * i + 1] == ys[i]
  {
    var pre := res[..base];
    var mid := Interleave(xs, ys);
    AppendRight(pre, mid + res[base + 2 * |xs|..], 2 * i);
    AppendRight(pre, mid + res[base + 2 * |xs|..], 2 * i + 1);
    AppendAssoc(pre, mid, res[base + 2 * |xs|..]);
  }


  /** With batch 2 and one logit per sample the code as written leaves
      response 1's window holding sample 1's end logit and a zero, where
      sample 1's start and end logits belong. */
  lemma {:induction false} BertOverlap(item: Item, s0: real, s1: real, e0: real, e1: real)
    requires |item.responseIds| >= 2
    ensures BertAsWritten(NoBuffers, item, 2, [s0, s1], [e0, e1]).Ok?
    ensures BertAsWritten(NoBuffers, item, 2, [s0, s1], [e0, e1]).value.results == [s0, s1, e1, 0.0]
  {
    TwoSamples(item, 1, s0, s1, e0, e1);
  }

  /** The corrected layout puts each sample's pair in its own window. */
  lemma {:induction false} BertNoOverlap(item: Item, s0: real, s1: real, e0: real, e1: real)
    requires |item.responseIds| >= 2
    ensures BertCorrected(NoBuffers, item, 2, [s0, s1], [e0, e1]).Ok?
    ensures BertCorrected(NoBuffers, item, 2, [s0, s1], [e0, e1]).value.results == [s0, e0, s1, e1]
  {
    TwoSamples(item, 2, s0, s1, e0, e1);
  }

  /** Two samples of one logit each, written with the given stride: the
      first pair lands at 0, the second at `stride`. */
  lemma {:induction false} TwoSamples(item: Item, stride: nat, s0: real, s1: real, e0: real, e1: real)
    requires 1 <= stride <= 2 && |item.responseIds| >= 2
    ensures var r := BertWith(NoBuffers, item, 2, [s0, s1], [e0, e1], stride == 2);
      && r.Ok?
      && r.value.results == [s0, e0, 0.0, 0.0][stride := s1][stride + 1 := e1]
  {
    var out0, out1 := [s0, s1], [e0, e1];
    assert |out0| / 2 == 1;
    BertWithResults(NoBuffers, item, 2, out0, out1, stride == 2, 1, stride);
    assert NoBuffers.results + Repeat(0.0, 2 * |out0|) == [0.0, 0.0, 0.0, 0.0];
    WriteTwo(stride, s0, s1, e0, e1);
  }

  /** The outer loop over two one-logit samples, over four zeros. */
  lemma {:induction false} WriteTwo(stride: nat, s0: real, s1: real, e0: real, e1: real)
    requires 1 <= stride <= 2
    ensures WriteSamples([0.0, 0.0, 0.0, 0.0], 0, stride, 1, [s0, s1], [e0, e1], 0, 2)
      == [s0, e0, 0.0, 0.0][stride := s1][stride + 1 := e1]
  {
    var w0 := [s0, e0, 0.0, 0.0];
    WriteFirstOfTwo(stride, s0, s1, e0, e1);
    WriteSecondOfTwo(stride, s0, s1, e0, e1);
    var w1 := w0[stride := s1][stride + 1 := e1];
    assert WriteSamples(w1, 0, stride, 1, [s0, s1], [e0, e1], 2, 2) == w1;
  }

  lemma {:induction false} WriteFirstOfTwo(stride: nat, s0: real, s1: real, e0: real, e1: real)
    requires 1 <= stride <= 2
    ensures WriteSamples([0.0, 0.0, 0.0, 0.0], 0, stride, 1, [s0, s1], [e0, e1], 0, 2)
      == WriteSamples([s0, e0, 0.0, 0.0], 0, stride, 1, [s0, s1], [e0, e1], 1, 2)
  {
    var zeros := [0.0, 0.0, 0.0, 0.0];
    assert Slice([s0, s1], 1, 0) == [s0] && Slice([e0, e1], 1, 0) == [e0];
    assert 0 + 0 * stride == 0;
    WriteSamplesUnfold(zeros, 0, stride, 1, [s0, s1], [e0, e1], 0, 2);
    OnePair(zeros, 0, s0, e0);
    assert zeros[0 := s0][1 := e0] == [s0, e0, 0.0, 0.0];
  }

  lemma {:induction false} WriteSecondOfTwo(stride: nat, s0: real, s1: real, e0: real, e1: real)
    requires 1 <= stride <= 2
    ensures WriteSamples([s0, e0, 0.0, 0.0], 0, stride, 1, [s0, s1], [e0, e1], 1, 2)
      == WriteSamples([s0, e0, 0.0, 0.0][stride := s1][stride + 1 := e1], 0, stride, 1, [s0, s1], [e0, e1], 2, 2)
  {
    var w0 := [s0, e0, 0.0, 0.0];
    assert Slice([s0, s1], 1, 1) == [s1] && Slice([e0, e1], 1, 1) == [e1];
    assert 0 + 1 * stride == stride;
    WriteSamplesUnfold(w0, 0, stride, 1, [s0, s1], [e0, e1], 1, 2);
    OnePair(w0, stride, s1, e1);
  }

  /** What `BertWith` appends is the zero-grown results with every
      sample's pairs written from `n0 + j * stride`. */
  lemma {:induction false} BertWithResults(b: Buffers, item: Item, batch: nat, out0: seq<real>, out1: seq<real>, perResponse: bool, offset: nat, stride: nat)
    requires batch > 0 && offset == |out0| / batch && stride == (if perResponse then 2 * offset else offset)
    requires batch * offset <= |out1| && |item.responseIds| >= batch
    ensures batch * offset <= |out0|
    ensures BertWith(b, item, batch, out0, out1, perResponse).Ok?
    ensures BertWith(b, item, batch, out0, out1, perResponse).value.results
      == WriteSamples(b.results + Repeat(0.0, 2 * |out0|), |b.results|, stride, offset, out0, out1, 0, batch)
  {
    DivBound(|out0|, batch);
  }

  /** One pair written at `base` overwrites the two values there. */
  lemma {:induction false} OnePair(res: seq<real>, base: nat, x: real, y: real)
    requires base + 2 <= |res|
    ensures WritePairs(res, base, [x], [y]) == res[base := x][base + 1 := y]
  {
    assert Interleave([x], [y]) == [x, y];
  }

  // ------------------------------------------------- BERT, by position

  /** Local position k of sample s's run of pairs: its start logit k / 2
      when k is even, its end logit k / 2 when k is odd. */
  function PairValue(out0: seq<real>, out1: seq<real>, offset: nat, s: nat, k: nat): real
    requires k < 2 * offset && s * offset + offset <= |out0| && s * offset + offset <= |out1|
  {
    if k % 2 == 0 then out0[s * offset + k / 2] else out1[s * offset + k / 2]
  }

  /** A reference reading of the outer loop, position by position: what
      position q of the appended region holds once samples 0 .. j-1 have
      each written their 2 * offset values from q = s * stride over zeros.
      The last sample whose run covers q decides it; a position no run
      covers keeps its zero. */
  function Written(out0: seq<real>, out1: seq<real>, offset: nat, stride: nat, j: nat, q: nat): real
    requires j * offset <= |out0| && j * offset <= |out1|
  {
    if j == 0 then 0.0
    else
      PeelLast(j, offset);
      if (j - 1) * stride <= q < (j - 1) * stride + 2 * offset then
        PairValue(out0, out1, offset, j - 1, q - (j - 1) * stride)
      else Written(out0, out1, offset, stride, j - 1, q)
  }

  lemma {:induction false} InterleaveAt(xs: seq<real>, ys: seq<real>, k: nat)
    requires |xs| == |ys| && k < 2 * |xs|
    ensures Interleave(xs, ys)[k] == if k % 2 == 0 then xs[k / 2] else ys[k / 2]
  {
    assert k == 2 * (k / 2) || k == 2 * (k / 2) + 1;
  }

  /** The inner loop changes exactly the positions of its run. */
  lemma {:induction false} WritePairsPosition(res: seq<real>, base: nat, xs: seq<real>, ys: seq<real>, p: nat)
    requires |xs| == |ys| && base + 2 * |xs| <= |res| && p < |res|
    ensures WritePairs(res, base, xs, ys)[p]
      == if base <= p < base + 2 * |xs| then Interleave(xs, ys)[p - base] else res[p]
  {
    var pre, mid, post := res[..base], Interleave(xs, ys), res[base + 2 * |xs|..];
    AppendAssoc(pre, mid, post);
    if p < base {
      AppendLeft(pre, mid + post, p);
    } else if p < base + 2 * |xs| {
      AppendRight(pre, mid + post, p - base);
      AppendLeft(mid, post, p - base);
    } else {
      AppendRight(pre, mid + post, p - base);
      AppendRight(mid, post, p - base - 2 * |xs|);
    }
  }

  /** One turn of the outer loop takes the reference reading from j to
      j + 1 samples. */
  lemma {:induction false} WriteSampleStep(res: seq<real>, n0: nat, stride: nat, offset: nat, out0: seq<real>, out1: seq<real>, j: nat, batch: nat, q: nat)
    requires |res| == n0 + 2 * |out0| && stride <= 2 * offset && j < batch
    requires batch * offset <= |out0| && batch * offset <= |out1|
    requires j * offset <= |out0| && j * offset <= |out1| && q < 2 * |out0|
    requires res[n0 + q] == Written(out0, out1, offset, stride, j, q)
    ensures j * offset + offset <= |out0| && j * offset + offset <= |out1|
    ensures (j + 1) * offset <= |out0| && (j + 1) * offset <= |out1|
    ensures n0 + j * stride + 2 * offset <= |res|
    ensures WritePairs(res, n0 + j * stride, Slice(out0, offset, j), Slice(out1, offset, j))[n0 + q]
      == Written(out0, out1, offset, stride, j + 1, q)
  {
    BlockBounds(j, batch, offset, stride);
    assert (j + 1) * offset == j * offset + offset;
    WrittenSnoc(out0, out1, offset, stride, j, q);
    var base := n0 + j * stride;
    var xs, ys := Slice(out0, offset, j), Slice(out1, offset, j);
    WritePairsPosition(res, base, xs, ys, n0 + q);
    if base <= n0 + q < base + 2 * offset {
      InterleaveSlices(out0, out1, offset, j, q - j * stride);
    }
  }

  /** Sample j's interleaved run, position by position. */
  lemma {:induction false} InterleaveSlices(out0: seq<real>, out1: seq<real>, offset: nat, j: nat, k: nat)
    requires j * offset + offset <= |out0| && j * offset + offset <= |out1| && k < 2 * offset
    ensures Interleave(Slice(out0, offset, j), Slice(out1, offset, j))[k] == PairValue(out0, out1, offset, j, k)
  {
    var lo := j * offset;
    InterleaveAt(Slice(out0, offset, j), Slice(out1, offset, j), k);
    var i := k / 2;
    assert out0[lo .. lo + offset][i] == out0[lo + i];
    assert out1[lo .. lo + offset][i] == out1[lo + i];
  }

  /** The reference reading one sample further on. */
  lemma {:induction false} WrittenSnoc(out0: seq<real>, out1: seq<real>, offset: nat, stride: nat, j: nat, q: nat)
    requires j * offset + offset <= |out0| && j * offset + offset <= |out1|
    ensures (j + 1) * offset <= |out0| && (j + 1) * offset <= |out1|
    ensures Written(out0, out1, offset, stride, j + 1, q)
      == if j * stride <= q < j * stride + 2 * offset then PairValue(out0, out1, offset, j, q - j * stride)
         else Written(out0, out1, offset, stride, j, q)
  {
    assert (j + 1) * offset == j * offset + offset;
  }

  /** The outer loop from sample j on, position by position. */
  lemma {:induction false} WriteSamplesAt(res: seq<real>, n0: nat, stride: nat, offset: nat, out0: seq<real>, out1: seq<real>, j: nat, batch: nat, q: nat)
    requires |res| == n0 + 2 * |out0| && stride <= 2 * offset && j <= batch
    requires batch * offset <= |out0| && batch * offset <= |out1|
    requires j * offset <= |out0| && j * offset <= |out1| && q < 2 * |out0|
    requires forall q' :: 0 <= q' < 2 * |out0| ==> res[n0 + q'] == Written(out0, out1, offset, stride, j, q')
    ensures WriteSamples(res, n0, stride, offset, out0, out1, j, batch)[n0 + q] == Written(out0, out1, offset, stride, batch, q)
    decreases batch - j
  {
    if j < batch {
      BlockBounds(j, batch, offset, stride);
      var next := WritePairs(res, n0 + j * stride, Slice(out0, offset, j), Slice(out1, offset, j));
      var j' := j + 1;
      assert j' * offset == j * offset + offset;
      forall q' | 0 <= q' < 2 * |out0|
        ensures next[n0 + q'] == Written(out0, out1, offset, stride, j', q')
      {
        WriteSampleStep(res, n0, stride, offset, out0, out1, j, batch, q');
      }
      WriteSamplesUnfold(res, n0, stride, offset, out0, out1, j, batch);
      WriteSamplesAt(next, n0, stride, offset, out0, out1, j + 1, batch, q);
    }
  }

  /** What either layout appends is, position by position, the reference
      reading after all samples. */
  lemma {:induction false} BertWithAll(b: Buffers, item: Item, batch: nat, out0: seq<real>, out1: seq<real>, perResponse: bool, offset: nat, stride: nat)
    returns (rs: seq<real>)
    requires BertWith(b, item, batch, out0, out1, perResponse).Ok?
    requires batch > 0 && offset == |out0| / batch && stride == (if perResponse then 2 * offset else offset)
    ensures batch * offset <= |out0| && batch * offset <= |out1|
    ensures rs == BertWith(b, item, batch, out0, out1, perResponse).value.results
    ensures |rs| == |b.results| + 2 * |out0|
    ensures forall q :: 0 <= q < 2 * |out0| ==> rs[|b.results| + q] == Written(out0, out1, offset, stride, batch, q)
  {
    rs := BertWith(b, item, batch, out0, out1, perResponse).value.results;
    DivBound(|out0|, batch);
    BertWithResults(b, item, batch, out0, out1, perResponse, offset, stride);
    var res := b.results + Repeat(0.0, 2 * |out0|);
    forall q' | 0 <= q' < 2 * |out0|
      ensures res[|b.results| + q'] == Written(out0, out1, offset, stride, 0, q')
    {
      AppendRight(b.results, Repeat(0.0, 2 * |out0|), q');
    }
    forall q | 0 <= q < 2 * |out0|
      ensures WriteSamples(res, |b.results|, stride, offset, out0, out1, 0, batch)[|b.results| + q]
        == Written(out0, out1, offset, stride, batch, q)
    {
      WriteSamplesAt(res, |b.results|, stride, offset, out0, out1, 0, batch, q);
    }
  }

  lemma {:induction false} MulMono(a: nat, b: nat, c: nat)
    requires a <= b
    ensures a * c <= b * c
  {
    var d := b - a;
    assert b * c == a * c + d * c;
  }

  /** Runs `offset` apart: sample s's run is whole when it is the last
      one, and otherwise sample s + 1's run covers its second half. */
  lemma {:induction false} WrittenOverlapping(out0: seq<real>, out1: seq<real>, offset: nat, j: nat, s: nat, k: nat)
    requires j * offset <= |out0| && j * offset <= |out1| && s < j && k < 2 * offset
    ensures s * offset + offset <= |out0| && s * offset + offset <= |out1|
    ensures s + 1 < j ==> (s + 1) * offset + offset <= |out0| && (s + 1) * offset + offset <= |out1|
    ensures Written(out0, out1, offset, offset, j, s * offset + k)
      == if s + 1 < j && offset <= k then PairValue(out0, out1, offset, s + 1, k - offset)
         else PairValue(out0, out1, offset, s, k)
  {
    BlockBounds(s, j, offset, offset);
    if s + 1 < j {
      BlockBounds(s + 1, j, offset, offset);
    }
    PeelLast(j, offset);
    assert (s + 1) * offset == s * offset + offset;
    if j - 1 == s + 1 {
      if k < offset {
        WrittenOverlapping(out0, out1, offset, j - 1, s, k);
      }
    } else if j - 1 > s + 1 {
      MulMono(s + 2, j - 1, offset);
      assert (s + 2) * offset == s * offset + 2 * offset;
      WrittenOverlapping(out0, out1, offset, j - 1, s, k);
    }
  }

  /** Runs `offset` apart leave the zeros from (j + 1) * offset on. */
  lemma {:induction false} WrittenBeyond(out0: seq<real>, out1: seq<real>, offset: nat, j: nat, q: nat)
    requires j * offset <= |out0| && j * offset <= |out1| && (j + 1) * offset <= q
    ensures Written(out0, out1, offset, offset, j, q) == 0.0
  {
    if j > 0 {
      PeelLast(j, offset);
      assert (j + 1) * offset == (j - 1) * offset + 2 * offset;
      WrittenBeyond(out0, out1, offset, j - 1, q);
    }
  }

  /** Runs `2 * offset` apart never overlap: each sample's run stays whole. */
  lemma {:induction false} WrittenSeparate(out0: seq<real>, out1: seq<real>, offset: nat, j: nat, s: nat, k: nat)
    requires j * offset <= |out0| && j * offset <= |out1| && s < j && k < 2 * offset
    ensures s * offset + offset <= |out0| && s * offset + offset <= |out1|
    ensures Written(out0, out1, offset, 2 * offset, j, s * (2 * offset) + k) == PairValue(out0, out1, offset, s, k)
  {
    BlockBounds(s, j, offset, offset);
    PeelLast(j, offset);
    if j - 1 > s {
      MulMono(s + 1, j - 1, 2 * offset);
      assert (s + 1) * (2 * offset) == s * (2 * offset) + 2 * offset;
      WrittenSeparate(out0, out1, offset, j - 1, s, k);
    }
  }

  /** Local position k of sample s's run when runs start `offset` apart:
      sample s + 1's value at k - offset when that sample exists and its
      run reaches k, otherwise sample s's own. */
  function OverlapValue(out0: seq<real>, out1: seq<real>, offset: nat, batch: nat, s: nat, k: nat): real
    requires batch * offset <= |out0| && batch * offset <= |out1| && s < batch && k < 2 * offset
  {
    BlockBounds(s, batch, offset, offset);
    if s + 1 < batch && offset <= k then
      BlockBounds(s + 1, batch, offset, offset);
      assert (s + 1) * offset == s * offset + offset;
      PairValue(out0, out1, offset, s + 1, k - offset)
    else PairValue(out0, out1, offset, s, k)
  }

  /** Every position of what the code as written appends. Sample s's run
      of 2 * offset values starts at n0 + s * offset, half a response
      window after sample s - 1's: local position k of sample s holds its
      own pair value when s is the last sample or k is in the first half,
      and otherwise sample s + 1's value at k - offset, which overwrote
      it. So position n0 + s * offset + 2i and the one after hold sample
      s's logits i exactly when no later sample writes there. */
  lemma {:induction false} BertAsWrittenAt(b: Buffers, item: Item, batch: nat, out0: seq<real>, out1: seq<real>, s: nat, k: nat)
    requires batch > 0 && BertAsWritten(b, item, batch, out0, out1).Ok?
    requires s < batch && k < 2 * (|out0| / batch)
    ensures var offset := |out0| / batch;
      && batch * offset <= |out0| && batch * offset <= |out1| && 0 <= s * offset
      && |b.results| + s * offset + k < |BertAsWritten(b, item, batch, out0, out1).value.results|
    ensures var offset := |out0| / batch;
      BertAsWritten(b, item, batch, out0, out1).value.results[|b.results| + s * offset + k]
        == OverlapValue(out0, out1, offset, batch, s, k)
  {
    var offset := |out0| / batch;
    DivBound(|out0|, batch);
    LocalBound(s, batch, offset, k, |out0|);
    var q := s * offset + k;
    BertAsWrittenWritten(b, item, batch, out0, out1, q);
    var rs := BertAsWritten(b, item, batch, out0, out1).value.results;
    assert |b.results| + s * offset + k == |b.results| + q;
    OverlappingAt(rs, |b.results|, out0, out1, offset, batch, s, k);
  }

  /** Position q of what the code as written appends is the last write
      there, or the zero it was grown with. */
  lemma {:induction false} BertAsWrittenWritten(b: Buffers, item: Item, batch: nat, out0: seq<real>, out1: seq<real>, q: nat)
    requires batch > 0 && BertAsWritten(b, item, batch, out0, out1).Ok?
    requires q < 2 * |out0|
    ensures var offset := |out0| / batch; batch * offset <= |out0| && batch * offset <= |out1|
    ensures |b.results| + q < |BertAsWritten(b, item, batch, out0, out1).value.results|
    ensures var offset := |out0| / batch;
      BertAsWritten(b, item, batch, out0, out1).value.results[|b.results| + q]
        == Written(out0, out1, offset, offset, batch, q)
  {
    var offset := |out0| / batch;
    var rs := BertWithAll(b, item, batch, out0, out1, false, offset, offset);
  }

  /** Local position k of sample s lies within the 2 * n values appended. */
  lemma {:induction false} LocalBound(s: nat, batch: nat, offset: nat, k: nat, n: nat)
    requires batch * offset <= n && s < batch && k < 2 * offset
    ensures 0 <= s * offset && s * offset + k < 2 * n
  {
    MulMono(s + 1, batch, offset);
    MulMono(1, batch, offset);
  }

  /** A position of the overlapping runs, once the result there is known
      to match the reference reading. */
  lemma {:induction false} OverlappingAt(rs: seq<real>, n0: nat, out0: seq<real>, out1: seq<real>, offset: nat, batch: nat, s: nat, k: nat)
    requires batch * offset <= |out0| && batch * offset <= |out1|
    requires s < batch && k < 2 * offset && n0 + s * offset + k < |rs|
    requires rs[n0 + s * offset + k] == Written(out0, out1, offset, offset, batch, s * offset + k)
    ensures rs[n0 + s * offset + k] == OverlapValue(out0, out1, offset, batch, s, k)
  {
    WrittenOverlapping(out0, out1, offset, batch, s, k);
  }

  /** Past the last sample's run, at (batch + 1) * offset, the code as
      written leaves the zeros it grew the results by. */
  lemma {:induction false} BertAsWrittenTail(b: Buffers, item: Item, batch: nat, out0: seq<real>, out1: seq<real>, q: nat)
    requires batch > 0 && BertAsWritten(b, item, batch, out0, out1).Ok?
    requires (batch + 1) * (|out0| / batch) <= q < 2 * |out0|
    ensures |b.results| + q < |BertAsWritten(b, item, batch, out0, out1).value.results|
    ensures BertAsWritten(b, item, batch, out0, out1).value.results[|b.results| + q] == 0.0
  {
    var offset := |out0| / batch;
    var rs := BertWithAll(b, item, batch, out0, out1, false, offset, offset);
    WrittenBeyond(out0, out1, offset, batch, q);
  }

  /** Every position of the corrected layout's runs: sample s's pair value
      k sits at n0 + 2 * s * offset + k. */
  lemma {:induction false} BertCorrectedAt(b: Buffers, item: Item, batch: nat, out0: seq<real>, out1: seq<real>, s: nat, k: nat)
    requires batch > 0 && BertCorrected(b, item, batch, out0, out1).Ok?
    requires s < batch && k < 2 * (|out0| / batch)
    ensures var offset := |out0| / batch;
      && 0 <= s * (2 * offset) && s * offset + offset <= |out0| && s * offset + offset <= |out1|
      && |b.results| + s * (2 * offset) + k < |BertCorrected(b, item, batch, out0, out1).value.results|
    ensures var offset := |out0| / batch;
      BertCorrected(b, item, batch, out0, out1).value.results[|b.results| + s * (2 * offset) + k]
        == PairValue(out0, out1, offset, s, k)
  {
    var offset := |out0| / batch;
    var rs := BertWithAll(b, item, batch, out0, out1, true, offset, 2 * offset);
    assert rs == BertCorrected(b, item, batch, out0, out1).value.results;
    BlockBounds(s, batch, offset, 2 * offset);
    var q := s * (2 * offset) + k;
    assert q < 2 * |out0|;
    assert rs[|b.results| + q] == Written(out0, out1, offset, 2 * offset, batch, q);
    SeparateAt(rs, |b.results|, out0, out1, offset, batch, s, k);
  }

  /** A position of the separate runs, once the result there is known to
      match the reference reading. */
  lemma {:induction false} SeparateAt(rs: seq<real>, n0: nat, out0: seq<real>, out1: seq<real>, offset: nat, batch: nat, s: nat, k: nat)
    requires batch * offset <= |out0| && batch * offset <= |out1|
    requires s < batch && k < 2 * offset && n0 + s * (2 * offset) + k < |rs|
    requires rs[n0 + s * (2 * offset) + k] == Written(out0, out1, offset, 2 * offset, batch, s * (2 * offset) + k)
    ensures s * offset + offset <= |out0| && s * offset + offset <= |out1|
    ensures rs[n0 + s * (2 * offset) + k] == PairValue(out0, out1, offset, s, k)
  {
    WrittenSeparate(out0, out1, offset, batch, s, k);
  }

  /** No two of the logits are equal. */
  predicate DistinctLogits(out0: seq<real>, out1: seq<real>)
  {
    var all := out0 + out1;
    forall i, j :: 0 <= i < j < |all| ==> all[i] != all[j]
  }

  /** With two or more samples of at least one logit each, the last value
      of response 0's window is sample 0's last end logit in the corrected
      layout but a logit of sample 1 as written; so with distinct logits
      the two layouts never agree. */
  lemma {:induction false} BertAsWrittenDiffers(b: Buffers, item: Item, batch: nat, out0: seq<real>, out1: seq<real>)
    requires BertAsWritten(b, item, batch, out0, out1).Ok?
    requires 2 <= batch <= |out0| && DistinctLogits(out0, out1)
    ensures BertCorrected(b, item, batch, out0, out1).Ok?
    ensures BertAsWritten(b, item, batch, out0, out1) != BertCorrected(b, item, batch, out0, out1)
  {
    var offset := |out0| / batch;
    DivBound(|out0|, batch);
    assert offset >= 1;
    MulMono(2, batch, offset);
    var k := 2 * offset - 1;
    BertAsWrittenAt(b, item, batch, out0, out1, 0, k);
    BertCorrectedAt(b, item, batch, out0, out1, 0, k);
    assert 0 * offset == 0 && 0 * (2 * offset) == 0;
    SecondRunDiffers(out0, out1, offset);
  }

  /** With distinct logits, sample 1's value at offset - 1 is not sample
      0's last end logit. */
  lemma {:induction false} SecondRunDiffers(out0: seq<real>, out1: seq<real>, offset: nat)
    requires 1 <= offset && 2 * offset <= |out0| && 2 * offset <= |out1| && DistinctLogits(out0, out1)
    ensures 0 * offset + offset <= |out0| && 1 * offset + offset <= |out0|
    ensures 0 * offset + offset <= |out1| && 1 * offset + offset <= |out1|
    ensures PairValue(out0, out1, offset, 1, offset - 1) != PairValue(out0, out1, offset, 0, 2 * offset - 1)
  {
    var all := out0 + out1;
    var c := PairValue(out0, out1, offset, 0, 2 * offset - 1);
    var w := PairValue(out0, out1, offset, 1, offset - 1);
    assert c == out1[offset - 1];
    AppendRight(out0, out1, offset - 1);
    var i := offset + (offset - 1) / 2;
    if (offset - 1) % 2 == 0 {
      assert w == out0[i];
      AppendLeft(out0, out1, i);
      assert all[i] != all[|out0| + offset - 1];
    } else {
      assert w == out1[i];
      AppendRight(out0, out1, i);
      assert all[|out0| + offset - 1] != all[|out0| + i];
    }
  }

  // ------------------------------------------------------------ dispatch

  /** The post-processor src/main_ov.cc binds for each workload, applied to
      a finished request's buffers with the pool's batch size. Each reads
      its outputs by the names of the workload's table. Reading past an
      output tensor is undefined behaviour, which the model reports. */
  function PostProcess(workload: WorkloadName, item: Item, outs: Outputs, batch: nat, b: Buffers): (r: Result<Buffers>)
    requires AllConsistent(outs)
    ensures r.Ok? ==> Extends(b, r.value)
    ensures r.Ok? && WellFormed(b) ==> WellFormed(r.value)
    ensures r == Err(RuntimeError) ==> exists name :: name in WorkloadOf(workload).outputNames && name !in outs
  {
    match workload
    case ResNet50 => ResNetStep(item, outs, b)
    case RetinaNet => RetinaNetStep(item, outs, b)
    case Bert => BertStep(item, outs, batch, b)
  }

  /** `postprocess_classification` on the output `softmax_tensor:0`. */
  function ResNetStep(item: Item, outs: Outputs, b: Buffers): (r: Result<Buffers>)
    requires AllConsistent(outs)
    ensures r.Ok? ==> Extends(b, r.value)
    ensures r.Ok? && WellFormed(b) ==> WellFormed(r.value)
    ensures r == Err(RuntimeError) ==> "softmax_tensor:0" !in outs
  {
    var out :- Output(outs, "softmax_tensor:0");
    var extra :- Classification(item, out);
    ClassificationLayout(item, out);
    AppendExtends(b, extra);
    AppendWellFormedIf(b, extra);
    Ok(Append(b, extra))
  }

  /** `postprocess_ssd_retinanet` on the outputs `boxes`, `scores` and
      `labels`; the number of predictions is the first dimension of `scores`.
      Detections are attributed as the code is written, by prediction index. */
  function RetinaNetStep(item: Item, outs: Outputs, b: Buffers): (r: Result<Buffers>)
    requires AllConsistent(outs)
    ensures r.Ok? ==> Extends(b, r.value)
    ensures r.Ok? && WellFormed(b) ==> WellFormed(r.value)
    ensures r == Err(RuntimeError) ==> "boxes" !in outs || "scores" !in outs || "labels" !in outs
  {
    var boxes :- Output(outs, "boxes");
    var scores :- Output(outs, "scores");
    var labels :- Output(outs, "labels");
    if |scores.shape| == 0 || scores.shape[0] > |scores.data| then Err(Unchecked)
    else
      var n := scores.shape[0];
      var extra :- RetinaNetAsWritten(item, boxes.data, scores.data[..n], labels.data);
      RetinaNetWellFormed(item, boxes.data, scores.data[..n], labels.data);
      AppendExtends(b, extra);
      AppendWellFormedIf(b, extra);
      Ok(Append(b, extra))
  }

  /** `postprocess_bert` on the outputs `output_start_logits` and
      `output_end_logits`, with the write stride as the code is written. */
  function BertStep(item: Item, outs: Outputs, batch: nat, b: Buffers): (r: Result<Buffers>)
    requires AllConsistent(outs)
    ensures r.Ok? ==> Extends(b, r.value)
    ensures r.Ok? && WellFormed(b) ==> WellFormed(r.value)
    ensures r == Err(RuntimeError) ==> "output_start_logits" !in outs || "output_end_logits" !in outs
  {
    var out0 :- Output(outs, "output_start_logits");
    var out1 :- Output(outs, "output_end_logits");
    var r :- BertAsWritten(b, item, batch, out0.data, out1.data);
    BertWellFormed(b, item, batch, out0.data, out1.data);
    Ok(r)
  }

  lemma {:induction false} SumRepeat(x: nat, n: nat)
    ensures Sum(Repeat(x, n)) == n * x
  {
    if n > 0 {
      assert Repeat(x, n)[..n - 1] == Repeat(x, n - 1);
      SumRepeat(x, n - 1);
      assert (n - 1) * x + x == n * x;
    }
  }

  /** BERT's counts add up to 2 * batch * offset, within the 2 * size values
      it appends. */
  lemma {:induction false} BertWellFormed(b: Buffers, item: Item, batch: nat, out0: seq<real>, out1: seq<real>)
    requires BertAsWritten(b, item, batch, out0, out1).Ok?
    ensures WellFormed(b) ==> WellFormed(BertAsWritten(b, item, batch, out0, out1).value)
  {
    var r := BertWith(b, item, batch, out0, out1, false);
    var offset := |out0| / batch;
    assert batch * offset <= |out0|;
    if WellFormed(b) {
      RepeatedCountsWellFormed(b, r.value, item.responseIds[..batch], batch, offset, |out0|);
    }
  }

  /** Appending `batch` responses of `2 * offset` values each, and `2 * n`
      values with `batch * offset <= n`, keeps the buffers well formed. */
  lemma {:induction false} RepeatedCountsWellFormed(b: Buffers, r: Buffers, ids: seq<nat>, batch: nat, offset: nat, n: nat)
    requires WellFormed(b) && |ids| == batch && batch * offset <= n
    requires r.responseIds == b.responseIds + ids && r.counts == b.counts + Repeat<nat>(2 * offset, batch)
    requires |r.results| == |b.results| + 2 * n
    ensures WellFormed(r)
  {
    assert batch * (2 * offset) == 2 * (batch * offset);
    SumRepeat(2 * offset, batch);
    SumAppend(b.counts, Repeat<nat>(2 * offset, batch));
    assert Sum(r.counts) == Sum(b.counts) + batch * (2 * offset);
  }

  lemma {:induction false} AppendWellFormedIf(b: Buffers, extra: Buffers)
    requires WellFormed(extra)
    ensures WellFormed(b) ==> WellFormed(Append(b, extra))
  {
    if WellFormed(b) {
      AppendWellFormed(b, extra);
    }
  }

  lemma {:induction false} RetinaNetWellFormed(item: Item, boxes: seq<real>, scores: seq<real>, labels: seq<real>)
    requires RetinaNetAsWritten(item, boxes, scores, labels).Ok?
    ensures WellFormed(RetinaNetAsWritten(item, boxes, scores, labels).value)
  {
    var recs := Records(item, boxes, scores, labels, ByPrediction, |scores|).value;
    assert [|recs|][..0] == [];
  }
}
