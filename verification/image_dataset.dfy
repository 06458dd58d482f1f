/** The image sample library of src/datasets/image_dataset.h, shared by the
    ImageNet and OpenImages data sets: each loaded image is transposed from
    interleaved pixels (HWC) into channel planes (CHW) inside one byte
    buffer allocated per load, and the in-memory slots point into that
    buffer. Decoding and preprocessing an image is OpenCV's work: the model
    is given, per path, the image preprocessing produces. */
module ImageDataset {
  import opened Wrappers
  import opened Seqs
  import opened Items
  import opened Placement
  import Flags
  import Workloads

  /** One pixel of an 8-bit three-channel image (`cv::Vec3b`). */
  type Vec3b = v: seq<Byte> | |v| == 3 witness [0, 0, 0]

  /** An in-memory slot: a default-constructed tensor, or a tensor over the
      buffer of load number `handle`, starting at byte `offset`. */
  datatype ImageSlot = Empty | Loaded(handle: nat, offset: nat)

  /** The library. `images` maps a path to the preprocessed image read from
      it (a path outside the map reads as an empty image). `buffers[n - 1]`
      is the buffer allocated by load number `n`; `handle` is the latest one
      (0 while nothing was ever allocated: a null pointer); `freed` holds
      the loads whose buffer was deleted. */
  datatype Qsl = Qsl(
    scenario: Flags.Scenario, dataset: Workloads.DatasetName, workload: Workloads.WorkloadName,
    datapath: string, width: nat, height: nat, channels: nat,
    totalCount: nat, perfCount: nat,
    imageList: seq<string>, labels: seq<int>,
    images: map<string, seq<Vec3b>>,
    memory: Memory<ImageSlot>,
    buffers: seq<seq<Byte>>, handle: nat, freed: set<nat>)

  /** A library over a parsed image list with nothing loaded or allocated. */
  function NewQsl(scenario: Flags.Scenario, dataset: Workloads.DatasetName, workload: Workloads.WorkloadName,
                  datapath: string, width: nat, height: nat, channels: nat, totalCount: nat, perfCount: nat,
                  imageList: seq<string>, labels: seq<int>, images: map<string, seq<Vec3b>>): (q: Qsl)
    ensures q.memory.slots == [] && q.memory.sampleList == [] && q.buffers == [] && q.handle == 0 && q.freed == {}
    ensures Valid(q)
    ensures q.imageList == imageList && q.labels == labels && q.scenario == scenario
  {
    Qsl(scenario, dataset, workload, datapath, width, height, channels, totalCount, perfCount,
        imageList, labels, images, Memory([], []), [], 0, {})
  }

  /** `TotalSampleCount`: the number of images in the list. */
  function TotalSampleCount(q: Qsl): (n: nat)
    ensures n == |q.imageList|
  {
    |q.imageList|
  }

  /** Pixels per image, `image_height_ * image_width_`. */
  function PixelCount(q: Qsl): nat
  {
    q.height * q.width
  }

  /** Bytes per image, `num_channels_ * image_height_ * image_width_`. */
  function ImageBytes(q: Qsl): nat
  {
    q.channels * PixelCount(q)
  }

  /** Where image `i` of a load starts in its buffer. */
  function Offset(q: Qsl, i: nat): nat
  {
    i * ImageBytes(q)
  }

  /** The shape of a tensor of `n` images. */
  function Shape(q: Qsl, n: nat): seq<nat>
  {
    [n, q.channels, q.height, q.width]
  }

  /** The file an image is read from: ImageNet keeps its images directly
      under the data path, OpenImages under `validation/data`; any other
      data set leaves the path empty. */
  function ImagePath(dataset: Workloads.DatasetName, datapath: string, name: string): string
  {
    match dataset
    case ImageNet2012 => datapath + "/" + name
    case OpenImagesV6 => datapath + "/validation/data/" + name
    case SQuADv11 => ""
  }

  // -------------------------------------------------------- HWC -> CHW

  /** Where plane `ch` starts in a CHW buffer of `n` pixels per plane:
      `ch * n`, counted plane by plane so that the proofs below stay linear. */
  function PlaneStart(ch: nat, n: nat): nat
  {
    if ch == 0 then 0 else PlaneStart(ch - 1, n) + n
  }

  lemma {:induction false} PlaneStartIsProduct(ch: nat, n: nat)
    ensures PlaneStart(ch, n) == ch * n
  {
    if ch > 0 {
      PlaneStartIsProduct(ch - 1, n);
      assert (ch - 1) * n + n == ch * n;
    }
  }

  lemma {:induction false} PlaneStartMonotone(a: nat, b: nat, n: nat)
    requires a <= b
    ensures PlaneStart(a, n) <= PlaneStart(b, n)
    decreases b
  {
    if a < b {
      PlaneStartMonotone(a, b - 1, n);
    }
  }

  /** The position of channel `ch` of pixel `pid` in a CHW buffer of `n`
      pixels per plane. */
  function Chw(ch: nat, pid: nat, n: nat): nat
  {
    PlaneStart(ch, n) + pid
  }

  /** A position inside plane `ch` lies before the planes after it. */
  lemma {:induction false} ChwBound(ch: nat, pid: nat, c: nat, n: nat)
    requires ch < c && pid < n
    ensures Chw(ch, pid, n) < PlaneStart(c, n)
  {
    PlaneStartMonotone(ch + 1, c, n);
  }

  /** Distinct (channel, pixel) pairs land on distinct positions. */
  lemma {:induction false} ChwInjective(c1: nat, p1: nat, c2: nat, p2: nat, n: nat)
    requires p1 < n && p2 < n && (c1 != c2 || p1 != p2)
    ensures Chw(c1, p1, n) != Chw(c2, p2, n)
  {
    if c1 < c2 {
      PlaneStartMonotone(c1 + 1, c2, n);
    } else if c2 < c1 {
      PlaneStartMonotone(c2 + 1, c1, n);
    }
  }

  /** Channel `ch` of the first `n` pixels. */
  function Plane(pixels: seq<Vec3b>, ch: nat, n: nat): (p: seq<Byte>)
    requires ch < 3 && n <= |pixels|
    ensures |p| == n && forall pid :: 0 <= pid < n ==> p[pid] == pixels[pid][ch]
  {
    seq(n, pid requires 0 <= pid < n => pixels[pid][ch])
  }

  /** The first `c` channel planes of the first `n` pixels, one after the other. */
  function Planes(pixels: seq<Vec3b>, c: nat, n: nat): seq<Byte>
    requires c <= 3 && n <= |pixels|
  {
    if c == 0 then [] else Planes(pixels, c - 1, n) + Plane(pixels, c - 1, n)
  }

  /** The planes are `c` planes of `n` bytes each. */
  lemma {:induction false} PlanesLength(pixels: seq<Vec3b>, c: nat, n: nat)
    requires c <= 3 && n <= |pixels|
    ensures |Planes(pixels, c, n)| == PlaneStart(c, n)
  {
    if c > 0 {
      PlanesLength(pixels, c - 1, n);
    }
  }

  /** The planes hold channel `ch` of pixel `pid` at `ch * n + pid`. */
  lemma {:induction false} PlanesIndex(pixels: seq<Vec3b>, c: nat, n: nat, ch: nat, pid: nat)
    requires c <= 3 && n <= |pixels| && ch < c && pid < n
    ensures |Planes(pixels, c, n)| == PlaneStart(c, n)
    ensures Chw(ch, pid, n) < PlaneStart(c, n) && Planes(pixels, c, n)[Chw(ch, pid, n)] == pixels[pid][ch]
  {
    PlanesLength(pixels, c, n);
    PlanesLength(pixels, c - 1, n);
    ChwBound(ch, pid, c, n);
    var pre, last := Planes(pixels, c - 1, n), Plane(pixels, c - 1, n);
    assert Planes(pixels, c, n) == pre + last;
    if ch < c - 1 {
      PlanesIndex(pixels, c - 1, n, ch, pid);
      AppendLeft(pre, last, Chw(ch, pid, n));
    } else {
      AppendRight(pre, last, pid);
    }
  }

  lemma PlanesAt(pixels: seq<Vec3b>, c: nat, n: nat)
    requires c <= 3 && n <= |pixels|
    ensures |Planes(pixels, c, n)| == PlaneStart(c, n)
    ensures forall ch, pid :: 0 <= ch < c && 0 <= pid < n ==>
      Chw(ch, pid, n) < PlaneStart(c, n) && Planes(pixels, c, n)[Chw(ch, pid, n)] == pixels[pid][ch]
  {
    PlanesLength(pixels, c, n);
    forall ch, pid | 0 <= ch < c && 0 <= pid < n
      ensures Chw(ch, pid, n) < PlaneStart(c, n) && Planes(pixels, c, n)[Chw(ch, pid, n)] == pixels[pid][ch]
    {
      PlanesIndex(pixels, c, n, ch, pid);
    }
  }



  /** Bytes holding channel `ch` of pixel `pid` at `ch * n + pid`, for
      every channel and pixel, are the channel planes. */
  lemma {:induction false} PlanesUnique(data: seq<Byte>, pixels: seq<Vec3b>, c: nat, n: nat)
    requires c <= 3 && n <= |pixels| && |data| == PlaneStart(c, n)
    requires forall ch, pid :: 0 <= ch < c && 0 <= pid < n ==> Chw(ch, pid, n) < |data| && data[Chw(ch, pid, n)] == pixels[pid][ch]
    ensures data == Planes(pixels, c, n)
    decreases c
  {
    if c > 0 {
      var lo := PlaneStart(c - 1, n);
      assert |data| == lo + n;
      var pre, last := data[..lo], data[lo..];
      forall ch, pid | 0 <= ch < c - 1 && 0 <= pid < n
        ensures Chw(ch, pid, n) < |pre| && pre[Chw(ch, pid, n)] == pixels[pid][ch]
      {
        ChwBound(ch, pid, c - 1, n);
      }
      PlanesUnique(pre, pixels, c - 1, n);
      forall pid | 0 <= pid < n
        ensures data[lo + pid] == pixels[pid][c - 1]
      {
        assert Chw(c - 1, pid, n) == lo + pid;
      }
      LastPlane(data, pixels, c - 1, n, lo);
      assert data == pre + last;
    }
  }

  lemma {:induction false} LastPlane(data: seq<Byte>, pixels: seq<Vec3b>, ch: nat, n: nat, lo: nat)
    requires ch < 3 && n <= |pixels| && lo + n == |data|
    requires forall pid :: 0 <= pid < n ==> data[lo + pid] == pixels[pid][ch]
    ensures data[lo..] == Plane(pixels, ch, n)
  {
    var last, plane := data[lo..], Plane(pixels, ch, n);
    forall pid | 0 <= pid < n
      ensures last[pid] == plane[pid]
    {
      assert last[pid] == data[lo + pid];
    }
  }

  /** The copy loop of `LoadSamplesToRam`, pixel by pixel and channel by
      channel into a fresh buffer: it produces the channel planes. */
  method TransposeImage(pixels: seq<Vec3b>, c: nat, n: nat) returns (data: seq<Byte>)
    requires c <= 3 && n <= |pixels|
    ensures |data| == c * n
    ensures forall ch, pid :: 0 <= ch < c && 0 <= pid < n ==> Chw(ch, pid, n) < |data| && data[Chw(ch, pid, n)] == pixels[pid][ch]
    ensures data == Planes(pixels, c, n)
  {
    PlaneStartIsProduct(c, n);
    var a := new Byte[c * n](_ => 0);
    var pid := 0;
    while pid < n
      invariant 0 <= pid <= n
      invariant forall p, ch :: 0 <= p < pid && 0 <= ch < c ==> Chw(ch, p, n) < a.Length && a[Chw(ch, p, n)] == pixels[p][ch]
    {
      var ch := 0;
      while ch < c
        invariant 0 <= ch <= c
        invariant forall p, ch' :: 0 <= p < pid && 0 <= ch' < c ==> Chw(ch', p, n) < a.Length && a[Chw(ch', p, n)] == pixels[p][ch']
        invariant forall ch' :: 0 <= ch' < ch ==> Chw(ch', pid, n) < a.Length && a[Chw(ch', pid, n)] == pixels[pid][ch']
      {
        ChwBound(ch, pid, c, n);
        forall p, ch' | 0 <= p < n && 0 <= ch' < c && (p != pid || ch' != ch)
          ensures Chw(ch', p, n) != Chw(ch, pid, n)
        {
          ChwInjective(ch', p, ch, pid, n);
        }
        a[Chw(ch, pid, n)] := pixels[pid][ch];
        ch := ch + 1;
      }
      pid := pid + 1;
    }
    data := a[..];
    PlanesUnique(data, pixels, c, n);
  }

  // ------------------------------------------------------------ buffers

  lemma {:induction false} MulLe(a: nat, b: nat, n: nat)
    requires a <= b
    ensures a * n <= b * n
  {
  }

  lemma {:induction false} MulAdd(a: nat, b: nat, n: nat)
    ensures 0 <= a * n && 0 <= b * n && a * n + b * n == (a + b) * n
  {
  }

  /** Byte sequences laid end to end. */
  function Concat(xs: seq<seq<Byte>>): seq<Byte>
  {
    if |xs| == 0 then [] else Concat(xs[..|xs| - 1]) + xs[|xs| - 1]
  }

  predicate Uniform(xs: seq<seq<Byte>>, len: nat)
  {
    forall k :: 0 <= k < |xs| ==> |xs[k]| == len
  }

  lemma {:induction false} ConcatAppend(a: seq<seq<Byte>>, b: seq<seq<Byte>>)
    ensures Concat(a + b) == Concat(a) + Concat(b)
    decreases |b|
  {
    if |b| > 0 {
      var b' := b[..|b| - 1];
      assert (a + b)[..|a + b| - 1] == a + b';
      ConcatAppend(a, b');
    } else {
      assert a + b == a;
    }
  }

  lemma {:induction false} ConcatLength(xs: seq<seq<Byte>>, len: nat)
    requires Uniform(xs, len)
    ensures |Concat(xs)| == |xs| * len
  {
    if |xs| > 0 {
      ConcatLength(xs[..|xs| - 1], len);
      MulSucc(|xs| - 1, len);
    }
  }

  /** Pieces `s` to `s + b` of equal-length pieces sit at bytes
      `[s * len, (s + b) * len)` of their concatenation. */
  lemma {:induction false} ConcatSlice(xs: seq<seq<Byte>>, len: nat, s: nat, b: nat)
    requires Uniform(xs, len) && s + b <= |xs|
    ensures (s + b) * len <= |Concat(xs)|
    ensures Concat(xs)[s * len .. (s + b) * len] == Concat(xs[s .. s + b])
  {
    var pre, mid, post := xs[..s], xs[s .. s + b], xs[s + b..];
    assert xs == pre + mid + post;
    ConcatAppend(pre + mid, post);
    ConcatAppend(pre, mid);
    assert Uniform(pre, len) && Uniform(mid, len);
    ConcatLength(pre, len);
    ConcatLength(mid, len);
    MulAdd(s, b, len);
    SliceMiddle(Concat(pre), Concat(mid), Concat(post));
  }


  /** Piece `i` of equal-length pieces sits at bytes `[i * len, (i + 1) * len)`. */
  lemma {:induction false} ConcatPiece(xs: seq<seq<Byte>>, len: nat, i: nat)
    requires Uniform(xs, len) && i < |xs|
    ensures (i + 1) * len <= |Concat(xs)|
    ensures Concat(xs)[i * len .. (i + 1) * len] == xs[i]
  {
    ConcatSlice(xs, len, i, 1);
    assert xs[i .. i + 1] == [xs[i]];
    assert Concat([xs[i]]) == Concat([]) + xs[i];
  }

  // --------------------------------------------------------------- load

  /** Reading, checking and transposing the image of `sample`: a sample
      past the image list or an empty image is a `logic_error`, a workload
      other than ResNet50 and RetinaNet a `runtime_error`; reading channel
      three or more of a `Vec3b`, or a pixel past the image, is undefined. */
  function SampleImage(q: Qsl, sample: nat): (r: Result<seq<Byte>>)
    ensures sample >= |q.imageList| ==> r == Err(LogicError)
    ensures r.Ok? <==>
      && sample < |q.imageList|
      && var path := ImagePath(q.dataset, q.datapath, q.imageList[sample]);
      && path in q.images
      && (q.workload == Workloads.ResNet50 || q.workload == Workloads.RetinaNet)
      && q.channels <= 3 && PixelCount(q) <= |q.images[path]|
    ensures r.Err? ==> r.error in {LogicError, RuntimeError, Unchecked}
    ensures r.Ok? ==>
      && |r.value| == ImageBytes(q)
      && var pixels := q.images[ImagePath(q.dataset, q.datapath, q.imageList[sample])];
      && forall ch, pid :: 0 <= ch < q.channels && 0 <= pid < PixelCount(q) ==>
        Chw(ch, pid, PixelCount(q)) < |r.value| && r.value[Chw(ch, pid, PixelCount(q))] == pixels[pid][ch]
  {
    if sample >= |q.imageList| then Err(LogicError)
    else
      var path := ImagePath(q.dataset, q.datapath, q.imageList[sample]);
      if path !in q.images then Err(LogicError)
      else if q.workload != Workloads.ResNet50 && q.workload != Workloads.RetinaNet then Err(RuntimeError)
      else if q.channels > 3 || |q.images[path]| < PixelCount(q) then Err(Unchecked)
      else
        PlanesAt(q.images[path], q.channels, PixelCount(q));
        PlaneStartIsProduct(q.channels, PixelCount(q));
        Ok(Planes(q.images[path], q.channels, PixelCount(q)))
  }

  /** The images of the requested samples, in request order. */
  function Images(q: Qsl, samples: seq<nat>): (rs: seq<Result<seq<Byte>>>)
    ensures |rs| == |samples| && forall i :: 0 <= i < |samples| ==> rs[i] == SampleImage(q, samples[i])
  {
    seq(|samples|, i requires 0 <= i < |samples| => SampleImage(q, samples[i]))
  }

  /** What request `i` of load number `h` places: its slot in the new
      buffer, or the exception its image threw. */
  function SlotValues(q: Qsl, samples: seq<nat>, h: nat): (vs: seq<Result<ImageSlot>>)
    ensures |vs| == |samples|
    ensures forall i :: 0 <= i < |samples| ==>
      vs[i] == if SampleImage(q, samples[i]).Ok? then Ok(Loaded(h, Offset(q, i))) else Err(SampleImage(q, samples[i]).error)
  {
    seq(|samples|, i requires 0 <= i < |samples| =>
      var image := SampleImage(q, samples[i]);
      if image.Ok? then Ok(Loaded(h, Offset(q, i))) else Err(image.error))
  }

  /** The handles recorded are handles of loads that happened. */
  predicate Valid(q: Qsl)
  {
    && q.handle <= |q.buffers|
    && forall h :: h in q.freed ==> 1 <= h <= |q.buffers|
  }

  /** The images of `picks`, in order (an image that cannot be read counts
      as empty). */
  function ImageValues(q: Qsl, picks: seq<nat>): (vs: seq<seq<Byte>>)
    ensures |vs| == |picks|
    ensures forall k :: 0 <= k < |picks| ==> vs[k] == if SampleImage(q, picks[k]).Ok? then SampleImage(q, picks[k]).value else []
  {
    seq(|picks|, k requires 0 <= k < |picks| => var image := SampleImage(q, picks[k]); if image.Ok? then image.value else [])
  }

  /** Reading a slice of requests reads the same images as slicing. */
  lemma {:induction false} ImageValuesSlice(q: Qsl, picks: seq<nat>, s: nat, b: nat)
    requires s + b <= |picks|
    ensures ImageValues(q, picks)[s .. s + b] == ImageValues(q, picks[s .. s + b])
  {
    var whole := ImageValues(q, picks);
    var part := ImageValues(q, picks[s .. s + b]);
    forall k | 0 <= k < b
      ensures whole[s + k] == part[k]
    {
      assert picks[s .. s + b][k] == picks[s + k];
    }
  }

  /** The buffer a load fills: its images laid end to end. */
  function Buffer(images: Result<seq<seq<Byte>>>): seq<Byte>
  {
    if images.Ok? then Concat(images.value) else []
  }

  /** `LoadSamplesToRam`: the first-load sizing, a fresh buffer of one image
      per request (the previous one is not freed), then per request the
      transposed image written at `i * ImageBytes` and its slot placed. */
  function LoadSamples(q: Qsl, samples: seq<nat>): (r: Result<Qsl>)
    ensures r.Err? ==> r.error in {LogicError, RuntimeError, Unchecked}
    ensures r.Ok? ==> r.value == q.(memory := r.value.memory, buffers := r.value.buffers, handle := r.value.handle)
    ensures r.Ok? ==> |r.value.buffers| == |q.buffers| + 1 && r.value.buffers[..|q.buffers|] == q.buffers
    ensures r.Ok? ==> r.value.handle == |q.buffers| + 1
    ensures r.Ok? && Valid(q) ==> Valid(r.value)
  {
    var m := Prepare(q.memory, q.scenario, q.totalCount, |samples|, Empty);
    var h := |q.buffers| + 1;
    var placed := PlaceAll(m, q.scenario, samples, SlotValues(q, samples, h), 0);
    var images := AllOk(Images(q, samples));
    if placed.Err? then Err(placed.error)
    else Ok(q.(memory := placed.value, buffers := q.buffers + [Buffer(images)], handle := h))
  }

  /** A load that succeeds read every requested image, and its buffer holds
      them end to end. */
  lemma {:induction false} LoadedBuffer(q: Qsl, samples: seq<nat>)
    requires LoadSamples(q, samples).Ok?
    ensures forall i :: 0 <= i < |samples| ==> SampleImage(q, samples[i]).Ok?
    ensures LoadSamples(q, samples).value.buffers[|q.buffers|] == Concat(ImageValues(q, samples))
  {
    var images := AllOk(Images(q, samples));
    assert images.Ok? && images.value == ImageValues(q, samples);
  }

  /** A load that succeeds read every requested image, and its buffer holds
      as many images as there were requests, image `i` at bytes
      `[i * ImageBytes, (i + 1) * ImageBytes)`. */
  lemma {:induction false} LoadedBufferHoldsImage(q: Qsl, samples: seq<nat>, i: nat)
    requires LoadSamples(q, samples).Ok? && i < |samples|
    ensures var buffer := LoadSamples(q, samples).value.buffers[|q.buffers|];
      && |buffer| == |samples| * ImageBytes(q)
      && SampleImage(q, samples[i]).Ok?
      && (i + 1) * ImageBytes(q) <= |buffer|
      && buffer[i * ImageBytes(q) .. (i + 1) * ImageBytes(q)] == SampleImage(q, samples[i]).value
  {
    LoadedBuffer(q, samples);
    var values := ImageValues(q, samples);
    assert Uniform(values, ImageBytes(q));
    ConcatLength(values, ImageBytes(q));
    ConcatPiece(values, ImageBytes(q), i);
  }

  /** A first Offline or MultiStream load succeeds exactly when every
      requested image can be read, and slot `i` then points at image `i`
      of the new buffer. */
  lemma {:induction false} FirstLoadByPosition(q: Qsl, samples: seq<nat>)
    requires q.memory.slots == [] && !BySample(q.scenario)
    ensures var r := LoadSamples(q, samples);
      && (r.Ok? <==> forall i :: 0 <= i < |samples| ==> SampleImage(q, samples[i]).Ok?)
      && (r.Ok? ==>
        && |r.value.memory.slots| == |samples|
        && (forall i :: 0 <= i < |samples| ==> r.value.memory.slots[i] == Loaded(|q.buffers| + 1, Offset(q, i)))
        && (q.scenario == Flags.MultiStream ==> r.value.memory.sampleList == samples))
  {
    var values := SlotValues(q, samples, |q.buffers| + 1);
    Placement.FirstLoadByPosition(q.scenario, q.totalCount, samples, values, Empty, q.memory.sampleList);
    ImagesReadWhenPlaced(q, samples);
    SlotValuesAllOk(q, samples, |q.buffers| + 1);
  }

  /** Every slot value is a placement exactly when every image was read. */
  lemma {:induction false} SlotValuesAllOk(q: Qsl, samples: seq<nat>, h: nat)
    ensures var values := SlotValues(q, samples, h);
      (forall j :: 0 <= j < |samples| ==> values[j].Ok?) <==> (forall j :: 0 <= j < |samples| ==> SampleImage(q, samples[j]).Ok?)
  {
    var values := SlotValues(q, samples, h);
    forall j | 0 <= j < |samples|
      ensures values[j].Ok? <==> SampleImage(q, samples[j]).Ok?
    {
    }
  }

  /** A first SingleStream or Server load makes a slot per sample of the
      data set; the slot of a requested sample points at the image of the
      last request for it. */
  lemma {:induction false} FirstLoadBySample(q: Qsl, samples: seq<nat>)
    requires q.memory.slots == [] && BySample(q.scenario)
    ensures var r := LoadSamples(q, samples);
      && (r.Ok? <==> forall i :: 0 <= i < |samples| ==> SampleImage(q, samples[i]).Ok? && samples[i] < q.totalCount)
      && (r.Ok? ==>
        && |r.value.memory.slots| == q.totalCount
        && forall i :: 0 <= i < |samples| ==>
          samples[i] < q.totalCount && r.value.memory.slots[samples[i]] == Loaded(|q.buffers| + 1, Offset(q, LastOf(samples, i))))
  {
    var values := SlotValues(q, samples, |q.buffers| + 1);
    var m := Prepare(q.memory, q.scenario, q.totalCount, |samples|, Empty);
    Placement.FirstLoadBySample(q.scenario, q.totalCount, samples, values, Empty, q.memory.sampleList);
    ImagesReadWhenPlaced(q, samples);
    if PlaceAll(m, q.scenario, samples, values, 0).Ok? {
      PlaceAllBySample(m, q.scenario, samples, values, 0);
    }
  }

  /** When every slot is placed every image was read, so a load fails
      exactly when its placement does. */
  lemma {:induction false} ImagesReadWhenPlaced(q: Qsl, samples: seq<nat>)
    ensures var placed := PlaceAll(Prepare(q.memory, q.scenario, q.totalCount, |samples|, Empty), q.scenario, samples,
                                   SlotValues(q, samples, |q.buffers| + 1), 0);
      && (placed.Ok? ==> AllOk(Images(q, samples)).Ok?)
      && (LoadSamples(q, samples).Ok? <==> placed.Ok?)
      && (placed.Ok? ==> LoadSamples(q, samples).value.memory == placed.value)
  {
  }

  /** `UnloadSamplesFromRam`: the slots are cleared (the MultiStream index
      list is not) and the latest buffer is deleted. Deleting a null
      pointer does nothing; deleting the same buffer twice is undefined. */
  function UnloadSamples(q: Qsl): (r: Result<Qsl>)
    ensures r.Ok? <==> q.handle == 0 || q.handle !in q.freed
    ensures r.Err? ==> r.error == Unchecked
    ensures r.Ok? ==>
      && r.value.memory.slots == [] && r.value.memory.sampleList == q.memory.sampleList
      && r.value.freed == (if q.handle == 0 then q.freed else q.freed + {q.handle})
      && r.value == q.(memory := r.value.memory, freed := r.value.freed)
    ensures r.Ok? && Valid(q) ==> Valid(r.value)
  {
    if q.handle != 0 && q.handle in q.freed then Err(Unchecked)
    else
      var freed := if q.handle == 0 then q.freed else q.freed + {q.handle};
      Ok(q.(memory := q.memory.(slots := []), freed := freed))
  }

  /** A load followed by two unloads deletes its buffer twice: the
      handle is never reset to null. */
  lemma {:induction false} UnloadTwiceAfterLoad(q: Qsl, samples: seq<nat>)
    requires Valid(q) && LoadSamples(q, samples).Ok?
    ensures UnloadSamples(LoadSamples(q, samples).value).Ok?
    ensures UnloadSamples(UnloadSamples(LoadSamples(q, samples).value).value) == Err(Unchecked)
  {
    var loaded := LoadSamples(q, samples).value;
    assert loaded.handle == |q.buffers| + 1 && loaded.freed == q.freed;
  }

  /** Before any load the handle is null, and unloading never fails. */
  lemma {:induction false} UnloadBeforeLoad(q: Qsl)
    requires q.handle == 0
    ensures UnloadSamples(q).Ok? && UnloadSamples(UnloadSamples(q).value).Ok?
  {
  }

  // ------------------------------------------------------------ tensors

  /** The tensor a slot stands for, given the shape it is viewed with. */
  function SlotTensor(s: ImageSlot, shape: seq<nat>): Tensor
  {
    match s
    case Empty => Unset
    case Loaded(h, offset) => Region(h, offset, shape)
  }

  /** The `len` bytes at `offset` of the buffer of load `h`: reading them
      from a buffer that was never allocated, was deleted, or ends sooner
      is undefined. */
  function RegionBytes(q: Qsl, h: nat, offset: int, len: int): (r: Result<seq<Byte>>)
    ensures r.Ok? <==> 1 <= h <= |q.buffers| && h !in q.freed && 0 <= offset && 0 <= len && offset + len <= |q.buffers[h - 1]|
    ensures r.Err? ==> r.error == Unchecked
    ensures r.Ok? ==> r.value == q.buffers[h - 1][offset .. offset + len]
  {
    if 1 <= h <= |q.buffers| && h !in q.freed && 0 <= offset && 0 <= len && offset + len <= |q.buffers[h - 1]|
    then Ok(q.buffers[h - 1][offset .. offset + len]) else Err(Unchecked)
  }

  /** `GetSample`: the slot of `samples[0]` as a one-image tensor, with
      every response id and sample index passed through. */
  function GetSample(q: Qsl, samples: seq<nat>, queryIds: seq<nat>): (r: Result<Item>)
    ensures r.Ok? <==> |samples| > 0 && samples[0] < |q.memory.slots|
    ensures r.Err? ==> r.error == Unchecked
    ensures r.Ok? ==> r.value == MultiTensorItem([SlotTensor(q.memory.slots[samples[0]], Shape(q, 1))], queryIds, samples)
  {
    if |samples| == 0 || samples[0] >= |q.memory.slots| then Err(Unchecked)
    else Ok(MultiTensorItem([SlotTensor(q.memory.slots[samples[0]], Shape(q, 1))], queryIds, samples))
  }

  /** The pointer form of `GetSamples`: the slot of `samples[0]` and, for
      ImageNet only, its label (other data sets leave the label alone). */
  function GetSamples(q: Qsl, samples: seq<nat>): (r: Result<(Tensor, Option<int>)>)
    ensures r.Ok? <==> (|samples| > 0 && samples[0] < |q.memory.slots|
                        && (q.dataset == Workloads.ImageNet2012 ==> samples[0] < |q.labels|))
    ensures r.Err? ==> r.error == Unchecked
    ensures r.Ok? ==> r.value.0 == SlotTensor(q.memory.slots[samples[0]], Shape(q, 1))
    ensures r.Ok? ==> r.value.1 == if q.dataset == Workloads.ImageNet2012 then Some(q.labels[samples[0]]) else None
  {
    if |samples| == 0 || samples[0] >= |q.memory.slots| then Err(Unchecked)
    else if q.dataset != Workloads.ImageNet2012 then Ok((SlotTensor(q.memory.slots[samples[0]], Shape(q, 1)), None))
    else if samples[0] >= |q.labels| then Err(Unchecked)
    else Ok((SlotTensor(q.memory.slots[samples[0]], Shape(q, 1)), Some(q.labels[samples[0]])))
  }

  /** A tensor of `bs` images over the data of slot `start`: outside the
      slot list that is undefined, and the data of a default tensor trips
      OpenVINO's not-initialised assertion. */
  function BatchFrom(q: Qsl, start: nat, bs: nat): (r: Result<seq<Tensor>>)
    ensures r.Ok? <==> start < |q.memory.slots| && q.memory.slots[start].Loaded?
    ensures r.Err? ==> r.error == (if start < |q.memory.slots| then AssertionFailed else Unchecked)
    ensures r.Ok? ==> r.value == [Region(q.memory.slots[start].handle, q.memory.slots[start].offset, Shape(q, bs))]
  {
    if start >= |q.memory.slots| then Err(Unchecked)
    else match q.memory.slots[start]
      case Empty => Err(AssertionFailed)
      case Loaded(h, offset) => Ok([Region(h, offset, Shape(q, bs))])
  }

  /** Batch `i` of `GetSamplesBatched`: `bs` images from slot
      `(i * bs) % perf_count` on, answering positions [i * bs, i * bs + bs). */
  function Batched(q: Qsl, samples: seq<nat>, queryIds: seq<nat>, bs: nat, i: nat): (r: Result<Item>)
    ensures q.perfCount == 0 ==> r == Err(Unchecked)
    ensures q.perfCount > 0 ==> r == MakeBatch(BatchFrom(q, (i * bs) % q.perfCount, bs), samples, queryIds, i * bs, bs)
  {
    if q.perfCount == 0 then Err(Unchecked)
    else MakeBatch(BatchFrom(q, (i * bs) % q.perfCount, bs), samples, queryIds, i * bs, bs)
  }

  /** `GetSamplesBatched`: `numBatches` batches of `bs` queries each. */
  function GetSamplesBatched(q: Qsl, samples: seq<nat>, queryIds: seq<nat>, bs: nat, numBatches: nat): (r: Result<seq<Item>>)
    ensures r.Ok? <==> forall i :: 0 <= i < numBatches ==> Batched(q, samples, queryIds, bs, i).Ok?
    ensures r.Ok? ==> |r.value| == numBatches && (numBatches > 0 ==> q.perfCount > 0)
    ensures r.Ok? ==> forall i :: 0 <= i < numBatches ==>
      && q.perfCount > 0 && AnswersPositions(r.value[i], samples, queryIds, i * bs, bs)
      && var start := (i * bs) % q.perfCount;
      && start < |q.memory.slots| && q.memory.slots[start].Loaded?
      && r.value[i].tensors == [Region(q.memory.slots[start].handle, q.memory.slots[start].offset, Shape(q, bs))]
  {
    var rs := seq(numBatches, i requires 0 <= i < numBatches => Batched(q, samples, queryIds, bs, i));
    assert forall i :: 0 <= i < numBatches ==> rs[i] == Batched(q, samples, queryIds, bs, i);
    AllOk(rs)
  }

  /** The bytes of the image in slot `s`. */
  function SlotBytes(q: Qsl, s: nat): (r: Result<seq<Byte>>)
    ensures r.Ok? ==> |r.value| == ImageBytes(q) && s < |q.memory.slots| && q.memory.slots[s].Loaded?
    ensures r.Ok? ==> RegionBytes(q, q.memory.slots[s].handle, q.memory.slots[s].offset, ImageBytes(q)) == r
    ensures s < |q.memory.slots| && q.memory.slots[s].Empty? ==> r == Err(AssertionFailed)
    ensures r.Err? ==> r.error in {AssertionFailed, Unchecked}
  {
    if s >= |q.memory.slots| then Err(Unchecked)
    else match q.memory.slots[s]
      case Empty => Err(AssertionFailed)
      case Loaded(h, offset) => RegionBytes(q, h, offset, ImageBytes(q))
  }

  /** `t` is a fresh tensor holding, image after image, the images of the
      slots `picks` names. */
  predicate Packs(q: Qsl, t: Tensor, picks: seq<nat>)
  {
    && t.Owned? && t.shape == Shape(q, |picks|) && |t.data| == |picks| * ImageBytes(q)
    && forall k :: 0 <= k < |picks| ==>
      && SlotBytes(q, picks[k]).Ok? && (k + 1) * ImageBytes(q) <= |t.data|
      && t.data[k * ImageBytes(q) .. (k + 1) * ImageBytes(q)] == SlotBytes(q, picks[k]).value
  }

  /** The images of the slots `picks` names, laid end to end, pack them. */
  lemma {:induction false} ConcatPacks(q: Qsl, bytes: seq<seq<Byte>>, picks: seq<nat>)
    requires |bytes| == |picks|
    requires forall k :: 0 <= k < |picks| ==> SlotBytes(q, picks[k]) == Ok(bytes[k])
    ensures Packs(q, Owned(Concat(bytes), Shape(q, |picks|)), picks)
  {
    assert Uniform(bytes, ImageBytes(q));
    ConcatLength(bytes, ImageBytes(q));
    forall k | 0 <= k < |picks|
      ensures (k + 1) * ImageBytes(q) <= |Concat(bytes)| && Concat(bytes)[k * ImageBytes(q) .. (k + 1) * ImageBytes(q)] == bytes[k]
    {
      ConcatPiece(bytes, ImageBytes(q), k);
    }
  }

  /** The copy loop of one server batch from position `k` on: the image of
      the slot each of `samples[k..bs)` names. */
  function PackedImages(q: Qsl, samples: seq<nat>, bs: nat, k: nat): (r: Result<seq<seq<Byte>>>)
    requires k <= bs
    ensures r.Ok? ==>
      && (k < bs ==> bs <= |samples|) && |r.value| == bs - k
      && forall j :: 0 <= j < bs - k ==> SlotBytes(q, samples[k + j]) == Ok(r.value[j])
    ensures r.Err? ==> r.error in {AssertionFailed, Unchecked}
    decreases bs - k
  {
    if k == bs then Ok([])
    else if k >= |samples| then Err(Unchecked)
    else
      var first :- SlotBytes(q, samples[k]);
      var rest :- PackedImages(q, samples, bs, k + 1);
      Ok([first] + rest)
  }

  /** The one batch `GetSamplesBatchedServer` builds, whatever its index: a
      fresh tensor holding the images of the slots `samples[0..bs)` name,
      answering positions [0, bs). */
  function ServerBatch(q: Qsl, samples: seq<nat>, queryIds: seq<nat>, bs: nat): (r: Result<Item>)
    ensures r.Ok? ==> AnswersPositions(r.value, samples, queryIds, 0, bs)
    ensures r.Ok? ==> |r.value.tensors| == 1 && Packs(q, r.value.tensors[0], samples[..bs])
    ensures r.Err? ==> r.error in {AssertionFailed, Unchecked}
  {
    var bytes :- PackedImages(q, samples, bs, 0);
    if bs > |queryIds| then Err(Unchecked)
    else
      assert forall k :: 0 <= k < bs ==> samples[..bs][k] == samples[0 + k];
      ConcatPacks(q, bytes, samples[..bs]);
      Ok(SingleTensorItem(Owned(Concat(bytes), Shape(q, bs)), queryIds[..bs], samples[..bs]))
  }

  /** `GetSamplesBatchedServer` as written: every one of the `numBatches`
      batches is the same batch, built from positions [0, bs). */
  function GetSamplesBatchedServer(q: Qsl, samples: seq<nat>, queryIds: seq<nat>, bs: nat, numBatches: nat): (r: Result<seq<Item>>)
    ensures numBatches == 0 ==> r == Ok([])
    ensures numBatches > 0 ==> (r.Ok? <==> ServerBatch(q, samples, queryIds, bs).Ok?)
    ensures r.Ok? ==> |r.value| == numBatches && forall i :: 0 <= i < numBatches ==> r.value[i] == ServerBatch(q, samples, queryIds, bs).value
  {
    if numBatches == 0 then Ok([])
    else
      var item :- ServerBatch(q, samples, queryIds, bs);
      Ok(Repeat(item, numBatches))
  }

  /** With two batches or more, the query ids the batches answer are the
      first `bs` ones over and over: queries past `bs` are never answered
      and the first ones are answered once per batch. */
  lemma {:induction false} ServerBatchesRepeatFirstQueries(q: Qsl, samples: seq<nat>, queryIds: seq<nat>, bs: nat)
    requires GetSamplesBatchedServer(q, samples, queryIds, bs, 2).Ok?
    ensures AllResponseIds(GetSamplesBatchedServer(q, samples, queryIds, bs, 2).value) == queryIds[..bs] + queryIds[..bs]
  {
    var items := GetSamplesBatchedServer(q, samples, queryIds, bs, 2).value;
    assert items[..1][..0] == [];
    assert AllResponseIds(items[..1]) == AllResponseIds([]) + items[0].responseIds;
  }

  /** The evidently intended server batching: batch `i` packs the images of
      positions [i * bs, i * bs + bs) and answers those positions. */
  function ServerBatchAt(q: Qsl, samples: seq<nat>, queryIds: seq<nat>, bs: nat, i: nat): (r: Result<Item>)
    ensures r.Ok? ==> AnswersPositions(r.value, samples, queryIds, i * bs, bs)
    ensures r.Ok? ==> |r.value.tensors| == 1 && Packs(q, r.value.tensors[0], samples[i * bs .. i * bs + bs])
  {
    if i * bs + bs > |samples| || i * bs + bs > |queryIds| then Err(Unchecked)
    else
      var b := ServerBatch(q, samples[i * bs..], queryIds[i * bs..], bs);
      if b.Err? then Err(b.error)
      else
        assert samples[i * bs..][..bs] == samples[i * bs .. i * bs + bs];
        assert queryIds[i * bs..][..bs] == queryIds[i * bs .. i * bs + bs];
        Ok(b.value)
  }

  /** The corrected `GetSamplesBatchedServer`. */
  function GetSamplesBatchedServerCorrected(q: Qsl, samples: seq<nat>, queryIds: seq<nat>, bs: nat, numBatches: nat): (r: Result<seq<Item>>)
    ensures r.Ok? <==> forall i :: 0 <= i < numBatches ==> ServerBatchAt(q, samples, queryIds, bs, i).Ok?
    ensures r.Ok? ==> |r.value| == numBatches && forall i :: 0 <= i < numBatches ==> r.value[i] == ServerBatchAt(q, samples, queryIds, bs, i).value
  {
    var rs := seq(numBatches, i requires 0 <= i < numBatches => ServerBatchAt(q, samples, queryIds, bs, i));
    assert forall i :: 0 <= i < numBatches ==> rs[i] == ServerBatchAt(q, samples, queryIds, bs, i);
    AllOk(rs)
  }

  /** The corrected batches answer the first `numBatches * bs` queries
      exactly once, in order. */
  lemma {:induction false} CorrectedServerBatchesCoverQueries(q: Qsl, samples: seq<nat>, queryIds: seq<nat>, bs: nat, numBatches: nat)
    requires GetSamplesBatchedServerCorrected(q, samples, queryIds, bs, numBatches).Ok?
    ensures numBatches * bs <= |queryIds|
    ensures AllResponseIds(GetSamplesBatchedServerCorrected(q, samples, queryIds, bs, numBatches).value) == queryIds[..numBatches * bs]
  {
    var items := GetSamplesBatchedServerCorrected(q, samples, queryIds, bs, numBatches).value;
    BatchesCoverQueries(items, samples, queryIds, bs);
  }

  /** One MultiStream batch: the `bs` images from slot `start` on,
      answering positions [lo, lo + bs). */
  function StreamBatch(q: Qsl, samples: seq<nat>, queryIds: seq<nat>, bs: nat, start: nat, lo: nat): (r: Result<Item>)
    ensures r.Ok? ==>
      && AnswersPositions(r.value, samples, queryIds, lo, bs)
      && start < |q.memory.slots| && q.memory.slots[start].Loaded?
      && r.value.tensors == [SlotTensor(q.memory.slots[start], Shape(q, bs))]
  {
    MakeBatch(BatchFrom(q, start, bs), samples, queryIds, lo, bs)
  }

  /** `GetSamplesBatchedMultistream`: batch `i` views `bs` images from the
      position of `samples[0]` in the MultiStream index list plus `i * bs`,
      and answers positions [i * bs, i * bs + bs). */
  function GetSamplesBatchedMultistream(q: Qsl, samples: seq<nat>, queryIds: seq<nat>, bs: nat, numBatches: nat): (r: Result<seq<Item>>)
    ensures |samples| == 0 ==> r == Err(Unchecked)
    ensures |samples| > 0 && Find(q.memory.sampleList, samples[0]) == |q.memory.sampleList| ==> r == Err(LogicError)
    ensures r.Ok? ==>
      && |samples| > 0
      && var index := Find(q.memory.sampleList, samples[0]);
      && index < |q.memory.sampleList|
      && |r.value| == numBatches
      && forall i :: 0 <= i < numBatches ==>
        && AnswersPositions(r.value[i], samples, queryIds, i * bs, bs)
        && index + i * bs < |q.memory.slots| && q.memory.slots[index + i * bs].Loaded?
        && r.value[i].tensors == [SlotTensor(q.memory.slots[index + i * bs], Shape(q, bs))]
  {
    if |samples| == 0 then Err(Unchecked)
    else
      var index := Find(q.memory.sampleList, samples[0]);
      if index == |q.memory.sampleList| then Err(LogicError)
      else
        var rs := seq(numBatches, i requires 0 <= i < numBatches => StreamBatch(q, samples, queryIds, bs, index + i * bs, i * bs));
        assert forall i :: 0 <= i < numBatches ==> rs[i] == StreamBatch(q, samples, queryIds, bs, index + i * bs, i * bs);
        AllOk(rs)
  }

  // ------------------------------------------- what the batches point at

  /** `b` equal-length pieces from piece `s` on of a buffer laid out
      piece by piece are the bytes at `s * len`. */
  lemma {:induction false} RegionOfBuffer(q: Qsl, h: nat, vals: seq<seq<Byte>>, len: nat, s: nat, b: nat)
    requires 1 <= h <= |q.buffers| && h !in q.freed && q.buffers[h - 1] == Concat(vals)
    requires Uniform(vals, len) && s + b <= |vals|
    ensures RegionBytes(q, h, s * len, b * len) == Ok(Concat(vals[s .. s + b]))
  {
    ConcatSlice(vals, len, s, b);
    MulAdd(s, b, len);
  }

  /** After a load, the `b` images from request `s` on lie end to end in
      its buffer. */
  lemma {:induction false} LoadedRegion(q: Qsl, samples: seq<nat>, s: nat, b: nat)
    requires Valid(q) && LoadSamples(q, samples).Ok? && s + b <= |samples|
    ensures RegionBytes(LoadSamples(q, samples).value, |q.buffers| + 1, s * ImageBytes(q), b * ImageBytes(q))
      == Ok(Concat(ImageValues(q, samples[s .. s + b])))
  {
    var loaded := LoadSamples(q, samples).value;
    var vals := ImageValues(q, samples);
    LoadedBuffer(q, samples);
    assert Uniform(vals, ImageBytes(q));
    RegionOfBuffer(loaded, |q.buffers| + 1, vals, ImageBytes(q), s, b);
    ImageValuesSlice(q, samples, s, b);
  }

  /** Slot `s` is placed and the `len` bytes it points at are `bytes`. */
  predicate SlotHolds(q: Qsl, s: nat, len: int, bytes: seq<Byte>)
  {
    && s < |q.memory.slots| && q.memory.slots[s].Loaded?
    && RegionBytes(q, q.memory.slots[s].handle, q.memory.slots[s].offset, len) == Ok(bytes)
  }

  /** SingleStream and Server: after a first load, the slot of every
      requested sample points at that sample's image, so the tensor
      `GetSample` returns for it does. */
  lemma {:induction false} SampleSlotHoldsImage(q: Qsl, samples: seq<nat>, loaded: Qsl, i: nat)
    requires Valid(q) && q.memory.slots == [] && BySample(q.scenario)
    requires LoadSamples(q, samples) == Ok(loaded) && i < |samples|
    ensures SampleImage(q, samples[i]).Ok?
    ensures SlotHolds(loaded, samples[i], ImageBytes(q), SampleImage(q, samples[i]).value)
  {
    SampleSlotPlaced(q, samples, loaded, i);
    LoadedImage(q, samples, LastOf(samples, i));
  }

  /** The slot of a requested sample points at the image of the last
      request for it. */
  lemma {:induction false} SampleSlotPlaced(q: Qsl, samples: seq<nat>, loaded: Qsl, i: nat)
    requires q.memory.slots == [] && BySample(q.scenario)
    requires LoadSamples(q, samples) == Ok(loaded) && i < |samples|
    ensures samples[i] < |loaded.memory.slots| && SampleImage(q, samples[i]).Ok?
    ensures loaded.memory.slots[samples[i]] == Loaded(|q.buffers| + 1, Offset(q, LastOf(samples, i)))
  {
    FirstLoadBySample(q, samples);
  }

  /** After a load, request `j`'s image lies at `j * ImageBytes` of the
      new buffer. */
  lemma {:induction false} LoadedImage(q: Qsl, samples: seq<nat>, j: nat)
    requires Valid(q) && LoadSamples(q, samples).Ok? && j < |samples| && SampleImage(q, samples[j]).Ok?
    ensures RegionBytes(LoadSamples(q, samples).value, |q.buffers| + 1, j * ImageBytes(q), ImageBytes(q))
      == Ok(SampleImage(q, samples[j]).value)
  {
    LoadedRegion(q, samples, j, 1);
    assert 1 * ImageBytes(q) == ImageBytes(q);
    OneImage(q, samples, j);
  }

  /** The images of the one request `j` on, end to end, are its image. */
  lemma {:induction false} OneImage(q: Qsl, samples: seq<nat>, j: nat)
    requires j < |samples| && SampleImage(q, samples[j]).Ok?
    ensures Concat(ImageValues(q, samples[j .. j + 1])) == SampleImage(q, samples[j]).value
  {
    var image := SampleImage(q, samples[j]).value;
    assert samples[j .. j + 1] == [samples[j]];
    assert ImageValues(q, [samples[j]]) == [image];
    assert Concat([image]) == Concat([]) + image;
  }

  /** Offline and MultiStream: after a first load, the slot of request `s`
      points at the images of the `b` requests from `s` on, end to end. */
  lemma {:induction false} PositionSlotHoldsImages(q: Qsl, samples: seq<nat>, loaded: Qsl, s: nat, b: nat)
    requires Valid(q) && q.memory.slots == [] && !BySample(q.scenario)
    requires LoadSamples(q, samples) == Ok(loaded) && s < |samples| && s + b <= |samples|
    ensures SlotHolds(loaded, s, b * ImageBytes(q), Concat(ImageValues(q, samples[s .. s + b])))
  {
    FirstLoadByPosition(q, samples);
    LoadedRegion(q, samples, s, b);
  }

  /** Offline: after a first load, batch `i` of `GetSamplesBatched` points
      at the images of the `bs` requests from `(i * bs) % perf_count` on,
      whichever queries the batch answers. */
  lemma {:induction false} OfflineBatchSeesLoadedRequests(q: Qsl, samples: seq<nat>, loaded: Qsl, querySamples: seq<nat>, queryIds: seq<nat>, bs: nat, numBatches: nat, i: nat, start: nat)
    requires Valid(q) && q.memory.slots == [] && q.scenario == Flags.Offline
    requires LoadSamples(q, samples) == Ok(loaded)
    requires GetSamplesBatched(loaded, querySamples, queryIds, bs, numBatches).Ok?
    requires i < numBatches && bs > 0 && q.perfCount > 0 && start == (i * bs) % q.perfCount && start + bs <= |samples|
    ensures start < |loaded.memory.slots|
    ensures GetSamplesBatched(loaded, querySamples, queryIds, bs, numBatches).value[i].tensors
      == [SlotTensor(loaded.memory.slots[start], Shape(q, bs))]
    ensures SlotHolds(loaded, start, bs * ImageBytes(q), Concat(ImageValues(q, samples[start .. start + bs])))
  {
    SameSettings(q, samples, loaded);
    BatchedTensorAt(loaded, querySamples, queryIds, bs, numBatches, i);
    PositionSlotHoldsImages(q, samples, loaded, start, bs);
  }

  /** A load changes only the slots and the buffers. */
  lemma {:induction false} SameSettings(q: Qsl, samples: seq<nat>, loaded: Qsl)
    requires LoadSamples(q, samples) == Ok(loaded)
    ensures loaded.perfCount == q.perfCount && loaded.scenario == q.scenario
    ensures loaded.channels == q.channels && loaded.height == q.height && loaded.width == q.width
  {
  }

  /** Batch `i` of `GetSamplesBatched` is the region slot
      `(i * bs) % perf_count` points at. */
  lemma {:induction false} BatchedTensorAt(q: Qsl, samples: seq<nat>, queryIds: seq<nat>, bs: nat, numBatches: nat, i: nat)
    requires GetSamplesBatched(q, samples, queryIds, bs, numBatches).Ok? && i < numBatches
    ensures q.perfCount > 0 && (i * bs) % q.perfCount < |q.memory.slots|
    ensures GetSamplesBatched(q, samples, queryIds, bs, numBatches).value[i].tensors
      == [SlotTensor(q.memory.slots[(i * bs) % q.perfCount], Shape(q, bs))]
  {
    var r := GetSamplesBatched(q, samples, queryIds, bs, numBatches);
    var start := (i * bs) % q.perfCount;
    assert start < |q.memory.slots| && q.memory.slots[start].Loaded?;
    assert r.value[i].tensors == [Region(q.memory.slots[start].handle, q.memory.slots[start].offset, Shape(q, bs))];
  }

  /** MultiStream: after a first load of a query's samples, batch `i` of
      `GetSamplesBatchedMultistream` points at exactly the images of the
      samples it answers, in order. */
  lemma {:induction false} MultistreamBatchSeesItsSamples(q: Qsl, samples: seq<nat>, loaded: Qsl, queryIds: seq<nat>, bs: nat, numBatches: nat, i: nat, lo: nat)
    requires Valid(q) && q.memory.slots == [] && q.scenario == Flags.MultiStream
    requires LoadSamples(q, samples) == Ok(loaded)
    requires GetSamplesBatchedMultistream(loaded, samples, queryIds, bs, numBatches).Ok?
    requires i < numBatches && bs > 0 && lo == i * bs
    ensures var item := GetSamplesBatchedMultistream(loaded, samples, queryIds, bs, numBatches).value[i];
      && lo < |loaded.memory.slots| && item.tensors == [SlotTensor(loaded.memory.slots[lo], Shape(q, bs))]
      && SlotHolds(loaded, lo, bs * ImageBytes(q), Concat(ImageValues(q, item.sampleIdxs)))
  {
    MultistreamBatchAt(q, samples, loaded, queryIds, bs, numBatches, i, lo);
    PositionSlotHoldsImages(q, samples, loaded, lo, bs);
  }

  /** After a first MultiStream load of a query's samples, batch `i` of
      that query starts at slot `i * bs` and answers the samples there. */
  lemma {:induction false} MultistreamBatchAt(q: Qsl, samples: seq<nat>, loaded: Qsl, queryIds: seq<nat>, bs: nat, numBatches: nat, i: nat, lo: nat)
    requires q.memory.slots == [] && q.scenario == Flags.MultiStream
    requires LoadSamples(q, samples) == Ok(loaded)
    requires GetSamplesBatchedMultistream(loaded, samples, queryIds, bs, numBatches).Ok?
    requires i < numBatches && bs > 0 && lo == i * bs
    ensures var item := GetSamplesBatchedMultistream(loaded, samples, queryIds, bs, numBatches).value[i];
      && lo < |loaded.memory.slots| && lo + bs <= |samples| && item.tensors == [SlotTensor(loaded.memory.slots[lo], Shape(q, bs))]
      && item.sampleIdxs == samples[lo .. lo + bs]
  {
    FirstMultistreamLoad(q, samples, loaded);
    BatchOfListedQuery(loaded, samples, queryIds, bs, numBatches, i);
  }

  /** A first MultiStream load lists the query's samples as the index list
      and keeps the image shape. */
  lemma {:induction false} FirstMultistreamLoad(q: Qsl, samples: seq<nat>, loaded: Qsl)
    requires q.memory.slots == [] && q.scenario == Flags.MultiStream
    requires LoadSamples(q, samples) == Ok(loaded)
    ensures loaded.memory.sampleList == samples
    ensures loaded.channels == q.channels && loaded.height == q.height && loaded.width == q.width
  {
    FirstLoadByPosition(q, samples);
    SameSettings(q, samples, loaded);
  }

  /** When the query's samples are the index list, its batch `i` starts
      at slot `i * bs`. */
  lemma {:induction false} BatchOfListedQuery(q: Qsl, samples: seq<nat>, queryIds: seq<nat>, bs: nat, numBatches: nat, i: nat)
    requires q.memory.sampleList == samples
    requires GetSamplesBatchedMultistream(q, samples, queryIds, bs, numBatches).Ok?
    requires i < numBatches && bs > 0
    ensures var item := GetSamplesBatchedMultistream(q, samples, queryIds, bs, numBatches).value[i];
      && i * bs < |q.memory.slots| && i * bs + bs <= |samples|
      && item.tensors == [SlotTensor(q.memory.slots[i * bs], Shape(q, bs))]
      && item.sampleIdxs == samples[i * bs .. i * bs + bs]
  {
    assert Find(samples, samples[0]) == 0;
    var item := GetSamplesBatchedMultistream(q, samples, queryIds, bs, numBatches).value[i];
    assert AnswersPositions(item, samples, queryIds, i * bs, bs);
  }
}
