/** The unit of work handed to an inference request (src/item_ov.h): input
    tensors plus the LoadGen response ids and sample indices they answer. */
module Items {

  /** The three in-memory tensor lists of the SQuAD dataset. */
  datatype Store = InputIds | InputMask | SegmentIds

  /** A byte of an image. */
  type Byte = x: int | 0 <= x < 256

  /** An input tensor, described by where its data comes from rather than by
      memory: an unset (default-constructed) tensor, a tensor that owns its
      data, a view that starts at the data of an in-memory slot of a SQuAD
      list and spans `shape`, or a view that starts at byte `offset` of the
      image buffer allocated by the `handle`-th image load. */
  datatype Tensor =
    | Unset
    | Owned(data: seq<int>, shape: seq<nat>)
    | View(store: Store, slot: nat, shape: seq<nat>)
    | Region(handle: nat, offset: nat, shape: seq<nat>)

  /** The label is an `int` member. Two constructors value-initialise it to
      0, one sets it, and one leaves it uninitialised (an indeterminate value). */
  datatype Label = Label(value: int) | Indeterminate

  datatype Item = Item(tensors: seq<Tensor>, responseIds: seq<nat>, sampleIdxs: seq<nat>, classLabel: Label)

  /** `Item(tensor, response_ids, sample_idxs)`. */
  function SingleTensorItem(t: Tensor, responseIds: seq<nat>, sampleIdxs: seq<nat>): (item: Item)
    ensures item.tensors == [t]
    ensures item.responseIds == responseIds && item.sampleIdxs == sampleIdxs
    ensures item.classLabel == Label(0)
  {
    Item([t], responseIds, sampleIdxs, Label(0))
  }

  /** `Item(tensor, response_ids, sample_idxs, label)`. */
  function LabelledItem(t: Tensor, responseIds: seq<nat>, sampleIdxs: seq<nat>, classLabel: int): (item: Item)
    ensures item.tensors == [t]
    ensures item.responseIds == responseIds && item.sampleIdxs == sampleIdxs
    ensures item.classLabel == Label(classLabel)
  {
    Item([t], responseIds, sampleIdxs, Label(classLabel))
  }

  /** `Item(tensor, sample_idxs)`: no response ids, label not initialised. */
  function UnlabelledItem(t: Tensor, sampleIdxs: seq<nat>): (item: Item)
    ensures item.tensors == [t]
    ensures item.responseIds == [] && item.sampleIdxs == sampleIdxs
    ensures item.classLabel == Indeterminate
  {
    Item([t], [], sampleIdxs, Indeterminate)
  }

  /** `Item(tensors, response_ids, sample_idxs)`: everything kept as given, in order. */
  function MultiTensorItem(ts: seq<Tensor>, responseIds: seq<nat>, sampleIdxs: seq<nat>): (item: Item)
    ensures item.tensors == ts
    ensures item.responseIds == responseIds && item.sampleIdxs == sampleIdxs
    ensures item.classLabel == Label(0)
  {
    Item(ts, responseIds, sampleIdxs, Label(0))
  }

  /** `Item()`: nothing at all, label 0. */
  function EmptyItem(): (item: Item)
    ensures item.tensors == [] && item.responseIds == [] && item.sampleIdxs == []
    ensures item.classLabel == Label(0)
  {
    Item([], [], [], Label(0))
  }

  /** A LoadGen query sample: its response id and the sample index it asks for. */
  datatype QuerySample = QuerySample(id: nat, index: nat)

  /** `n` copies of `x` (the warm-up vectors of sample 0 and response id 1). */
  function Repeat<T>(x: T, n: nat): (s: seq<T>)
    ensures |s| == n
    ensures forall i :: 0 <= i < n ==> s[i] == x
  {
    seq(n, _ => x)
  }
}
