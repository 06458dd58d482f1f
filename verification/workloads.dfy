/** The workload tables of src/workload_helpers.h: for each supported
    network, the names of its input and output tensors and the dataset it
    is benchmarked on, and the names the program prints for both. */
module Workloads {
  import opened Wrappers

  datatype WorkloadName = ResNet50 | RetinaNet | Bert

  datatype DatasetName = ImageNet2012 | OpenImagesV6 | SQuADv11

  /** `WorkloadBase`: input names, output names, dataset, workload. */
  datatype Workload = Workload(inputNames: seq<string>, outputNames: seq<string>, dataset: DatasetName, name: WorkloadName)

  /** The `ResNet50`, `RetinaNet` and `Bert` classes. */
  function WorkloadOf(name: WorkloadName): (w: Workload)
    ensures w.name == name
  {
    match name
    case ResNet50 => Workload(["input_tensor:0"], ["softmax_tensor:0"], ImageNet2012, ResNet50)
    case RetinaNet => Workload(["images"], ["boxes", "scores", "labels"], OpenImagesV6, RetinaNet)
    case Bert => Workload(["input_ids", "input_mask", "segment_ids"], ["output_start_logits", "output_end_logits"], SQuADv11, Bert)
  }

  /** `operator<<` for a workload name. */
  function WorkloadText(name: WorkloadName): string
  {
    match name
    case ResNet50 => "resnet50"
    case Bert => "bert"
    case RetinaNet => "retinanet"
  }

  /** `operator<<` for a dataset name. */
  function DatasetText(name: DatasetName): string
  {
    match name
    case ImageNet2012 => "imagenet"
    case OpenImagesV6 => "openimages"
    case SQuADv11 => "squad"
  }

  /** The `--model_name` comparisons in src/main_ov.cc that pick the workload. */
  function WorkloadNamed(s: string): (r: Result<WorkloadName>)
    ensures s == "" ==> r == Err(RuntimeError)
    ensures r.Err? ==> r.error == RuntimeError
  {
    if s == "resnet50" then Ok(ResNet50)
    else if s == "bert" then Ok(Bert)
    else if s == "retinanet" then Ok(RetinaNet)
    else Err(RuntimeError)
  }

  /** Reading a printed workload name gives the workload back, and only
      printed names are read. */
  lemma {:induction false} WorkloadNamedInverse(s: string, name: WorkloadName)
    ensures WorkloadNamed(WorkloadText(name)) == Ok(name)
    ensures WorkloadNamed(s).Ok? ==> WorkloadText(WorkloadNamed(s).value) == s
  {
  }

  /** Different workloads print differently, and so do different datasets. */
  lemma {:induction false} TextsInjective(a: WorkloadName, b: WorkloadName, c: DatasetName, d: DatasetName)
    ensures WorkloadText(a) == WorkloadText(b) ==> a == b
    ensures DatasetText(c) == DatasetText(d) ==> c == d
  {
  }

  /** Each workload has its own dataset, and the dataset's printed name is
      the one a user passes with `--dataset`. */
  lemma {:induction false} DatasetsDistinct(a: WorkloadName, b: WorkloadName)
    ensures WorkloadOf(a).dataset == WorkloadOf(b).dataset ==> a == b
  {
  }

  /** Within each table no tensor name occurs twice, and inputs and outputs
      do not share a name: positional binding is unambiguous. */
  lemma {:induction false} TensorNamesDistinct(name: WorkloadName)
    ensures var w := WorkloadOf(name);
      && (forall i, j :: 0 <= i < j < |w.inputNames| ==> w.inputNames[i] != w.inputNames[j])
      && (forall i, j :: 0 <= i < j < |w.outputNames| ==> w.outputNames[i] != w.outputNames[j])
      && (forall i, j :: 0 <= i < |w.inputNames| && 0 <= j < |w.outputNames| ==> w.inputNames[i] != w.outputNames[j])
  {
  }
}
