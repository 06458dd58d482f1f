/** The command-line validators and defaults of src/input_flags.h, and the
    name tables src/main_ov.cc uses to turn the accepted strings into test
    settings. A validator's console message is left out; a path validator's
    file-system lookup is a parameter: the set of paths that exist. */
module Flags {
  import opened Wrappers
  import Workloads

  /** The loop every list validator runs: compare against each entry in turn. */
  function Listed(list: seq<string>, value: string): (found: bool)
    ensures found <==> exists i :: 0 <= i < |list| && list[i] == value
  {
    if |list| == 0 then false
    else if value == list[0] then true
    else
      assert forall i :: 0 < i < |list| ==> list[1..][i - 1] == list[i];
      Listed(list[1..], value)
  }

  // ------------------------------------------------------------ scenario

  datatype Scenario = SingleStream | Offline | Server | MultiStream

  function ValidScenario(value: string): bool
  {
    Listed(["SingleStream", "Offline", "Server", "MultiStream"], value)
  }

  const DefaultScenario: string := "SingleStream"

  /** `scenario_map` of src/main_ov.cc, empty string rejected first. */
  function ScenarioNamed(value: string): (r: Result<Scenario>)
    ensures value == "" ==> r == Err(RuntimeError)
    ensures r.Err? ==> r.error == RuntimeError
  {
    if value == "" then Err(RuntimeError)
    else if value == "SingleStream" then Ok(SingleStream)
    else if value == "MultiStream" then Ok(MultiStream)
    else if value == "Server" then Ok(Server)
    else if value == "Offline" then Ok(Offline)
    else Err(RuntimeError)
  }

  /** The validator accepts exactly the names `scenario_map` knows. */
  lemma {:induction false} ScenarioValidatorMatchesMap(value: string)
    ensures ValidScenario(value) <==> ScenarioNamed(value).Ok?
  {
    var list := ["SingleStream", "Offline", "Server", "MultiStream"];
    if ScenarioNamed(value).Ok? {
      if value == "SingleStream" { assert list[0] == value; }
      else if value == "Offline" { assert list[1] == value; }
      else if value == "Server" { assert list[2] == value; }
      else { assert list[3] == value; }
    }
  }

  // ---------------------------------------------------------------- mode

  datatype Mode = AccuracyOnly | PerformanceOnly | SubmissionRun | FindPeakPerformance

  function ValidMode(value: string): bool
  {
    Listed(["Performance", "Accuracy"], value)
  }

  const DefaultMode: string := "Performance"

  /** `mode_map` of src/main_ov.cc, empty string rejected first. */
  function ModeNamed(value: string): (r: Result<Mode>)
    ensures value == "" ==> r == Err(RuntimeError)
    ensures r.Err? ==> r.error == RuntimeError
  {
    if value == "" then Err(RuntimeError)
    else if value == "Accuracy" then Ok(AccuracyOnly)
    else if value == "Performance" then Ok(PerformanceOnly)
    else if value == "Submission" then Ok(SubmissionRun)
    else if value == "FindPeakPerformance" then Ok(FindPeakPerformance)
    else Err(RuntimeError)
  }

  /** Every mode the validator accepts is in `mode_map`, but the map knows
      two more that the validator turns away before the map is consulted. */
  lemma {:induction false} ModeValidatorNarrowerThanMap(value: string)
    ensures ValidMode(value) ==> ModeNamed(value).Ok?
    ensures ModeNamed("Submission").Ok? && !ValidMode("Submission")
    ensures ModeNamed("FindPeakPerformance").Ok? && !ValidMode("FindPeakPerformance")
  {
    var list := ["Performance", "Accuracy"];
    assert list[0] != "Submission" && list[1] != "Submission";
    assert list[0] != "FindPeakPerformance" && list[1] != "FindPeakPerformance";
  }

  // ------------------------------------------------------ dataset, model

  function ValidDataset(value: string): bool
  {
    if |value| == 0 then false else Listed(["imagenet", "openimages", "squad"], value)
  }

  function ValidModelName(value: string): bool
  {
    if |value| == 0 then false else Listed(["resnet50", "retinanet", "bert"], value)
  }

  /** `--dataset` accepts exactly the printed dataset names. */
  lemma {:induction false} DatasetValidatorMatchesNames(value: string)
    ensures ValidDataset(value) <==> exists d :: Workloads.DatasetText(d) == value
  {
    var list := ["imagenet", "openimages", "squad"];
    if ValidDataset(value) {
      var i :| 0 <= i < |list| && list[i] == value;
      if i == 0 { assert Workloads.DatasetText(Workloads.ImageNet2012) == value; }
      else if i == 1 { assert Workloads.DatasetText(Workloads.OpenImagesV6) == value; }
      else { assert Workloads.DatasetText(Workloads.SQuADv11) == value; }
    }
    if exists d :: Workloads.DatasetText(d) == value {
      var d :| Workloads.DatasetText(d) == value;
      match d
      case ImageNet2012 => assert list[0] == value;
      case OpenImagesV6 => assert list[1] == value;
      case SQuADv11 => assert list[2] == value;
    }
  }

  /** `--model_name` accepts exactly the names src/main_ov.cc turns into a
      workload, and those are the printed workload names. */
  lemma {:induction false} ModelNameValidatorMatchesWorkloads(value: string)
    ensures ValidModelName(value) <==> Workloads.WorkloadNamed(value).Ok?
    ensures ValidModelName(value) <==> exists w :: Workloads.WorkloadText(w) == value
  {
    var list := ["resnet50", "retinanet", "bert"];
    if Workloads.WorkloadNamed(value).Ok? {
      if value == "resnet50" { assert list[0] == value; }
      else if value == "retinanet" { assert list[1] == value; }
      else { assert list[2] == value; }
      assert Workloads.WorkloadText(Workloads.WorkloadNamed(value).value) == value;
    }
    if exists w :: Workloads.WorkloadText(w) == value {
      var w :| Workloads.WorkloadText(w) == value;
      Workloads.WorkloadNamedInverse(value, w);
    }
  }

  // --------------------------------------------------------------- paths

  /** `--mlperf_conf`, `--data_path` and `--model_path`: required, and the
      path must exist. */
  function ValidRequiredPath(value: string, existing: set<string>): (ok: bool)
    ensures ok <==> |value| > 0 && value in existing
  {
    if |value| == 0 then false else value in existing
  }

  /** `--user_conf`, `--audit_conf` and `--extensions`: may be omitted;
      when given, the path must exist. */
  function ValidOptionalPath(value: string, existing: set<string>): (ok: bool)
    ensures ok <==> |value| == 0 || value in existing
  {
    if |value| == 0 then true else value in existing
  }

  /** The empty string is the one value told apart from a missing file:
      refused for a required path, accepted for an optional one, whatever
      exists on disk. */
  lemma {:induction false} EmptyPaths(existing: set<string>)
    ensures !ValidRequiredPath("", existing)
    ensures ValidOptionalPath("", existing)
  {
  }

  // ------------------------------------------------------------ defaults

  const DefaultTotalSampleCount: nat := 5000
  const DefaultPerfSampleCount: nat := 256
  const DefaultDevice: string := "CPU"
  const DefaultNireq: nat := 1
  const DefaultNthreads: nat := 0
  const DefaultBatchSize: nat := 1
  const DefaultWarmupIters: nat := 10

  /** The default scenario and mode pass their own validators and name the
      settings src/main_ov.cc starts from. */
  lemma {:induction false} DefaultsValid()
    ensures ValidScenario(DefaultScenario) && ScenarioNamed(DefaultScenario) == Ok(SingleStream)
    ensures ValidMode(DefaultMode) && ModeNamed(DefaultMode) == Ok(PerformanceOnly)
  {
    assert ["SingleStream", "Offline", "Server", "MultiStream"][0] == DefaultScenario;
    assert ["Performance", "Accuracy"][0] == DefaultMode;
  }
}
