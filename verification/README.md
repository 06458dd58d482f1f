# OpenVINO MLPerf LoadGen driver — a Dafny model

This project models the sequential core of the OpenVINO MLPerf inference driver:
- the inference-request pools a backend runs requests on;
- the backend that binds items to requests and waits for them;
- the three systems under test (SingleStream, MultiStream, Server) that turn LoadGen queries into work;
- the post-processors that lay out each request's results;
- the SQuAD and image sample libraries, including the ImageNet list reader and `center_crop`;
- the device-string parsers in C++ and Python;
- `TopResults`;
- the workload tables and the command-line validators.

Everything is an immutable datatype with pure functions; only loops whose invariants matter are methods. Two things keep the model free of threads and hardware:
- **Completions.** When a request is started, the caller says what the device will answer for it: its output tensors and an optional exception. The request then waits in a FIFO of running requests. A call that would block completes the oldest running request first, which is one interleaving the threaded program allows. With nothing running, the wait can never end, and the model reports this as `Deadlock`.
- **LoadGen.** What the driver hands to `QuerySamplesComplete` is kept as a log: `reported`, with one entry per call.

Undefined behaviour in the source is not silently excluded; the model returns `Err(Unchecked)` for it. This covers an unchecked `operator[]` that reads a value, reading past a vector or an output tensor, a null backend pointer and a double `delete[]`. Two unchecked `operator[]` uses are treated as defined, because each only forms a response's address: `&results[idx]` in the request pools (`src/infer_request_wrap.h:247` and `:342`) and `&result[0]` in SingleStream (`src/suts/sut_base.h:95`). Both may sit at the end of the results, and "## Left out" says why the model reports a response there. Where the source throws, the model returns the exception's kind. The one case apart is a post-processor that throws inside the runtime's completion callback. That exception leaves the callback thread and reaches no caller, so the model drops the request instead, as `RequestPool.Complete` states.

Modules:
- `Wrappers`: results and errors.
- `Seqs`: small sequence facts.
- `Items`: `Item`.
- `Text` (in text.dfy): `split`, Python's `str.split`, `std::stoi`.
- `Devices`, `PyDevices`: the device parsers.
- `TopK`: `TopResults`.
- `Workloads`, `Flags`: tables and validators.
- `Responses`: result buffers and response windows.
- `PostProcess`: the post-processors as the code is written, which the dispatch runs, each beside a corrected definition where a finding below applies.
- `RequestPool`.
- `Backend`.
- `Placement`: load sizing and slot placement shared by both libraries.
- `Squad`.
- `ImageDataset` and `Crop`.
- `Imagenet`.
- `Suts`.

## Model

| member | source | states |
|---|---|---|
| Items.SingleTensorItem | src/item_ov.h:21-26 | exactly one tensor; ids and indices kept as given; label value-initialised to 0 |
| Items.LabelledItem | src/item_ov.h:28-33 | exactly one tensor; ids and indices kept as given; label set to the argument |
| Items.UnlabelledItem | src/item_ov.h:35-37 | one tensor; no response ids; label left indeterminate |
| Items.MultiTensorItem | src/item_ov.h:39-45 | tensors, response ids and sample indices kept exactly, in order; label 0 |
| Items.EmptyItem | src/item_ov.h:47 | no tensors, ids or indices; label 0 |
| Text.IndexOf | src/utils.h:29-30 | the position of the first occurrence of the character, or the length when it is absent (`npos`) |
| Text.Split | src/utils.h:16-25 | no piece contains the delimiter; the empty string (and only it) gives no pieces |
| Text.SplitPiecesAvoid | src/utils.h:16-25 | a character absent from the input is absent from every piece |
| Text.JoinSplit | src/utils.h:16-25 | rejoining the pieces of a non-empty string gives it back, except for one trailing delimiter that `getline` swallows |
| Text.SplitJoin | src/utils.h:16-25 | the converse: joining delimiter-free pieces whose last piece is non-empty and splitting again gives the pieces back |
| Text.PySplit | python/3d-unet-kits19/utils.py:10 | Python's split always yields at least one piece, and no piece contains the separator |
| Text.JoinPySplit | python/3d-unet-kits19/utils.py:10 | Python's split never loses a character: joining gives the input back |
| Text.PySplitVersusSplit | python/3d-unet-kits19/utils.py:10 | the two splitters differ only by the trailing empty piece Python adds after a final (or lone) separator |
| Text.Stoi | src/datasets/imagenet.h:35 | `std::stoi` yields only values in `int` range; it fails with `invalid_argument` or `out_of_range` |
| Text.NatToString | src/datasets/imagenet.h:35 | a decimal rendering is non-empty and all digits |
| Text.StoiRoundTrip | src/datasets/imagenet.h:35 | `std::stoi` reads back every `int` written in decimal |
| Devices.DeviceList | src/utils.h:28-31 | without a ':' the whole string; otherwise exactly the text after the first ':' |
| Devices.DeviceName | src/utils.h:34 | a prefix of the piece holding no '.' or '(', cut exactly at the first of them |
| Devices.ParseDevices | src/utils.h:27-36 | one entry per comma-separated piece of the text after the first ':', in order, each without '.', '(' or ',' |
| Devices.ParseDevicesPlainList | src/utils.h:27-36 | for a list of plain names, rejoining the parsed devices gives back the device list |
| Devices.PlainPieces | src/utils.h:32-34 | without '.' or '(' every piece is its own device name |
| Devices.PlainName | src/utils.h:34 | a piece of a list without '.' or '(' is left unchanged by truncation |
| Devices.ToAll | src/utils.h:59-63 | a bare value gives every listed device, and nothing else, that value |
| Devices.ApplyPieces | src/utils.h:43-67 | every key of a successful result is a listed device |
| Devices.ParseValuePerDevice | src/utils.h:38-69 | "" gives the empty map; keys are listed devices; failures are `logic_error`, `runtime_error`, or the unchecked `pop_back` on an empty device list |
| Devices.ErrorKinds | src/utils.h:51-66 | applying the pieces fails only with `logic_error`, `runtime_error`, or the unchecked `pop_back`, and the last only when the device list is empty |
| Devices.LaterPiecesWin | src/utils.h:43-67 | on success each device holds the value of the last piece that mentions it (or applies to all), by a reference reading from the end |
| Devices.ParseSucceedsIffNoBadPiece | src/utils.h:43-67 | parsing succeeds exactly when no piece names an unlisted device or has three or more ':' parts |
| Devices.BareValueAppliesToAll | src/utils.h:59-63 | a lone value with no ',' or ':' is given to every listed device |
| PyDevices.TargetDevice | python/3d-unet-kits19/utils.py:6 | the prefix before the first ':', or the whole string |
| PyDevices.HwDevice | python/3d-unet-kits19/utils.py:11-13 | one leading '-' is stripped; an empty piece raises IndexError |
| PyDevices.HwDevices | python/3d-unet-kits19/utils.py:10-13 | succeeds exactly when no piece is empty, converting each piece in order |
| PyDevices.ParseDevices | python/3d-unet-kits19/utils.py:4-14 | first the target device; with a ':' one more entry per comma-separated piece after it |
| PyDevices.ParseDevicesAgree | python/3d-unet-kits19/utils.py:4-14 | for a list of plain names, the Python result is the target followed by the C++ `parse_devices` result |
| PyDevices.ApplyPieces | python/3d-unet-kits19/utils.py:23-42 | every key of a successful result is a listed device |
| PyDevices.ParseValuePerDevice | python/3d-unet-kits19/utils.py:17-43 | None or "" gives an empty dict; every key is a listed device |
| PyDevices.FailsIffUnknownDevice | python/3d-unet-kits19/utils.py:23-42 | the only failure is a two-part piece naming an unlisted device; pieces with three or more parts are ignored, and the `not device_value_vec` branch never fires |
| PyDevices.LaterPiecesWin | python/3d-unet-kits19/utils.py:23-42 | on success each device holds the value of the last piece that applies to it |
| TopK.Insert | src/utils.h:88-92 | inserting an index adds exactly it to the multiset of indices |
| TopK.InsertSorted | src/utils.h:88-92 | insertion keeps an index list ordered by non-increasing value |
| TopK.SortIndices | src/utils.h:88-92 | the sorted indices are a permutation of 0..n-1 |
| TopK.SortIndicesSorted | src/utils.h:88-92 | the sorted indices are ordered by non-increasing value |
| TopK.TopOfRow | src/utils.h:88-95 | the top-n selection of a row: n distinct in-range indices, ordered by value, none outranked by an index left out |
| TopK.Chunks | src/utils.h:83-86 | a row-major tensor cut into its batch rows, each of the same length |
| TopK.TopRows | src/utils.h:83-96 | for every batch row, its piece of the output is a top-m selection of that row |
| TopK.TopResults | src/utils.h:71-97 | asserts a non-empty shape with non-zero batch; caps n at the tensor size; asking for more than a row holds is unchecked; otherwise `batch * n` indices, each row's piece a top selection of that row |
| TopK.TopOneIsArgMax | src/utils.h:71-97 | top-1 of a tensor yields one index per row, pointing at a largest value of that row |
| Workloads.WorkloadOf | src/workload_helpers.h:40-66 | the table chosen for a workload is that workload's own |
| Workloads.WorkloadNamed | src/main_ov.cc:93-114 | an empty or unknown model name throws `runtime_error` |
| Workloads.WorkloadNamedInverse | src/workload_helpers.h:69-77 | reading a printed workload name gives the workload back, and only printed names are read |
| Workloads.TextsInjective | src/workload_helpers.h:69-87 | different workloads print differently, and so do different datasets |
| Workloads.DatasetsDistinct | src/workload_helpers.h:40-66 | each workload has its own dataset |
| Workloads.TensorNamesDistinct | src/workload_helpers.h:40-66 | within each table no tensor name repeats, and inputs and outputs do not share a name |
| Flags.Listed | src/input_flags.h:14-18 | a list validator accepts exactly the values in its list |
| Flags.ScenarioNamed | src/main_ov.cc:70-81 | an empty scenario name throws `runtime_error`, the only failure |
| Flags.ScenarioValidatorMatchesMap | src/input_flags.h:11-19 | `validate_scenario` accepts exactly the names the scenario map knows |
| Flags.ModeNamed | src/main_ov.cc:57-68 | an empty mode name throws `runtime_error`, the only failure |
| Flags.ModeValidatorNarrowerThanMap | src/input_flags.h:28-36 | every mode the validator accepts is known to the mode map, but the map also knows "Submission" and "FindPeakPerformance", which the validator rejects |
| Flags.DatasetValidatorMatchesNames | src/input_flags.h:121-132 | `validate_dataset` accepts exactly the printed dataset names, so it rejects "" |
| Flags.ModelNameValidatorMatchesWorkloads | src/input_flags.h:158-170 | `validate_model_name` accepts exactly the names that select a workload, and exactly the printed workload names |
| Flags.ValidRequiredPath | src/input_flags.h:44-58 | a required path passes exactly when it is non-empty and exists |
| Flags.ValidOptionalPath | src/input_flags.h:66-80 | an optional path passes exactly when it is empty or exists |
| Flags.EmptyPaths | src/input_flags.h:46-49 | an empty `mlperf_conf` is rejected, while an empty user, audit or extensions path is accepted |
| Flags.DefaultsValid | src/input_flags.h:21-38 | the default scenario and mode pass their own validators and name SingleStream and the performance mode |
| Responses.Append | src/postprocess/post_processors.h:44-45 | appending keeps the old entries of all three vectors as a prefix and adds the new ones after them |
| Responses.AppendWellFormed | src/postprocess/post_processors.h:44-45 | appending one count per response id, covering the appended results, keeps buffers well formed |
| Responses.Windows | src/infer_request_wrap.h:338-346 | one response per recorded count, in order: offset the prefix sum of earlier counts, size `4 * count` |
| Responses.WindowAtEnd | src/infer_request_wrap.h:245-251 | a response's address is formed at the very end of the results exactly when the counts cover all the results and that count and every later one is 0 |
| Responses.WindowsTile | src/infer_request_wrap.h:242-252 | the windows start at 0, each starts where the previous ends, and all lie inside the results |
| PostProcess.Output | src/postprocess/post_processors.h:17-19 | fetching an output tensor fails exactly when the network lacks that name |
| PostProcess.KeptIndices | src/postprocess/post_processors.h:26-34 | the kept predictions all reach the 0.05 score threshold |
| PostProcess.KeptIndicesIncreasing | src/postprocess/post_processors.h:26-34 | kept predictions come in increasing order, each once |
| PostProcess.KeptIndicesComplete | src/postprocess/post_processors.h:26-34 | every prediction reaching the threshold is kept |
| PostProcess.RecordsLayout | src/postprocess/post_processors.h:35-41 | the k-th seven-value record is that of the k-th kept prediction, tagged with the sample index it reads |
| PostProcess.RetinaNetAsWritten | src/postprocess/post_processors.h:6-46 | as written, success needs exactly a response id and, for every kept prediction's own position, a sample index, four box coordinates and a label; predictions below the threshold are never read |
| PostProcess.RetinaNetCorrected | src/postprocess/post_processors.h:6-46 | taking the item's first sample index, success needs exactly a response id, a sample when anything is kept, and the box and label of every kept prediction |
| PostProcess.RetinaNetLayout | src/postprocess/post_processors.h:24-45 | as written, given a response id, and a sample index, box and label at every kept prediction's own position: one response id (the first), one count `7 * kept`, exactly that many results, and record k is kept prediction k tagged with `sample_idxs` at that prediction's index |
| PostProcess.RetinaNetCorrectedLayout | src/postprocess/post_processors.h:35 | reading the item's first sample index instead, a response id and one sample index suffice, and every record is tagged with that sample |
| PostProcess.RetinaNetWellFormed | src/postprocess/post_processors.h:44-45 | whenever the code as written succeeds, its one appended count covers exactly the appended results |
| PostProcess.RetinaNetNothingKept | src/postprocess/post_processors.h:24-45 | with no score reaching 0.05, the code as written appends the first response id with count 0 and no results, however short the box and label tensors are |
| PostProcess.RetinaNetSecondDetection | src/postprocess/post_processors.h:35 | with batch 1 and two detections, reading `sample_idxs[1]` runs off the one-element vector |
| PostProcess.Classification | src/postprocess/post_processors.h:48-64 | one response id, one result and one count per row, and every count is 1 |
| PostProcess.ClassificationLayout | src/postprocess/post_processors.h:48-64 | asserts a batch; too few response ids is unchecked; otherwise ids in order, one result per row, each the top class of its row |
| PostProcess.TopClassOfRow | src/postprocess/post_processors.h:57-60 | the reported class is the top-1 index minus one, wrapping in unsigned arithmetic |
| PostProcess.BertWith | src/postprocess/post_processors.h:76-107 | fails exactly on batch 0 or short inputs; appends `batch` ids and counts `2 * (size / batch)`; results grow by `2 * size` with the old ones kept |
| PostProcess.BertLayout | src/postprocess/post_processors.h:87-101 | with the intended stride, block j of the appended results interleaves start and end logits of sample j |
| PostProcess.BertBatchOne | src/postprocess/post_processors.h:94-100 | with batch 1 the code as written is correct: position 2i holds start logit i and 2i+1 end logit i |
| PostProcess.BertOverlap | src/postprocess/post_processors.h:98-99 | as written, a batch of two writes sample 1's block over sample 0's end logits |
| PostProcess.BertNoOverlap | src/postprocess/post_processors.h:87-101 | with the stride the counts imply, the same batch lays out both samples intact |
| PostProcess.BertWellFormed | src/postprocess/post_processors.h:87-92 | whenever the code as written succeeds, BERT's counts cover exactly the results it appends, whatever the stride bug writes inside them |
| PostProcess.BertAsWrittenAt | src/postprocess/post_processors.h:87-106 | as written, at any batch, local position k of sample s (counted from `n0 + s * offset`) holds sample s + 1's value at k - offset when a later sample exists and k is in the second half, and otherwise sample s's own interleaved logit |
| PostProcess.BertAsWrittenTail | src/postprocess/post_processors.h:91-99 | as written, every position from `(batch + 1) * offset` on keeps the zero the resize put there |
| PostProcess.BertCorrectedAt | src/postprocess/post_processors.h:87-106 | with windows `2 * offset` apart, local position k of sample s holds sample s's own interleaved logit |
| PostProcess.BertAsWrittenDiffers | src/postprocess/post_processors.h:98-99 | with two or more samples of at least one logit each and distinct logits, the code as written and the corrected layout give different results |
| PostProcess.PostProcess | src/postprocess/post_processors.h:66-118 | the dispatch runs each post-processor as written; each only appends, keeps buffers well formed, and throws `runtime_error` only for a missing output tensor |
| PostProcess.ResNetStep | src/postprocess/post_processors.h:66-74 | ResNet50 only appends and keeps buffers well formed; a `runtime_error` means "softmax_tensor:0" is missing |
| PostProcess.RetinaNetStep | src/postprocess/post_processors.h:6-46 | `postprocess_ssd_retinanet` as written, with the prediction count from the first dimension of `scores`, only appends and keeps buffers well formed; a `runtime_error` means one of its three outputs is missing |
| PostProcess.BertStep | src/postprocess/post_processors.h:76-118 | `postprocess_bert` as written, overlapping runs included, only appends and keeps buffers well formed; a `runtime_error` means one of its two outputs is missing |
| RequestPool.StartedSince | src/backend_ov.h:119-124 | the items a pool started between two states, in start order |
| RequestPool.StartedSinceStarts | src/backend_ov.h:119-124 | a run of starts, appended to the history, is read back as exactly its items |
| RequestPool.SetInputs | src/infer_request_wrap.h:119-129 | binding fails (unchecked) exactly when the item has fewer tensors than the network has inputs; buffers are untouched |
| RequestPool.SetInputsBatchSize | src/infer_request_wrap.h:119-133 | after binding, the batch size is the item's number of sample indices and the bound item is the item |
| RequestPool.ResetSlot | src/infer_request_wrap.h:143-148 | a slot's ids, counts and results are cleared and its item kept |
| RequestPool.NewPool | src/infer_request_wrap.h:185-198 | N fresh slots, idle ids 0..N-1 in ascending order, nothing running, no fault, no responses |
| RequestPool.TrackedBound | src/infer_request_wrap.h:203-218 | idle plus running ids never exceed N; all N idle means nothing is running |
| RequestPool.Complete | src/infer_request_wrap.h:203-218 | post-processing runs before the fault is looked at; if it throws, the exception leaves the callback and the request is lost: nothing reported, no fault recorded, the id never re-queued; undefined behaviour there ends the run; otherwise a fault overwrites any earlier one and keeps the id out of the idle queue, success re-queues it, and the server queue reports the windows unless warming up |
| RequestPool.LostRequestHangs | src/infer_request_wrap.h:219-239 | once the only running request is lost to its post-processor's exception, `wait_all` waits forever, and so does `get_idle_request` when no request is idle |
| RequestPool.Settle | src/infer_request_wrap.h:357-363 | the server completion's final step: fault recorded and id left out, or id re-queued |
| RequestPool.SilentCompletion | src/infer_request_wrap.h:348-350 | a closed-loop completion, or any completion during warm-up, reports nothing |
| RequestPool.FaultsSeenAfterComplete | src/infer_request_wrap.h:213 | a completion records only faults the device answered with |
| RequestPool.Acquire | src/infer_request_wrap.h:220-231 | a recorded fault is rethrown; otherwise the front idle id is handed out and removed |
| RequestPool.AcquireTwiceDistinct | src/infer_request_wrap.h:220-231 | two acquisitions with no completion between them hand out different ids |
| RequestPool.Start | src/infer_request_wrap.h:119-133 | starting binds the item to the held slot and queues the request; idle queue, fault and responses unchanged |
| RequestPool.SlotWindows | src/infer_request_wrap.h:242-252 | one response per recorded count across the slots |
| RequestPool.SlotWindowsAt | src/infer_request_wrap.h:242-252 | responses come by slot id, then by position in that slot's counts: offset the prefix sum, size `4 * count` |
| RequestPool.WaitAll | src/infer_request_wrap.h:233-253 | a fault is rethrown; otherwise all N ids end idle, and a closed-loop pool appends its slot windows without clearing |
| RequestPool.Reset | src/infer_request_wrap.h:263-269 | responses and every slot's buffers are cleared; the fault, idle queue and history survive |
| RequestPool.SetWarmup | src/infer_request_wrap.h:367-369 | only the warm-up flag changes |
| RequestPool.WarmupPutIdle | src/infer_request_wrap.h:372-376 | the id is appended to the idle queue and nothing else changes |
| RequestPool.WarmupPutIdleValid | src/infer_request_wrap.h:372-376 | returning a held id keeps the pool consistent, and returning an idle id a second time breaks it |
| RequestPool.FaultIsSticky | src/infer_request_wrap.h:222-238 | once a fault is recorded, acquire and wait_all rethrow it, before and after `reset` |
| Backend.Insert | src/backend_ov.h:185-203 | `AnyMap::insert` never overwrites a key that is already set |
| Backend.DeviceStep | src/backend_ov.h:186-204 | LATENCY for SingleStream and THROUGHPUT otherwise; streams only when positive; threads only for CPU; a bad stream count throws |
| Backend.DeviceEntries | src/backend_ov.h:186-205 | the per-device loop keeps earlier keys; SingleStream never sets streams; threads set exactly when CPU is listed and nthreads > 0 |
| Backend.FirstPositiveStreamCountWins | src/backend_ov.h:186-205 | the first device with a positive stream count fixes `num_streams`; later ones cannot overwrite it |
| Backend.TwoDevicesTwoStreams | src/backend_ov.h:192-193 | "CPU:2,GPU:4" on Offline configures two streams, not four |
| Backend.DeviceConfig | src/backend_ov.h:153-205 | auto-batching always set; SingleStream has no stream count; every stream device supports the key |
| Backend.Supports | src/backend_ov.h:155-167 | `check_device_supports` passes exactly when every device lists the key; otherwise `logic_error` |
| Backend.Load | src/backend_ov.h:149-247 | the device-reported request count overrides nireq; SingleStream gets one request, the others a fresh pool of nireq |
| Backend.Bind | src/backend_ov.h:68-70 | tensors bound positionally by input name; too few tensors is unchecked |
| Backend.Predict | src/backend_ov.h:108-117 | binds, infers and post-processes with batch 1, only appending; without the single request the call is unchecked or asserts |
| Backend.Warmup | src/backend_ov.h:67-76 | like predict into fresh buffers, then discards the results |
| Backend.SubmitAll | src/backend_ov.h:119-124 | one acquisition per item, in item order; the history grows by exactly those starts |
| Backend.PredictAsync | src/backend_ov.h:119-126 | every item started in order, then `wait_all` once: all requests idle, and the responses grow by the slot windows |
| Backend.QuerySampleResponses | src/backend_ov.h:93-95 | the closed-loop pool's accumulated responses |
| Backend.PredictAsyncServer | src/backend_ov.h:141-147 | one acquisition, bind and start, with no wait; the request is left running |
| Backend.Reset | src/backend_ov.h:78-87 | SingleStream no-op; Offline/MultiStream reset the pool; Server waits, resets and clears warm-up |
| Backend.SetServerWarmup | src/backend_ov.h:89-91 | only the server pool's warm-up flag changes |
| Placement.Prepare | src/datasets/squad.h:108-124 | only a first load sizes the lists: `total_count` for SingleStream/Server, the request count otherwise |
| Placement.Place | src/datasets/squad.h:142-156 | slot i for Offline/MultiStream, slot `sample` for SingleStream/Server; MultiStream also records the sample; an out-of-range write is unchecked |
| Placement.PlaceAll | src/datasets/squad.h:128-157 | the load loop fails exactly when some request's data fails or does not fit |
| Placement.PlaceAllByPosition | src/datasets/squad.h:142-145 | Offline/MultiStream: slot j holds request j's data |
| Placement.PlaceAllBySample | src/datasets/squad.h:146-150 | SingleStream/Server: a sample's slot holds the data of the last request for it |
| Placement.FirstLoadByPosition | src/datasets/image_dataset.h:43-53 | a first Offline/MultiStream load always fits |
| Placement.FirstLoadBySample | src/datasets/image_dataset.h:43-53 | a first SingleStream/Server load fits exactly when every sample is below `total_count` |
| Placement.Find | src/datasets/squad.h:207-213 | `std::find`: the first position of the value, or the end |
| Placement.BatchQueries | src/datasets/squad.h:188-194 | a batch copies ids and indices of query positions [lo, lo+bs); reading past the queries is unchecked |
| Placement.MakeBatch | src/datasets/squad.h:179-197 | a batch views the given tensors and answers its query positions |
| Placement.BatchesCoverQueries | src/datasets/squad.h:179-197 | batches of consecutive positions report the first `n * bs` response ids in order |
| Squad.NewQsl | src/datasets/squad.h:11-14 | a library over the parsed rows with nothing loaded |
| Squad.TotalSampleCount | src/datasets/squad.h:103-105 | the number of input-id rows, however many mask and segment rows there are |
| Squad.Row | src/datasets/squad.h:136-140 | the first 384 entries of a row; `.at` throws `out_of_range` when short or missing |
| Squad.SampleSlot | src/datasets/squad.h:131-140 | three `1 x 384` tensors from the sample's ids, mask and segment rows |
| Squad.LoadSamples | src/datasets/squad.h:107-158 | only the in-memory lists change; failures are `out_of_range` or an unchecked write |
| Squad.SlotValues | src/datasets/squad.h:128-140 | the tensors of each request, in request order |
| Squad.FirstLoadByPosition | src/datasets/squad.h:114-156 | a first Offline/MultiStream load succeeds exactly when every row is long enough; slot j holds request j's tensors; MultiStream lists the samples |
| Squad.FirstLoadBySample | src/datasets/squad.h:108-150 | a first SingleStream/Server load needs samples below `total_count`; a sample's slot holds its tensors |
| Squad.UnloadSamples | src/datasets/squad.h:160-164 | the tensor lists are cleared; the multistream sample list is not |
| Squad.GetSample | src/datasets/squad.h:166-173 | three tensors of `samples[0]`'s slot, every id and index passed through |
| Squad.ViewsAt | src/datasets/squad.h:182-184 | viewing an unset slot asserts; outside the list is unchecked; otherwise three `bs x 384` views that start at the one slot's data |
| Squad.LoadedSlot | src/datasets/squad.h:128-156 | after a first Offline or MultiStream load, slot s holds request s's three `1 x 384` tensors |
| Squad.FirstLoadHolds | src/datasets/squad.h:128-156 | after a first Offline or MultiStream load, every slot holds its request's tensors |
| Squad.OfflineBatchReachesPastSlot | src/datasets/squad.h:177-184 | an Offline batch is a `bs x 384` view over one slot whose tensor is `1 x 384` with 384 values; it spans more than those exactly when bs > 1 |
| Squad.MultistreamViewsAt | src/datasets/squad.h:205-221 | after a first MultiStream load, batch i views from slot i·bs, a slot of the load |
| Squad.MultistreamBatchReachesPastSlot | src/datasets/squad.h:205-221 | a MultiStream batch is a `bs x 384` view over slot i·bs, which holds only that sample's 384 token ids; it spans more exactly when bs > 1 |
| Squad.PackedViewsAt | src/datasets/squad.h:177-184 | the intended batch: bs filled slots from `start` packed into `bs x 384` tensors with exactly bs·384 values; past the list unchecked, an unfilled slot asserts |
| Squad.GetSamplesBatchedMultistreamPacked | src/datasets/squad.h:203-238 | the MultiStream getter over packed batches: `logic_error` when absent, and Ok exactly when every packed batch and its queries exist |
| Squad.PackedMultistreamSucceeds | src/datasets/squad.h:203-238 | after a first MultiStream load, the packed getter succeeds exactly when num_batches·bs ≤ the query size |
| Squad.PackedMultistreamBatchAt | src/datasets/squad.h:215-236 | after a first MultiStream load, packed batch i is packed from slot i·bs and answers positions [i·bs, i·bs+bs) |
| Squad.PackedLoadedRow | src/datasets/squad.h:128-156 | after a first Offline or MultiStream load, value j of row k of the batch packed from slot lo is token j of request lo+k, in all three lists |
| Squad.GetSamplesBatched | src/datasets/squad.h:175-198 | batch i answers positions [i·bs, i·bs+bs) and views from slot (i·bs) mod perf_count |
| Squad.GetSamplesBatchedServer | src/datasets/squad.h:199-202 | always throws `runtime_error` |
| Squad.GetSamplesBatchedMultistream | src/datasets/squad.h:203-238 | an unloaded `samples[0]` throws `logic_error`; batch i views from its found index + i·bs |
| ImageDataset.NewQsl | src/datasets/image_dataset.h:23-29 | a library with nothing loaded or allocated |
| ImageDataset.TotalSampleCount | src/datasets/image_dataset.h:38-40 | the size of the image list |
| ImageDataset.PlanesAt | src/datasets/image_dataset.h:103-110 | byte `ch·H·W + pid` of the planar buffer is channel ch of pixel pid |
| ImageDataset.PlanesUnique | src/datasets/image_dataset.h:103-110 | that placement determines the whole buffer |
| ImageDataset.TransposeImage | src/datasets/image_dataset.h:97-110 | the HWC→CHW loop writes exactly the planar image |
| ImageDataset.SampleImage | src/datasets/image_dataset.h:62-110 | an index past the list throws `logic_error`; success needs a readable image, a ResNet50 or RetinaNet workload and enough pixels; the result is that image in planar order |
| ImageDataset.LoadSamples | src/datasets/image_dataset.h:42-122 | allocates one new buffer per load; only the in-memory state changes |
| ImageDataset.LoadedBuffer | src/datasets/image_dataset.h:58-110 | the new buffer is the requested images back to back |
| ImageDataset.LoadedBufferHoldsImage | src/datasets/image_dataset.h:99-100 | request i's image sits at offset `i·H·W·C` of the buffer |
| ImageDataset.FirstLoadByPosition | src/datasets/image_dataset.h:43-53 | a first Offline/MultiStream load succeeds exactly when every image loads; slot i views request i's image |
| ImageDataset.FirstLoadBySample | src/datasets/image_dataset.h:43-53 | a first SingleStream/Server load needs samples below `total_count`; a sample's slot views its last request |
| ImageDataset.UnloadSamples | src/datasets/image_dataset.h:124-127 | clears the slots and frees the last buffer; freeing it twice is unchecked |
| ImageDataset.UnloadTwiceAfterLoad | src/datasets/image_dataset.h:124-127 | unloading twice after a load deletes the same buffer twice |
| ImageDataset.UnloadBeforeLoad | src/datasets/image_dataset.h:124-127 | unloading before any load deletes the null handle, which is harmless |
| ImageDataset.GetSample | src/datasets/image_dataset.h:136-141 | one tensor for `samples[0]`'s slot, every id and index passed through |
| ImageDataset.GetSamples | src/datasets/image_dataset.h:129-134 | the slot's tensor, and for ImageNet its label |
| ImageDataset.GetSamplesBatched | src/datasets/image_dataset.h:143-160 | batch i answers positions [i·bs, i·bs+bs) and views `bs` images from slot (i·bs) mod perf_count |
| ImageDataset.GetSamplesBatchedServer | src/datasets/image_dataset.h:163-185 | every batch is the same: images of `samples[0..bs)` and ids of positions [0, bs) |
| ImageDataset.ServerBatchesRepeatFirstQueries | src/datasets/image_dataset.h:176-181 | two batches report the first `bs` response ids twice |
| ImageDataset.GetSamplesBatchedServerCorrected | src/datasets/image_dataset.h:163-185 | with the intended offsets, batch i packs and answers positions [i·bs, i·bs+bs) |
| ImageDataset.CorrectedServerBatchesCoverQueries | src/datasets/image_dataset.h:163-185 | corrected batches report the first `n·bs` response ids, each once, in order |
| ImageDataset.StreamBatch | src/datasets/image_dataset.h:207-217 | one multistream batch views `bs` images from a loaded slot |
| ImageDataset.GetSamplesBatchedMultistream | src/datasets/image_dataset.h:187-222 | an unloaded `samples[0]` throws `logic_error`; batch i views from the found index + i·bs |
| ImageDataset.OfflineBatchSeesLoadedRequests | src/datasets/image_dataset.h:143-160 | after an Offline load, a batch's view holds the images of the loaded requests it starts at |
| ImageDataset.MultistreamBatchSeesItsSamples | src/datasets/image_dataset.h:187-222 | after a MultiStream load, batch i's view holds exactly the images of the samples it answers |
| Crop.TruncDiv | src/datasets/image_dataset.h:229-230 | C++ division truncates toward zero |
| Crop.Roi | src/datasets/image_dataset.h:231-233 | a region of interest asserts it lies inside the image, then views exactly those pixels |
| Crop.CenterCrop | src/datasets/image_dataset.h:225-234 | succeeds exactly when the size fits; the crop is centred, with at most one extra pixel of margin right or below |
| Imagenet.Fields | src/datasets/imagenet.h:26-29 | splitting on runs of white space gives space-free fields, all but the first non-empty |
| Imagenet.LeadingBlankGivesEmptyName | src/datasets/imagenet.h:26-31 | a line starting with white space yields an empty image name |
| Imagenet.ParseLine | src/datasets/imagenet.h:26-35 | succeeds exactly when `stoi` reads the last field; the name is the first field and the label that value |
| Imagenet.ParseWrittenLine | src/datasets/imagenet.h:26-35 | a line "name label" reads back as that name and label |
| Imagenet.Names | src/datasets/imagenet.h:34 | the names of the entries, in file order |
| Imagenet.Labels | src/datasets/imagenet.h:35 | the labels of the entries, in file order |
| Imagenet.LinesRead | src/datasets/imagenet.h:38-41 | reading never passes the end of the file |
| Imagenet.NegativeCountReadsAll | src/datasets/imagenet.h:38-41 | a negative count, cast to unsigned, reads every line of a short file |
| Imagenet.CountLimitsList | src/datasets/imagenet.h:38-41 | a positive count stops reading at that many lines |
| Imagenet.ReadImageList | src/datasets/imagenet.h:24-43 | fails exactly when a read line does not parse (first failure reported); otherwise one entry per read line, in order |
| Imagenet.NewImagenet | src/datasets/imagenet.h:7-50 | a missing list terminates the process; otherwise names and labels in lockstep, nothing loaded |
| Suts.LoadSamples | src/suts/sut_base.h:62 | the library's own load, keeping its kind |
| Suts.UnloadSamples | src/suts/sut_base.h:70 | the library's own unload; SQuAD's never fails |
| Suts.GetSample | src/suts/sut_base.h:79 | the library's item carries exactly the given ids and indices |
| Suts.GetSamplesBatchedMultistream | src/suts/sut_multistream.h:60 | batch i answers positions [i·bs, i·bs+bs) |
| Suts.NewSut | src/suts/sut_base.h:35-45 | `async` chooses the backend that is created and loaded; only the synchronous one has a single request |
| Suts.BaseRunOneItem | src/suts/sut_base.h:87-100 | one response in one report: the first id, length `4 * counts[0]`; unchecked exactly when the id or count vector is empty |
| Suts.BaseIssueQuery | src/suts/sut_base.h:73-82 | only `samples[0]` is used: one index, one id, one report |
| Suts.BaseIssueQueryReadsFirstOnly | src/suts/sut_base.h:73-82 | two queries with the same first sample give the same result |
| Suts.BaseWarmUpRound | src/suts/sut_base.h:67-68 | one warm-up round fetches the sample and runs a warm-up inference, which changes no backend state |
| Suts.BaseWarmUpRounds | src/suts/sut_base.h:66-69 | every round's warm-up inference succeeds on the same item |
| Suts.BaseWarmUp | src/suts/sut_base.h:53-71 | loads `batch` copies of sample 0 with id 1, warms up `nwarmup_iters` times, then unloads |
| Suts.MultistreamRunOneItem | src/suts/sut_multistream.h:64-73 | one `predict_async`, one report of the accumulated responses, then reset and clearing of the items |
| Suts.MultistreamRunStartsItems | src/suts/sut_multistream.h:64-73 | the wave starts exactly the pending items, in order |
| Suts.MultistreamIssueQuery | src/suts/sut_multistream.h:49-62 | one report per query; `samples.size()/batch` batches started, the remainder dropped |
| Suts.MultistreamIssueQueryOrder | src/suts/sut_multistream.h:49-62 | the started batches carry the query ids in sample order, up to the last whole batch |
| Suts.MultistreamWarmUp | src/suts/sut_multistream.h:25-47 | nireq batches per round; no report; ends with a reset that clears the responses |
| Suts.ServerIssueQuery | src/suts/sut_server.h:52-70 | all ids and indices packed into one item, submitted once, no direct report |
| Suts.ServerSubmitEach | src/suts/sut_server.h:41-46 | warm-up submits the same item once per round and reports nothing |
| Suts.ServerWarmUp | src/suts/sut_server.h:25-50 | one started item per round, each of `batch` copies of sample 0 with id 1; nothing reported; ends with warm-up off and no responses |
| Wrappers.AllOk | src/datasets/image_dataset.h:60-121 | a loop over fallible steps succeeds exactly when every step does, and reports the first failure |

## Left out

- Threads, mutexes and condition variables. Each pool operation is one atomic step. A blocking wait completes the oldest running request, which is one interleaving the threaded program allows.
- OpenVINO and its memory. Model reading, compilation, pre-processing, `set_batch` and inference are left out. Tensors are descriptions: owned data, a view of a slot, or a region of a load buffer. Response pointers become (owner, offset, size) windows.
- Output values are `real`, so float rounding is not modelled. This covers RetinaNet's division by 800 and the 0.05 threshold.
- OpenCV decoding, colour conversion and `resize`, and `resize_with_aspect_ratio`. The decoded image arrives as a parameter: a map from path to pixels.
- File existence checks become a set of existing paths. The SQuAD constructor's JSON parsing and its `system()` call are left out, and its rows are a parameter. `src/datasets/openimages.h`, `src/datasets/dataset.h`, the `Name()` strings and the `progress` bar are not part of this model.
- The LoadGen harness is the `reported` log. `src/main_ov.cc` appears only through its scenario, mode and model-name tables. `python/3d-unet-kits19/run.py` and `openvino_sut.py` are not part of this model.
- The `SUTOffline` class is not part of this model. So the Offline getter `GetSamplesBatched` of both libraries has no caller here.
- `TopResults` over element types other than the output's: every type behaves the same on an ordered value. The element-type switch and its failing default are left out.
- Suts.MultistreamWarmUp: states the history growth and the absence of reports, not the contents of each warm-up item.
- Squad.LoadSamples: states its ensures only for the unchanged fields and the error kinds. The placement facts are proved for a first load by Squad.FirstLoadByPosition and Squad.FirstLoadBySample. A second load into already-sized lists is covered only by Placement.PlaceAll.
- ImageDataset.LoadSamples: as for SQuAD, the per-slot facts are stated for a first load.
- Backend.DeviceConfig: does not restate the precision entries per device; Backend.DeviceStep states them.
- Imagenet.NewImagenet: the `total_count` and `perf_count` narrowing from `int` to `size_t` is modelled as a wrap-around. The message printed for an empty list is left out.
- RequestPool.Complete: an exception thrown by a post-processor leaves the runtime's callback thread. The model keeps only its effect on the pool, a lost request. What the OpenVINO runtime does with the exception is not part of this model.
- Responses.Windows: forming a response's address as `&results[idx]` is treated as defined even when `idx` equals the size, which Responses.WindowAtEnd characterises. A RetinaNet item with no detection at or above 0.05 does this with an empty `results`. The standard makes that `operator[]` undefined, but it reads nothing and a zero-length response never dereferences the address. So the model reports the zero-length response rather than `Err(Unchecked)`. The same holds for `&result[0]` in Suts.BaseRunOneItem (`src/suts/sut_base.h:95`), as the next line says.
- Suts.BaseRunOneItem: `&result[0]` on an empty result vector is treated as defined, like `&results[idx]` above. A SingleStream RetinaNet image with no detection at or above 0.05 therefore gets a response of `4 * counts[0]` bytes, which is 0, rather than `Err(Unchecked)`.
- Squad.GetSamplesBatched and Squad.GetSamplesBatchedMultistream: they keep the `bs x 384` view as written. Reading it happens during inference, which is not modelled, so the overrun is stated by Squad.OfflineBatchReachesPastSlot and Squad.MultistreamBatchReachesPastSlot rather than reported as `Err(Unchecked)` (see "## Findings").
- PostProcess.Classification: its own ensures give only the layout. The top-class contents are in PostProcess.ClassificationLayout.

## Findings

| source | as written | input that shows it | evidently intended | confidence | as-written member | corrected member |
|---|---|---|---|---|---|---|
| src/postprocess/post_processors.h:98-99 | sample j's logits are written from `n0 + j * offset`, while each response's window is `2 * offset` long | batch 2, one logit per sample: results come out `[s0, s1, e1, 0]`, so sample 0's end logit is overwritten | write sample j from `n0 + 2 * j * offset` | high, not executed | PostProcess.BertOverlap | PostProcess.BertNoOverlap |
| src/postprocess/post_processors.h:35 | each kept detection reads `sample_idxs[i]`, where `i` is the prediction index | batch 1 with two detections above threshold: `sample_idxs[1]` reads past the one-element vector | use the item's sample (`sample_idxs[0]` at batch 1) | medium, not executed | PostProcess.RetinaNetSecondDetection | PostProcess.RetinaNetCorrected |
| src/datasets/squad.h:182-184, 219-221 | each batch is a `{bs, 384}` tensor over the data of one slot, and every slot is its own `1 x 384` tensor | MultiStream, `--batch_size 2`, a query of two samples: batch 0 views 768 ints from slot 0, whose tensor holds 384 | pack the bs sequences into one buffer, as the image library's single load buffer does | high, not executed | Squad.MultistreamBatchReachesPastSlot | Squad.PackedLoadedRow |
| src/datasets/image_dataset.h:170-181 | every batch copies `samples[0..bs)` and `query_ids[0..bs)` | two batches: the first `bs` response ids are reported twice and the rest never | batch i uses positions [i·bs, i·bs+bs) | medium, not executed; no caller is part of this model | ImageDataset.ServerBatchesRepeatFirstQueries | ImageDataset.CorrectedServerBatchesCoverQueries |
