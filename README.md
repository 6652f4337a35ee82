# Max-processed-index detection aggregator, modelled in Dafny

The guardrails orchestrator runs several content detectors over generated text. Each detector sends one
verdict per chunk of generated text. A chunk is a span of token indices `[start_index, processed_index)`.
`MaxProcessedIndexAggregator` merges these verdicts into one stream of classified records for the caller.

The aggregator has three pieces of state:

- **The detection tracker.** A `BTreeMap` keyed by `(start, end)`. Each value is the record built so far plus
  a count of the verdicts received for that span.
- **The watermark.** `processed_index`, which starts at 0.
- **The output channel.**

For each verdict, the aggregator first builds a record: the chunk's token texts joined in order, the
flattened annotations, and the chunk's indices cast to `u32`. It then adds the record to the tracker. Last, it
sends at most one record. The record it may send is the *candidate*:

- while the watermark is 0, the smallest key;
- otherwise, the least key that starts at the watermark.

The candidate is sent only when its count equals the number of detector streams exactly. After a send, the
watermark moves to the candidate's end.

The project has one module per concern:

- `models.dfy` (`Models`): the value types and `u32`. It also holds `Flatten`, the in-order concatenation
  used both for nested annotation lists and for draining the streams one after another.
- `conversion.dfy` (`Conversion`): turns a verdict into a record.
- `tracker.dfy` (`Tracker`): the tracker as the class `DetectionTracker`. Its `keys: seq<Span>` are the map's
  keys in iteration order and its `entries` are the map. Also here: `Added`, the value-level meaning of
  `add_detection_result`, and `Smallest` and `FirstStarting`, the meanings of `first_key_value` and
  `find_first`.
- `aggregation.dfy` (`Aggregation`): the spawned task as the class `AggregationTask`, which holds the tracker,
  the watermark and the records sent. It has the per-verdict step, the stream-draining loop, and `Process`.
  `Step` and `Aggregate` are the functions these methods are proved against.
- `properties.dfy` (`AggregationProperties`): what one verdict and a whole run guarantee.
- `scenarios.dfy` (`Scenarios`): concrete runs. Each one shows expected behaviour, or a place where the code
  departs from a merge, drain and evict design.

### Where the code and the intended design differ

The model follows the code. The intended design merges annotations, drains every ready span, evicts sent
spans and emits the first span at index 0. The code does none of these:

- A repeat span **overwrites** its stored annotations instead of appending to them. Only the last verdict's
  annotations are sent (`OutputFromLastVerdict`, `TwoDetectorsSecondOverwrites`).
- At most **one** record is sent per verdict. A complete span waiting behind the watermark is left unsent if
  no further verdict arrives (`OutOfOrderSpanWaitsAndIsNotDrained`).
- Entries are **never removed** (`StepKeepsEntries`, `AggregateEntries`). Because of this, the empty span
  `(0, 0)`, which leaves the watermark at 0, is sent again on each later verdict for another span, as long as
  its own count still equals the number of detectors (`EmptySpanIsSentTwice`). A further verdict for `(0, 0)`
  itself pushes its count past that number, and then nothing is sent at watermark 0.
- While the watermark is 0, the smallest key is sent **without checking** that it starts at 0
  (`FirstRecordNeedNotStartAtZero`).
- The completeness gate counts **verdicts, not detectors**. A detector that repeats a span completes it early,
  and the count can exceed the number of detectors (`RepeatedReportCompletesSpanEarly`).

These do hold as intended:

- no record is sent before its count reaches the number of detectors;
- the output is contiguous whenever every span has `start <= end`;
- records go out in strictly increasing order, none twice, whenever every span has `start < end`.

## Model

| member | source | states |
|---|---|---|
| `Models.AsU32` | src/orchestrator/aggregators/max_processed_index.rs:109-116 | The `as u32` cast of a chunk index keeps it when it is already in range, and otherwise differs from it by a multiple of 2^32. |
| `Models.FlattenAppend` | src/orchestrator/aggregators/max_processed_index.rs:94-98 | Flattening nested lists distributes over concatenation. The same function orders the verdicts of streams drained one after another. |
| `Models.FlattenMembership` | src/orchestrator/aggregators/max_processed_index.rs:94-98 | An annotation is in the flattened list exactly when one of the inner lists holds it. |
| `Models.FlattenLength` | src/orchestrator/aggregators/max_processed_index.rs:94-98 | The flattened list's length is the sum of the inner lists' lengths, so nothing is dropped. |
| `Conversion.JoinTextsAppend` | src/orchestrator/aggregators/max_processed_index.rs:93 | Joining token texts distributes over concatenation of token lists. |
| `Conversion.JoinTextsAt` | src/orchestrator/aggregators/max_processed_index.rs:93 | Each token's text occurs in the joined text at the offset given by the texts of the tokens before it. |
| `Conversion.SpanOf` | src/orchestrator/aggregators/max_processed_index.rs:116 | A chunk index that fits in 32 bits becomes the key's bound unchanged. Any other index wraps around through the `as u32` cast, as `Models.AsU32` states. |
| `Conversion.ToClassifiedResult` | src/orchestrator/aggregators/max_processed_index.rs:100-112 | The record's `start_index` and `processed_index` are the verdict's tracker key, so a tracked or sent record carries the key it is stored under (used by `RecordsMatchKeys` in `AggregateInvariants`). Its annotations are left unset until the tracker fills them in. |
| `Conversion.ClassifiedResultText` | src/orchestrator/aggregators/max_processed_index.rs:93-103 | The record's generated text is set and holds every token's text, in order. |
| `Conversion.DetectionsMembership` | src/orchestrator/aggregators/max_processed_index.rs:94-98 | The recorded annotations are exactly those of the verdict's inner lists. |
| `Tracker.AddedUnseenSpan` | src/orchestrator/aggregators/max_processed_index.rs:40-46 | Adding an unseen span inserts it with count 1 and the new annotations as output. Every other field comes from the supplied record. |
| `Tracker.AddedSeenSpan` | src/orchestrator/aggregators/max_processed_index.rs:30-38 | Adding a seen span raises its count by exactly 1 and replaces its output with the new annotations. The stored text and indices are kept, and the supplied record is ignored. |
| `Tracker.AddedOnlyTouchesSpan` | src/orchestrator/aggregators/max_processed_index.rs:23-49 | Adding grows the key set by exactly the given span and leaves every other entry unchanged. |
| `Tracker.SmallestExists` | src/orchestrator/aggregators/max_processed_index.rs:118-122 | A non-empty tracker has a smallest key in `(start, end)` order, so `first_key_value` is well defined. |
| `Tracker.FirstStartingMeaning` | src/orchestrator/aggregators/max_processed_index.rs:51-59 | The meaning of `find_first(s)`: it finds a key exactly when some key starts at `s`, and then the least such key. |
| `Tracker.InsertSorted` | src/orchestrator/aggregators/max_processed_index.rs:45 | Inserting a new key keeps the keys in strictly increasing order, and the result holds exactly the old keys plus the new one. |
| `Tracker.DetectionTracker.constructor` | src/orchestrator/aggregators/max_processed_index.rs:80 | The tracker starts empty. |
| `Tracker.DetectionTracker.AddDetectionResult` | src/orchestrator/aggregators/max_processed_index.rs:24-49 | The update in place: the new contents are `Added` applied to the old contents, and the key order stays sorted. |
| `Tracker.DetectionTracker.IsEmpty` | src/orchestrator/aggregators/max_processed_index.rs:118 | Reports emptiness exactly. |
| `Tracker.DetectionTracker.FirstKeyValue` | src/orchestrator/aggregators/max_processed_index.rs:122 | Returns none exactly when the tracker is empty. Otherwise it returns the key no greater than any other key, with that key's value. |
| `Tracker.DetectionTracker.FindFirst` | src/orchestrator/aggregators/max_processed_index.rs:51-59 | The in-order scan with early return finds a key exactly when some key starts at `start`, and returns the least such key. It returns none otherwise. |
| `Aggregation.AggregateAppend` | src/orchestrator/aggregators/max_processed_index.rs:88-89 | Receiving one more verdict is one more step of the run. |
| `Aggregation.AggregationTask.constructor` | src/orchestrator/aggregators/max_processed_index.rs:74-80 | The task starts with an empty tracker, watermark 0, nothing sent, and the detector total fixed. |
| `Aggregation.AggregationTask.OnDetectionResult` | src/orchestrator/aggregators/max_processed_index.rs:90-150 | One pass of the loop body moves the task's tracker, watermark and output exactly as `Step` says. |
| `Aggregation.AggregationTask.DrainStream` | src/orchestrator/aggregators/max_processed_index.rs:89-160 | Receiving one stream to its end leaves the task in the run state for everything received so far, followed by that stream. |
| `Aggregation.Process` | src/orchestrator/aggregators/max_processed_index.rs:64-161 | The records sent are those of the run over all streams drained in order, with the detector total equal to the number of streams. |
| `AggregationProperties.CandidateRule` | src/orchestrator/aggregators/max_processed_index.rs:118-149 | The ordering rule. At watermark 0, a candidate exists iff the tracker is non-empty, and it is the smallest key whatever its start. At a positive watermark, a candidate exists iff some key starts there, and it is the least such key. |
| `AggregationProperties.SendRule` | src/orchestrator/aggregators/max_processed_index.rs:116-150 | A verdict sends zero or one record and keeps earlier records. It sends one iff the candidate's count equals the detector total. The record sent is the candidate's, and the watermark becomes the candidate's end. Without a send, the watermark is unchanged. |
| `AggregationProperties.CleanVerdictCounts` | src/orchestrator/aggregators/max_processed_index.rs:90-116 | A verdict with no annotations is still recorded and still raises its span's count by 1. Its output becomes the empty list. |
| `AggregationProperties.StepKeepsEntries` | src/orchestrator/aggregators/max_processed_index.rs:116-129 | A verdict never removes an entry. The key set grows by the verdict's span, and the other entries do not change. |
| `AggregationProperties.StepWatermarkNeverDecreases` | src/orchestrator/aggregators/max_processed_index.rs:128-147 | If every key has `start <= end`, one verdict never lowers the watermark. |
| `AggregationProperties.AggregateEntries` | src/orchestrator/aggregators/max_processed_index.rs:23-49 | After a run, a span is tracked iff some verdict had it. Its count is the number of verdicts for it, and the count is 0 for untracked spans. |
| `AggregationProperties.RecordFromFirstVerdict` | src/orchestrator/aggregators/max_processed_index.rs:30-45 | A span's text, input token count and indices are those of the first verdict received for it. |
| `AggregationProperties.OutputFromLastVerdict` | src/orchestrator/aggregators/max_processed_index.rs:30-38 | A span's output annotations are those of the last verdict received for it. |
| `AggregationProperties.AtMostOneRecordPerVerdict` | src/orchestrator/aggregators/max_processed_index.rs:118-150 | A run sends no more records than verdicts received. |
| `AggregationProperties.SentOnlyGrows` | src/orchestrator/aggregators/max_processed_index.rs:126-145 | Records once sent stay sent: a longer run's output extends a shorter one's. |
| `AggregationProperties.SendOnlyWhenComplete` | src/orchestrator/aggregators/max_processed_index.rs:123-147 | A verdict that sends a record sends the record of a tracked span. The number of verdicts received for that span, this one included, equals the detector total. |
| `AggregationProperties.AggregateInvariants` | src/orchestrator/aggregators/max_processed_index.rs:102-147 | In every reachable state: each record carries its own key as its indices, and each sent record's span is still tracked. The watermark is 0 before the first send and the last sent record's end after it. |
| `AggregationProperties.WatermarkNeverDecreases` | src/orchestrator/aggregators/max_processed_index.rs:128-147 | If every span has `start <= end`, the watermark never decreases over a run. |
| `AggregationProperties.SentContiguous` | src/orchestrator/aggregators/max_processed_index.rs:118-148 | If every span has `start <= end`, each sent record starts where the previous one ended. |
| `AggregationProperties.StepKeepsContiguous` | src/orchestrator/aggregators/max_processed_index.rs:118-148 | One verdict keeps the output contiguous in every reachable state whose keys run forwards. |
| `AggregationProperties.SentInIncreasingOrder` | src/orchestrator/aggregators/max_processed_index.rs:134-148 | If every span has `start < end`, sent records have strictly increasing start indices, so no record is sent twice. |
| `AggregationProperties.ProcessOutputContiguous` | src/orchestrator/aggregators/max_processed_index.rs:88-148 | If every verdict of every stream has a forward span, the output of `process` is contiguous. |
| `Scenarios.SingleDetectorPassesThrough` | src/orchestrator/aggregators/max_processed_index.rs:118-128 | With one detector, one annotated verdict for `(0, 24)` is sent at once with its text, indices and annotation. |
| `Scenarios.CleanVerdictCompletesSpan` | src/orchestrator/aggregators/max_processed_index.rs:90-128 | With one detector, a verdict with no annotations completes its span and is sent with an empty output. |
| `Scenarios.TwoDetectorsSecondOverwrites` | src/orchestrator/aggregators/max_processed_index.rs:30-38 | With two detectors, nothing is sent after the first verdict for `(0, 24)`. After the second, the record is sent, holding only the second verdict's annotations and the first verdict's text. |
| `Scenarios.TwoDetectorsInOrder` | src/orchestrator/aggregators/max_processed_index.rs:118-148 | With two detectors each sending `(0, 24)` then `(24, 50)`, both records go out in order. The second is found by its start at the watermark. |
| `Scenarios.OutOfOrderSpanWaitsAndIsNotDrained` | src/orchestrator/aggregators/max_processed_index.rs:118-150 | When both detectors send `(24, 50)` before `(0, 24)`, the later span waits. Once `(0, 24)` is sent, `(24, 50)` is complete but left unsent. |
| `Scenarios.OutOfOrderBeforeLastVerdict` | src/orchestrator/aggregators/max_processed_index.rs:118-133 | A complete `(24, 50)` is held back while the smaller key `(0, 24)` is incomplete. |
| `Scenarios.IncompleteSpanIsNotSent` | src/orchestrator/aggregators/max_processed_index.rs:88-133 | When the streams end with `(24, 50)` reported once out of two, only `(0, 24)` is sent and `(24, 50)` stays tracked with count 1. |
| `Scenarios.FirstRecordNeedNotStartAtZero` | src/orchestrator/aggregators/max_processed_index.rs:118-122 | At watermark 0, the record for `(5, 10)` is sent even though no span starts at 0. |
| `Scenarios.EmptySpanIsSentTwice` | src/orchestrator/aggregators/max_processed_index.rs:126-129 | The empty span `(0, 0)` leaves the watermark at 0 and, while its count equals the number of detectors, is sent again on the next verdict, which is for another span. |
| `Scenarios.RepeatedReportCompletesSpanEarly` | src/orchestrator/aggregators/max_processed_index.rs:30-38 | When one detector repeats a span, the span is sent before the other detector reports, and the other detector's annotations never go out. The count ends at 3 with two detectors. |

## Left out

- Channels and tasks: `tokio::spawn`, the `mpsc` channels and `.await` are not modelled. The source drains
  the streams one after another, so the model takes them as a list of lists and processes their concatenation.
  A send appends to `sent`.
- Failed sends: the source ignores a failed send with `let _ =` and advances the watermark anyway. The model
  always appends, so a closed receiver is not represented.
- Shared generations buffer: the `Arc<RwLock<...>>` buffer is replaced by an input token count passed at
  construction. A panic on an empty buffer or a poisoned lock is therefore not modelled.
- Logging: `println!` and `debug!` are left out.
- Annotation conversion: converting a detector's `ContentAnalysisResponse` to a `TokenClassificationResult`
  (the `Into` in the flattening) is not part of this model. Verdicts carry already-converted annotations.
  The float `score` is a `real` that nothing computes with.
- Record and verdict types: src/models.rs and src/orchestrator/streaming.rs are not part of this model.
  Records model only `generated_text`, `input_token_count`, `start_index`, `processed_index` and
  `token_classification_results`. The aggregator leaves every other field at its default.
- Chunk indices: the chunk's 64-bit indices are unbounded integers; the signed 64-bit range is not enforced.
  The `as u32` casts are modelled exactly. The chunk's `token_count` is unused.
- Verdict count: the count is a `nat`. `usize` overflow is not modelled.
- Spans that stay incomplete when the streams end are left in the tracker and never sent. The model shows
  this (`IncompleteSpanIsNotSent`) but adds no end-of-stream signal, because the source has none.
- `test_aggregation_single_input` gives no properties: its stream helper returns an empty list and the test
  asserts nothing.
- Client code (`src/clients.rs`, `src/clients/*`): HTTP and gRPC client construction, TLS, health checks and
  the generation backend dispatch are network and I/O code outside the aggregator.
