/** The per-request aggregation task of `MaxProcessedIndexAggregator::process`
    (max_processed_index.rs:64-164): the detection tracker, the watermark
    `processed_index` and the records sent downstream, driven by the
    detectors' verdict streams drained one after another. */
module Aggregation {
  import opened Models
  import opened Conversion
  import opened Tracker

  /** The task's state: tracker contents, watermark, records sent so far. */
  datatype AggState = AggState(entries: map<Span, Entry>, watermark: uint32, sent: seq<ClassifiedResult>)

  /** Before the first verdict: empty tracker, watermark 0, nothing sent. */
  function Initial(): AggState
  {
    AggState(map[], 0, [])
  }

  /** The only span that may be sent next: the smallest key while the
      watermark is 0, otherwise the least key starting at the watermark. */
  ghost function Candidate(m: map<Span, Entry>, watermark: uint32): (r: Option<Span>)
    ensures r.Some? ==> r.value in m
  {
    if watermark == 0 then
      if m == map[] then None else Some(Smallest(m.Keys))
    else
      FirstStartingMeaning(m.Keys, watermark);
      FirstStarting(m.Keys, watermark)
  }

  /** The span sent after a verdict: the candidate, when its count equals the
      number of detectors exactly. */
  ghost function Emission(m: map<Span, Entry>, watermark: uint32, totalDetectors: nat): Option<Span>
  {
    match Candidate(m, watermark)
    case Some(k) => if m[k].count == totalDetectors then Some(k) else None
    case None => None
  }

  /** One pass of the per-verdict loop body (max_processed_index.rs:90-150):
      record the verdict, then send at most one record and move the watermark
      to that record's span end. */
  ghost function Step(s: AggState, v: DetectionResult, totalDetectors: nat, inputTokenCount: uint32): AggState
  {
    var m := Added(s.entries, SpanOf(v), Detections(v), ToClassifiedResult(v, inputTokenCount));
    match Emission(m, s.watermark, totalDetectors)
    case None => AggState(m, s.watermark, s.sent)
    case Some(k) => AggState(m, k.end, s.sent + [m[k].result])
  }

  /** The state after processing `vs` in order, starting from `Initial()`. */
  ghost function Aggregate(vs: seq<DetectionResult>, totalDetectors: nat, inputTokenCount: uint32): AggState
  {
    if vs == [] then Initial()
    else Step(Aggregate(vs[..|vs| - 1], totalDetectors, inputTokenCount), vs[|vs| - 1], totalDetectors, inputTokenCount)
  }

  /** Processing one more verdict is one more step. */
  lemma AggregateAppend(vs: seq<DetectionResult>, v: DetectionResult, totalDetectors: nat, inputTokenCount: uint32)
    ensures Aggregate(vs + [v], totalDetectors, inputTokenCount)
            == Step(Aggregate(vs, totalDetectors, inputTokenCount), v, totalDetectors, inputTokenCount)
  {
    assert (vs + [v])[..|vs + [v]| - 1] == vs;
  }

  /** The state of the task spawned by `process`. The input token count is a
      constructor parameter instead of a read of the shared generations buffer. */
  class AggregationTask {
    const totalDetectors: nat
    const inputTokenCount: uint32
    const tracker: DetectionTracker
    var processedIndex: uint32
    var sent: seq<ClassifiedResult>

    ghost predicate Valid()
      reads this, tracker
    {
      tracker.Valid()
    }

    ghost function State(): AggState
      reads this, tracker
    {
      AggState(tracker.entries, processedIndex, sent)
    }

    constructor (totalDetectors: nat, inputTokenCount: uint32)
      ensures Valid() && fresh(tracker)
      ensures this.totalDetectors == totalDetectors && this.inputTokenCount == inputTokenCount
      ensures State() == Initial()
    {
      this.totalDetectors := totalDetectors;
      this.inputTokenCount := inputTokenCount;
      tracker := new DetectionTracker();
      processedIndex := 0;
      sent := [];
    }

    /** The loop body for one received verdict (max_processed_index.rs:90-150). */
    method OnDetectionResult(v: DetectionResult)
      requires Valid()
      modifies this, tracker
      ensures Valid()
      ensures State() == Step(old(State()), v, totalDetectors, inputTokenCount)
    {
      var detections := Detections(v);
      var classificationResult := ToClassifiedResult(v, inputTokenCount);
      var span := SpanOf(v);
      tracker.AddDetectionResult(span.start, span.end, detections, classificationResult);
      var empty := tracker.IsEmpty();
      if processedIndex == 0 && !empty {
        var first := tracker.FirstKeyValue();
        var k := first.value.0;
        if first.value.1.count == totalDetectors {
          sent := sent + [first.value.1.result];
          processedIndex := k.end;
        }
      } else if processedIndex > 0 {
        var found := tracker.FindFirst(processedIndex);
        if found.Some? {
          var k := found.value;
          var e := tracker.entries[k];
          if e.count == totalDetectors {
            sent := sent + [e.result];
            processedIndex := k.end;
          }
        }
      }
    }

    /** Receive every verdict of one detector's stream, in order, until the
        stream ends (max_processed_index.rs:89-160). `done` is what was
        received before. */
    method DrainStream(stream: seq<DetectionResult>, ghost done: seq<DetectionResult>)
      requires Valid() && State() == Aggregate(done, totalDetectors, inputTokenCount)
      modifies this, tracker
      ensures Valid() && State() == Aggregate(done + stream, totalDetectors, inputTokenCount)
    {
      assert done + stream[..0] == done;
      for j := 0 to |stream|
        invariant Valid()
        invariant State() == Aggregate(done + stream[..j], totalDetectors, inputTokenCount)
      {
        OnDetectionResult(stream[j]);
        assert done + stream[..j + 1] == (done + stream[..j]) + [stream[j]];
        AggregateAppend(done + stream[..j], stream[j], totalDetectors, inputTokenCount);
      }
      assert stream[..|stream|] == stream;
    }
  }

  /** `process`: drain each detector's stream in turn, feeding every verdict
      to the task; the result is what was sent downstream. The number of
      detectors is the number of streams. */
  method Process(inputTokenCount: uint32, streams: seq<seq<DetectionResult>>) returns (sent: seq<ClassifiedResult>)
    ensures sent == Aggregate(Flatten(streams), |streams|, inputTokenCount).sent
  {
    var task := new AggregationTask(|streams|, inputTokenCount);
    for i := 0 to |streams|
      invariant task.Valid() && fresh(task) && fresh(task.tracker)
      invariant task.totalDetectors == |streams| && task.inputTokenCount == inputTokenCount
      invariant task.State() == Aggregate(Flatten(streams[..i]), |streams|, inputTokenCount)
    {
      task.DrainStream(streams[i], Flatten(streams[..i]));
      assert streams[..i + 1][..i] == streams[..i];
    }
    assert streams[..|streams|] == streams;
    sent := task.sent;
  }
}
