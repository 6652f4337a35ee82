/** Concrete runs of the aggregation task: the expected behaviour for one and
    two detectors, and the places where the code as written departs from a
    merge-all, drain-all, evict-on-send design. */
module Scenarios {
  import opened Models
  import opened Conversion
  import opened Tracker
  import opened Aggregation

  /** A verdict on the one-token chunk `[start, end)` holding `text`. */
  function Verdict(start: uint32, end: uint32, text: string, detections: seq<TokenClassificationResult>): (v: DetectionResult)
    ensures SpanOf(v) == Span(start, end)
    ensures Detections(v) == detections
    ensures ToClassifiedResult(v, 0) == ClassifiedResult(Some(text), 0, start, Some(end), TokenClassificationResults(None, None))
  {
    var v := DetectionResult(Chunk([Token(start, end, text)], 1, end, start), [detections]);
    assert [detections][..0] == [];
    assert Detections(v) == Flatten([detections]) == Flatten([]) + detections;
    assert [Token(start, end, text)][..0] == [];
    assert JoinTexts([Token(start, end, text)]) == JoinTexts([]) + text == "" + text == text;
    v
  }

  /** The record sent for span `[start, end)` with text `text` and output `detections`. */
  function Record(start: uint32, end: uint32, text: string, detections: seq<TokenClassificationResult>): ClassifiedResult
  {
    ClassifiedResult(Some(text), 0, start, Some(end), TokenClassificationResults(None, Some(detections)))
  }

  const Hap := TokenClassificationResult(0, 24, "This is a dummy sentence", "has_HAP", "HAP", 0.99, None)
  const Pii := TokenClassificationResult(10, 15, "dummy", "has_PII", "PII", 0.8, None)

  /** The smallest key of a tracker holding one key (`a == b`) or two. */
  lemma SmallestKey(m: map<Span, Entry>, a: Span, b: Span)
    requires m.Keys == {a, b} && SpanLe(a, b)
    ensures Smallest(m.Keys) == a
  {
    SmallestUnique(m.Keys, a);
  }

  /** One detector, one annotated span (0, 24): exactly one record is sent,
      carrying that span's indices, text and annotation. */
  lemma SingleDetectorPassesThrough()
    ensures Aggregate([Verdict(0, 24, "This is a dummy sentence", [Hap])], 1, 0).sent
            == [Record(0, 24, "This is a dummy sentence", [Hap])]
  {
    var v := Verdict(0, 24, "This is a dummy sentence", [Hap]);
    AggregateAppend([], v, 1, 0);
    assert [] + [v] == [v];
    var m := Step(Initial(), v, 1, 0).entries;
    SmallestKey(m, Span(0, 24), Span(0, 24));
  }

  /** A clean verdict completes a span: with one detector, a verdict with no
      annotations is sent at once, with an empty output list. */
  lemma CleanVerdictCompletesSpan()
    ensures Aggregate([Verdict(0, 24, "clean", [])], 1, 0).sent == [Record(0, 24, "clean", [])]
  {
    var v := Verdict(0, 24, "clean", []);
    AggregateAppend([], v, 1, 0);
    assert [] + [v] == [v];
    var m := Step(Initial(), v, 1, 0).entries;
    SmallestKey(m, Span(0, 24), Span(0, 24));
  }

  /** Two detectors on span (0, 24): nothing is sent after the first verdict;
      after the second the record is sent, and its output holds only the
      SECOND detector's annotations, because a repeat span overwrites. */
  lemma TwoDetectorsSecondOverwrites()
    ensures Aggregate([Verdict(0, 24, "a", [Hap])], 2, 0).sent == []
    ensures Aggregate([Verdict(0, 24, "a", [Hap]), Verdict(0, 24, "b", [Pii])], 2, 0).sent
            == [Record(0, 24, "a", [Pii])]
  {
    var va := Verdict(0, 24, "a", [Hap]);
    var vb := Verdict(0, 24, "b", [Pii]);
    AggregateAppend([], va, 2, 0);
    assert [] + [va] == [va];
    var s1 := Step(Initial(), va, 2, 0);
    SmallestKey(s1.entries, Span(0, 24), Span(0, 24));
    AggregateAppend([va], vb, 2, 0);
    assert [va] + [vb] == [va, vb];
    var s2 := Step(s1, vb, 2, 0);
    assert s2.entries.Keys == {Span(0, 24)};
    SmallestKey(s2.entries, Span(0, 24), Span(0, 24));
  }

  /** Three verdicts processed in order are three steps. */
  lemma AggregateThree(v1: DetectionResult, v2: DetectionResult, v3: DetectionResult, totalDetectors: nat)
    ensures Aggregate([v1, v2, v3], totalDetectors, 0)
            == Step(Step(Step(Initial(), v1, totalDetectors, 0), v2, totalDetectors, 0), v3, totalDetectors, 0)
  {
    AggregateAppend([], v1, totalDetectors, 0);
    assert [] + [v1] == [v1];
    AggregateAppend([v1], v2, totalDetectors, 0);
    assert [v1] + [v2] == [v1, v2];
    AggregateAppend([v1, v2], v3, totalDetectors, 0);
    assert [v1, v2] + [v3] == [v1, v2, v3];
  }

  /** Four verdicts processed in order are four steps. */
  lemma AggregateFour(v1: DetectionResult, v2: DetectionResult, v3: DetectionResult, v4: DetectionResult, totalDetectors: nat)
    ensures Aggregate([v1, v2, v3, v4], totalDetectors, 0)
            == Step(Aggregate([v1, v2, v3], totalDetectors, 0), v4, totalDetectors, 0)
  {
    AggregateAppend([v1, v2, v3], v4, totalDetectors, 0);
    assert [v1, v2, v3] + [v4] == [v1, v2, v3, v4];
  }

  /** Streams drained one after the other give their verdicts in order. */
  lemma FlattenTwoStreams(x1: DetectionResult, x2: DetectionResult, y1: DetectionResult, y2: DetectionResult)
    ensures Flatten([[x1, x2], [y1, y2]]) == [x1, x2, y1, y2]
    ensures Flatten([[x1, x2], [y1]]) == [x1, x2, y1]
  {
    assert [[x1, x2], [y1, y2]][..1] == [[x1, x2]];
    assert [[x1, x2], [y1]][..1] == [[x1, x2]];
    assert [[x1, x2]][..0] == [];
    assert Flatten([[x1, x2]]) == [x1, x2];
  }

  /** Both detectors send span (0, 24) then (24, 50): both records go out, in
      order, the second through the lookup of the key starting at 24. */
  lemma TwoDetectorsInOrder()
    ensures var streams := [[Verdict(0, 24, "a", []), Verdict(24, 50, "b", [])],
                            [Verdict(0, 24, "a", []), Verdict(24, 50, "b", [Hap])]];
            Aggregate(Flatten(streams), 2, 0).sent == [Record(0, 24, "a", []), Record(24, 50, "b", [Hap])]
  {
    var a1, a2 := Verdict(0, 24, "a", []), Verdict(24, 50, "b", []);
    var b2 := Verdict(24, 50, "b", [Hap]);
    FlattenTwoStreams(a1, a2, a1, b2);
    AggregateThree(a1, a2, a1, 2);
    AggregateFour(a1, a2, a1, b2, 2);
    var r1, r2 := Record(0, 24, "a", []), Record(24, 50, "b", []);
    var s1 := Step(Initial(), a1, 2, 0);
    SmallestKey(s1.entries, Span(0, 24), Span(0, 24));
    assert s1 == AggState(map[Span(0, 24) := Entry(r1, 1)], 0, []);
    var s2 := Step(s1, a2, 2, 0);
    SmallestKey(s2.entries, Span(0, 24), Span(24, 50));
    assert s2 == AggState(map[Span(0, 24) := Entry(r1, 1), Span(24, 50) := Entry(r2, 1)], 0, []);
    var s3 := Step(s2, a1, 2, 0);
    SmallestKey(s3.entries, Span(0, 24), Span(24, 50));
    assert s3 == AggState(map[Span(0, 24) := Entry(r1, 2), Span(24, 50) := Entry(r2, 1)], 24, [r1]);
    var m4 := Step(s3, b2, 2, 0).entries;
    assert m4 == map[Span(0, 24) := Entry(r1, 2), Span(24, 50) := Entry(Record(24, 50, "b", [Hap]), 2)];
    FirstStartingMeaning(m4.Keys, 24);
  }

  /** Both detectors report (24, 50) before (0, 24). Span (24, 50) is not sent
      ahead of (0, 24); and once (0, 24) is sent, (24, 50) is complete but is
      never sent, because each verdict sends at most one record and no
      further verdict arrives. */
  lemma OutOfOrderSpanWaitsAndIsNotDrained()
    ensures var streams := [[Verdict(24, 50, "b", []), Verdict(0, 24, "a", [])],
                            [Verdict(24, 50, "b", []), Verdict(0, 24, "a", [])]];
            var st := Aggregate(Flatten(streams), 2, 0);
            && st.sent == [Record(0, 24, "a", [])]
            && st.watermark == 24
            && Span(24, 50) in st.entries && st.entries[Span(24, 50)].count == 2
  {
    var a2, a1 := Verdict(24, 50, "b", []), Verdict(0, 24, "a", []);
    FlattenTwoStreams(a2, a1, a2, a1);
    AggregateFour(a2, a1, a2, a1, 2);
    var r1, r2 := Record(0, 24, "a", []), Record(24, 50, "b", []);
    var s3 := Aggregate([a2, a1, a2], 2, 0);
    OutOfOrderBeforeLastVerdict();
    var s4 := Step(s3, a1, 2, 0);
    SmallestKey(s4.entries, Span(0, 24), Span(24, 50));
    assert s4 == AggState(map[Span(24, 50) := Entry(r2, 2), Span(0, 24) := Entry(r1, 2)], 24, [r1]);
  }

  /** The first three verdicts of the run above: (24, 50) is complete but
      waits, because (0, 24) is the smallest key and is not complete. */
  lemma OutOfOrderBeforeLastVerdict()
    ensures var a2, a1 := Verdict(24, 50, "b", []), Verdict(0, 24, "a", []);
            Aggregate([a2, a1, a2], 2, 0)
            == AggState(map[Span(24, 50) := Entry(Record(24, 50, "b", []), 2),
                            Span(0, 24) := Entry(Record(0, 24, "a", []), 1)], 0, [])
  {
    var a2, a1 := Verdict(24, 50, "b", []), Verdict(0, 24, "a", []);
    AggregateThree(a2, a1, a2, 2);
    var r1, r2 := Record(0, 24, "a", []), Record(24, 50, "b", []);
    var s1 := Step(Initial(), a2, 2, 0);
    SmallestKey(s1.entries, Span(24, 50), Span(24, 50));
    assert s1 == AggState(map[Span(24, 50) := Entry(r2, 1)], 0, []);
    var s2 := Step(s1, a1, 2, 0);
    SmallestKey(s2.entries, Span(0, 24), Span(24, 50));
    assert s2 == AggState(map[Span(24, 50) := Entry(r2, 1), Span(0, 24) := Entry(r1, 1)], 0, []);
    var s3 := Step(s2, a2, 2, 0);
    SmallestKey(s3.entries, Span(0, 24), Span(24, 50));
  }

  /** One detector's stream ends with (24, 50) reported by only one of two
      detectors: the run ends with just (0, 24) sent and (24, 50) left
      incomplete in the tracker. */
  lemma IncompleteSpanIsNotSent()
    ensures var streams := [[Verdict(0, 24, "a", []), Verdict(24, 50, "b", [])],
                            [Verdict(0, 24, "a", [])]];
            var st := Aggregate(Flatten(streams), 2, 0);
            && st.sent == [Record(0, 24, "a", [])]
            && Span(24, 50) in st.entries && st.entries[Span(24, 50)].count == 1
  {
    var a1, a2 := Verdict(0, 24, "a", []), Verdict(24, 50, "b", []);
    FlattenTwoStreams(a1, a2, a1, a1);
    AggregateThree(a1, a2, a1, 2);
    var r1, r2 := Record(0, 24, "a", []), Record(24, 50, "b", []);
    var s1 := Step(Initial(), a1, 2, 0);
    SmallestKey(s1.entries, Span(0, 24), Span(0, 24));
    assert s1 == AggState(map[Span(0, 24) := Entry(r1, 1)], 0, []);
    var s2 := Step(s1, a2, 2, 0);
    SmallestKey(s2.entries, Span(0, 24), Span(24, 50));
    assert s2 == AggState(map[Span(0, 24) := Entry(r1, 1), Span(24, 50) := Entry(r2, 1)], 0, []);
    var s3 := Step(s2, a1, 2, 0);
    SmallestKey(s3.entries, Span(0, 24), Span(24, 50));
    assert s3 == AggState(map[Span(0, 24) := Entry(r1, 2), Span(24, 50) := Entry(r2, 1)], 24, [r1]);
  }

  /** While the watermark is 0 the smallest key is sent without checking that
      it starts at 0. */
  lemma FirstRecordNeedNotStartAtZero()
    ensures Aggregate([Verdict(5, 10, "x", [])], 1, 0).sent == [Record(5, 10, "x", [])]
  {
    var v := Verdict(5, 10, "x", []);
    AggregateAppend([], v, 1, 0);
    assert [] + [v] == [v];
    var m := Step(Initial(), v, 1, 0).entries;
    SmallestKey(m, Span(5, 10), Span(5, 10));
  }

  /** An empty span (0, 0) leaves the watermark at 0 and, since entries are
      never removed, it is sent again on the next verdict. */
  lemma EmptySpanIsSentTwice()
    ensures Aggregate([Verdict(0, 0, "", []), Verdict(3, 4, "y", [])], 1, 0).sent
            == [Record(0, 0, "", []), Record(0, 0, "", [])]
  {
    var v0, v1 := Verdict(0, 0, "", []), Verdict(3, 4, "y", []);
    AggregateAppend([], v0, 1, 0);
    assert [] + [v0] == [v0];
    var s1 := Step(Initial(), v0, 1, 0);
    SmallestKey(s1.entries, Span(0, 0), Span(0, 0));
    AggregateAppend([v0], v1, 1, 0);
    assert [v0] + [v1] == [v0, v1];
    var s2 := Step(s1, v1, 1, 0);
    SmallestKey(s2.entries, Span(0, 0), Span(3, 4));
  }

  /** The gate counts verdicts, not detectors: when one detector reports a
      span twice, the span is sent before the other detector has reported,
      that detector's annotations never go out, and the count ends above the
      number of detectors. */
  lemma RepeatedReportCompletesSpanEarly()
    ensures var streams := [[Verdict(0, 24, "a", []), Verdict(0, 24, "a", [])], [Verdict(0, 24, "a", [Hap])]];
            var st := Aggregate(Flatten(streams), 2, 0);
            st.sent == [Record(0, 24, "a", [])] && st.entries[Span(0, 24)].count == 3
  {
    var a, b := Verdict(0, 24, "a", []), Verdict(0, 24, "a", [Hap]);
    var r := Record(0, 24, "a", []);
    FlattenTwoStreams(a, a, b, b);
    AggregateThree(a, a, b, 2);
    var s1 := Step(Initial(), a, 2, 0);
    SmallestKey(s1.entries, Span(0, 24), Span(0, 24));
    assert s1 == AggState(map[Span(0, 24) := Entry(r, 1)], 0, []);
    var s2 := Step(s1, a, 2, 0);
    SmallestKey(s2.entries, Span(0, 24), Span(0, 24));
    assert s2 == AggState(map[Span(0, 24) := Entry(r, 2)], 24, [r]);
    var s3 := Step(s2, b, 2, 0);
    assert s3.entries == map[Span(0, 24) := Entry(Record(0, 24, "a", [Hap]), 3)];
    FirstStartingMeaning(s3.entries.Keys, 24);
  }
}
