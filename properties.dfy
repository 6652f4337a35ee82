/** What the aggregation task guarantees, and what it does not, over one
    verdict and over a whole run. */
module AggregationProperties {
  import opened Models
  import opened Conversion
  import opened Tracker
  import opened Aggregation

  // ---------------------------------------------------------------------
  // One verdict

  /** The ordering rule: at watermark 0 the candidate is the smallest key of
      a non-empty tracker (whatever its start); at a positive watermark it is
      the least key starting at the watermark, and there is none when no key
      starts there. */
  lemma CandidateRule(m: map<Span, Entry>, watermark: uint32)
    ensures watermark == 0 ==> (Candidate(m, watermark).Some? <==> m != map[])
    ensures watermark == 0 && Candidate(m, watermark).Some? ==>
              forall k :: k in m ==> SpanLe(Candidate(m, watermark).value, k)
    ensures watermark > 0 ==>
              (Candidate(m, watermark).Some? <==> exists k :: k in m && k.start == watermark)
    ensures watermark > 0 && Candidate(m, watermark).Some? ==>
              var c := Candidate(m, watermark).value;
              c.start == watermark && forall k :: k in m && k.start == watermark ==> SpanLe(c, k)
  {
    if watermark == 0 {
      if m != map[] {
        var k :| k in m;
        assert k in m.Keys;
      }
    } else {
      FirstStartingMeaning(m.Keys, watermark);
    }
  }

  /** The completeness gate and the at-most-one rule: a verdict appends at
      most one record; it appends one exactly when the candidate's count
      equals the number of detectors, and then it is that candidate's record
      and the watermark becomes the candidate's end. Otherwise nothing is
      sent and the watermark stays. */
  lemma SendRule(s: AggState, v: DetectionResult, totalDetectors: nat, inputTokenCount: uint32)
    ensures var t := Step(s, v, totalDetectors, inputTokenCount);
            && t.entries == Added(s.entries, SpanOf(v), Detections(v), ToClassifiedResult(v, inputTokenCount))
            && (|t.sent| == |s.sent| || |t.sent| == |s.sent| + 1)
            && t.sent[..|s.sent|] == s.sent
            && (|t.sent| == |s.sent| + 1 <==>
                  var c := Candidate(t.entries, s.watermark);
                  c.Some? && t.entries[c.value].count == totalDetectors)
            && (|t.sent| == |s.sent| + 1 ==>
                  var c := Candidate(t.entries, s.watermark).value;
                  t.sent[|s.sent|] == t.entries[c].result && t.watermark == c.end)
            && (|t.sent| == |s.sent| ==> t.watermark == s.watermark)
  {
    var t := Step(s, v, totalDetectors, inputTokenCount);
    assert t.sent[..|s.sent|] == s.sent;
  }

  /** A verdict with no annotations is still recorded and still counts as
      a report, exactly like one with annotations. */
  lemma CleanVerdictCounts(s: AggState, v: DetectionResult, totalDetectors: nat, inputTokenCount: uint32)
    requires Detections(v) == []
    ensures var t := Step(s, v, totalDetectors, inputTokenCount);
            && SpanOf(v) in t.entries
            && t.entries[SpanOf(v)].count == (if SpanOf(v) in s.entries then s.entries[SpanOf(v)].count else 0) + 1
            && t.entries[SpanOf(v)].result.classifications.output == Some([])
  {
  }

  /** Entries are never removed: a verdict adds its span to the key set and
      leaves every other entry as it was. */
  lemma StepKeepsEntries(s: AggState, v: DetectionResult, totalDetectors: nat, inputTokenCount: uint32)
    ensures var t := Step(s, v, totalDetectors, inputTokenCount);
            && t.entries.Keys == s.entries.Keys + {SpanOf(v)}
            && forall k :: k in s.entries && k != SpanOf(v) ==> t.entries[k] == s.entries[k]
  {
  }

  /** Every key has `start <= end`. */
  ghost predicate ForwardKeys(m: map<Span, Entry>)
  {
    forall k :: k in m ==> k.start <= k.end
  }

  /** When no key runs backwards, a verdict never lowers the watermark. */
  lemma StepWatermarkNeverDecreases(s: AggState, v: DetectionResult, totalDetectors: nat, inputTokenCount: uint32)
    requires ForwardKeys(Step(s, v, totalDetectors, inputTokenCount).entries)
    ensures s.watermark <= Step(s, v, totalDetectors, inputTokenCount).watermark
  {
    var t := Step(s, v, totalDetectors, inputTokenCount);
    CandidateRule(t.entries, s.watermark);
  }

  // ---------------------------------------------------------------------
  // A whole run

  /** Number of verdicts in `vs` for span `k`. */
  function CountSpan(vs: seq<DetectionResult>, k: Span): nat
  {
    if vs == [] then 0
    else CountSpan(vs[..|vs| - 1], k) + (if SpanOf(vs[|vs| - 1]) == k then 1 else 0)
  }

  /** The tracker ends up with one entry per distinct span received, never
      fewer, and each entry's count is the number of verdicts for its span. */
  lemma {:induction false} AggregateEntries(vs: seq<DetectionResult>, totalDetectors: nat, inputTokenCount: uint32, k: Span)
    ensures var m := Aggregate(vs, totalDetectors, inputTokenCount).entries;
            && (k in m <==> exists i :: 0 <= i < |vs| && SpanOf(vs[i]) == k)
            && (if k in m then m[k].count else 0) == CountSpan(vs, k)
  {
    if vs != [] {
      var n := |vs| - 1;
      AggregateEntries(vs[..n], totalDetectors, inputTokenCount, k);
      var s := Aggregate(vs[..n], totalDetectors, inputTokenCount);
      var kn, dn, rn := SpanOf(vs[n]), Detections(vs[n]), ToClassifiedResult(vs[n], inputTokenCount);
      var m := Added(s.entries, kn, dn, rn);
      assert Aggregate(vs, totalDetectors, inputTokenCount).entries == m by {
        SendRule(s, vs[n], totalDetectors, inputTokenCount);
      }
      AddedOnlyTouchesSpan(s.entries, kn, dn, rn);
      if k == kn {
        if k in s.entries {
          AddedSeenSpan(s.entries, k, dn, rn);
        } else {
          AddedUnseenSpan(s.entries, k, dn, rn);
        }
      }
      assert CountSpan(vs, k) == CountSpan(vs[..n], k) + (if kn == k then 1 else 0);
      if exists i :: 0 <= i < n && SpanOf(vs[..n][i]) == k {
        var i :| 0 <= i < n && SpanOf(vs[..n][i]) == k;
        assert SpanOf(vs[i]) == k;
      }
      if exists i :: 0 <= i < |vs| && SpanOf(vs[i]) == k {
        var i :| 0 <= i < |vs| && SpanOf(vs[i]) == k;
        if i < n { assert SpanOf(vs[..n][i]) == k; }
      }
    }
  }

  /** A span's record keeps the text, input token count and indices of the
      FIRST verdict received for that span. */
  lemma {:induction false} RecordFromFirstVerdict(vs: seq<DetectionResult>, totalDetectors: nat,
                                                 inputTokenCount: uint32, i: nat)
    requires i < |vs|
    requires forall j :: 0 <= j < i ==> SpanOf(vs[j]) != SpanOf(vs[i])
    ensures var m := Aggregate(vs, totalDetectors, inputTokenCount).entries;
            var r := ToClassifiedResult(vs[i], inputTokenCount);
            && SpanOf(vs[i]) in m
            && m[SpanOf(vs[i])].result.generatedText == r.generatedText
            && m[SpanOf(vs[i])].result.inputTokenCount == r.inputTokenCount
            && m[SpanOf(vs[i])].result.startIndex == r.startIndex
            && m[SpanOf(vs[i])].result.processedIndex == r.processedIndex
  {
    var n := |vs| - 1;
    var k := SpanOf(vs[i]);
    if i < n {
      RecordFromFirstVerdict(vs[..n], totalDetectors, inputTokenCount, i);
    } else {
      AggregateEntries(vs[..n], totalDetectors, inputTokenCount, k);
      assert k !in Aggregate(vs[..n], totalDetectors, inputTokenCount).entries by {
        forall j | 0 <= j < n ensures SpanOf(vs[..n][j]) != k {
          assert vs[..n][j] == vs[j];
        }
      }
    }
  }

  /** A span's output annotations are those of the LAST verdict received for
      that span: each later verdict replaces the earlier ones. */
  lemma {:induction false} OutputFromLastVerdict(vs: seq<DetectionResult>, totalDetectors: nat,
                                                inputTokenCount: uint32, i: nat)
    requires i < |vs|
    requires forall j :: i < j < |vs| ==> SpanOf(vs[j]) != SpanOf(vs[i])
    ensures var m := Aggregate(vs, totalDetectors, inputTokenCount).entries;
            && SpanOf(vs[i]) in m
            && m[SpanOf(vs[i])].result.classifications.output == Some(Detections(vs[i]))
  {
    var n := |vs| - 1;
    if i < n {
      forall j | i < j < n ensures SpanOf(vs[..n][j]) != SpanOf(vs[..n][i]) {
        assert vs[..n][j] == vs[j];
      }
      OutputFromLastVerdict(vs[..n], totalDetectors, inputTokenCount, i);
    }
  }

  /** A run sends at most one record per verdict received. */
  lemma {:induction false} AtMostOneRecordPerVerdict(vs: seq<DetectionResult>, totalDetectors: nat, inputTokenCount: uint32)
    ensures |Aggregate(vs, totalDetectors, inputTokenCount).sent| <= |vs|
  {
    if vs != [] {
      var n := |vs| - 1;
      AtMostOneRecordPerVerdict(vs[..n], totalDetectors, inputTokenCount);
      SendRule(Aggregate(vs[..n], totalDetectors, inputTokenCount), vs[n], totalDetectors, inputTokenCount);
    }
  }

  /** The records sent so far never change: a later run extends the output. */
  lemma {:induction false} SentOnlyGrows(vs: seq<DetectionResult>, v: DetectionResult,
                                         totalDetectors: nat, inputTokenCount: uint32)
    ensures var before := Aggregate(vs, totalDetectors, inputTokenCount).sent;
            var after := Aggregate(vs + [v], totalDetectors, inputTokenCount).sent;
            |before| <= |after| && after[..|before|] == before
  {
    assert (vs + [v])[..|vs + [v]| - 1] == vs;
    SendRule(Aggregate(vs, totalDetectors, inputTokenCount), v, totalDetectors, inputTokenCount);
  }

  /** A record is sent only when the number of verdicts received for its
      span, counting the one just received, equals the number of detectors. */
  lemma SendOnlyWhenComplete(vs: seq<DetectionResult>, v: DetectionResult,
                             totalDetectors: nat, inputTokenCount: uint32)
    requires |Aggregate(vs + [v], totalDetectors, inputTokenCount).sent| > |Aggregate(vs, totalDetectors, inputTokenCount).sent|
    ensures exists k :: && k in Aggregate(vs + [v], totalDetectors, inputTokenCount).entries
                        && CountSpan(vs + [v], k) == totalDetectors
                        && Aggregate(vs + [v], totalDetectors, inputTokenCount).sent ==
                             Aggregate(vs, totalDetectors, inputTokenCount).sent
                             + [Aggregate(vs + [v], totalDetectors, inputTokenCount).entries[k].result]
  {
    assert (vs + [v])[..|vs + [v]| - 1] == vs;
    var s := Aggregate(vs, totalDetectors, inputTokenCount);
    var t := Aggregate(vs + [v], totalDetectors, inputTokenCount);
    var k := Candidate(t.entries, s.watermark).value;
    AggregateEntries(vs + [v], totalDetectors, inputTokenCount, k);
  }

  // Invariants of every reachable state

  /** Each record carries its own key as `(start_index, processed_index)`. */
  ghost predicate RecordsMatchKeys(m: map<Span, Entry>)
  {
    forall k :: k in m ==> m[k].result.startIndex == k.start && m[k].result.processedIndex == Some(k.end)
  }

  /** The span of a sent record. */
  function SentSpan(r: ClassifiedResult): Span
  {
    Span(r.startIndex, if r.processedIndex.Some? then r.processedIndex.value else 0)
  }

  /** Every sent record has a processed index and its span is still tracked. */
  ghost predicate SentFromEntries(st: AggState)
  {
    forall i :: 0 <= i < |st.sent| ==> st.sent[i].processedIndex.Some? && SentSpan(st.sent[i]) in st.entries
  }

  /** The watermark is 0 before the first send and the end of the last sent span after. */
  ghost predicate WatermarkIsLastEnd(st: AggState)
  {
    if st.sent == [] then st.watermark == 0 else st.sent[|st.sent| - 1].processedIndex == Some(st.watermark)
  }

  lemma {:induction false} AggregateInvariants(vs: seq<DetectionResult>, totalDetectors: nat, inputTokenCount: uint32)
    ensures var st := Aggregate(vs, totalDetectors, inputTokenCount);
            RecordsMatchKeys(st.entries) && SentFromEntries(st) && WatermarkIsLastEnd(st)
  {
    if vs != [] {
      var n := |vs| - 1;
      AggregateInvariants(vs[..n], totalDetectors, inputTokenCount);
      var s := Aggregate(vs[..n], totalDetectors, inputTokenCount);
      SendRule(s, vs[n], totalDetectors, inputTokenCount);
    }
  }

  /** Every verdict's span runs forwards: `start <= end` after the casts. */
  ghost predicate ForwardSpans(vs: seq<DetectionResult>)
  {
    forall i :: 0 <= i < |vs| ==> SpanOf(vs[i]).start <= SpanOf(vs[i]).end
  }

  lemma ForwardSpansGiveForwardKeys(vs: seq<DetectionResult>, totalDetectors: nat, inputTokenCount: uint32)
    requires ForwardSpans(vs)
    ensures ForwardKeys(Aggregate(vs, totalDetectors, inputTokenCount).entries)
  {
    forall k | k in Aggregate(vs, totalDetectors, inputTokenCount).entries ensures k.start <= k.end {
      AggregateEntries(vs, totalDetectors, inputTokenCount, k);
    }
  }

  /** With forward spans the watermark never decreases over a run. */
  lemma WatermarkNeverDecreases(vs: seq<DetectionResult>, v: DetectionResult,
                                totalDetectors: nat, inputTokenCount: uint32)
    requires ForwardSpans(vs + [v])
    ensures Aggregate(vs, totalDetectors, inputTokenCount).watermark
            <= Aggregate(vs + [v], totalDetectors, inputTokenCount).watermark
  {
    assert (vs + [v])[..|vs + [v]| - 1] == vs;
    ForwardSpansGiveForwardKeys(vs + [v], totalDetectors, inputTokenCount);
    StepWatermarkNeverDecreases(Aggregate(vs, totalDetectors, inputTokenCount), v, totalDetectors, inputTokenCount);
  }

  /** Each sent record starts where the previous one ended. */
  ghost predicate Contiguous(sent: seq<ClassifiedResult>)
  {
    forall i :: 0 <= i < |sent| - 1 ==> sent[i].processedIndex == Some(sent[i + 1].startIndex)
  }

  /** With forward spans the output is contiguous: every record after the
      first starts at the previous record's end. This holds also for the
      degenerate span (0, 0), which stays the smallest key and so is what the
      watermark-0 rule picks again. */
  lemma {:induction false} SentContiguous(vs: seq<DetectionResult>, totalDetectors: nat, inputTokenCount: uint32)
    requires ForwardSpans(vs)
    ensures Contiguous(Aggregate(vs, totalDetectors, inputTokenCount).sent)
  {
    if vs != [] {
      var n := |vs| - 1;
      assert ForwardSpans(vs[..n]) by {
        forall i | 0 <= i < n ensures SpanOf(vs[..n][i]).start <= SpanOf(vs[..n][i]).end {
          assert vs[..n][i] == vs[i];
        }
      }
      SentContiguous(vs[..n], totalDetectors, inputTokenCount);
      AggregateInvariants(vs[..n], totalDetectors, inputTokenCount);
      AggregateInvariants(vs, totalDetectors, inputTokenCount);
      ForwardSpansGiveForwardKeys(vs, totalDetectors, inputTokenCount);
      StepKeepsContiguous(Aggregate(vs[..n], totalDetectors, inputTokenCount), vs[n], totalDetectors, inputTokenCount);
    }
  }

  /** One verdict keeps the output contiguous in every reachable state whose
      keys run forwards. */
  lemma StepKeepsContiguous(s: AggState, v: DetectionResult, totalDetectors: nat, inputTokenCount: uint32)
    requires Contiguous(s.sent) && SentFromEntries(s) && WatermarkIsLastEnd(s)
    requires var t := Step(s, v, totalDetectors, inputTokenCount);
             RecordsMatchKeys(t.entries) && ForwardKeys(t.entries)
    ensures Contiguous(Step(s, v, totalDetectors, inputTokenCount).sent)
  {
    var t := Step(s, v, totalDetectors, inputTokenCount);
    SendRule(s, v, totalDetectors, inputTokenCount);
    if |t.sent| == |s.sent| + 1 && s.sent != [] {
      var c := Candidate(t.entries, s.watermark).value;
      CandidateRule(t.entries, s.watermark);
      assert t.sent[|s.sent|].startIndex == c.start;
      if s.watermark == 0 {
        var last := SentSpan(s.sent[|s.sent| - 1]);
        assert last in t.entries;
        assert SpanLe(c, last);
      }
      assert c.start == s.watermark;
      assert t.sent[|s.sent| - 1] == s.sent[|s.sent| - 1];
      forall i | 0 <= i < |t.sent| - 1 ensures t.sent[i].processedIndex == Some(t.sent[i + 1].startIndex) {
        if i < |s.sent| - 1 {
          assert t.sent[i] == s.sent[i] && t.sent[i + 1] == s.sent[i + 1];
        }
      }
    } else if |t.sent| == |s.sent| + 1 {
      assert |t.sent| == 1;
    } else {
      assert t.sent == s.sent;
    }
  }

  /** Every span runs strictly forwards: `start < end` after the casts. */
  ghost predicate NonEmptySpans(vs: seq<DetectionResult>)
  {
    forall i :: 0 <= i < |vs| ==> SpanOf(vs[i]).start < SpanOf(vs[i]).end
  }

  /** With non-empty spans the records go out in strictly increasing order
      of start index, so no record is sent twice. */
  lemma SentInIncreasingOrder(vs: seq<DetectionResult>, totalDetectors: nat, inputTokenCount: uint32)
    requires NonEmptySpans(vs)
    ensures var sent := Aggregate(vs, totalDetectors, inputTokenCount).sent;
            forall i, j :: 0 <= i < j < |sent| ==> sent[i].startIndex < sent[j].startIndex
  {
    var st := Aggregate(vs, totalDetectors, inputTokenCount);
    SentContiguous(vs, totalDetectors, inputTokenCount);
    AggregateInvariants(vs, totalDetectors, inputTokenCount);
    forall i | 0 <= i < |st.sent| - 1 ensures st.sent[i].startIndex < st.sent[i + 1].startIndex {
      AggregateEntries(vs, totalDetectors, inputTokenCount, SentSpan(st.sent[i]));
    }
    AdjacentIncreasingIsIncreasing(st.sent);
  }

  lemma {:induction false} AdjacentIncreasingIsIncreasing(sent: seq<ClassifiedResult>)
    requires forall i :: 0 <= i < |sent| - 1 ==> sent[i].startIndex < sent[i + 1].startIndex
    ensures forall i, j :: 0 <= i < j < |sent| ==> sent[i].startIndex < sent[j].startIndex
  {
    if |sent| > 1 {
      var n := |sent| - 1;
      AdjacentIncreasingIsIncreasing(sent[..n]);
      forall i, j | 0 <= i < j < |sent| ensures sent[i].startIndex < sent[j].startIndex {
        if j < n {
          assert sent[..n][i] == sent[i] && sent[..n][j] == sent[j];
        } else if i < n - 1 {
          assert sent[..n][i] == sent[i] && sent[..n][n - 1] == sent[n - 1];
        }
      }
    }
  }

  /** `process` yields a contiguous output whenever all spans run forwards. */
  lemma ProcessOutputContiguous(streams: seq<seq<DetectionResult>>, inputTokenCount: uint32)
    requires forall i, j :: 0 <= i < |streams| && 0 <= j < |streams[i]| ==>
               SpanOf(streams[i][j]).start <= SpanOf(streams[i][j]).end
    ensures Contiguous(Aggregate(Flatten(streams), |streams|, inputTokenCount).sent)
  {
    var vs := Flatten(streams);
    forall n | 0 <= n < |vs| ensures SpanOf(vs[n]).start <= SpanOf(vs[n]).end {
      FlattenMembership(streams, vs[n]);
      var i :| 0 <= i < |streams| && vs[n] in streams[i];
      var j :| 0 <= j < |streams[i]| && streams[i][j] == vs[n];
    }
    SentContiguous(vs, |streams|, inputTokenCount);
  }
}
