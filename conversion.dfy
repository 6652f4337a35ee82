/** Turning a detector verdict into the record the aggregator tracks
    (max_processed_index.rs, the expression code at the head of the
    per-verdict loop). */
module Conversion {
  import opened Models

  /** The chunk's generated text: its tokens' texts joined in order. */
  function JoinTexts(tokens: seq<Token>): string
  {
    if tokens == [] then "" else JoinTexts(tokens[..|tokens| - 1]) + tokens[|tokens| - 1].text
  }

  /** Joining distributes over concatenation of token lists. */
  lemma {:induction false} JoinTextsAppend(a: seq<Token>, b: seq<Token>)
    ensures JoinTexts(a + b) == JoinTexts(a) + JoinTexts(b)
  {
    if b == [] {
      assert a + b == a;
    } else {
      var n := |b| - 1;
      assert (a + b)[..|a + b| - 1] == a + b[..n];
      JoinTextsAppend(a, b[..n]);
    }
  }

  /** Every token's text occurs in the joined text at the offset given by
      the texts before it. */
  lemma {:induction false} JoinTextsAt(tokens: seq<Token>, i: nat)
    requires i < |tokens|
    ensures var pre := JoinTexts(tokens[..i]);
            |pre| + |tokens[i].text| <= |JoinTexts(tokens)|
            && JoinTexts(tokens)[|pre|..|pre| + |tokens[i].text|] == tokens[i].text
  {
    assert tokens == tokens[..i] + [tokens[i]] + tokens[i + 1..];
    JoinTextsAppend(tokens[..i] + [tokens[i]], tokens[i + 1..]);
    JoinTextsAppend(tokens[..i], [tokens[i]]);
    assert JoinTexts([tokens[i]]) == JoinTexts([]) + tokens[i].text;
  }

  /** The verdict's annotations, its nested lists flattened in order. */
  function Detections(v: DetectionResult): seq<TokenClassificationResult>
  {
    Flatten(v.detections)
  }

  /** The tracker key of a verdict: the chunk's indices cast with `as u32`.
      An index that fits in 32 bits is the key's bound as it is; any other
      index wraps around as `AsU32` states. */
  function SpanOf(v: DetectionResult): (k: Span)
    ensures 0 <= v.chunk.startIndex < 0x1_0000_0000 ==> k.start == v.chunk.startIndex
    ensures 0 <= v.chunk.processedIndex < 0x1_0000_0000 ==> k.end == v.chunk.processedIndex
  {
    Span(AsU32(v.chunk.startIndex), AsU32(v.chunk.processedIndex))
  }

  /** The record built for a verdict before it reaches the tracker: its
      indices are the verdict's tracker key, so a tracked record always
      carries the key it is stored under. The output annotations are left
      unset; the tracker fills them in. */
  function ToClassifiedResult(v: DetectionResult, inputTokenCount: uint32): (r: ClassifiedResult)
    ensures r.processedIndex.Some? && Span(r.startIndex, r.processedIndex.value) == SpanOf(v)
    ensures r.inputTokenCount == inputTokenCount
    ensures r.classifications.output == None && r.classifications.input == None
  {
    ClassifiedResult(
      Some(JoinTexts(v.chunk.results)),
      inputTokenCount,
      AsU32(v.chunk.startIndex),
      Some(AsU32(v.chunk.processedIndex)),
      TokenClassificationResults(None, None))
  }

  /** The record's text holds each token's text, in order; the record's
      span is the verdict's tracker key. */
  lemma ClassifiedResultText(v: DetectionResult, inputTokenCount: uint32, i: nat)
    requires i < |v.chunk.results|
    ensures var r := ToClassifiedResult(v, inputTokenCount);
            var pre := JoinTexts(v.chunk.results[..i]);
            var t := v.chunk.results[i].text;
            r.generatedText.Some?
            && |pre| + |t| <= |r.generatedText.value|
            && r.generatedText.value[|pre|..|pre| + |t|] == t
  {
    JoinTextsAt(v.chunk.results, i);
  }

  /** An annotation is in the verdict's list exactly when one of the
      verdict's inner lists holds it. */
  lemma DetectionsMembership(v: DetectionResult, d: TokenClassificationResult)
    ensures d in Detections(v) <==> exists i :: 0 <= i < |v.detections| && d in v.detections[i]
  {
    FlattenMembership(v.detections, d);
  }
}
