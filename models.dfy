/** Value types that the max-processed-index aggregator reads and produces:
    the detector verdict it receives, the classified record it sends
    downstream, and the span that keys its tracker. Only the fields the
    aggregator touches are modelled. */
module Models {

  /** Rust's `u32`. */
  type uint32 = x: int | 0 <= x < 0x1_0000_0000

  /** The wrapping `as u32` cast from a signed 64-bit index: keeps the low
      32 bits, which for a two's complement value is the Euclidean remainder. */
  function AsU32(x: int): (r: uint32)
    ensures 0 <= x < 0x1_0000_0000 ==> r == x
    ensures (x - r) % 0x1_0000_0000 == 0
  {
    x % 0x1_0000_0000
  }

  datatype Option<T> = None | Some(value: T)

  /** A half-open token range `[start, end)`; the tracker's key `(start, end)`. */
  datatype Span = Span(start: uint32, end: uint32)

  /** The order of Rust tuples `(u32, u32)`: lexicographic, start first. */
  predicate SpanLe(a: Span, b: Span) {
    a.start < b.start || (a.start == b.start && a.end <= b.end)
  }

  predicate SpanLt(a: Span, b: Span) {
    SpanLe(a, b) && a != b
  }

  /** One annotation of a span, carried through unchanged. The score is a
      float in the source; it is never computed with here. */
  datatype TokenClassificationResult = TokenClassificationResult(
    start: uint32,
    end: uint32,
    word: string,
    entity: string,
    entityGroup: string,
    score: real,
    tokenCount: Option<uint32>)

  /** `TextGenTokenClassificationResults`: annotations of the input and of the output. */
  datatype TokenClassificationResults = TokenClassificationResults(
    input: Option<seq<TokenClassificationResult>>,
    output: Option<seq<TokenClassificationResult>>)

  /** `ClassifiedGeneratedTextStreamResult`, restricted to the fields the
      aggregator sets; every other field of the record keeps its default. */
  datatype ClassifiedResult = ClassifiedResult(
    generatedText: Option<string>,
    inputTokenCount: uint32,
    startIndex: uint32,
    processedIndex: Option<uint32>,
    classifications: TokenClassificationResults)

  /** A token of a generated chunk. */
  datatype Token = Token(start: int, end: int, text: string)

  /** `TokenizationStreamResult`: one chunk of generated text. Its indices are
      64-bit signed integers. */
  datatype Chunk = Chunk(results: seq<Token>, tokenCount: int, processedIndex: int, startIndex: int)

  /** `DetectionResult`: one detector's verdict on one chunk, as lists of
      already converted annotations (one inner list per detector response). */
  datatype DetectionResult = DetectionResult(chunk: Chunk, detections: seq<seq<TokenClassificationResult>>)

  /** Concatenation of a sequence of sequences, in order. */
  function Flatten<T>(xss: seq<seq<T>>): seq<T>
  {
    if xss == [] then [] else Flatten(xss[..|xss| - 1]) + xss[|xss| - 1]
  }

  /** Flattening distributes over concatenation. */
  lemma {:induction false} FlattenAppend<T>(xss: seq<seq<T>>, yss: seq<seq<T>>)
    ensures Flatten(xss + yss) == Flatten(xss) + Flatten(yss)
  {
    if yss == [] {
      assert xss + yss == xss;
    } else {
      var n := |yss| - 1;
      assert (xss + yss)[..|xss + yss| - 1] == xss + yss[..n];
      FlattenAppend(xss, yss[..n]);
    }
  }

  /** Flattening keeps every element, and keeps nothing else. */
  lemma {:induction false} FlattenMembership<T>(xss: seq<seq<T>>, x: T)
    ensures x in Flatten(xss) <==> exists i :: 0 <= i < |xss| && x in xss[i]
  {
    if xss != [] {
      var n := |xss| - 1;
      FlattenMembership(xss[..n], x);
      if x in Flatten(xss[..n]) {
        var i :| 0 <= i < n && x in xss[..n][i];
        assert x in xss[i];
      }
      if exists i :: 0 <= i < |xss| && x in xss[i] {
        var i :| 0 <= i < |xss| && x in xss[i];
        if i < n { assert x in xss[..n][i]; }
      }
    }
  }

  /** The length of a flattening is the sum of the lengths. */
  function TotalLength<T>(xss: seq<seq<T>>): nat
  {
    if xss == [] then 0 else TotalLength(xss[..|xss| - 1]) + |xss[|xss| - 1]|
  }

  lemma {:induction false} FlattenLength<T>(xss: seq<seq<T>>)
    ensures |Flatten(xss)| == TotalLength(xss)
  {
    if xss != [] {
      FlattenLength(xss[..|xss| - 1]);
    }
  }
}
