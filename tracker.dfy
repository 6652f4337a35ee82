/** The detection tracker: the ordered map from span `(start, end)` to the
    record built so far and the number of detectors that reported it, with
    the two operations the aggregator adds to it, `add_detection_result`
    and `find_first` (max_processed_index.rs:23-60). */
module Tracker {
  import opened Models

  /** The tracker's value for one span: the record and the report count. */
  datatype Entry = Entry(result: ClassifiedResult, count: nat)

  /** `r` with its output annotations set to `detections`. */
  function WithOutput(r: ClassifiedResult, detections: seq<TokenClassificationResult>): ClassifiedResult
  {
    r.(classifications := r.classifications.(output := Some(detections)))
  }

  /** The tracker after `add_detection_result(k.start, k.end, detections, classified)`:
      an unseen span gets `classified` with the new output and count 1; a
      seen span keeps its record, has its output replaced and its count
      raised by one. */
  function Added(m: map<Span, Entry>, k: Span, detections: seq<TokenClassificationResult>,
                 classified: ClassifiedResult): map<Span, Entry>
  {
    if k in m then m[k := Entry(WithOutput(m[k].result, detections), m[k].count + 1)]
    else m[k := Entry(WithOutput(classified, detections), 1)]
  }

  /** An unseen span is inserted with count 1, the new annotations as output,
      and every other field taken from the supplied record. */
  lemma AddedUnseenSpan(m: map<Span, Entry>, k: Span, detections: seq<TokenClassificationResult>,
                        classified: ClassifiedResult)
    requires k !in m
    ensures var e := Added(m, k, detections, classified)[k];
            && e.count == 1
            && e.result.classifications.output == Some(detections)
            && e.result.classifications.input == classified.classifications.input
            && e.result.generatedText == classified.generatedText
            && e.result.inputTokenCount == classified.inputTokenCount
            && e.result.startIndex == classified.startIndex
            && e.result.processedIndex == classified.processedIndex
  {
  }

  /** A span already present has its count raised by exactly one and its
      output REPLACED by the new annotations: earlier annotations are not
      kept, and the supplied record is ignored. */
  lemma AddedSeenSpan(m: map<Span, Entry>, k: Span, detections: seq<TokenClassificationResult>,
                      classified: ClassifiedResult)
    requires k in m
    ensures var e := Added(m, k, detections, classified)[k];
            && e.count == m[k].count + 1
            && e.result.classifications.output == Some(detections)
            && e.result.classifications.input == m[k].result.classifications.input
            && e.result.generatedText == m[k].result.generatedText
            && e.result.inputTokenCount == m[k].result.inputTokenCount
            && e.result.startIndex == m[k].result.startIndex
            && e.result.processedIndex == m[k].result.processedIndex
  {
  }

  /** Adding touches only the given span: the key set grows by that span and
      no other key's value changes. */
  lemma AddedOnlyTouchesSpan(m: map<Span, Entry>, k: Span, detections: seq<TokenClassificationResult>,
                             classified: ClassifiedResult)
    ensures Added(m, k, detections, classified).Keys == m.Keys + {k}
    ensures forall j :: j in m && j != k ==> Added(m, k, detections, classified)[j] == m[j]
  {
  }

  // ---------------------------------------------------------------------
  // Order of the keys

  ghost predicate IsSmallest(r: Span, ks: set<Span>)
  {
    r in ks && forall k :: k in ks ==> SpanLe(r, k)
  }

  /** A finite non-empty set of spans has a smallest element. */
  lemma {:induction false} SmallestExists(ks: set<Span>)
    requires ks != {}
    ensures exists r :: IsSmallest(r, ks)
  {
    var x :| x in ks;
    if ks == {x} {
      assert IsSmallest(x, ks);
    } else {
      var rest := ks - {x};
      SmallestExists(rest);
      var y :| IsSmallest(y, rest);
      if SpanLe(x, y) {
        forall k | k in ks ensures SpanLe(x, k) {
          if k != x { assert SpanLe(y, k); }
        }
        assert IsSmallest(x, ks);
      } else {
        assert IsSmallest(y, ks);
      }
    }
  }

  /** The smallest key of a non-empty key set, in `(start, end)` order. */
  ghost function Smallest(ks: set<Span>): (r: Span)
    requires ks != {}
    ensures IsSmallest(r, ks)
  {
    SmallestExists(ks);
    var r :| IsSmallest(r, ks); r
  }

  /** The smallest element is unique. */
  lemma SmallestUnique(ks: set<Span>, r: Span)
    requires IsSmallest(r, ks)
    ensures Smallest(ks) == r
  {
    var s := Smallest(ks);
    assert SpanLe(s, r) && SpanLe(r, s);
  }

  /** The result `find_first(s)` should have: the smallest key starting at
      `s`, or none when no key starts at `s`. */
  ghost function FirstStarting(ks: set<Span>, s: uint32): Option<Span>
  {
    var starting := set k | k in ks && k.start == s;
    if starting == {} then None else Some(Smallest(starting))
  }

  /** `FirstStarting` finds a key exactly when one starts at `s`, and then
      the least such key. */
  lemma FirstStartingMeaning(ks: set<Span>, s: uint32)
    ensures FirstStarting(ks, s).Some? <==> exists k :: k in ks && k.start == s
    ensures FirstStarting(ks, s).Some? ==>
              var r := FirstStarting(ks, s).value;
              r in ks && r.start == s && forall k :: k in ks && k.start == s ==> SpanLe(r, k)
  {
    var starting := set k | k in ks && k.start == s;
    if exists k :: k in ks && k.start == s {
      var k :| k in ks && k.start == s;
      assert k in starting;
    }
  }

  /** Strictly increasing: the order in which a `BTreeMap` iterates its keys. */
  ghost predicate StrictlySorted(keys: seq<Span>)
  {
    forall i, j :: 0 <= i < j < |keys| ==> SpanLt(keys[i], keys[j])
  }

  /** The key sequence after inserting a new key into a sorted one. */
  function InsertSorted(keys: seq<Span>, k: Span): (r: seq<Span>)
    requires StrictlySorted(keys) && k !in keys
    ensures StrictlySorted(r)
    ensures forall j :: j in r <==> j in keys || j == k
  {
    if keys == [] then [k]
    else if SpanLt(k, keys[0]) then [k] + keys
    else
      var rest := InsertSorted(keys[1..], k);
      assert forall j :: j in rest ==> SpanLt(keys[0], j) by {
        forall j | j in rest ensures SpanLt(keys[0], j) {
          if j != k {
            var i :| 0 <= i < |keys[1..]| && keys[1..][i] == j;
            assert keys[i + 1] == j;
          }
        }
      }
      [keys[0]] + rest
  }

  // ---------------------------------------------------------------------
  // The tracker, mutated in place

  /** The `BTreeMap<(u32, u32), (ClassifiedGeneratedTextStreamResult, usize)>`:
      `entries` is its contents, `keys` its keys in iteration order. */
  class DetectionTracker {
    var keys: seq<Span>
    var entries: map<Span, Entry>

    ghost predicate Valid()
      reads this
    {
      && StrictlySorted(keys)
      && (forall k :: k in entries <==> k in keys)
    }

    constructor ()
      ensures Valid() && entries == map[] && keys == []
    {
      keys := [];
      entries := map[];
    }

    /** `add_detection_result` (max_processed_index.rs:24-49). */
    method AddDetectionResult(start: uint32, end: uint32, newDetections: seq<TokenClassificationResult>,
                              classified: ClassifiedResult)
      requires Valid()
      modifies this
      ensures Valid()
      ensures entries == Added(old(entries), Span(start, end), newDetections, classified)
    {
      var k := Span(start, end);
      if k in entries {
        var e := entries[k];
        entries := entries[k := Entry(WithOutput(e.result, newDetections), e.count + 1)];
      } else {
        keys := InsertSorted(keys, k);
        entries := entries[k := Entry(WithOutput(classified, newDetections), 1)];
      }
    }

    /** `is_empty`. */
    method IsEmpty() returns (empty: bool)
      requires Valid()
      ensures empty <==> entries == map[]
    {
      empty := |keys| == 0;
      if !empty {
        assert keys[0] in entries;
      }
    }

    /** `first_key_value`: the smallest key and its value, none when empty. */
    method FirstKeyValue() returns (r: Option<(Span, Entry)>)
      requires Valid()
      ensures r.None? <==> entries == map[]
      ensures r.Some? ==> r.value.0 in entries && r.value.1 == entries[r.value.0]
      ensures r.Some? ==> forall k :: k in entries ==> SpanLe(r.value.0, k)
      ensures r.Some? ==> r.value.0 == Smallest(entries.Keys)
    {
      if |keys| == 0 {
        assert forall k :: k !in entries;
        r := None;
      } else {
        var k := keys[0];
        assert forall j :: j in entries ==> SpanLe(k, j) by {
          forall j | j in entries ensures SpanLe(k, j) {
            var i :| 0 <= i < |keys| && keys[i] == j;
            if i > 0 { assert SpanLt(keys[0], keys[i]); }
          }
        }
        SmallestUnique(entries.Keys, k);
        r := Some((k, entries[k]));
      }
    }

    /** `find_first` (max_processed_index.rs:51-59): scan the keys in order
        and return the first whose start is `start`. */
    method FindFirst(start: uint32) returns (r: Option<Span>)
      requires Valid()
      ensures r.Some? <==> exists k :: k in entries && k.start == start
      ensures r.Some? ==> r.value in entries && r.value.start == start
      ensures r.Some? ==> forall k :: k in entries && k.start == start ==> SpanLe(r.value, k)
      ensures r == FirstStarting(entries.Keys, start)
    {
      var i := 0;
      while i < |keys|
        invariant 0 <= i <= |keys|
        invariant forall j :: 0 <= j < i ==> keys[j].start != start
      {
        if keys[i].start == start {
          var k := keys[i];
          assert forall j :: j in entries && j.start == start ==> SpanLe(k, j) by {
            forall j | j in entries && j.start == start ensures SpanLe(k, j) {
              var n :| 0 <= n < |keys| && keys[n] == j;
              if n != i { assert SpanLt(keys[i], keys[n]); }
            }
          }
          SmallestUnique((set j | j in entries.Keys && j.start == start), k);
          return Some(k);
        }
        i := i + 1;
      }
      assert forall j :: j in entries ==> j.start != start by {
        forall j | j in entries ensures j.start != start {
          var n :| 0 <= n < |keys| && keys[n] == j;
        }
      }
      assert (set j | j in entries.Keys && j.start == start) == {};
      return None;
    }
  }
}
