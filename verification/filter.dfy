/** `remove_big_objects` over a flattened array: element-type guard, the
    `max_size == 0` return, the histogram of the label map, the single-object
    warning, and zeroing every element whose label occurs more than
    `max_size` times. */
module SizeFilter {
  import opened Errors
  import opened Dtype
  import opened Labels
  import opened Histogram
  import opened Mask

  /** An input array flattened in `ravel` order, with its element kind.
      A boolean element is 0 for False and nonzero for True. */
  datatype Image = Image(kind: Kind, data: seq<int>)

  /** The filtered elements and whether the single-object warning fired. */
  datatype Filtered = Filtered(data: seq<int>, warned: bool)

  /** The label map the histogram is taken over: for a boolean array the
      connected-component labelling `labels`, for an integer array the
      array itself. Either way it labels every element, with 0 exactly on
      the background. */
  function LabelMap(ar: Image, labels: seq<int>): (m: seq<int>)
    requires ValidInput(ar, labels)
    ensures IsLabelling(ar.data, m)
  {
    if ar.kind == Bool then labels else ar.data
  }

  /** What the caller must supply: on the boolean path a connected-component
      labelling, which is 0 exactly on the False elements and never negative. */
  predicate ValidInput(ar: Image, labels: seq<int>)
  {
    ar.kind == Bool ==> IsLabelling(ar.data, labels) && NonNegative(labels)
  }

  /** `out` is `data` with every element whose label occurs in `labels` more
      than `maxSize` times set to 0, and every other element kept. */
  predicate Cleared(data: seq<int>, labels: seq<int>, maxSize: int, out: seq<int>)
  {
    && |labels| == |data|
    && |out| == |data|
    && forall k :: 0 <= k < |data| ==>
         out[k] == (if Count(labels, labels[k]) > maxSize then 0 else data[k])
  }

  /** Two arrays cleared from the same data and labels are the same array. */
  lemma ClearedIsUnique(data: seq<int>, labels: seq<int>, maxSize: int, a: seq<int>, b: seq<int>)
    requires Cleared(data, labels, maxSize, a) && Cleared(data, labels, maxSize, b)
    ensures a == b
  {
  }

  /** `remove_big_objects(ar, max_size)` on the flattened array. The boolean
      path takes the connected-component labelling as `labels`; the integer
      path ignores it and uses the array as its own label map. */
  function RemoveBigObjects(ar: Image, maxSize: int, labels: seq<int>): (r: Result<Filtered>)
    requires ValidInput(ar, labels)
    // the element type is checked before anything else
    ensures ar.kind == Other ==> r == Err(TypeError)
    // a zero size limit returns the array unchanged, whatever the labels
    ensures ar.kind != Other && maxSize == 0 ==> r == Ok(Filtered(ar.data, false))
    // a negative label is a ValueError, and the only other error
    ensures r.Err? && r.error == ValueError <==>
              ar.kind != Other && maxSize != 0 && !NonNegative(LabelMap(ar, labels))
    // and nothing else fails
    ensures r.Ok? <==> ar.kind != Other && (maxSize == 0 || NonNegative(LabelMap(ar, labels)))
    ensures r.Ok? ==> |r.value.data| == |ar.data|
    // otherwise an element is zeroed exactly when its label occurs more than maxSize times
    ensures r.Ok? && maxSize != 0 ==> Cleared(ar.data, LabelMap(ar, labels), maxSize, r.value.data)
    // the warning fires exactly when the label map holds a single object
    ensures r.Ok? ==> (r.value.warned <==> maxSize != 0 && OnlyLabelOne(LabelMap(ar, labels)))
  {
    match CheckDtypeSupported(ar.kind)
    case Fail(e) => Err(e)
    case Pass =>
      if maxSize == 0 then Ok(Filtered(ar.data, false))
      else
        var ccs := LabelMap(ar, labels);
        match Bincount(ccs)
        case Err(e) => Err(e)
        case Ok(sizes) =>
          TwoBucketsIffSingleLabel(ccs);
          Ok(Filtered(ZeroTooBig(ar.data, ccs, sizes, maxSize), |sizes| == 2))
  }

  /** The filter only clears elements: background stays background and no
      element takes a value it did not have. */
  lemma NoNewForeground(ar: Image, maxSize: int, labels: seq<int>)
    requires ValidInput(ar, labels)
    requires RemoveBigObjects(ar, maxSize, labels).Ok?
    ensures var out := RemoveBigObjects(ar, maxSize, labels).value.data;
            forall i :: 0 <= i < |ar.data| ==> (out[i] == 0 || out[i] == ar.data[i])
    ensures var out := RemoveBigObjects(ar, maxSize, labels).value.data;
            forall i :: 0 <= i < |ar.data| && ar.data[i] == 0 ==> out[i] == 0
  {
  }

  /** A negative `max_size` clears the whole array: no count is below 0. */
  lemma NegativeLimitClearsAll(ar: Image, maxSize: int, labels: seq<int>)
    requires ValidInput(ar, labels)
    requires maxSize < 0
    requires RemoveBigObjects(ar, maxSize, labels).Ok?
    ensures forall i :: 0 <= i < |ar.data| ==> RemoveBigObjects(ar, maxSize, labels).value.data[i] == 0
  {
  }

  /** Foreground elements of `out` that share a label in `labels` share one
      in `labels2`, and conversely: the second map names the same objects. */
  predicate SamePartition(out: seq<int>, labels: seq<int>, labels2: seq<int>)
    requires |labels| == |out| && |labels2| == |out|
  {
    forall i, j :: 0 <= i < |out| && 0 <= j < |out| && out[i] != 0 && out[j] != 0 ==>
      (labels2[i] == labels2[j] <==> labels[i] == labels[j])
  }

  /** An object that survives the filter keeps its size under any labelling
      of the output that names the same objects. */
  lemma SurvivorKeepsSize(data: seq<int>, labels: seq<int>, out: seq<int>, labels2: seq<int>,
                          maxSize: int, i: int)
    requires IsLabelling(data, labels) && IsLabelling(out, labels2)
    requires Cleared(data, labels, maxSize, out)
    requires SamePartition(out, labels, labels2)
    requires 0 <= i < |out| && out[i] != 0
    ensures Count(labels2, labels2[i]) == Count(labels, labels[i]) <= maxSize
  {
    forall j | 0 <= j < |out|
      ensures labels2[j] == labels2[i] <==> labels[j] == labels[i]
    {
      if labels2[j] == labels2[i] {
        assert labels2[i] != 0;
        assert out[j] != 0;
      }
      if labels[j] == labels[i] {
        assert data[j] != 0;
        assert out[j] != 0;
      }
    }
    CountAgree(labels2, labels2[i], labels, labels[i]);
  }

  /** Clearing the output by a labelling that names the same objects clears
      nothing more: surviving objects keep their size and everything else is
      already 0. */
  lemma ClearingTwiceIsClearingOnce(data: seq<int>, labels: seq<int>, out: seq<int>,
                                    labels2: seq<int>, maxSize: int)
    requires IsLabelling(data, labels) && IsLabelling(out, labels2)
    requires Cleared(data, labels, maxSize, out)
    requires SamePartition(out, labels, labels2)
    ensures Cleared(out, labels2, maxSize, out)
  {
    forall k | 0 <= k < |out| && out[k] != 0
      ensures Count(labels2, labels2[k]) <= maxSize
    {
      SurvivorKeepsSize(data, labels, out, labels2, maxSize, k);
    }
  }

  /** On the integer path the label map of the filtered array is the filtered
      array itself; it names the same objects as the original one. */
  lemma IntegerOutputKeepsPartition(data: seq<int>, out: seq<int>)
    requires |out| == |data|
    requires forall k :: 0 <= k < |data| ==> out[k] == 0 || out[k] == data[k]
    ensures SamePartition(out, data, out)
  {
  }

  /** Filtering the output again with the same `max_size` changes nothing.
      On the boolean path the second run is given a labelling of the output
      that names the same objects as the first labelling. */
  lemma FilterIsIdempotent(ar: Image, maxSize: int, labels: seq<int>, labels2: seq<int>)
    requires ValidInput(ar, labels)
    requires RemoveBigObjects(ar, maxSize, labels).Ok?
    requires ar.kind == Bool ==>
               var out := RemoveBigObjects(ar, maxSize, labels).value.data;
               IsLabelling(out, labels2) && NonNegative(labels2) && SamePartition(out, labels, labels2)
    ensures var out := RemoveBigObjects(ar, maxSize, labels).value.data;
            && ValidInput(Image(ar.kind, out), labels2)
            && RemoveBigObjects(Image(ar.kind, out), maxSize, labels2).Ok?
            && RemoveBigObjects(Image(ar.kind, out), maxSize, labels2).value.data == out
  {
    var out := RemoveBigObjects(ar, maxSize, labels).value.data;
    var again := Image(ar.kind, out);
    if maxSize != 0 {
      var ccs := LabelMap(ar, labels);
      var ccs2 := LabelMap(again, labels2);
      assert Cleared(ar.data, ccs, maxSize, out);
      assert IsLabelling(ar.data, ccs) && IsLabelling(out, ccs2);
      if ar.kind == Int {
        NoNewForeground(ar, maxSize, labels);
        IntegerOutputKeepsPartition(ar.data, out);
        assert NonNegative(ccs2);
      }
      ClearingTwiceIsClearingOnce(ar.data, ccs, out, ccs2, maxSize);
      assert ValidInput(again, labels2);
      var r2 := RemoveBigObjects(again, maxSize, labels2);
      assert NonNegative(LabelMap(again, labels2));
      assert r2.Ok?;
      ClearedIsUnique(out, ccs2, maxSize, r2.value.data, out);
    }
  }
}
