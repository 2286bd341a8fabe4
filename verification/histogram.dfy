/** `np.bincount` over a flattened label map. */
module Histogram {
  import opened Errors
  import opened Labels

  /** Adds one to the bucket of every label of `labels`, in one pass. */
  function Tally(labels: seq<int>, hist: seq<nat>): (r: seq<nat>)
    requires Indexes(labels, hist)
    ensures |r| == |hist|
    ensures forall l :: 0 <= l < |hist| ==> r[l] == hist[l] + Count(labels, l)
  {
    if |labels| == 0 then hist
    else Tally(labels[1..], hist[labels[0] := hist[labels[0]] + 1])
  }

  /** The number of buckets numpy allocates: one past the largest label, or
      none for an empty map. */
  function BucketCount(labels: seq<int>): (n: nat)
    requires NonNegative(labels)
    ensures forall i :: 0 <= i < |labels| ==> labels[i] < n
    ensures |labels| == 0 <==> n == 0
    ensures n > 0 ==> exists i :: 0 <= i < |labels| && labels[i] == n - 1
  {
    if |labels| == 0 then 0 else MaxLabel(labels) + 1
  }

  /** One count per label from 0 up to the largest label; a negative label
      makes the histogram undefined and raises `ValueError`. */
  function Bincount(labels: seq<int>): (r: Result<seq<nat>>)
    ensures r.Err? <==> !NonNegative(labels)
    ensures r.Err? ==> r.error == ValueError
    ensures r.Ok? ==> (|labels| == 0 <==> |r.value| == 0)
    ensures r.Ok? ==> forall i :: 0 <= i < |labels| ==> labels[i] < |r.value|
    ensures r.Ok? && |r.value| > 0 ==> exists i :: 0 <= i < |labels| && labels[i] == |r.value| - 1
    ensures r.Ok? ==> forall l :: 0 <= l < |r.value| ==> r.value[l] == Count(labels, l)
  {
    if !NonNegative(labels) then Err(ValueError)
    else Ok(Tally(labels, seq(BucketCount(labels), _ => 0)))
  }

  /** numpy's histogram has exactly two buckets precisely when the map holds
      labels 0 and/or 1 only, with 1 present: a single object. */
  lemma TwoBucketsIffSingleLabel(labels: seq<int>)
    requires Bincount(labels).Ok?
    ensures |Bincount(labels).value| == 2 <==> OnlyLabelOne(labels)
  {
  }
}
