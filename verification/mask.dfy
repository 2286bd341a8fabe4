/** Zeroing the elements whose label is too big (`out[too_big[ccs]] = 0`). */
module Mask {
  import opened Labels

  /** `data` with every element whose label's bucket exceeds `maxSize` set to
      0; the mask is read from `labels`, which are not changed. */
  function ZeroTooBig(data: seq<int>, labels: seq<int>, hist: seq<nat>, maxSize: int): (r: seq<int>)
    requires |labels| == |data|
    requires Indexes(labels, hist)
    ensures |r| == |data|
    ensures forall i :: 0 <= i < |data| && hist[labels[i]] > maxSize ==> r[i] == 0
    ensures forall i :: 0 <= i < |data| && hist[labels[i]] <= maxSize ==> r[i] == data[i]
  {
    if |data| == 0 then []
    else
      [if hist[labels[0]] > maxSize then 0 else data[0]]
        + ZeroTooBig(data[1..], labels[1..], hist, maxSize)
  }
}
