/** The filter on a mutable buffer: `in_place` decides whether the result is
    the input buffer itself or a fresh copy of it. */
module Buffer {
  import opened Errors
  import opened Dtype
  import opened Labels
  import opened Histogram
  import opened Mask
  import opened SizeFilter

  /** The returned buffer and warning flag, or the exception raised. */
  datatype BufferResult = Returned(out: array<int>, warned: bool) | Raised(error: Error)

  /** Sets to 0, in one pass over `out`, every element whose label's bucket
      exceeds `maxSize`; the labels are a snapshot taken beforehand. */
  method ZeroTooBigInPlace(out: array<int>, ccs: seq<int>, hist: seq<nat>, maxSize: int)
    requires |ccs| == out.Length
    requires Indexes(ccs, hist)
    modifies out
    ensures out[..] == ZeroTooBig(old(out[..]), ccs, hist, maxSize)
  {
    ghost var original := out[..];
    var i := 0;
    while i < out.Length
      invariant 0 <= i <= out.Length
      invariant forall k :: 0 <= k < i ==> out[k] == (if hist[ccs[k]] > maxSize then 0 else original[k])
      invariant forall k :: i <= k < out.Length ==> out[k] == original[k]
    {
      if hist[ccs[i]] > maxSize {
        out[i] := 0;
      }
      i := i + 1;
    }
  }

  method RemoveBigObjectsBuffer(ar: array<int>, kind: Kind, maxSize: int, labels: seq<int>, inPlace: bool)
    returns (res: BufferResult)
    requires ValidInput(Image(kind, ar[..]), labels)
    modifies ar
    // the buffer ends up holding what the pure filter computes
    ensures var expected := RemoveBigObjects(Image(kind, old(ar[..])), maxSize, labels);
            && (res.Returned? ==> expected == Ok(Filtered(res.out[..], res.warned)))
            && (res.Raised? ==> expected == Err(res.error))
    // in place: the input buffer itself is returned
    ensures res.Returned? && inPlace ==> res.out == ar
    // copy: a fresh buffer is returned and the input is left alone
    ensures res.Returned? && !inPlace ==> fresh(res.out)
    ensures !inPlace ==> ar[..] == old(ar[..])
    // an exception leaves the input alone
    ensures res.Raised? ==> ar[..] == old(ar[..])
  {
    var check := CheckDtypeSupported(kind);
    if check.Fail? {
      return Raised(check.error);
    }
    ghost var original := ar[..];
    var out: array<int>;
    if inPlace {
      out := ar;
    } else {
      out := new int[ar.Length];
      forall k | 0 <= k < ar.Length {
        out[k] := ar[k];
      }
    }
    assert out[..] == original;
    if maxSize == 0 {
      return Returned(out, false);
    }
    // the mask is read from the labels before any element is cleared
    var ccs := if kind == Bool then labels else out[..];
    assert ccs == LabelMap(Image(kind, original), labels);
    var sizes := Bincount(ccs);
    if sizes.Err? {
      return Raised(sizes.error);
    }
    var hist := sizes.value;
    ZeroTooBigInPlace(out, ccs, hist, maxSize);
    assert out[..] == ZeroTooBig(original, ccs, hist, maxSize);
    ghost var expected := RemoveBigObjects(Image(kind, original), maxSize, labels);
    assert Cleared(original, ccs, maxSize, out[..]);
    ClearedIsUnique(original, ccs, maxSize, out[..], expected.value.data);
    TwoBucketsIffSingleLabel(ccs);
    return Returned(out, |hist| == 2);
  }
}
