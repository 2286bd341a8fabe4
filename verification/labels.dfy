/** Flattened label maps: how often a label occurs, and its largest label. */
module Labels {

  /** Number of positions of `s` holding label `l`. */
  function Count(s: seq<int>, l: int): nat
  {
    if |s| == 0 then 0
    else (if s[0] == l then 1 else 0) + Count(s[1..], l)
  }

  /** No label is negative. */
  predicate NonNegative(s: seq<int>)
  {
    forall i :: 0 <= i < |s| ==> s[i] >= 0
  }

  /** `labels` is a label map of `data`: one label per element, and a label
      is 0 (background) exactly where the element is 0 (False). */
  predicate IsLabelling(data: seq<int>, labels: seq<int>)
  {
    && |labels| == |data|
    && forall i :: 0 <= i < |data| ==> (labels[i] == 0 <==> data[i] == 0)
  }

  /** Every label of `labels` indexes a bucket of `hist`. */
  predicate Indexes(labels: seq<int>, hist: seq<nat>)
  {
    forall i :: 0 <= i < |labels| ==> 0 <= labels[i] < |hist|
  }

  /** Every label is 0 or 1, and 1 occurs: the map holds a single object. */
  predicate OnlyLabelOne(s: seq<int>)
  {
    && (forall i :: 0 <= i < |s| ==> s[i] <= 1)
    && (exists i :: 0 <= i < |s| && s[i] == 1)
  }

  /** The largest label of a non-empty map. */
  function MaxLabel(s: seq<int>): (m: int)
    requires |s| > 0
    ensures exists i :: 0 <= i < |s| && s[i] == m
    ensures forall i :: 0 <= i < |s| ==> s[i] <= m
  {
    if |s| == 1 then s[0]
    else
      var rest := MaxLabel(s[1..]);
      if s[0] >= rest then s[0] else rest
  }

  /** `Count` is the multiplicity of the label in the multiset of the map's
      elements, so it does not depend on the order of positions. */
  lemma {:induction false} CountIsMultiplicity(s: seq<int>, l: int)
    ensures Count(s, l) == multiset(s)[l]
  {
    if |s| > 0 {
      CountIsMultiplicity(s[1..], l);
      assert s == [s[0]] + s[1..];
      assert multiset(s) == multiset([s[0]]) + multiset(s[1..]);
    }
  }

  /** Two maps of equal length in which label `a` of the first sits exactly
      where label `b` of the second sits hold them equally often. */
  lemma {:induction false} CountAgree(xs: seq<int>, a: int, ys: seq<int>, b: int)
    requires |xs| == |ys|
    requires forall j :: 0 <= j < |xs| ==> (xs[j] == a <==> ys[j] == b)
    ensures Count(xs, a) == Count(ys, b)
  {
    if |xs| > 0 {
      assert xs[0] == a <==> ys[0] == b;
      CountAgree(xs[1..], a, ys[1..], b);
    }
  }

  /** Counting over two pieces of a map adds up. */
  lemma {:induction false} CountConcat(xs: seq<int>, ys: seq<int>, l: int)
    ensures Count(xs + ys, l) == Count(xs, l) + Count(ys, l)
  {
    if |xs| == 0 {
      assert xs + ys == ys;
    } else {
      assert (xs + ys)[0] == xs[0];
      assert (xs + ys)[1..] == xs[1..] + ys;
      CountConcat(xs[1..], ys, l);
    }
  }
}
