/** The 3x5 boolean array of the function's docstring, flattened in `ravel`
    order, with the labellings face (connectivity 1) and full (connectivity
    2) adjacency give it. */
module DocExamples {
  import opened Dtype
  import opened Labels
  import opened SizeFilter
  import opened Errors

  const Grid: seq<int> := [0, 0, 0, 1, 0,
                           1, 1, 1, 0, 0,
                           1, 1, 1, 0, 1]

  /** Face adjacency: the lone pixels at (0,3) and (2,4) are objects 1 and 3,
      the 6-pixel block is object 2. */
  const FaceLabels: seq<int> := [0, 0, 0, 1, 0] + [2, 2, 2, 0, 0] + [2, 2, 2, 0, 3]

  /** Full adjacency: (0,3) touches the block diagonally, making a 7-pixel
      object 1; (2,4) stays alone as object 2. */
  const FullLabels: seq<int> := [0, 0, 0, 1, 0] + [1, 1, 1, 0, 0] + [1, 1, 1, 0, 2]

  /** What full adjacency and a limit of 6 leave: the isolated pixel only. */
  const FullLimitSixResult: seq<int> := [0, 0, 0, 0, 0, 0, 0, 0, 0, 0, 0, 0, 0, 0, 1]

  lemma FaceLabelsValid()
    ensures IsLabelling(Grid, FaceLabels) && NonNegative(FaceLabels)
    ensures forall k :: 0 <= k < |FaceLabels| ==> FaceLabels[k] <= 3
    ensures FaceLabels[5] == 2
  {
  }

  lemma FaceObjectSizes(l: int)
    requires 1 <= l <= 3
    ensures Count(FaceLabels, l) <= 6
  {
    CountConcat([0, 0, 0, 1, 0] + [2, 2, 2, 0, 0], [2, 2, 2, 0, 3], l);
    CountConcat([0, 0, 0, 1, 0], [2, 2, 2, 0, 0], l);
  }

  /** With face adjacency and a limit of 6 nothing changes: the largest
      object has exactly 6 pixels, and only the background has more. */
  lemma FaceLimitSixKeepsAll()
    ensures IsLabelling(Grid, FaceLabels)
    ensures RemoveBigObjects(Image(Bool, Grid), 6, FaceLabels) == Ok(Filtered(Grid, false))
  {
    FaceLabelsValid();
    forall k | 0 <= k < |Grid| && Grid[k] != 0
      ensures Count(FaceLabels, FaceLabels[k]) <= 6
    {
      FaceObjectSizes(FaceLabels[k]);
    }
    var r := RemoveBigObjects(Image(Bool, Grid), 6, FaceLabels);
    assert Cleared(Grid, FaceLabels, 6, Grid);
    ClearedIsUnique(Grid, FaceLabels, 6, r.value.data, Grid);
  }

  lemma FullLabelsValid()
    ensures IsLabelling(Grid, FullLabels) && NonNegative(FullLabels)
    ensures forall k :: 0 <= k < |FullLabels| ==> FullLabels[k] <= 2
    ensures forall k :: 0 <= k < |FullLabels| ==> (FullLabels[k] == 2 <==> k == 14)
    ensures FullLabels[14] == 2
  {
  }

  lemma FullObjectSizes()
    ensures Count(FullLabels, 0) == 7 && Count(FullLabels, 1) == 7 && Count(FullLabels, 2) == 1
  {
    forall l | 0 <= l <= 2
      ensures Count(FullLabels, l) == Count([0, 0, 0, 1, 0], l) + Count([1, 1, 1, 0, 0], l) + Count([1, 1, 1, 0, 2], l)
    {
      CountConcat([0, 0, 0, 1, 0] + [1, 1, 1, 0, 0], [1, 1, 1, 0, 2], l);
      CountConcat([0, 0, 0, 1, 0], [1, 1, 1, 0, 0], l);
    }
  }

  /** With full adjacency and a limit of 6 the 7-pixel object is cleared
      (and the background with it), leaving only the isolated pixel. */
  lemma FullLimitSixClearsMergedObject()
    ensures IsLabelling(Grid, FullLabels)
    ensures RemoveBigObjects(Image(Bool, Grid), 6, FullLabels) == Ok(Filtered(FullLimitSixResult, false))
  {
    FullLabelsValid();
    FullObjectSizes();
    forall k | 0 <= k < |Grid|
      ensures FullLimitSixResult[k] == (if Count(FullLabels, FullLabels[k]) > 6 then 0 else Grid[k])
    {
      if k == 14 {
        assert FullLabels[k] == 2;
      } else {
        assert FullLabels[k] <= 1;
      }
    }
    var r := RemoveBigObjects(Image(Bool, Grid), 6, FullLabels);
    assert Cleared(Grid, FullLabels, 6, FullLimitSixResult);
    ClearedIsUnique(Grid, FullLabels, 6, r.value.data, FullLimitSixResult);
  }

  /** An integer map holding a single object raises the warning. */
  lemma SingleObjectWarns()
    ensures RemoveBigObjects(Image(Int, [0, 1, 1, 0]), 5, []).Ok?
    ensures RemoveBigObjects(Image(Int, [0, 1, 1, 0]), 5, []).value.warned
  {
    assert [0, 1, 1, 0][1] == 1;
  }
}
