/** The shape functions of two ops registered in tf_shell/cc/ops/shell_ops.cc:
    ReduceSum64 and ExpandDimsVariant. Shapes are of known rank.

    InferenceContext::Subshape is TensorFlow's and is not part of this
    model; Subshape below follows its stride-1 behaviour: ends beyond the
    rank are clamped to the rank, negative ends count from the end, and a
    start beyond the end is an error. */
module ShapeInference {
  import opened Outcome
  import ShapeKernels

  datatype ShapeError =
    | AxisIsZero
    | AxisOutOfRange(axis: int)
    | SubshapeOutOfBounds
    | SubshapeStartAfterEnd

  /** InferenceContext::Subshape(s, start, end) with stride 1. */
  function Subshape(s: seq<nat>, start: int, end: int): (r: Result<seq<nat>, ShapeError>)
    ensures 0 <= start <= end <= |s| ==> r == Ok(s[start..end])
    ensures r.Ok? ==> |r.value| <= |s|
  {
    var rank := |s|;
    var start1 := if start > rank then rank else start;
    var end1 := if end > rank then rank else end;
    var start2 := if start1 < 0 then rank + start1 else start1;
    var end2 := if end1 < 0 then rank + end1 else end1;
    if start2 < 0 || end2 < 0 then Err(SubshapeOutOfBounds)
    else if start2 > end2 then Err(SubshapeStartAfterEnd)
    else Ok(s[start2..end2])
  }

  /** ReduceSum64's axis, shifted onto the variant shape as written. */
  function ReduceSumClampedAxis(axis: int, rank: nat): int
  {
    if axis < 0 then axis + rank + 1 else if axis > 0 then axis - 1 else axis
  }

  /** The ReduceSum64 shape function, as written. */
  function ReduceSumShape(s: seq<nat>, axis: int): (r: Result<seq<nat>, ShapeError>)
    ensures axis == 0 ==> r == Err(AxisIsZero)
    ensures var c := ReduceSumClampedAxis(axis, |s|);
            && (r.Ok? <==> axis != 0 && 0 <= c <= |s|)
            && (axis != 0 && !(0 <= c <= |s|) ==> r == Err(AxisOutOfRange(c)))
            && (r.Ok? && c < |s| ==> r.value == s[..c] + s[c + 1..] && |r.value| == |s| - 1)
            && (r.Ok? && c == |s| ==> r.value == s)
  {
    var rank := |s|;
    if axis == 0 then Err(AxisIsZero)
    else
      var c := ReduceSumClampedAxis(axis, rank);
      if c < 0 || c > rank then Err(AxisOutOfRange(c))
      else
        match Subshape(s, 0, c)
        case Err(e) => Err(e)
        case Ok(prefix) =>
          match Subshape(s, c + 1, rank)
          case Err(e) => Err(e)
          case Ok(postfix) =>
            if c == 0 then Ok(postfix)
            else if c == rank - 1 then Ok(prefix)
            else Ok(prefix + postfix)
  }

  /** Reducing numpy-style over one axis of a shape: the reference for what
      ReduceSum64 means on the shape the user sees. */
  function NumpyReduceShape(s: seq<nat>, axis: int): Option<seq<nat>>
  {
    var a := if axis < 0 then axis + |s| else axis;
    if 0 <= a < |s| then Some(s[..a] + s[a + 1..]) else None
  }

  /** As written, axis -1 (the last dimension for the user) maps past the
      last variant dimension: the range check admits it and no dimension is
      removed, where numpy removes the last one. */
  lemma ReduceSumLastAxisNotRemoved()
    ensures ReduceSumShape([3, 4], -1) == Ok([3, 4])
    ensures NumpyReduceShape([8, 3, 4], -1) == Some([8, 3])
  {
    assert ReduceSumShape([3, 4], -1) == Ok([3, 4]) by {
      assert [3, 4][0..2] == [3, 4];
      assert Subshape([3, 4], 0, 2) == Ok([3, 4]);
      assert Subshape([3, 4], 3, 2) == Ok([]);
    }
    assert [8, 3, 4][..2] + [8, 3, 4][3..] == [8, 3];
  }

  /** ReduceSum64's shape function with negative axes counted as numpy
      counts them on the user's shape (packing dimension included). */
  function ReduceSumShapeCorrected(s: seq<nat>, axis: int): (r: Result<seq<nat>, ShapeError>)
  {
    var rank := |s|;
    if axis == 0 then Err(AxisIsZero)
    else
      var c := if axis < 0 then axis + rank else axis - 1;
      if c < 0 || c >= rank then Err(AxisOutOfRange(c))
      else Ok(s[..c] + s[c + 1..])
  }

  /** The corrected shape function is numpy's reduction on the user's shape
      with the packing dimension (which may not be reduced) left in front. */
  lemma ReduceSumCorrectedAgreesWithNumpy(packing: nat, s: seq<nat>, axis: int)
    ensures var user := [packing] + s;
            var np := NumpyReduceShape(user, axis);
            var r := ReduceSumShapeCorrected(s, axis);
            (r.Ok? <==> np.Some? && axis != 0 && axis != -|user|)
            && (r.Ok? ==> np.value == [packing] + r.value)
  {
    var user := [packing] + s;
    var a := if axis < 0 then axis + |user| else axis;
    if axis != 0 && 1 <= a < |user| {
      var c := a - 1;
      assert user[..a] == [packing] + s[..c];
      assert user[a + 1..] == s[c + 1..];
    }
  }

  /** The ExpandDimsVariant shape function, as written: no packing-dimension
      offset, and the suffix stops one short of the rank. */
  function ExpandDimsVariantShapeFn(s: seq<nat>, axis: int): (r: Result<seq<nat>, ShapeError>)
    ensures -|s| <= axis < |s| <==> r.Ok?
    ensures (axis < -|s| || axis > |s|) ==> r == Err(AxisOutOfRange(axis))
    ensures r.Ok? ==> var a := if axis < 0 then axis + |s| else axis;
                      r.value == s[..a] + [1] + s[a..|s| - 1] && |r.value| == |s|
  {
    var rank := |s|;
    if axis < -rank || axis > rank then Err(AxisOutOfRange(axis))
    else
      var a := if axis < 0 then axis + rank else axis;
      match Subshape(s, 0, a)
      case Err(e) => Err(e)
      case Ok(prefix) =>
        match Subshape(s, a, rank - 1)
        case Err(e) => Err(e)
        case Ok(postfix) => Ok(prefix + [1] + postfix)
  }

  /** The inferred shape is not the kernel's: for a [3, 4] variant tensor and
      axis 1 it claims [3, 1], while the kernel produces [1, 3, 4]. */
  lemma ExpandDimsShapeFnDisagreesWithKernel()
    ensures ExpandDimsVariantShapeFn([3, 4], 1) == Ok([3, 1])
    ensures ShapeKernels.ExpandDimsShape(1, [3, 4]) == Ok([1, 3, 4])
  {
    assert [3, 4][..1] + [1] + [3, 4][1..1] == [3, 1];
    assert [3, 4][..0] + [1] + [3, 4][0..] == [1, 3, 4];
  }

  /** The ExpandDimsVariant shape function with the kernel's axis rule and
      the whole suffix. */
  function ExpandDimsVariantShapeFnCorrected(s: seq<nat>, axis: int): (r: Result<seq<nat>, ShapeError>)
  {
    var rank := |s|;
    if axis == 0 then Err(AxisIsZero)
    else
      var a := if axis < 0 then axis + rank + 1 else axis - 1;
      if a < 0 || a > rank then Err(AxisOutOfRange(axis))
      else
        match Subshape(s, 0, a)
        case Err(e) => Err(e)
        case Ok(prefix) =>
          match Subshape(s, a, rank)
          case Err(e) => Err(e)
          case Ok(postfix) => Ok(prefix + [1] + postfix)
  }

  /** The corrected shape function infers exactly the shape the kernel
      produces, and fails exactly when the kernel does. */
  lemma ExpandDimsCorrectedAgreesWithKernel(s: seq<nat>, axis: int)
    ensures var k := ShapeKernels.ExpandDimsShape(axis, s);
            var r := ExpandDimsVariantShapeFnCorrected(s, axis);
            (r.Ok? <==> k.Ok?) && (r.Ok? ==> r.value == k.value)
  {
  }
}
