/** ExpandDimsVariantOp (tf_shell/cc/kernels/shape_kernels.cc): numpy's
    expand_dims on a tensor of variants. The first dimension of the tensor
    a user sees is the packing dimension, which the variant tensor does not
    hold, so the user's axis is shifted by one onto the variant shape. */
module ShapeKernels {
  import opened Outcome

  datatype Status = InvalidDimensionIndex | DimOutOfRange(clampedDim: int) | Internal

  /** The kernel object: only the axis attribute read at construction. */
  datatype ExpandDimsVariantOp = ExpandDimsVariantOp(dim: int)

  /** A tensor: its shape and its elements in row-major order. */
  datatype Tensor<T> = Tensor(shape: seq<nat>, flat: seq<T>)

  /** The constructor: axis 0 would expand the packing dimension. */
  function NewExpandDimsVariantOp(axis: int): (r: Result<ExpandDimsVariantOp, Status>)
    ensures r.Ok? <==> axis != 0
    ensures r.Ok? ==> r.value.dim == axis
    ensures r.Err? ==> r.error == InvalidDimensionIndex
  {
    if axis == 0 then Err(InvalidDimensionIndex) else Ok(ExpandDimsVariantOp(axis))
  }

  /** The user's axis as an insertion index into the variant shape of rank
      dims: positive axes lose the packing dimension, negative ones count
      from the end of the dims + 1 positions. */
  function ClampDim(dim: int, dims: nat): int
  {
    if dim < 0 then dim + dims + 1 else if dim > 0 then dim - 1 else dim
  }

  /** The number of elements of a shape. */
  function Product(s: seq<nat>): nat
  {
    if s == [] then 1 else s[0] * Product(s[1..])
  }

  lemma {:induction false} ProductConcat(a: seq<nat>, b: seq<nat>)
    ensures Product(a + b) == Product(a) * Product(b)
  {
    if a != [] {
      assert (a + b)[1..] == a[1..] + b;
      ProductConcat(a[1..], b);
      var x, p, q := a[0], Product(a[1..]), Product(b);
      assert Product(a + b) == x * (p * q);
      assert x * (p * q) == (x * p) * q;
    } else {
      assert a + b == b;
    }
  }

  /** The output shape of Compute, or its error. */
  function ExpandDimsShape(dim: int, shape: seq<nat>): (r: Result<seq<nat>, Status>)
    ensures dim == 0 ==> r == Err(InvalidDimensionIndex)
    ensures dim != 0 && !(0 <= ClampDim(dim, |shape|) <= |shape|) ==> r == Err(DimOutOfRange(ClampDim(dim, |shape|)))
    ensures r.Ok? <==> dim != 0 && 0 <= ClampDim(dim, |shape|) <= |shape|
    ensures r.Ok? ==>
              var c := ClampDim(dim, |shape|);
              && |r.value| == |shape| + 1
              && r.value[c] == 1
              && (forall j :: 0 <= j < c ==> r.value[j] == shape[j])
              && (forall j :: c <= j < |shape| ==> r.value[j + 1] == shape[j])
  {
    if dim == 0 then Err(InvalidDimensionIndex)
    else
      var c := ClampDim(dim, |shape|);
      if !(0 <= c <= |shape|) then Err(DimOutOfRange(c))
      else Ok(shape[..c] + [1] + shape[c..])
  }

  /** Inserting a 1 leaves the number of elements unchanged, which is why
      CopyFrom never fails in Compute. */
  lemma ExpandDimsKeepsElementCount(dim: int, shape: seq<nat>)
    requires ExpandDimsShape(dim, shape).Ok?
    ensures Product(ExpandDimsShape(dim, shape).value) == Product(shape)
  {
    var c := ClampDim(dim, |shape|);
    ProductConcat(shape[..c] + [1], shape[c..]);
    ProductConcat(shape[..c], [1]);
    ProductConcat(shape[..c], shape[c..]);
    assert shape[..c] + shape[c..] == shape;
  }

  /** ExpandDimsVariantOp::Compute: copy the dimensions, insert a 1, and
      share the input's elements under the new shape (CopyFrom). */
  method Compute<T>(op: ExpandDimsVariantOp, input: Tensor<T>) returns (r: Result<Tensor<T>, Status>)
    ensures r == match ExpandDimsShape(op.dim, input.shape)
                 case Ok(s) => Ok(Tensor(s, input.flat))
                 case Err(e) => Err(e)
  {
    if op.dim == 0 {
      return Err(InvalidDimensionIndex);
    }
    var dims := |input.shape|;
    var clampedDim := op.dim;
    if clampedDim < 0 {
      clampedDim := clampedDim + dims + 1;  // + 1 for the packing dimension
    } else if clampedDim > 0 {
      clampedDim := clampedDim - 1;  // - 1 for the packing dimension
    }
    if !(clampedDim >= 0 && clampedDim <= dims) {
      return Err(DimOutOfRange(clampedDim));
    }
    var existingDims := input.shape;
    var existingDimsSize := |existingDims|;
    var newShape := new nat[existingDimsSize];
    for i := 0 to newShape.Length
      invariant newShape[..i] == existingDims[..i]
    {
      newShape[i] := existingDims[i];
    }
    assert newShape[..] == existingDims;
    // existingDimsSize is dims, so this min never lowers clampedDim.
    clampedDim := if clampedDim <= existingDimsSize then clampedDim else existingDimsSize;
    var outputShape := newShape[..clampedDim] + [1] + newShape[clampedDim..];
    ExpandDimsKeepsElementCount(op.dim, input.shape);
    if Product(outputShape) != Product(input.shape) {
      return Err(Internal);
    }
    return Ok(Tensor(outputShape, input.flat));
  }

  /** numpy.expand_dims on a shape, the behaviour the kernel emulates. */
  function NumpyExpandDims(s: seq<nat>, axis: int): Option<seq<nat>>
  {
    var a := if axis < 0 then axis + |s| + 1 else axis;
    if 0 <= a <= |s| then Some(s[..a] + [1] + s[a..]) else None
  }

  /** Against numpy on the shape the user sees (the packing dimension
      followed by the variant shape): the kernel accepts exactly the axes
      numpy accepts except those inserting before the packing dimension,
      and then produces numpy's shape without the packing dimension. */
  lemma KernelAgreesWithNumpy(packing: nat, shape: seq<nat>, dim: int)
    ensures var user := [packing] + shape;
            var np := NumpyExpandDims(user, dim);
            var k := ExpandDimsShape(dim, shape);
            (k.Ok? <==> np.Some? && dim != 0 && dim != -(|user| + 1))
            && (k.Ok? ==> np.value == [packing] + k.value)
  {
    var user := [packing] + shape;
    var a := if dim < 0 then dim + |user| + 1 else dim;
    if dim != 0 && 1 <= a <= |user| {
      var c := ClampDim(dim, |shape|);
      assert c == a - 1;
      assert user[..a] == [packing] + shape[..c];
      assert user[a..] == shape[c..];
    }
  }
}
