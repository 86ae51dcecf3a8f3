/** The control logic of DpSgdSequential (tf_shell_ml/dpsgd_sequential_model.py):
    the forward pass, the backward pass over the layers, the worst-case
    sensitivity over every possible label, the padding trim and the loss
    dispatch.

    Tensors are batches (sequences of rows) of abstract values. The layers'
    forward and backward passes, softmax, worst-case rounding, the one-hot
    residual, the per-example gradient norm, shapes and label subtraction
    are opaque functions collected in Ops. */
module DpSgdSequentialModel {
  import opened Outcome

  datatype Loss = CategoricalCrossentropy | MeanSquaredError | OtherLoss

  /** A scaling factor: that of encrypted labels, or float("inf"). */
  datatype Scale = Finite(r: real) | Infinity

  /** The opaque collaborators. L is a layer, R a row of activations, G a
      row of a per-example gradient, T a label tensor. */
  datatype Ops<!L, !R, !G, !T> = Ops(
    forward: (L, seq<R>, bool) -> seq<R>,
    softmax: seq<R> -> seq<R>,
    backward: (L, seq<R>, Option<Scale>) -> (seq<seq<G>>, seq<R>),
    worstCaseRounding: (seq<R>, Scale) -> seq<R>,
    residual: (seq<R>, nat, nat) -> seq<R>,
    maxPerExampleGlobalNorm: seq<seq<G>> -> real,
    predictionShape: seq<R> -> seq<int>,
    labelShape: T -> seq<int>,
    subtractLabels: (seq<R>, T) -> seq<R>)

  /** The attributes of the model that these methods read. */
  datatype DpSgdSequential<L> =
    DpSgdSequential(layers: seq<L>, outClasses: nat, loss: Loss, usesCceAndSoftmax: bool)

  /** The labels and the two independent facts compute_grads tests about
      them: the scaling_factor attribute, if they have one (encrypted labels
      do), and whether their type is exactly tf.Tensor (a subclass such as
      an eager tensor is not, and neither are encrypted labels). */
  datatype Labels<T> = Labels(t: T, scalingFactor: Option<real>, exactlyTensor: bool)

  /** The scaling factor compute_grads uses: the labels' own, else infinity. */
  function LabelScale<T>(labels: Labels<T>): (r: Scale)
    ensures labels.scalingFactor.Some? <==> r.Finite?
    ensures labels.scalingFactor.Some? ==> r.r == labels.scalingFactor.value
  {
    if labels.scalingFactor.Some? then Finite(labels.scalingFactor.value) else Infinity
  }

  datatype GradError = UnsupportedLoss | ShapeMismatch

  function Max(a: real, b: real): real { if a >= b then a else b }

  // ---------------------------------------------------------------- call

  /** The layers applied to x, the first layer first. */
  function Forward<L, R, G, T>(ops: Ops<L, R, G, T>, layers: seq<L>, x: seq<R>, training: bool): seq<R>
  {
    if layers == [] then x
    else ops.forward(layers[|layers| - 1], Forward(ops, layers[..|layers| - 1], x, training), training)
  }

  /** Applying a list of layers is applying its parts one after the other. */
  lemma {:induction false} ForwardComposes<L, R, G, T>(ops: Ops<L, R, G, T>, a: seq<L>, b: seq<L>, x: seq<R>, training: bool)
    ensures Forward(ops, a + b, x, training) == Forward(ops, b, Forward(ops, a, x, training), training)
  {
    if b == [] {
      assert a + b == a;
    } else {
      assert (a + b)[..|a + b| - 1] == a + b[..|b| - 1];
      ForwardComposes(ops, a, b[..|b| - 1], x, training);
    }
  }

  /** DpSgdSequential.call: the layers in list order, then softmax only
      when asked for. */
  method Call<L, R, G, T>(m: DpSgdSequential<L>, ops: Ops<L, R, G, T>, features: seq<R>, training: bool, withSoftmax: bool)
    returns (predictions: seq<R>)
    ensures predictions == if withSoftmax then ops.softmax(Forward(ops, m.layers, features, training))
                           else Forward(ops, m.layers, features, training)
  {
    predictions := features;
    for i := 0 to |m.layers|
      invariant predictions == Forward(ops, m.layers[..i], features, training)
    {
      assert m.layers[..i + 1][..i] == m.layers[..i];
      predictions := ops.forward(m.layers[i], predictions, training);
    }
    assert m.layers[..|m.layers|] == m.layers;
    if !withSoftmax {
      return predictions;
    }
    predictions := ops.softmax(predictions);
  }

  // ----------------------------------------------------------- _backward

  /** The list dJ_dx of _backward: the gradient handed to each layer in the
      order the layers are visited (last layer first), then the last dx. */
  function GradInputs<L, R, G, T>(ops: Ops<L, R, G, T>, layers: seq<L>, dJdz: seq<R>, factor: Option<Scale>)
    : (r: seq<seq<R>>)
    ensures |r| == |layers| + 1
  {
    if layers == [] then [dJdz]
    else
      var earlier := GradInputs(ops, layers[1..], dJdz, factor);
      earlier + [ops.backward(layers[0], earlier[|earlier| - 1], factor).1]
  }

  /** The list dJ_dw of _backward: the dw lists of the layers, concatenated
      in visiting order. */
  function DwInVisitOrder<L, R, G, T>(ops: Ops<L, R, G, T>, layers: seq<L>, dJdz: seq<R>, factor: Option<Scale>)
    : seq<seq<G>>
  {
    if layers == [] then []
    else
      var earlier := GradInputs(ops, layers[1..], dJdz, factor);
      DwInVisitOrder(ops, layers[1..], dJdz, factor) + ops.backward(layers[0], earlier[|earlier| - 1], factor).0
  }

  function Reverse<X>(s: seq<X>): (r: seq<X>)
    ensures |r| == |s|
    ensures forall j :: 0 <= j < |s| ==> r[j] == s[|s| - 1 - j]
  {
    if s == [] then [] else Reverse(s[1..]) + [s[0]]
  }

  /** What _backward returns. */
  function Backward<L, R, G, T>(ops: Ops<L, R, G, T>, layers: seq<L>, dJdz: seq<R>, factor: Option<Scale>)
    : seq<seq<G>>
  {
    Reverse(DwInVisitOrder(ops, layers, dJdz, factor))
  }

  /** _backward visits the layers in reverse: the first visited layer gets
      dJ_dz and each later one the previous layer's dx. */
  lemma {:induction false} BackwardVisitsLayersInReverse<L, R, G, T>(ops: Ops<L, R, G, T>, layers: seq<L>, dJdz: seq<R>, factor: Option<Scale>)
    ensures var inputs := GradInputs(ops, layers, dJdz, factor);
            && inputs[0] == dJdz
            && forall k :: 0 <= k < |layers| ==>
                 inputs[k + 1] == ops.backward(layers[|layers| - 1 - k], inputs[k], factor).1
  {
    if layers != [] {
      BackwardVisitsLayersInReverse(ops, layers[1..], dJdz, factor);
    }
  }

  function Flatten<X>(xss: seq<seq<X>>): seq<X>
  {
    if xss == [] then [] else Flatten(xss[..|xss| - 1]) + xss[|xss| - 1]
  }

  function SumOfLengths<X>(xss: seq<seq<X>>): nat
  {
    if xss == [] then 0 else SumOfLengths(xss[..|xss| - 1]) + |xss[|xss| - 1]|
  }

  lemma {:induction false} FlattenLength<X>(xss: seq<seq<X>>)
    ensures |Flatten(xss)| == SumOfLengths(xss)
  {
    if xss != [] {
      FlattenLength(xss[..|xss| - 1]);
    }
  }

  /** The dw list of each layer, in visiting order. */
  function DwLists<L, R, G, T>(ops: Ops<L, R, G, T>, layers: seq<L>, dJdz: seq<R>, factor: Option<Scale>)
    : (r: seq<seq<seq<G>>>)
    ensures |r| == |layers|
  {
    var inputs := GradInputs(ops, layers, dJdz, factor);
    seq(|layers|, k requires 0 <= k < |layers| => ops.backward(layers[|layers| - 1 - k], inputs[k], factor).0)
  }

  /** The result of _backward is the reverse of the per-layer dw lists
      laid end to end in visiting order; its length is the sum of theirs. */
  lemma {:induction false} BackwardIsReversedConcatenation<L, R, G, T>(ops: Ops<L, R, G, T>, layers: seq<L>, dJdz: seq<R>, factor: Option<Scale>)
    ensures DwInVisitOrder(ops, layers, dJdz, factor) == Flatten(DwLists(ops, layers, dJdz, factor))
    ensures |Backward(ops, layers, dJdz, factor)| == SumOfLengths(DwLists(ops, layers, dJdz, factor))
  {
    if layers != [] {
      BackwardIsReversedConcatenation(ops, layers[1..], dJdz, factor);
      var n := |layers|;
      var inner := GradInputs(ops, layers[1..], dJdz, factor);
      var outer := GradInputs(ops, layers, dJdz, factor);
      assert outer[..n] == inner;
      assert DwLists(ops, layers, dJdz, factor)[..n - 1] == DwLists(ops, layers[1..], dJdz, factor);
    }
    FlattenLength(DwLists(ops, layers, dJdz, factor));
  }

  /** DpSgdSequential._backward. */
  method BackwardPass<L, R, G, T>(m: DpSgdSequential<L>, ops: Ops<L, R, G, T>, dJdz: seq<R>, factor: Option<Scale>)
    returns (grads: seq<seq<G>>)
    ensures grads == Backward(ops, m.layers, dJdz, factor)
  {
    var n := |m.layers|;
    var dJdw: seq<seq<G>> := [];
    var dJdx: seq<seq<R>> := [dJdz];
    var k := 0;
    while k < n
      invariant 0 <= k <= n
      invariant dJdx == GradInputs(ops, m.layers[n - k..], dJdz, factor)
      invariant dJdw == DwInVisitOrder(ops, m.layers[n - k..], dJdz, factor)
    {
      assert m.layers[n - (k + 1)..][1..] == m.layers[n - k..];
      var l := m.layers[n - 1 - k];
      var (dw, dx) := ops.backward(l, dJdx[|dJdx| - 1], factor);
      dJdw := dJdw + dw;
      dJdx := dJdx + [dx];
      k := k + 1;
    }
    assert m.layers[n - k..] == m.layers;
    grads := Reverse(dJdw);
  }

  // ------------------------------------------------ sensitivity analysis

  /** Python's s[:-p] for p > 0: all but the last p rows. */
  function DropLast<X>(s: seq<X>, p: nat): (r: seq<X>)
    requires p > 0
    ensures |r| == if p < |s| then |s| - p else 0
    ensures r == s[..|r|]
  {
    if p < |s| then s[..|s| - p] else []
  }

  /** The rows that may be used: on the last device with padding, all but
      the end_pad padded rows. */
  function Unpadded<X>(s: seq<X>, isLast: bool, endPad: nat): seq<X>
  {
    if isLast && endPad > 0 then DropLast(s, endPad) else s
  }

  /** The body of the worst-case loop for one label: backpropagate the
      residual of the rounded prediction against that one-hot label, drop
      the padded rows of every gradient, and take the largest per-example
      norm. */
  function LabelNorm<L, R, G, T>(m: DpSgdSequential<L>, ops: Ops<L, R, G, T>, prediction: seq<R>,
                                 scalingFactor: Scale, isLast: bool, endPad: nat, cls: nat): (r: real)
    ensures var possibleGrads := Backward(ops, m.layers, ops.residual(ops.worstCaseRounding(prediction, scalingFactor),
                                                                     cls, m.outClasses),
                                          Some(scalingFactor));
            && (!(isLast && endPad > 0) ==> r == ops.maxPerExampleGlobalNorm(possibleGrads))
            && (isLast && endPad > 0 ==>
                  r == ops.maxPerExampleGlobalNorm(seq(|possibleGrads|, j requires 0 <= j < |possibleGrads| =>
                                                         DropLast(possibleGrads[j], endPad))))
  {
    var worstCasePrediction := ops.worstCaseRounding(prediction, scalingFactor);
    var dJdz := ops.residual(worstCasePrediction, cls, m.outClasses);
    var possibleGrads := Backward(ops, m.layers, dJdz, Some(scalingFactor));
    var used := seq(|possibleGrads|, j requires 0 <= j < |possibleGrads| =>
                      Unpadded(possibleGrads[j], isLast, endPad));
    assert !(isLast && endPad > 0) ==> used == possibleGrads;
    assert isLast && endPad > 0 ==>
             used == seq(|possibleGrads|, j requires 0 <= j < |possibleGrads| => DropLast(possibleGrads[j], endPad));
    ops.maxPerExampleGlobalNorm(used)
  }

  /** The tf.while_loop over labels: cond is label < classes, body raises
      sensitivity to the label's norm. */
  function SensitivityLoop(cls: nat, classes: nat, sensitivity: real, norm: nat -> real): (r: real)
    ensures r >= sensitivity
    ensures cls >= classes ==> r == sensitivity
    decreases classes - cls
  {
    if cls < classes then SensitivityLoop(cls + 1, classes, Max(sensitivity, norm(cls)), norm)
    else sensitivity
  }

  /** The loop's result bounds its start and every label's norm, and is one
      of them: it is max(sensitivity, norm(cls), ..., norm(classes - 1)). */
  lemma {:induction false} SensitivityLoopIsMax(cls: nat, classes: nat, sensitivity: real, norm: nat -> real)
    ensures var r := SensitivityLoop(cls, classes, sensitivity, norm);
            && r >= sensitivity
            && (forall c :: cls <= c < classes ==> norm(c) <= r)
            && (r == sensitivity || exists c :: cls <= c < classes && r == norm(c))
    decreases classes - cls
  {
    if cls < classes {
      SensitivityLoopIsMax(cls + 1, classes, Max(sensitivity, norm(cls)), norm);
    }
  }

  /** LabelNorm of every label for one device's prediction. */
  function LabelNorms<L, R, G, T>(m: DpSgdSequential<L>, ops: Ops<L, R, G, T>, prediction: seq<R>,
                                  scalingFactor: Scale, isLast: bool, endPad: nat): nat -> real
  {
    (cls: nat) => LabelNorm(m, ops, prediction, scalingFactor, isLast, endPad, cls)
  }

  /** One device's sensitivity, the loop started at label 0 with 0.0. */
  function DeviceSensitivity<L, R, G, T>(m: DpSgdSequential<L>, ops: Ops<L, R, G, T>, prediction: seq<R>,
                                         scalingFactor: Scale, isLast: bool, endPad: nat): real
  {
    SensitivityLoop(0, m.outClasses, 0.0, LabelNorms(m, ops, prediction, scalingFactor, isLast, endPad))
  }

  /** A device's sensitivity is at least 0 and at least every label's norm. */
  lemma DeviceSensitivityBoundsEveryLabel<L, R, G, T>(m: DpSgdSequential<L>, ops: Ops<L, R, G, T>, prediction: seq<R>,
                                                     scalingFactor: Scale, isLast: bool, endPad: nat)
    ensures var s := DeviceSensitivity(m, ops, prediction, scalingFactor, isLast, endPad);
            && s >= 0.0
            && forall c :: 0 <= c < m.outClasses ==>
                 LabelNorm(m, ops, prediction, scalingFactor, isLast, endPad, c) <= s
  {
    var norms := LabelNorms(m, ops, prediction, scalingFactor, isLast, endPad);
    SensitivityLoopIsMax(0, m.outClasses, 0.0, norms);
    forall c | 0 <= c < m.outClasses
      ensures LabelNorm(m, ops, prediction, scalingFactor, isLast, endPad, c)
              <= DeviceSensitivity(m, ops, prediction, scalingFactor, isLast, endPad)
    {
      assert norms(c) == LabelNorm(m, ops, prediction, scalingFactor, isLast, endPad, c);
    }
  }

  /** tf.reduce_max over a non-empty list. */
  function ReduceMax(s: seq<real>): (r: real)
    requires |s| >= 1
    ensures forall j :: 0 <= j < |s| ==> s[j] <= r
    ensures exists j :: 0 <= j < |s| && r == s[j]
  {
    if |s| == 1 then s[0]
    else
      var rest := ReduceMax(s[1..]);
      assert forall j :: 1 <= j < |s| ==> s[j] == s[1..][j - 1];
      Max(s[0], rest)
  }

  // -------------------------------------------------------- compute_grads

  /** The loss dispatch: both supported losses backpropagate
      predictions - labels, after checking the shapes when the labels are
      exactly a tf.Tensor; labels of any other type are not checked,
      whether or not they carry a scaling factor. */
  function LossGradient<L, R, G, T>(loss: Loss, ops: Ops<L, R, G, T>, predictions: seq<R>, labels: Labels<T>)
    : (r: Result<seq<R>, GradError>)
    ensures loss == OtherLoss ==> r == Err(UnsupportedLoss)
    ensures loss != OtherLoss && labels.exactlyTensor
            && ops.predictionShape(predictions) != ops.labelShape(labels.t)
            ==> r == Err(ShapeMismatch)
    ensures r.Ok? <==> loss != OtherLoss
                       && (labels.exactlyTensor ==> ops.predictionShape(predictions) == ops.labelShape(labels.t))
    ensures r.Ok? ==> r.value == ops.subtractLabels(predictions, labels.t)
    ensures loss != OtherLoss && !labels.exactlyTensor ==> r == Ok(ops.subtractLabels(predictions, labels.t))
  {
    match loss
    case CategoricalCrossentropy =>
      if labels.exactlyTensor && ops.predictionShape(predictions) != ops.labelShape(labels.t) then Err(ShapeMismatch)
      else Ok(ops.subtractLabels(predictions, labels.t))
    case MeanSquaredError =>
      if labels.exactlyTensor && ops.predictionShape(predictions) != ops.labelShape(labels.t) then Err(ShapeMismatch)
      else Ok(ops.subtractLabels(predictions, labels.t))
    case OtherLoss => Err(UnsupportedLoss)
  }

  /** The prediction a device contributes: the forward pass (softmax when
      the model pairs CCE with softmax), without padded rows. */
  function DevicePrediction<L, R, G, T>(m: DpSgdSequential<L>, ops: Ops<L, R, G, T>, shard: seq<R>,
                                        isLast: bool, endPad: nat): seq<R>
  {
    var p := Forward(ops, m.layers, shard, true);
    Unpadded(if m.usesCceAndSoftmax then ops.softmax(p) else p, isLast, endPad)
  }

  /** The sensitivity a device contributes, computed on its untrimmed
      prediction (only the gradients are trimmed). */
  function ShardSensitivity<L, R, G, T>(m: DpSgdSequential<L>, ops: Ops<L, R, G, T>, shards: seq<seq<R>>,
                                        endPad: nat, scalingFactor: Scale, i: nat): real
    requires i < |shards|
  {
    var p := Forward(ops, m.layers, shards[i], true);
    DeviceSensitivity(m, ops, if m.usesCceAndSoftmax then ops.softmax(p) else p,
                      scalingFactor, i == |shards| - 1, endPad)
  }

  /** The predictions of the first n devices, in device order. */
  function DevicePredictions<L, R, G, T>(m: DpSgdSequential<L>, ops: Ops<L, R, G, T>, shards: seq<seq<R>>,
                                         endPad: nat, n: nat): (r: seq<seq<R>>)
    requires n <= |shards|
  {
    if n == 0 then []
    else DevicePredictions(m, ops, shards, endPad, n - 1)
         + [DevicePrediction(m, ops, shards[n - 1], n - 1 == |shards| - 1, endPad)]
  }

  /** The sensitivities of the first n devices, in device order. */
  function DeviceSensitivities<L, R, G, T>(m: DpSgdSequential<L>, ops: Ops<L, R, G, T>, shards: seq<seq<R>>,
                                           endPad: nat, scalingFactor: Scale, n: nat): (r: seq<real>)
    requires n <= |shards|
    ensures |r| == n
    ensures forall j :: 0 <= j < n ==> r[j] == ShardSensitivity(m, ops, shards, endPad, scalingFactor, j)
  {
    if n == 0 then []
    else DeviceSensitivities(m, ops, shards, endPad, scalingFactor, n - 1)
         + [ShardSensitivity(m, ops, shards, endPad, scalingFactor, n - 1)]
  }

  /** DpSgdSequential.compute_grads, given the shards split_with_padding
      made (one per device) and its end_pad. */
  method ComputeGrads<L, R, G, T>(m: DpSgdSequential<L>, ops: Ops<L, R, G, T>, shards: seq<seq<R>>,
                                  endPad: nat, labels: Labels<T>)
    returns (r: Result<(seq<seq<G>>, real, seq<R>), GradError>)
    requires |shards| >= 1
    ensures var predictions := Flatten(DevicePredictions(m, ops, shards, endPad, |shards|));
            var dJdz := LossGradient(m.loss, ops, predictions, labels);
            && (r.Ok? <==> dJdz.Ok?)
            && (r.Err? ==> r.error == dJdz.error)
            && (r.Ok? ==>
                  && r.value.2 == predictions
                  && r.value.0 == Backward(ops, m.layers, dJdz.value, None)
                  && r.value.1 >= 0.0
                  && (forall i :: 0 <= i < |shards| ==> ShardSensitivity(m, ops, shards, endPad, LabelScale(labels), i) <= r.value.1)
                  && (exists i :: 0 <= i < |shards| && r.value.1 == ShardSensitivity(m, ops, shards, endPad, LabelScale(labels), i)))
  {
    var scalingFactor := LabelScale(labels);
    var predictionsList: seq<seq<R>> := [];
    var maxTwoNormsList: seq<real> := [];
    for i := 0 to |shards|
      invariant predictionsList == DevicePredictions(m, ops, shards, endPad, i)
      invariant maxTwoNormsList == DeviceSensitivities(m, ops, shards, endPad, scalingFactor, i)
    {
      var isLast := i == |shards| - 1;
      var prediction := Call(m, ops, shards[i], true, m.usesCceAndSoftmax);
      var sensitivity := DeviceSensitivity(m, ops, prediction, scalingFactor, isLast, endPad);
      if isLast && endPad > 0 {
        prediction := DropLast(prediction, endPad);
      }
      predictionsList := predictionsList + [prediction];
      maxTwoNormsList := maxTwoNormsList + [sensitivity];
    }
    var predictions := Flatten(predictionsList);
    var maxTwoNorm := ReduceMax(maxTwoNormsList);
    DevicesAreNonNegative(m, ops, shards, endPad, scalingFactor);
    var dJdz := LossGradient(m.loss, ops, predictions, labels);
    if dJdz.Err? {
      return Err(dJdz.error);
    }
    var grads := BackwardPass(m, ops, dJdz.value, None);
    return Ok((grads, maxTwoNorm, predictions));
  }

  /** Every device's sensitivity is at least 0. */
  lemma DevicesAreNonNegative<L, R, G, T>(m: DpSgdSequential<L>, ops: Ops<L, R, G, T>, shards: seq<seq<R>>,
                                          endPad: nat, scalingFactor: Scale)
    ensures forall j :: 0 <= j < |shards| ==> ShardSensitivity(m, ops, shards, endPad, scalingFactor, j) >= 0.0
  {
    forall j | 0 <= j < |shards|
      ensures ShardSensitivity(m, ops, shards, endPad, scalingFactor, j) >= 0.0
    {
      var p := Forward(ops, m.layers, shards[j], true);
      DeviceSensitivityBoundsEveryLabel(m, ops, if m.usesCceAndSoftmax then ops.softmax(p) else p,
                                        scalingFactor, j == |shards| - 1, endPad);
    }
  }

  /** The bound compute_grads returns holds for every device and every label
      that device could have had: it is a worst case over all of them. */
  lemma GlobalBoundCoversEveryDeviceAndLabel<L, R, G, T>(m: DpSgdSequential<L>, ops: Ops<L, R, G, T>,
                                                        shards: seq<seq<R>>, endPad: nat, scalingFactor: Scale,
                                                        bound: real, i: nat, c: nat)
    requires i < |shards| && c < m.outClasses
    requires ShardSensitivity(m, ops, shards, endPad, scalingFactor, i) <= bound
    ensures var p := Forward(ops, m.layers, shards[i], true);
            LabelNorm(m, ops, if m.usesCceAndSoftmax then ops.softmax(p) else p,
                      scalingFactor, i == |shards| - 1, endPad, c) <= bound
  {
    var p := Forward(ops, m.layers, shards[i], true);
    DeviceSensitivityBoundsEveryLabel(m, ops, if m.usesCceAndSoftmax then ops.softmax(p) else p,
                                      scalingFactor, i == |shards| - 1, endPad);
  }
}
