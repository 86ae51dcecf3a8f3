# tf-shell rotation keys, shape rules and DP-SGD control logic in Dafny

This project models six pieces of sequential logic of tf-shell, the
TensorFlow binding of the SHELL homomorphic-encryption library, and proves
properties of the model.

- `shell_key.dfy` (`ShellKey`) covers the Python key objects:
  - `create_key64` and `mod_reduce_key64`;
  - the lookup `ShellRotationKey64._get_key_at_level`;
  - `create_rotation_key64`. It walks a context and a key down the modulus chain together, and stores one rotation key per level unless that level's multiplicative depth is skipped.
- `rotation_kernels.dfy` (`RotationKernels`) covers the C++ kernels `RotationKeyGenOp` and `RollOp`:
  - `RotationKeyGenOp` makes one Galois key per slot shift i in [1, n/2), with substitution power 5^i mod 2n.
  - `RollOp` negates, range-checks and normalises a shift, looks its key up and rotates every ciphertext.
- `rotation_variants.dfy` (`RotationVariants`) covers the variant objects that hold rotation keys:
  - the trivial `Encode`/`Decode` of `RotationKeyVariant` and `SingleRotationKeyVariant`;
  - the two-phase buffer of `FastRotationKeyVariant`: `Decode` buffers strings, `MaybeLazyDecode` turns them into polynomials later.
- `shape_kernels.dfy` (`ShapeKernels`) covers `ExpandDimsVariantOp`. It shifts a numpy-style axis that counts the packing dimension onto the variant shape and inserts a 1.
- `shell_ops.dfy` (`ShapeInference`) covers the shape functions of the ops `ReduceSum64` and `ExpandDimsVariant`.
- `dpsgd_sequential_model.dfy` (`DpSgdSequentialModel`) covers `DpSgdSequential`:
  - the forward pass `call` and the backward pass `_backward`;
  - in `compute_grads`: the per-device worst-case sensitivity over every possible label, the trim of the last device's padded rows, the maximum over devices and the loss dispatch.
- `outcome.dfy` (`Outcome`) holds the `Result` and `Option` types that model raised errors and error statuses.

Several things are opaque and appear only through the terms they build:
- the HE primitives: key generation, modulus reduction, `Gadget::Create`, `RotationKey::CreateForBgv`, `Substitute` and `ApplyTo` (polynomial serialisation is not opaque: it is the stand-in codec described below);
- the TensorFlow layers and numeric helpers of the model.

Opacity works in two ways. In the C++ and key files, each primitive is a datatype constructor, so a stored value records the arguments that made it. In the DP-SGD file, the helpers are arbitrary functions passed in as a record (`Ops`).

Three assumptions about code outside the files modelled are written into the model:
- `mod_reduce_context64`: `ShellKey.ModReduceContext64` states the one assumption made about it. The result is one level lower and supports one less multiplication.
- `InferenceContext::Subshape` is TensorFlow's. `ShapeInference.Subshape` follows its stride-1 rules: ends beyond the rank are clamped, negative indices count from the end, and a start after the end is an error.
- The polynomial codec of the SHELL library is a stand-in in `RotationVariants`:
  - `Deserialize` inverts `Serialize` under the same moduli;
  - a string tensor holds the serialised message itself (`Blob.Wire`), so `ParseFromString` inverts `SerializeToString`;
  - the failure points are a modulus-count mismatch and bytes that do not parse.

  `RotationVariants.SerializeDecodeRoundTrip` and `RotationVariants.TransferFastRotationKey` hold because of this assumption. They say that the kernels' own code (the Encode loop, the Decode buffer, the MaybeLazyDecode loop) loses, reorders or duplicates no key. They do not say that the library's codec round-trips.

State that the source changes in place is a class:
- `RotationKeyVariant`, `SingleRotationKeyVariant` and `FastRotationKeyVariant`;
- `VariantTensorData`, the list of string tensors that `Encode` appends to.

Loops of the source are `while`/`for` loops proved against specification functions:
- the loop of `create_rotation_key64`;
- the key-generation and roll loops;
- the dimension copy of `ExpandDimsVariantOp`;
- the encode and decode loops;
- the layer loops of `call` and `_backward`;
- the device loop of `compute_grads`.

## Model

| member | source | states |
|---|---|---|
| ShellKey.CreateKey64 | tf_shell/python/shell_key.py:28-34 | the new key is at the context's level and is generated from the context's raw handle |
| ShellKey.ModReduceKey64 | tf_shell/python/shell_key.py:37-43 | the reduced key is exactly one level below its input and comes from modulus-reducing the input's raw key |
| ShellKey.GetKeyAtLevel | tf_shell/python/shell_key.py:50-53 | the lookup succeeds exactly when the level has an entry and then returns that entry; otherwise it fails with "no rotation key at level" for that level |
| ShellKey.ModReduceContext64 | tf_shell/python/shell_key.py:77 | the assumption about mod_reduce_context64: the reduced context is one level lower and supports one less multiplication |
| ShellKey.ReducedContext | tf_shell/python/shell_key.py:77 | after n reductions of the context, its level and its supported depth are both lower by exactly n |
| ShellKey.ReducedKey | tf_shell/python/shell_key.py:78 | after n reductions of the key, its level is lower by exactly n, so context and key levels stay equal through the loop |
| ShellKey.RotationKeysStep | tf_shell/python/shell_key.py:69-73 | one more iteration visits a level not yet in the map and adds exactly the entry for it, unless its multiplicative depth is skipped |
| ShellKey.KeysAfterIsInterval | tf_shell/python/shell_key.py:68-78 | the map built one iteration at a time equals the map over the visited levels (c.level - n, c.level] whose depth is not skipped |
| ShellKey.WrittenAfterIsDecreasing | tf_shell/python/shell_key.py:69-78 | the first n iterations write each level at most once, in strictly decreasing order, all above the level they stop at, and the written levels are exactly the map's keys |
| ShellKey.CreateRotationKey64 | tf_shell/python/shell_key.py:56-82 | mismatched context and key levels raise; otherwise the result is the map over the visited, non-skipped levels, each entry generated from the context and key reduced to that level; the result holds the last, most reduced context, not the caller's; levels are written in strictly decreasing order and the written levels are exactly the returned map's keys |
| ShellKey.RotationKeyLookup | tf_shell/python/shell_key.py:50-82 | looking a level up in the result of create_rotation_key64 succeeds exactly at the visited levels whose depth (not level) is not skipped; the entry found was generated from a context and a key both at that level |
| ShellKey.LoopStopsAtDepthZeroOrLevelOne | tf_shell/python/shell_key.py:69-82 | the loop never reduces a context below level 1 or below depth 0; when it ran, the returned context is at depth 0 or level 1; when it did not run, the map is empty and the context is the caller's; every stored level lies between the returned and the original level |
| RotationKernels.SubstitutionPowerIsOddAndBelowTwoN | shell_tensor/cc/kernels/rotation_kernels.cc:97-116 | 5^i mod 2n is odd and lies in (0, 2n) |
| RotationKernels.SubstitutionPowerStep | shell_tensor/cc/kernels/rotation_kernels.cc:115-116 | multiplying 5^i mod 2n by 5 and reducing again gives 5^(i+1) mod 2n, so the running sub_power is the power of the key index |
| RotationKernels.RotationKeyGen | shell_tensor/cc/kernels/rotation_kernels.cc:61-118 | the gadget has one log base, equal to 10, per main prime modulus, with the context's logN and moduli; the key map's domain is exactly {1, ..., 2^(logN-1) - 1}; the entry at i holds the substitution power 5^i mod 2^(logN+1) and the Galois key created for that power |
| RotationKernels.NormalizeShift | shell_tensor/cc/kernels/rotation_kernels.cc:165-169 | for a shift of magnitude below n/2, adding n/2 to a negative shift yields the shift mod n/2, in [0, n/2) |
| RotationKernels.RotateOne | shell_tensor/cc/kernels/rotation_kernels.cc:183-193 | what the loop writes for one ciphertext: a copy for shift 0; otherwise, in the same ring, the ciphertext substituted with the key's power and then key-switched with that key |
| RotationKernels.FirstNonCiphertext | shell_tensor/cc/kernels/rotation_kernels.cc:175-180 | the index of the first element that is not a ciphertext: every element before it is one, and the element at it is not |
| RotationKernels.Roll | shell_tensor/cc/kernels/rotation_kernels.cc:133-195 | the checks in the kernel's order: an empty outer dimension, a first element that is not a ciphertext, and a negated shift with magnitude at least n/2 are rejected; the normalised shift must have a key; a later non-ciphertext element is rejected; otherwise the output has the input's shape, and element i is input element i rotated with the one selected key (a copy when the shift is 0) |
| RotationKernels.EmptyCheckAdmitsTensorWithoutElements | shell_tensor/cc/kernels/rotation_kernels.cc:142-154 | as written, a well-formed tensor of shape [2, 0] has no element yet passes the empty check, after which the kernel reads its first element |
| RotationKernels.RollChecked | shell_tensor/cc/kernels/rotation_kernels.cc:142-195 | with the empty check on the element count, every input is accepted: a tensor without elements or dimensions is rejected as empty, and a successful roll keeps the shape and rotates every element with the one key of the normalised shift; any tensor with a dimension and an element gets Roll's outcome, check for check: empty outer dimension, first element not a ciphertext, shift out of range, no key for the normalised shift, a later element not a ciphertext, else every element rotated |
| RotationKernels.GeneratedKeysCoverEveryNonzeroShift | shell_tensor/cc/kernels/rotation_kernels.cc:104-185 | with the keys RotationKeyGen makes for the ring, an in-range shift finds a key exactly when it is not 0, so shift 0 is rejected and the copy branch is never reached |
| RotationVariants.RotationKeyVariant.constructor | tf_shell/cc/kernels/rotation_variants.h:37 | the variant holds the given gadget and no keys |
| RotationVariants.RotationKeyVariant.Emplace | shell_tensor/cc/kernels/rotation_kernels.cc:114 | std::map::emplace: inserts exactly when the index is absent, otherwise leaves the map unchanged, and reports which |
| RotationVariants.RotationKeyVariant.Encode | tf_shell/cc/kernels/rotation_variants.h:44 | writes nothing |
| RotationVariants.RotationKeyVariant.Decode | tf_shell/cc/kernels/rotation_variants.h:47 | always returns false and changes nothing |
| RotationVariants.SingleRotationKeyVariant.Encode | tf_shell/cc/kernels/rotation_variants.h:71 | writes nothing |
| RotationVariants.SingleRotationKeyVariant.Decode | tf_shell/cc/kernels/rotation_variants.h:74 | always returns false and changes nothing |
| RotationVariants.SingleRotationKeyVariant.constructor | tf_shell/cc/kernels/rotation_variants.h:64 | the variant holds the given key |
| RotationVariants.FastRotationKeyVariant.constructor | tf_shell/cc/kernels/rotation_variants.h:89 | no keys, no buffered strings, no context |
| RotationVariants.FastRotationKeyVariant.WithKeys | tf_shell/cc/kernels/rotation_variants.h:92-94 | holds the given keys and context, with nothing buffered |
| RotationVariants.SerializedPrefix | tf_shell/cc/kernels/rotation_variants.h:103-113 | the tensors Encode pushes: serialised keys in key order, one per key, up to (and excluding) the first key that fails to serialise |
| RotationVariants.SerializedPrefixStopsAt | tf_shell/cc/kernels/rotation_variants.h:103-113 | when the first n keys serialise and key n does not (or n is the key count), the pushed prefix is exactly the first n serialised keys |
| RotationVariants.FastRotationKeyVariant.Encode | tf_shell/cc/kernels/rotation_variants.h:100-114 | appends one string tensor per key, in key order, after what data already held, and stops at the first serialisation failure |
| RotationVariants.FastRotationKeyVariant.Decode | tf_shell/cc/kernels/rotation_variants.h:116-140 | succeeds exactly when data has at least one tensor and no strings are buffered; success appends every tensor, in order; failure changes nothing; keys and the context are never touched |
| RotationVariants.DecodeAll | tf_shell/cc/kernels/rotation_variants.h:148-161 | decodes the buffered strings in order up to the first parse or deserialise failure; the status is Ok exactly when every string decoded, and otherwise carries the failing string's cause |
| RotationVariants.FastRotationKeyVariant.MaybeLazyDecode | tf_shell/cc/kernels/rotation_variants.h:142-170 | with nothing buffered it is a no-op returning Ok; otherwise it appends the decoded polynomials in order; on success it sets the context and clears the buffer; on failure the polynomials decoded so far stay appended, while the buffer and the context are unchanged |
| RotationVariants.SerializeDecodeRoundTrip | tf_shell/cc/kernels/rotation_variants.h:100-161 | decoding what Encode pushed, under the same moduli, gives back every key, when each key has one coefficient vector per modulus |
| RotationVariants.TransferFastRotationKey | tf_shell/cc/kernels/rotation_variants.h:92-170 | a key sent by Encode and received by Decode and MaybeLazyDecode under the same context arrives intact; an empty key list encodes to nothing, which Decode refuses |
| ShapeKernels.NewExpandDimsVariantOp | tf_shell/cc/kernels/shape_kernels.cc:43-51 | construction fails exactly for axis 0 and otherwise keeps the axis |
| ShapeKernels.ExpandDimsShape | tf_shell/cc/kernels/shape_kernels.cc:54-81 | axis 0 is rejected; the clamped index is dim - 1 for positive dim and dim + dims + 1 for negative dim, and one outside [0, dims] is rejected; otherwise the output has length dims + 1 and a 1 at the clamped index, with the dimensions before it unchanged and those after it shifted up by one |
| ShapeKernels.ProductConcat | tf_shell/cc/kernels/shape_kernels.cc:81-85 | the element count of a concatenation of shapes is the product of their element counts |
| ShapeKernels.ExpandDimsKeepsElementCount | tf_shell/cc/kernels/shape_kernels.cc:84-92 | the output shape has the input's element count, so CopyFrom never fails |
| ShapeKernels.Compute | tf_shell/cc/kernels/shape_kernels.cc:53-93 | the kernel fails exactly as ExpandDimsShape says; otherwise it shares the input's elements under that shape; the min at :79 changes nothing, and the Internal error is never produced |
| ShapeKernels.KernelAgreesWithNumpy | tf_shell/cc/kernels/shape_kernels.cc:56-80 | on the shape the user sees (the packing dimension in front), the kernel accepts exactly the axes numpy.expand_dims accepts, except those that insert before the packing dimension, and then gives numpy's shape without the packing dimension |
| ShapeInference.Subshape | tf_shell/cc/ops/shell_ops.cc:249-254 | TensorFlow's Subshape as assumed: in range it is the slice, and any result is no longer than its input (the same rule serves the calls at shell_ops.cc:313 and :316) |
| ShapeInference.ReduceSumShape | tf_shell/cc/ops/shell_ops.cc:214-266 | axis 0 is rejected; the clamped axis is axis + rank + 1 for negative axes and axis - 1 for positive ones; one outside [0, rank] is rejected; for a clamped axis below the rank the output is the input with that one dimension removed (length rank - 1), and the three branches agree with prefix ++ postfix; a clamped axis equal to the rank leaves the shape unchanged |
| ShapeInference.ReduceSumLastAxisNotRemoved | tf_shell/cc/ops/shell_ops.cc:229-235 | as written, axis -1 on a [3, 4] variant shape is admitted and removes no dimension, whereas numpy's reduction over the user's last axis of [8, 3, 4] gives [8, 3] |
| ShapeInference.ReduceSumCorrectedAgreesWithNumpy | tf_shell/cc/ops/shell_ops.cc:228-238 | with negative axes offset by the rank alone, the shape function accepts exactly numpy's valid axes except those that name the packing dimension, and gives numpy's reduced shape without the packing dimension |
| ShapeInference.ExpandDimsVariantShapeFn | tf_shell/cc/ops/shell_ops.cc:296-325 | as written, an axis outside [-rank, rank] is rejected, with no packing-dimension offset; negative axes get the rank added; the result is input[0..a) ++ [1] ++ input[a..rank-1), of length rank, and axis = rank also fails, in Subshape |
| ShapeInference.ExpandDimsShapeFnDisagreesWithKernel | tf_shell/cc/ops/shell_ops.cc:303-321 | for a [3, 4] variant tensor and axis 1, the inferred shape is [3, 1], while the kernel produces [1, 3, 4] |
| ShapeInference.ExpandDimsCorrectedAgreesWithKernel | tf_shell/cc/ops/shell_ops.cc:303-321 | with the kernel's axis rule and the whole suffix, the shape function fails exactly when the kernel does and otherwise infers the kernel's shape |
| DpSgdSequentialModel.ForwardComposes | tf_shell_ml/dpsgd_sequential_model.py:22-24 | applying a list of layers is applying its parts one after the other, in list order |
| DpSgdSequentialModel.Call | tf_shell_ml/dpsgd_sequential_model.py:21-30 | the layers are applied in list order; softmax is applied only when with_softmax is true |
| DpSgdSequentialModel.GradInputs | tf_shell_ml/dpsgd_sequential_model.py:36-42 | dJ_dx ends with one entry per layer beyond its first |
| DpSgdSequentialModel.BackwardVisitsLayersInReverse | tf_shell_ml/dpsgd_sequential_model.py:36-42 | the layers are visited last first; the first visited layer receives dJ_dz and each later one the previous layer's dx |
| DpSgdSequentialModel.Reverse | tf_shell_ml/dpsgd_sequential_model.py:44 | the reversed list has the same length, and element j is element n - 1 - j |
| DpSgdSequentialModel.FlattenLength | tf_shell_ml/dpsgd_sequential_model.py:41-44 | the concatenation of lists is as long as the sum of their lengths |
| DpSgdSequentialModel.BackwardIsReversedConcatenation | tf_shell_ml/dpsgd_sequential_model.py:35-44 | dJ_dw is the per-layer dw lists concatenated in visiting order, and _backward returns its reverse, of length the sum of the per-layer lengths |
| DpSgdSequentialModel.BackwardPass | tf_shell_ml/dpsgd_sequential_model.py:32-44 | the loop's result is the reverse of the concatenated dw lists, with each layer fed the dx of the layer visited before it |
| DpSgdSequentialModel.DropLast | tf_shell_ml/dpsgd_sequential_model.py:125-127 | s[:-p] for p > 0 keeps the first max(len(s) - p, 0) rows |
| DpSgdSequentialModel.LabelScale | tf_shell_ml/dpsgd_sequential_model.py:47-52 | the scale is finite exactly when the labels have a scaling_factor, and is then that factor; otherwise it is infinity |
| DpSgdSequentialModel.LabelNorm | tf_shell_ml/dpsgd_sequential_model.py:92-109 | the norm for one label is max_per_example_global_norm of _backward, with the sensitivity factor, of the worst-case-rounded prediction minus that label's one-hot row; on the last device with end_pad > 0 every gradient first drops its last end_pad rows, and otherwise none is trimmed |
| DpSgdSequentialModel.SensitivityLoop | tf_shell_ml/dpsgd_sequential_model.py:89-123 | the cond/body while_loop from label cls to classes - 1: the sensitivity never decreases, and a loop whose start is already at classes returns its start |
| DpSgdSequentialModel.SensitivityLoopIsMax | tf_shell_ml/dpsgd_sequential_model.py:89-123 | the while_loop over labels cls, ..., classes - 1 returns the maximum of its start and every label's norm: at least each of them, and equal to one of them |
| DpSgdSequentialModel.DeviceSensitivityBoundsEveryLabel | tf_shell_ml/dpsgd_sequential_model.py:84-123 | a device's sensitivity, started at 0.0, is at least 0 and at least the norm for every label in [0, out_classes) |
| DpSgdSequentialModel.DevicesAreNonNegative | tf_shell_ml/dpsgd_sequential_model.py:84-129 | every device contributes a sensitivity of at least 0 |
| DpSgdSequentialModel.ReduceMax | tf_shell_ml/dpsgd_sequential_model.py:133 | tf.reduce_max over a non-empty list bounds every element and equals one of them |
| DpSgdSequentialModel.DeviceSensitivities | tf_shell_ml/dpsgd_sequential_model.py:66-129 | the list of sensitivities has one entry per device, in device order |
| DpSgdSequentialModel.LossGradient | tf_shell_ml/dpsgd_sequential_model.py:135-166 | a loss other than CCE or MSE raises; labels whose type is exactly tf.Tensor and whose shape differs from the predictions' fail the assertion; labels of any other type (encrypted, or a tensor subclass) are never shape-checked; otherwise both losses give predictions - labels |
| DpSgdSequentialModel.ComputeGrads | tf_shell_ml/dpsgd_sequential_model.py:46-171 | the predictions are the devices' predictions concatenated in device order, the last device's padded rows dropped; compute_grads fails exactly when the loss dispatch does; otherwise the gradients are _backward of predictions - labels, and the bound is at least 0 and is the maximum of the device sensitivities, each computed with the labels' scaling factor (infinity for labels without a scaling_factor) and with the last device's padded gradient rows dropped |
| DpSgdSequentialModel.GlobalBoundCoversEveryDeviceAndLabel | tf_shell_ml/dpsgd_sequential_model.py:84-133 | a bound at or above a device's sensitivity is at or above the norm for every label that device could have had |

## Left out

- HE primitives: `key_gen64`, `modulus_reduce_key64`, `rotation_key_gen64`, `mod_reduce_context64`, `MainPrimeModulusComplements`, `MainPrimeModulusCrtFactors`, `Gadget::Create`, `RotationKey::CreateForBgv`, `Substitute` and `ApplyTo` are symbolic. Only the contexts they are used in are modelled. `Serialize`, `SerializeToString`, `ParseFromString` and `Deserialize` are instead the stand-in codec functions described in the third assumption above.
- Failures that are not modelled (each call is taken to succeed), because the kernels only pass the status on:
  - `key_gen64`, `modulus_reduce_key64`, `rotation_key_gen64` and `mod_reduce_context64`;
  - `MainPrimeModulusComplements`, `MainPrimeModulusCrtFactors` and `Gadget::Create` (rotation_kernels.cc:72-79);
  - `RotationKey::CreateForBgv` (rotation_kernels.cc:109-112), so RotationKernels.RotationKeyGen always fills the whole key map;
  - `Substitute` and `ApplyTo` (rotation_kernels.cc:187-189), so RotationKernels.Roll always succeeds once its own checks pass;
  - the TensorFlow calls `GetVariant`, `GetScalar` and `allocate_output` (rotation_kernels.cc:62-67, :85, :134-139, :149; shape_kernels.cc:84), whose inputs the model receives as typed values, and the unwrap check of the new key variant (rotation_kernels.cc:88-93).
- The codec in `RotationVariants` is a stand-in with the library's failure points (a modulus-count mismatch, unparsable bytes). It is not the library's wire format. Its round-trip behaviour is an assumption, stated above.
- RotationVariants.RotationKeyVariant: the header declares `keys` as a vector, but the kernels use it as a `std::map<int, PowerAndKey>` (rotation_kernels.cc:114, :136). The model follows the kernels and holds a map.
- RotationKernels.RotationKeyGen: requires logN >= 1, because `1 << (LogN() - 1)` is undefined for logN 0. It treats sub_power as an unbounded integer and does not model the 32-bit wrap-around of `sub_power *= base_power`, which cannot happen while 2n is below 2^31 / 5.
- RotationKernels.Roll: requires a rank of at least 1. It also requires that a non-empty outer dimension implies a non-empty tensor, because the kernel reads the first element unchecked (see "## Findings"; RotationKernels.RollChecked needs neither requirement). It does not model an int64 shift whose negation overflows. It also does not model the partially written output that TensorFlow discards after an error.
- RotationVariants.FastRotationKeyVariant.Encode: requires a context whenever there are keys, because the source dereferences `ct_context` once there is a key. The error line printed on a serialisation failure is not modelled; Encode simply stops.
- The `isinstance` checks of shell_key.py are discharged by the types.
- Error-message strings, `DebugString` and `TypeName` are not modelled, because they have no effect on behaviour.
- Fast-rotation-key generation (`create_fast_rotation_key64`) is not part of this model.
- Shapes of unknown rank, and the other `REGISTER_OP` declarations, are not modelled.
- TensorFlow's `InferenceContext::Subshape` and `Concatenate` are not part of this model. `ShapeInference.Subshape` states the behaviour assumed of them.
- DpSgdSequentialModel: these are not modelled:
  - device placement (`tf.device`, `tf.identity`);
  - state that the layers cache during a forward pass with `split_forward_mode=True` (dpsgd_sequential_model.py:24), and its reset by `reset_split_forward_mode` (:55-56). `Ops.backward` is a function of the layer, the incoming gradient and the factor only. So the model cannot express that `l.backward` (:38-40) reads what the forward passes cached. Device i's sensitivity backpropagation (:99) and the final backward (:169) are therefore the same function of `m.layers`, although the layers' cached state differs between those calls;
  - `split_with_padding` (in `model_base`, not part of this model): ComputeGrads receives the shards and `end_pad` it would return;
  - the layers' forward and backward passes, softmax, `worst_case_rounding`, the one-hot residual and `max_per_example_global_norm`, which are opaque functions;
  - floating point: values are reals, so NaN in `tf.maximum` and rounding are not modelled;
  - the parallelism of `tf.while_loop`, whose `parallel_iterations=1` makes it sequential anyway.
- `float("inf")` is a symbolic `Infinity` scale, not a real.
- DpSgdSequentialModel.ComputeGrads: requires at least one device, because `tf.reduce_max` of an empty list has no maximum.
- `tf.debugging.assert_equal` failing is modelled as an error result (`ShapeMismatch`), like the raised ValueError.
- The labels' type is reduced to two facts: whether they have a `scaling_factor` attribute (`hasattr`, :47-50), and whether their type is exactly `tf.Tensor` (:136, :152). Nothing else about their type is modelled.

## Findings

| source | as written | input that shows it | evidently intended | confidence | as-written member | corrected member |
|---|---|---|---|---|---|---|
| tf_shell/cc/ops/shell_ops.cc:229-235 | a negative axis is shifted by rank + 1 (the rule for inserting a dimension), so axis -1 maps one past the last variant dimension, the range check admits it, and no dimension is removed | variant shape [3, 4] (user shape [8, 3, 4]), axis -1: inferred [3, 4], numpy gives [8, 3] | negative axes shifted by the rank, so that -1 removes the last dimension, as numpy does on the user's shape | not executed; medium | ShapeInference.ReduceSumShape, ShapeInference.ReduceSumLastAxisNotRemoved | ShapeInference.ReduceSumShapeCorrected, ShapeInference.ReduceSumCorrectedAgreesWithNumpy |
| tf_shell/cc/ops/shell_ops.cc:303-316 | the ExpandDimsVariant shape function applies no packing-dimension offset, and its suffix stops at rank - 1, so the inferred shape has the input's rank instead of rank + 1 | variant shape [3, 4], axis 1: inferred [3, 1], the kernel produces [1, 3, 4] | the kernel's axis rule (shape_kernels.cc:58-68) and the whole suffix, giving the kernel's output shape | not executed; high | ShapeInference.ExpandDimsVariantShapeFn, ShapeInference.ExpandDimsShapeFnDisagreesWithKernel | ShapeInference.ExpandDimsVariantShapeFnCorrected, ShapeInference.ExpandDimsCorrectedAgreesWithKernel |
| shell_tensor/cc/kernels/rotation_kernels.cc:142-154 | the empty check tests only the outer dimension, then `flat_value(0)` is read | a well-formed tensor of shape [2, 0]: dim 0 is 2, so the check passes, but the tensor has no element and element 0 is read out of bounds | reject a tensor with no elements (`NumElements() == 0`) before reading element 0 | not executed; medium | RotationKernels.Roll, RotationKernels.EmptyCheckAdmitsTensorWithoutElements | RotationKernels.RollChecked |
