/** The rotation kernels (shell_tensor/cc/kernels/rotation_kernels.cc):
    RotationKeyGen builds one Galois key per slot shift; Roll rotates every
    ciphertext of a tensor by one shift. Galois substitution and key
    switching are opaque: they are symbolic terms on the polynomial. */
module RotationKernels {
  import opened Outcome
  import opened RotationVariants
  import ShapeKernels

  /** The gadget's log base for every main prime modulus. */
  const LogGadgetBase: nat := 10

  /** The substitution power for a Galois rotation by one slot. */
  const BasePower: int := 5

  /** 1 << k. */
  function Pow2(k: nat): (r: nat)
    ensures r >= 1
  {
    if k == 0 then 1 else 2 * Pow2(k - 1)
  }

  function Pow(b: int, e: nat): int
  {
    if e == 0 then 1 else b * Pow(b, e - 1)
  }

  function Abs(x: int): nat { if x < 0 then -x else x }

  /** The slot shifts that get a key: 1 to 2^(logN-1) - 1, that is, every
      rotation within one half of the slots except the identity. */
  predicate IsKeyIndex(logN: nat, i: int)
    requires logN >= 1
  {
    1 <= i < Pow2(logN - 1)
  }

  /** The substitution power of the Galois automorphism that rotates by i
      slots, reduced modulo 2n = 2^(logN+1). */
  function SubstitutionPower(i: nat, logN: nat): int
  {
    Pow(BasePower, i) % Pow2(logN + 1)
  }

  lemma {:induction false} PowOfFiveIsOdd(e: nat)
    ensures Pow(BasePower, e) % 2 == 1 && Pow(BasePower, e) > 0
  {
    if e > 0 {
      PowOfFiveIsOdd(e - 1);
      var p := Pow(BasePower, e - 1);
      var q := p / 2;
      assert p == 2 * q + 1;
      assert Pow(BasePower, e) == 5 * p;
      assert 5 * p == (5 * q + 2) * 2 + 1;
      ModUnique(5 * p, 2, 5 * q + 2, 1);
    }
  }

  lemma {:induction false} Pow2IsEven(k: nat)
    requires k >= 1
    ensures Pow2(k) % 2 == 0 && Pow2(k) == 2 * Pow2(k - 1)
  {
    var h := Pow2(k - 1);
    assert Pow2(k) == 2 * h;
    assert (2 * h) % 2 == 0;
  }

  lemma {:induction false} Pow2Monotone(j: nat, k: nat)
    requires j <= k
    ensures Pow2(j) <= Pow2(k)
  {
    if j < k {
      Pow2Monotone(j, k - 1);
    }
  }

  /** An odd number reduced modulo an even one stays odd. */
  lemma OddModEvenIsOdd(a: int, m: int)
    requires a % 2 == 1 && m > 0 && m % 2 == 0
    ensures (a % m) % 2 == 1
  {
    var q := a / m;
    var h := m / 2;
    var qh := q * h;
    assert m == 2 * h;
    assert a == m * q + a % m;
    assert m * q == 2 * qh by {
      assert m * q == q * m;
      assert (2 * h) * q == 2 * (h * q);
      assert h * q == q * h;
    }
    assert a % m == a - 2 * qh;
  }

  /** Every stored substitution power is odd and below 2n, as a Galois
      automorphism X -> X^k of Z[X]/(X^n + 1) needs. */
  lemma SubstitutionPowerIsOddAndBelowTwoN(i: nat, logN: nat)
    ensures var p := SubstitutionPower(i, logN);
            0 < p < Pow2(logN + 1) && p % 2 == 1
  {
    PowOfFiveIsOdd(i);
    Pow2IsEven(logN + 1);
    OddModEvenIsOdd(Pow(BasePower, i), Pow2(logN + 1));
  }

  /** Reducing before or after one more multiplication by 5 agrees. */
  lemma ModMulStep(a: int, m: int)
    requires m > 0
    ensures ((a % m) * BasePower) % m == (a * BasePower) % m
  {
    var q, r := a / m, a % m;
    var q', r' := (r * BasePower) / m, (r * BasePower) % m;
    assert r * BasePower == q' * m + r';
    assert a * BasePower == (q * BasePower + q') * m + r' by {
      assert a == q * m + r;
    }
    ModUnique(a * BasePower, m, q * BasePower + q', r');
  }

  /** The loop's update of sub_power yields the next substitution power. */
  lemma SubstitutionPowerStep(i: nat, logN: nat)
    ensures (SubstitutionPower(i, logN) * BasePower) % Pow2(logN + 1) == SubstitutionPower(i + 1, logN)
  {
    ModMulStep(Pow(BasePower, i), Pow2(logN + 1));
    assert Pow(BasePower, i + 1) == Pow(BasePower, i) * BasePower;
  }

  /** Euclidean division has one quotient and one remainder. */
  lemma ModUnique(a: int, m: int, q: int, r: int)
    requires m > 0 && 0 <= r < m && a == q * m + r
    ensures a % m == r
  {
    var d := q - a / m;
    assert d * m == a % m - r;
    if d >= 1 {
      assert false;
    } else if d <= -1 {
      assert false;
    }
  }

  /** RotationKeyGenOp::Compute. The gadget gets one log base of 10 per
      main prime modulus; the key for slot shift i carries the substitution
      power 5^i mod 2n. The library calls are taken to succeed. */
  method RotationKeyGen(ctx: RnsContext, secretKey: SecretKey) returns (v: RotationKeyVariant)
    requires ctx.logN >= 1
    ensures fresh(v)
    ensures |v.gadget.logBs| == |ctx.mainPrimeModuli|
    ensures forall j :: 0 <= j < |v.gadget.logBs| ==> v.gadget.logBs[j] == LogGadgetBase
    ensures v.gadget.logN == ctx.logN && v.gadget.moduli == ctx.mainPrimeModuli
    ensures forall i :: i in v.keys <==> IsKeyIndex(ctx.logN, i)
    ensures forall i :: i in v.keys ==>
              var p := SubstitutionPower(i, ctx.logN);
              v.keys[i] == PowerAndKey(p, CreateForBgv(secretKey, p, secretKey.variance, v.gadget,
                                                       ctx.plaintextModulus))
  {
    var logBs := seq(|ctx.mainPrimeModuli|, _ => LogGadgetBase);
    var gadget := Gadget(ctx.logN, logBs, ctx.mainPrimeModuli);
    v := new RotationKeyVariant(gadget);

    var subPower := BasePower;
    var numRotationKeys := Pow2(ctx.logN - 1);
    var twoN := Pow2(ctx.logN + 1);
    if numRotationKeys > 1 {
      // Then logN >= 2, so 5 < 2n and the first power needs no reduction.
      Pow2Monotone(3, ctx.logN + 1);
      assert Pow(BasePower, 1) == BasePower;
      ModUnique(BasePower, twoN, 0, BasePower);
    }
    for i := 1 to numRotationKeys
      invariant v.gadget == gadget
      invariant forall j :: j in v.keys <==> 1 <= j < i
      invariant i < numRotationKeys ==> subPower == SubstitutionPower(i, ctx.logN)
      invariant forall j :: j in v.keys ==>
                  var p := SubstitutionPower(j, ctx.logN);
                  v.keys[j] == PowerAndKey(p, CreateForBgv(secretKey, p, secretKey.variance, gadget,
                                                           ctx.plaintextModulus))
    {
      var k := CreateForBgv(secretKey, subPower, secretKey.variance, gadget, ctx.plaintextModulus);
      var _ := v.Emplace(i, PowerAndKey(subPower, k));
      SubstitutionPowerStep(i, ctx.logN);
      subPower := subPower * BasePower;
      subPower := subPower % twoN;
    }
  }

  /** The ciphertext polynomial, known only by how it was obtained. */
  datatype Poly = Encrypted(id: int) | Substituted(p: Poly, power: int) | KeySwitched(key: GaloisKey, p: Poly)

  datatype Ciphertext = Ciphertext(logN: nat, poly: Poly)

  /** One element of a variant tensor: a ciphertext, or anything else. */
  datatype Variant = CtVariant(ct: Ciphertext) | OtherVariant

  datatype VariantTensor = VariantTensor(shape: seq<nat>, flat: seq<Variant>)

  datatype RollError =
    | EmptyCiphertext
    | NotACiphertext(index: nat)
    | ShiftTooLarge(shift: int)
    | NoKeyForShift(shift: int)

  /** Ciphertext::Substitute. */
  function Substitute(ct: Ciphertext, power: int): Ciphertext
  {
    Ciphertext(ct.logN, Substituted(ct.poly, power))
  }

  /** GaloisKey::ApplyTo. */
  function ApplyTo(key: GaloisKey, ct: Ciphertext): Ciphertext
  {
    Ciphertext(ct.logN, KeySwitched(key, ct.poly))
  }

  /** What Roll writes for one ciphertext: a copy for shift 0, otherwise
      the substitution followed by key switching with the selected key. */
  function RotateOne(ct: Ciphertext, shift: int, pk: PowerAndKey): (r: Ciphertext)
    ensures r.logN == ct.logN
    ensures shift == 0 ==> r == ct
    ensures shift != 0 ==> r.poly == KeySwitched(pk.key, Substituted(ct.poly, pk.substitutionPower))
  {
    if shift == 0 then ct else ApplyTo(pk.key, Substitute(ct, pk.substitutionPower))
  }

  /** Maps a shift of magnitude below half into [0, half): negative shifts
      wrap around, which is the Euclidean remainder. */
  function NormalizeShift(shift: int, half: nat): (r: int)
    requires Abs(shift) < half
    ensures 0 <= r < half
    ensures r == shift % half
  {
    if shift < 0 then
      ModUnique(shift, half, -1, shift + half);
      shift + half
    else
      ModUnique(shift, half, 0, shift);
      shift
  }

  /** The first index that does not hold a ciphertext, or |flat|. */
  function FirstNonCiphertext(flat: seq<Variant>): (k: nat)
    ensures k <= |flat|
    ensures forall i :: 0 <= i < k ==> flat[i].CtVariant?
    ensures k < |flat| ==> !flat[k].CtVariant?
  {
    if flat == [] || !flat[0].CtVariant? then 0 else 1 + FirstNonCiphertext(flat[1..])
  }

  /** Roll's outcome once element 0 is known to be a ciphertext: the range
      check on the tf.roll shift, the key lookup for the normalised shift,
      the first later element that is not a ciphertext, and otherwise the
      tensor of the input's shape with every element rotated by that key. */
  predicate RolledAfterFirstCheck(keys: map<int, PowerAndKey>, value: VariantTensor, shift: int,
                                  r: Result<VariantTensor, RollError>)
    requires |value.flat| > 0 && value.flat[0].CtVariant?
  {
    var half := Pow2(value.flat[0].ct.logN) / 2;
    var k := FirstNonCiphertext(value.flat);
    if Abs(-shift) >= half then r == Err(ShiftTooLarge(-shift))
    else
      var s := NormalizeShift(-shift, half);
      if s !in keys then r == Err(NoKeyForShift(s))
      else if k < |value.flat| then r == Err(NotACiphertext(k))
      else
        && r.Ok? && r.value.shape == value.shape && |r.value.flat| == |value.flat|
        && forall i :: 0 <= i < |value.flat| ==>
             r.value.flat[i] == CtVariant(RotateOne(value.flat[i].ct, s, keys[s]))
  }

  /** RollOp::Compute, for tf.roll's shift convention. The checks run in
      the kernel's order; the output has the input's shape and element i is
      element i rotated with the one selected key. */
  method Roll(rotationKey: RotationKeyVariant, value: VariantTensor, shift: int)
    returns (r: Result<VariantTensor, RollError>)
    requires |value.shape| >= 1
    requires value.shape[0] > 0 ==> |value.flat| > 0  // flat_value(0) is read unchecked
    ensures value.shape[0] == 0 ==> r == Err(EmptyCiphertext)
    ensures value.shape[0] > 0 && !value.flat[0].CtVariant? ==> r == Err(NotACiphertext(0))
    ensures value.shape[0] > 0 && value.flat[0].CtVariant? ==> RolledAfterFirstCheck(rotationKey.keys, value, shift, r)
  {
    var keys := rotationKey.keys;
    var shift := -shift;  // tf.roll shifts left for negative values
    if value.shape[0] <= 0 {
      return Err(EmptyCiphertext);
    }
    var flatOutput := new Variant[|value.flat|](_ => OtherVariant);
    if !value.flat[0].CtVariant? {
      return Err(NotACiphertext(0));
    }
    var numSlots := Pow2(value.flat[0].ct.logN);
    if Abs(shift) >= numSlots / 2 {
      return Err(ShiftTooLarge(shift));
    }
    if shift < 0 {
      shift := shift + numSlots / 2;
    }
    if shift !in keys {
      return Err(NoKeyForShift(shift));
    }
    var pk := keys[shift];
    for i := 0 to flatOutput.Length
      invariant forall j :: 0 <= j < i ==> value.flat[j].CtVariant?
      invariant forall j :: 0 <= j < i ==> flatOutput[j] == CtVariant(RotateOne(value.flat[j].ct, shift, pk))
    {
      if !value.flat[i].CtVariant? {
        return Err(NotACiphertext(i));
      }
      var ct := value.flat[i].ct;
      if shift == 0 {
        flatOutput[i] := CtVariant(ct);
      } else {
        var ctSub := Substitute(ct, pk.substitutionPower);
        var ctRot := ApplyTo(pk.key, ctSub);
        flatOutput[i] := CtVariant(ctRot);
      }
    }
    return Ok(VariantTensor(value.shape, flatOutput[..]));
  }

  /** The empty check of RollOp::Compute looks at the outer dimension only:
      a well-formed tensor of shape [2, 0] has no element, passes the check,
      and the kernel then reads its first element. Roll's precondition
      excludes this input. */
  lemma EmptyCheckAdmitsTensorWithoutElements()
    ensures var v := VariantTensor([2, 0], []);
            && |v.flat| == ShapeKernels.Product(v.shape)
            && v.shape[0] > 0
            && !(v.shape[0] > 0 ==> |v.flat| > 0)
  {
    assert ShapeKernels.Product([0]) == 0 * ShapeKernels.Product([]);
    assert ShapeKernels.Product([2, 0]) == 2 * ShapeKernels.Product([0]);
  }

  /** RollOp::Compute with the empty check on the number of elements, as
      evidently intended: every input is accepted by the precondition, a
      tensor without elements (or without dimensions) is rejected, and
      otherwise the outcome is Roll's, check for check. */
  method RollChecked(rotationKey: RotationKeyVariant, value: VariantTensor, shift: int)
    returns (r: Result<VariantTensor, RollError>)
    ensures |value.shape| == 0 || |value.flat| == 0 ==> r == Err(EmptyCiphertext)
    ensures r.Ok? ==>
              && |value.flat| > 0 && value.flat[0].CtVariant?
              && Abs(-shift) < Pow2(value.flat[0].ct.logN) / 2
              && var s := NormalizeShift(-shift, Pow2(value.flat[0].ct.logN) / 2);
                 && s in rotationKey.keys
                 && r.value.shape == value.shape && |r.value.flat| == |value.flat|
                 && forall i :: 0 <= i < |value.flat| ==>
                      && value.flat[i].CtVariant?
                      && r.value.flat[i] == CtVariant(RotateOne(value.flat[i].ct, s, rotationKey.keys[s]))
    ensures |value.shape| > 0 && |value.flat| > 0 && value.shape[0] > 0 && r.Err? ==>
              r.error != EmptyCiphertext
    ensures |value.shape| > 0 && |value.flat| > 0 ==>
              if value.shape[0] == 0 then r == Err(EmptyCiphertext)
              else if !value.flat[0].CtVariant? then r == Err(NotACiphertext(0))
              else RolledAfterFirstCheck(rotationKey.keys, value, shift, r)
  {
    if |value.shape| == 0 || |value.flat| == 0 {
      return Err(EmptyCiphertext);
    }
    r := Roll(rotationKey, value, shift);
  }

  /** With the keys RotationKeyGen makes for the ciphertexts' ring, a shift
      in range finds a key exactly when it is not 0: shift 0 is rejected,
      so Roll's copy branch is never taken with such keys. */
  lemma GeneratedKeysCoverEveryNonzeroShift(logN: nat, shift: int)
    requires logN >= 1
    requires Abs(shift) < Pow2(logN) / 2
    ensures IsKeyIndex(logN, NormalizeShift(shift, Pow2(logN) / 2)) <==> shift != 0
  {
    Pow2IsEven(logN);
    assert Pow2(logN) / 2 == Pow2(logN - 1);
  }
}
