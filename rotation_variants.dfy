/** The TensorFlow variant objects that hold rotation keys
    (tf_shell/cc/kernels/rotation_variants.h).

    Library types are symbolic: a Gadget, a Galois key or a polynomial is
    the record of how it was made. The polynomial codec is a stand-in for
    the library's: serialising needs one modulus per coefficient vector,
    parsing fails on bytes that are not a serialised message, and
    deserialising needs as many moduli as the message has vectors. */
module RotationVariants {
  import opened Outcome

  /** The fields of an RNS context that the kernels read. */
  datatype RnsContext = RnsContext(logN: nat, mainPrimeModuli: seq<int>, plaintextModulus: int)

  datatype SecretKey = SecretKey(id: int, variance: int)

  /** Gadget::Create, as a symbolic term. */
  datatype Gadget = Gadget(logN: nat, logBs: seq<nat>, moduli: seq<int>)

  /** RotationKey::CreateForBgv, as a symbolic term. */
  datatype GaloisKey =
    CreateForBgv(secretKey: SecretKey, power: int, variance: int, gadget: Gadget, plaintextModulus: int)

  /** A substitution power with the Galois key that undoes it. */
  datatype PowerAndKey = PowerAndKey(substitutionPower: int, key: GaloisKey)

  datatype RnsPolynomial = RnsPolynomial(coeffVectors: seq<seq<int>>)

  /** The protocol-buffer message a polynomial serialises to. */
  datatype SerializedRnsPolynomial = SerializedRnsPolynomial(coeffVectors: seq<seq<int>>)

  /** The contents of a string tensor: a serialised message, or bytes that
      do not parse as one. */
  datatype Blob = Wire(msg: SerializedRnsPolynomial) | Unparsable(bytes: seq<int>)

  datatype Cause = ModulusCountMismatch | ParseFailed

  datatype Status = OkStatus | InvalidArgument(cause: Cause)

  /** RnsPolynomial::Serialize. */
  function Serialize(p: RnsPolynomial, moduli: seq<int>): Result<SerializedRnsPolynomial, Cause>
  {
    if |p.coeffVectors| == |moduli| then Ok(SerializedRnsPolynomial(p.coeffVectors))
    else Err(ModulusCountMismatch)
  }

  /** SerializedRnsPolynomial::ParseFromString. */
  function ParseFromString(s: Blob): Option<SerializedRnsPolynomial>
  {
    if s.Wire? then Some(s.msg) else None
  }

  /** RnsPolynomial::Deserialize. */
  function Deserialize(m: SerializedRnsPolynomial, moduli: seq<int>): Result<RnsPolynomial, Cause>
  {
    if |m.coeffVectors| == |moduli| then Ok(RnsPolynomial(m.coeffVectors))
    else Err(ModulusCountMismatch)
  }

  /** Parse then deserialise one buffered key string. */
  function DecodeKey(s: Blob, moduli: seq<int>): Result<RnsPolynomial, Cause>
  {
    match ParseFromString(s)
    case None => Err(ParseFailed)
    case Some(m) => Deserialize(m, moduli)
  }

  /** The tensors Encode pushes: the serialised keys, in key order, up to
      the first key that fails to serialise. */
  function SerializedPrefix(keys: seq<RnsPolynomial>, moduli: seq<int>): (r: seq<Blob>)
    ensures |r| <= |keys|
    ensures forall j :: 0 <= j < |r| ==>
              Serialize(keys[j], moduli).Ok? && r[j] == Wire(Serialize(keys[j], moduli).value)
    ensures |r| < |keys| ==> Serialize(keys[|r|], moduli).Err?
  {
    if keys == [] then []
    else match Serialize(keys[0], moduli)
      case Err(_) => []
      case Ok(m) => [Wire(m)] + SerializedPrefix(keys[1..], moduli)
  }

  /** What MaybeLazyDecode's loop produces: the decoded polynomials, in
      order, up to the first string that fails, and the status it returns. */
  function DecodeAll(strs: seq<Blob>, moduli: seq<int>): (r: (seq<RnsPolynomial>, Status))
    ensures |r.0| <= |strs|
    ensures r.1 == OkStatus <==> |r.0| == |strs|
    ensures forall j :: 0 <= j < |r.0| ==> DecodeKey(strs[j], moduli) == Ok(r.0[j])
    ensures |r.0| < |strs| ==> DecodeKey(strs[|r.0|], moduli) == Err(r.1.cause)
  {
    if strs == [] then ([], OkStatus)
    else match DecodeKey(strs[0], moduli)
      case Err(c) => ([], InvalidArgument(c))
      case Ok(p) => var rest := DecodeAll(strs[1..], moduli); ([p] + rest.0, rest.1)
  }

  /** Decoding what was encoded under the same moduli gives back the keys,
      provided every key has one coefficient vector per modulus. */
  lemma {:induction false} SerializeDecodeRoundTrip(keys: seq<RnsPolynomial>, moduli: seq<int>)
    requires forall j :: 0 <= j < |keys| ==> |keys[j].coeffVectors| == |moduli|
    ensures |SerializedPrefix(keys, moduli)| == |keys|
    ensures DecodeAll(SerializedPrefix(keys, moduli), moduli) == (keys, OkStatus)
  {
    if keys != [] {
      SerializeDecodeRoundTrip(keys[1..], moduli);
      assert SerializedPrefix(keys, moduli)[1..] == SerializedPrefix(keys[1..], moduli);
      assert [keys[0]] + keys[1..] == keys;
    }
  }

  /** tensorflow::VariantTensorData, reduced to its list of string tensors. */
  class VariantTensorData {
    var tensors: seq<Blob>

    constructor (tensors: seq<Blob>)
      ensures this.tensors == tensors
    {
      this.tensors := tensors;
    }
  }

  /** RotationKeyVariant: a gadget and the rotation keys indexed by slot
      shift (the kernels in rotation_kernels.cc keep them in a std::map). */
  class RotationKeyVariant {
    var gadget: Gadget
    var keys: map<int, PowerAndKey>

    constructor (gadget: Gadget)
      ensures this.gadget == gadget && keys == map[]
    {
      this.gadget := gadget;
      keys := map[];
    }

    /** std::map::emplace: inserts only when the index is not yet present. */
    method Emplace(i: int, pk: PowerAndKey) returns (inserted: bool)
      modifies this`keys
      ensures inserted <==> i !in old(keys)
      ensures keys == if inserted then old(keys)[i := pk] else old(keys)
    {
      inserted := i !in keys;
      if inserted {
        keys := keys[i := pk];
      }
    }

    /** Encode is not implemented: it writes nothing. */
    method Encode(data: VariantTensorData)
      ensures data.tensors == old(data.tensors)
    {
    }

    /** Decode is not implemented: it always fails. */
    method Decode(data: VariantTensorData) returns (ok: bool)
      ensures !ok
    {
      ok := false;
    }
  }

  /** SingleRotationKeyVariant: one Galois key, never sent over the network. */
  class SingleRotationKeyVariant {
    var key: GaloisKey

    constructor (key: GaloisKey)
      ensures this.key == key
    {
      this.key := key;
    }

    /** Encode writes nothing. */
    method Encode(data: VariantTensorData)
      ensures data.tensors == old(data.tensors)
    {
    }

    /** Decode always fails. */
    method Decode(data: VariantTensorData) returns (ok: bool)
      ensures !ok
    {
      ok := false;
    }
  }

  /** FastRotationKeyVariant: key polynomials that are decoded lazily. Decode
      only buffers the serialised strings; MaybeLazyDecode parses them once
      a context (and so the moduli) is known. */
  class FastRotationKeyVariant {
    var keys: seq<RnsPolynomial>
    var keyStrs: seq<Blob>
    var ctContext: Option<RnsContext>

    constructor ()
      ensures keys == [] && keyStrs == [] && ctContext == None
    {
      keys, keyStrs, ctContext := [], [], None;
    }

    constructor WithKeys(keys: seq<RnsPolynomial>, ctContext: RnsContext)
      ensures this.keys == keys && keyStrs == [] && this.ctContext == Some(ctContext)
    {
      this.keys, keyStrs, this.ctContext := keys, [], Some(ctContext);
    }

    /** Pushes one string tensor per key, in key order, stopping silently at
        the first key that does not serialise. The context is dereferenced
        once there is a key to serialise. */
    method Encode(data: VariantTensorData)
      requires keys != [] ==> ctContext.Some?
      modifies data
      ensures keys == [] ==> data.tensors == old(data.tensors)
      ensures keys != [] ==>
                data.tensors == old(data.tensors) + SerializedPrefix(keys, ctContext.value.mainPrimeModuli)
    {
      for i := 0 to |keys|
        invariant i > 0 ==> ctContext.Some?
        invariant i > 0 ==> AllSerialize(keys, ctContext.value.mainPrimeModuli, i)
        invariant i > 0 ==> data.tensors == old(data.tensors) + Serialized(keys, ctContext.value.mainPrimeModuli, i)
        invariant i == 0 ==> data.tensors == old(data.tensors)
      {
        var moduli := ctContext.value.mainPrimeModuli;
        var serialized := Serialize(keys[i], moduli);
        if serialized.Err? {
          SerializedPrefixStopsAt(keys, moduli, i);
          return;
        }
        assert Serialized(keys, moduli, i + 1) == Serialized(keys, moduli, i) + [Wire(serialized.value)];
        data.tensors := data.tensors + [Wire(serialized.value)];
      }
      if keys != [] {
        SerializedPrefixStopsAt(keys, ctContext.value.mainPrimeModuli, |keys|);
      }
    }

    /** Buffers the strings of data; refuses an empty data and refuses to
        run when strings are already buffered (keys are not inspected). */
    method Decode(data: VariantTensorData) returns (ok: bool)
      modifies this`keyStrs
      ensures ok <==> |data.tensors| >= 1 && old(keyStrs) == []
      ensures keyStrs == if ok then old(keyStrs) + data.tensors else old(keyStrs)
    {
      if |data.tensors| < 1 {
        return false;
      }
      if keyStrs != [] {
        return false;
      }
      var i := 0;
      while i < |data.tensors|
        invariant 0 <= i <= |data.tensors|
        invariant keyStrs == old(keyStrs) + data.tensors[..i]
      {
        keyStrs := keyStrs + [data.tensors[i]];
        i := i + 1;
      }
      assert data.tensors[..i] == data.tensors;
      return true;
    }

    /** Turns the buffered strings into key polynomials under the moduli of
        ctContext', remembers that context and clears the buffer. With
        nothing buffered it does nothing. On the first string that does not
        parse or deserialise it returns the error: the polynomials decoded
        before it stay appended, the buffer and the context are unchanged. */
    method MaybeLazyDecode(ctContext': RnsContext) returns (s: Status)
      modifies this`keys, this`keyStrs, this`ctContext
      ensures old(keyStrs) == [] ==>
                s == OkStatus && keys == old(keys) && keyStrs == [] && ctContext == old(ctContext)
      ensures old(keyStrs) != [] ==>
                var decoded := DecodeAll(old(keyStrs), ctContext'.mainPrimeModuli);
                s == decoded.1 && keys == old(keys) + decoded.0
                && (s == OkStatus ==> keyStrs == [] && ctContext == Some(ctContext'))
                && (s != OkStatus ==> keyStrs == old(keyStrs) && ctContext == old(ctContext))
    {
      if keyStrs == [] {
        return OkStatus;
      }
      var moduli := ctContext'.mainPrimeModuli;
      var i := 0;
      assert keyStrs[..0] == [] && keys[|old(keys)|..] == [];
      while i < |keyStrs|
        invariant 0 <= i <= |keyStrs|
        invariant keyStrs == old(keyStrs) && ctContext == old(ctContext)
        invariant |old(keys)| <= |keys| && keys[..|old(keys)|] == old(keys)
        invariant DecodeAll(keyStrs[..i], moduli) == (keys[|old(keys)|..], OkStatus)
      {
        DecodeAllExtends(keyStrs, i, moduli);
        var parsed := ParseFromString(keyStrs[i]);
        if parsed.None? {
          return InvalidArgument(ParseFailed);
        }
        var polynomial := Deserialize(parsed.value, moduli);
        if polynomial.Err? {
          return InvalidArgument(polynomial.error);
        }
        ghost var before := keys;
        keys := keys + [polynomial.value];
        assert keys[|old(keys)|..] == before[|old(keys)|..] + [polynomial.value];
        i := i + 1;
      }
      assert keyStrs[..i] == keyStrs;
      ctContext := Some(ctContext');
      keyStrs := [];
      return OkStatus;
    }
  }

  /** A fast rotation key sent over the network: Encode on one side, then
      Decode and MaybeLazyDecode under the same context on the other. The
      keys arrive intact, except that an empty key list encodes to nothing,
      which Decode refuses. */
  method TransferFastRotationKey(keys: seq<RnsPolynomial>, ctx: RnsContext)
    returns (ok: bool, received: seq<RnsPolynomial>)
    requires forall j :: 0 <= j < |keys| ==> |keys[j].coeffVectors| == |ctx.mainPrimeModuli|
    ensures ok <==> keys != []
    ensures ok ==> received == keys
  {
    var sender := new FastRotationKeyVariant.WithKeys(keys, ctx);
    var data := new VariantTensorData([]);
    sender.Encode(data);
    SerializeDecodeRoundTrip(keys, ctx.mainPrimeModuli);
    var receiver := new FastRotationKeyVariant();
    ok := receiver.Decode(data);
    if !ok {
      return false, [];
    }
    var s := receiver.MaybeLazyDecode(ctx);
    ok := s == OkStatus;
    received := receiver.keys;
  }

  /** The first n keys all serialise. */
  predicate AllSerialize(keys: seq<RnsPolynomial>, moduli: seq<int>, n: nat)
    requires n <= |keys|
  {
    forall j :: 0 <= j < n ==> Serialize(keys[j], moduli).Ok?
  }

  /** The strings of the first n keys, which all serialise. */
  function Serialized(keys: seq<RnsPolynomial>, moduli: seq<int>, n: nat): (r: seq<Blob>)
    requires n <= |keys| && AllSerialize(keys, moduli, n)
    ensures |r| == n
  {
    seq(n, j requires 0 <= j < n => Wire(Serialize(keys[j], moduli).value))
  }

  /** When the first n keys serialise and the next one does not (or there
      is none), the serialised prefix is exactly those n strings. */
  lemma {:induction false} SerializedPrefixStopsAt(keys: seq<RnsPolynomial>, moduli: seq<int>, n: nat)
    requires n <= |keys| && AllSerialize(keys, moduli, n)
    requires n < |keys| ==> Serialize(keys[n], moduli).Err?
    ensures SerializedPrefix(keys, moduli) == Serialized(keys, moduli, n)
  {
    if n == 0 {
      if keys != [] {
        assert Serialize(keys[0], moduli).Err?;
      }
    } else {
      var tail := keys[1..];
      assert AllSerialize(tail, moduli, n - 1) by {
        forall j | 0 <= j < n - 1 ensures Serialize(tail[j], moduli).Ok? {
          assert tail[j] == keys[j + 1];
        }
      }
      assert n - 1 < |tail| ==> tail[n - 1] == keys[n];
      SerializedPrefixStopsAt(tail, moduli, n - 1);
      assert Serialize(keys[0], moduli).Ok?;
      assert SerializedPrefix(keys, moduli) == [Wire(Serialize(keys[0], moduli).value)] + SerializedPrefix(tail, moduli);
      assert Serialized(keys, moduli, n) == [Wire(Serialize(keys[0], moduli).value)] + Serialized(tail, moduli, n - 1);
    }
  }

  lemma {:induction false} DecodeAllExtends(strs: seq<Blob>, i: nat, moduli: seq<int>)
    requires i < |strs|
    requires DecodeAll(strs[..i], moduli).1 == OkStatus
    ensures DecodeKey(strs[i], moduli).Err? ==>
              DecodeAll(strs, moduli) == (DecodeAll(strs[..i], moduli).0, InvalidArgument(DecodeKey(strs[i], moduli).error))
    ensures DecodeKey(strs[i], moduli).Ok? ==>
              DecodeAll(strs[..i + 1], moduli)
                == (DecodeAll(strs[..i], moduli).0 + [DecodeKey(strs[i], moduli).value], OkStatus)
  {
    if i == 0 {
      assert strs[..1][1..] == [] && strs[..1][0] == strs[0] && strs[..0] == [];
      assert DecodeAll([], moduli) == ([], OkStatus);
      if DecodeKey(strs[0], moduli).Ok? {
        var v := DecodeKey(strs[0], moduli).value;
        assert DecodeAll(strs[..1], moduli) == ([v] + DecodeAll(strs[..1][1..], moduli).0, OkStatus);
        assert DecodeAll(strs[..0], moduli).0 + [v] == [v];
        assert [v] + DecodeAll(strs[..1][1..], moduli).0 == [v];
        assert DecodeAll(strs[..i + 1], moduli) == ([v], OkStatus);
      }
    } else {
      assert strs[..i][1..] == strs[1..][..i - 1];
      assert strs[..i + 1][1..] == strs[1..][..i];
      assert strs[1..][i - 1] == strs[i];
      assert strs[..i][0] == strs[0] && strs[..i + 1][0] == strs[0];
      DecodeAllExtends(strs[1..], i - 1, moduli);
      var head := DecodeKey(strs[0], moduli);
      if DecodeKey(strs[i], moduli).Ok? {
        var tail := DecodeAll(strs[1..][..i - 1], moduli).0;
        assert DecodeAll(strs[..i], moduli).0 == [head.value] + tail;
        var v := DecodeKey(strs[i], moduli).value;
        assert DecodeAll(strs[1..][..i], moduli) == (tail + [v], OkStatus);
        assert DecodeAll(strs[..i + 1], moduli) == ([head.value] + (tail + [v]), OkStatus);
        assert [head.value] + (tail + [v]) == ([head.value] + tail) + [v];
      }
    }
  }
}
