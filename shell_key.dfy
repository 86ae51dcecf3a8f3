/** Secret keys and level-indexed rotation keys of the Python front end
    (ShellKey64, ShellRotationKey64 and the functions building them).

    The HE primitives are opaque: each is a constructor of a symbolic term
    that records only the arguments it was applied to, so that the model
    can say which context and key every stored rotation key came from. */
module ShellKey {
  import opened Outcome

  /** The raw context handle, known only by how it was derived. */
  datatype RawContext = RawContext(id: int) | ModReducedRawContext(parent: RawContext)

  /** The fields of a ShellContext64 that this file reads. */
  datatype ShellContext64 = ShellContext64(raw: RawContext, level: int, mulDepthSupported: int)

  /** key_gen64 and modulus_reduce_key64, as symbolic terms. */
  datatype RawKey = KeyGen64(ctx: RawContext) | ModulusReduceKey64(parent: RawKey)

  datatype ShellKey64 = ShellKey64(rawKey: RawKey, level: int)

  /** rotation_key_gen64, as a symbolic term. */
  datatype RawRotationKey = RotationKeyGen64(ctx: RawContext, key: RawKey)

  datatype ShellRotationKey64 =
    ShellRotationKey64(rawRotKeysAtLevel: map<int, RawRotationKey>, context: ShellContext64)

  /** The ValueErrors raised by this file (the isinstance checks are
      discharged by the types). */
  datatype KeyError = LevelMismatch | NoRotationKeyAtLevel(level: int)

  /** mod_reduce_context64 is defined outside this file. Its body here is
      the one assumption the model makes about it: the reduced context is
      one level lower and supports one less multiplication. */
  function ModReduceContext64(c: ShellContext64): (r: ShellContext64)
    ensures r.level == c.level - 1
    ensures r.mulDepthSupported == c.mulDepthSupported - 1
  {
    ShellContext64(ModReducedRawContext(c.raw), c.level - 1, c.mulDepthSupported - 1)
  }

  /** create_key64: a fresh secret key, valid at the context's level. */
  function CreateKey64(context: ShellContext64): (k: ShellKey64)
    ensures k.level == context.level
    ensures k.rawKey == KeyGen64(context.raw)
  {
    ShellKey64(KeyGen64(context.raw), context.level)
  }

  /** mod_reduce_key64: the key one level further down the modulus chain. */
  function ModReduceKey64(key: ShellKey64): (r: ShellKey64)
    ensures r.level == key.level - 1
    ensures r.rawKey == ModulusReduceKey64(key.rawKey)
  {
    ShellKey64(ModulusReduceKey64(key.rawKey), key.level - 1)
  }

  /** ShellRotationKey64._get_key_at_level: the stored entry, or the
      ValueError for a level without one. */
  function GetKeyAtLevel(rk: ShellRotationKey64, level: int): (r: Result<RawRotationKey, KeyError>)
    ensures r.Ok? <==> level in rk.rawRotKeysAtLevel
    ensures r.Ok? ==> r.value == rk.rawRotKeysAtLevel[level]
    ensures r.Err? ==> r.error == NoRotationKeyAtLevel(level)
  {
    if level !in rk.rawRotKeysAtLevel then Err(NoRotationKeyAtLevel(level))
    else Ok(rk.rawRotKeysAtLevel[level])
  }

  /** The context after n calls of mod_reduce_context64. */
  function ReducedContext(c: ShellContext64, n: nat): (r: ShellContext64)
    ensures r.level == c.level - n
    ensures r.mulDepthSupported == c.mulDepthSupported - n
  {
    if n == 0 then c else ModReduceContext64(ReducedContext(c, n - 1))
  }

  /** The key after n calls of mod_reduce_key64. */
  function ReducedKey(k: ShellKey64, n: nat): (r: ShellKey64)
    ensures r.level == k.level - n
  {
    if n == 0 then k else ModReduceKey64(ReducedKey(k, n - 1))
  }

  function Min(a: int, b: int): int { if a <= b then a else b }

  /** How many times the body of the loop in create_rotation_key64 runs:
      none when the context supports no multiplication at all, otherwise
      down to multiplicative depth 0 or to level 1, whichever comes first
      (a context below level 1 never meets the level test). */
  function Iterations(c: ShellContext64): nat
  {
    if c.mulDepthSupported < 0 then 0
    else if c.level >= 1 then Min(c.mulDepthSupported, c.level - 1) + 1
    else c.mulDepthSupported + 1
  }

  /** How many reductions the loop performs: one fewer than its iterations. */
  function Reductions(c: ShellContext64): nat
  {
    if Iterations(c) == 0 then 0 else Iterations(c) - 1
  }

  /** The levels visited by the first n iterations form the interval
      (c.level - n, c.level]; an iteration stores a key under its level
      unless its multiplicative depth is skipped. */
  function RotationKeysAtLevels(c: ShellContext64, k: ShellKey64, skip: seq<int>, n: nat)
    : map<int, RawRotationKey>
  {
    map l | c.level - n < l <= c.level && DepthAtLevel(c, l) !in skip
      :: RotationKeyGen64(ReducedContext(c, c.level - l).raw, ReducedKey(k, c.level - l).rawKey)
  }

  /** The multiplicative depth the loop sees when it reaches level l. */
  function DepthAtLevel(c: ShellContext64, l: int): int
  {
    c.mulDepthSupported - (c.level - l)
  }

  /** One more iteration adds at most the entry for the level it visits. */
  lemma RotationKeysStep(c: ShellContext64, k: ShellKey64, skip: seq<int>, n: nat)
    ensures var l := c.level - n;
            var m := RotationKeysAtLevels(c, k, skip, n);
            l !in m
            && RotationKeysAtLevels(c, k, skip, n + 1)
               == if DepthAtLevel(c, l) in skip then m
                  else m[l := RotationKeyGen64(ReducedContext(c, n).raw, ReducedKey(k, n).rawKey)]
  {
    var l := c.level - n;
    var m := RotationKeysAtLevels(c, k, skip, n);
    var m' := RotationKeysAtLevels(c, k, skip, n + 1);
    if DepthAtLevel(c, l) in skip {
      assert m'.Keys == m.Keys;
    } else {
      assert m'.Keys == m.Keys + {l};
    }
  }

  predicate StrictlyDecreasing(s: seq<int>)
  {
    forall i, j :: 0 <= i < j < |s| ==> s[i] > s[j]
  }

  /** Every element of s lies above x. */
  predicate AllAbove(s: seq<int>, x: int)
  {
    forall j :: 0 <= j < |s| ==> s[j] > x
  }

  /** The map's levels are the elements of written. */
  ghost predicate SameLevels(m: map<int, RawRotationKey>, written: seq<int>)
  {
    forall l :: l in m <==> l in written
  }

  /** Writing at a level below every earlier write stores it fresh and keeps
      the writes strictly decreasing. */
  lemma WriteBelow(m: map<int, RawRotationKey>, written: seq<int>, level: int, v: RawRotationKey)
    requires StrictlyDecreasing(written) && AllAbove(written, level) && SameLevels(m, written)
    ensures level !in m
    ensures StrictlyDecreasing(written + [level])
    ensures SameLevels(m[level := v], written + [level])
    ensures AllAbove(written + [level], level - 1)
  {
  }

  /** The map after the first n iterations, built one iteration at a time. */
  function KeysAfter(c: ShellContext64, k: ShellKey64, skip: seq<int>, n: nat): map<int, RawRotationKey>
  {
    if n == 0 then map[]
    else
      var prev := KeysAfter(c, k, skip, n - 1);
      var ctx := ReducedContext(c, n - 1);
      if ctx.mulDepthSupported in skip then prev
      else prev[ctx.level := RotationKeyGen64(ctx.raw, ReducedKey(k, n - 1).rawKey)]
  }

  /** Building the map one iteration at a time gives the interval map. */
  lemma {:induction false} KeysAfterIsInterval(c: ShellContext64, k: ShellKey64, skip: seq<int>, n: nat)
    ensures KeysAfter(c, k, skip, n) == RotationKeysAtLevels(c, k, skip, n)
  {
    if n > 0 {
      var j: nat := n - 1;
      KeysAfterIsInterval(c, k, skip, j);
      RotationKeysStep(c, k, skip, j);
      var ctx := ReducedContext(c, j);
      assert ctx.level == c.level - j;
      assert DepthAtLevel(c, c.level - j) == ctx.mulDepthSupported;
      assert KeysAfter(c, k, skip, n)
             == if ctx.mulDepthSupported in skip then KeysAfter(c, k, skip, j)
                else KeysAfter(c, k, skip, j)[ctx.level := RotationKeyGen64(ctx.raw, ReducedKey(k, j).rawKey)];
    }
  }

  /** The levels written by the first n iterations, in the order written. */
  function WrittenAfter(c: ShellContext64, skip: seq<int>, n: nat): seq<int>
  {
    if n == 0 then []
    else
      var prev := WrittenAfter(c, skip, n - 1);
      var ctx := ReducedContext(c, n - 1);
      if ctx.mulDepthSupported in skip then prev else prev + [ctx.level]
  }

  /** Lowering the level keeps every earlier write above it. */
  lemma LowerBound(written: seq<int>, level: int)
    requires AllAbove(written, level)
    ensures AllAbove(written, level - 1)
  {
  }

  /** The first n iterations write each level at most once, in strictly
      decreasing order, every one above the level they stop at, and the
      written levels are exactly the map's. */
  lemma {:induction false} WrittenAfterIsDecreasing(c: ShellContext64, k: ShellKey64, skip: seq<int>, n: nat)
    ensures StrictlyDecreasing(WrittenAfter(c, skip, n))
    ensures AllAbove(WrittenAfter(c, skip, n), c.level - n)
    ensures SameLevels(KeysAfter(c, k, skip, n), WrittenAfter(c, skip, n))
  {
    if n > 0 {
      WrittenAfterIsDecreasing(c, k, skip, n - 1);
      var ctx := ReducedContext(c, n - 1);
      var prev := WrittenAfter(c, skip, n - 1);
      if ctx.mulDepthSupported in skip {
        LowerBound(prev, ctx.level);
      } else {
        WriteBelow(KeysAfter(c, k, skip, n - 1), prev, ctx.level,
                   RotationKeyGen64(ctx.raw, ReducedKey(k, n - 1).rawKey));
      }
    }
  }

  /** create_rotation_key64. The ghost result lists the levels written, in
      the order they were written. */
  method CreateRotationKey64(context: ShellContext64, key: ShellKey64, skipAtMulDepth: seq<int>)
    returns (r: Result<ShellRotationKey64, KeyError>, ghost written: seq<int>)
    ensures context.level != key.level ==> r == Err(LevelMismatch)
    ensures context.level == key.level ==>
      r == Ok(ShellRotationKey64(
                RotationKeysAtLevels(context, key, skipAtMulDepth, Iterations(context)),
                ReducedContext(context, Reductions(context))))
    ensures StrictlyDecreasing(written)
    ensures r.Ok? ==> forall l :: l in r.value.rawRotKeysAtLevel <==> l in written
  {
    written := [];
    if context.level != key.level {
      return Err(LevelMismatch), written;
    }
    ghost var c0, k0 := context, key;
    ghost var n: nat := 0;
    var ctx, k := context, key;
    var rawRotKeysAtLevel: map<int, RawRotationKey> := map[];
    while ctx.mulDepthSupported >= 0
      invariant n < Iterations(c0) || (n == 0 && Iterations(c0) == 0)
      invariant ctx == ReducedContext(c0, n) && k == ReducedKey(k0, n)
      invariant rawRotKeysAtLevel == KeysAfter(c0, k0, skipAtMulDepth, n)
      invariant written == WrittenAfter(c0, skipAtMulDepth, n)
      decreases ctx.mulDepthSupported
    {
      if ctx.mulDepthSupported !in skipAtMulDepth {
        rawRotKeysAtLevel := rawRotKeysAtLevel[ctx.level := RotationKeyGen64(ctx.raw, k.rawKey)];
        written := written + [ctx.level];
      }
      if ctx.mulDepthSupported == 0 || ctx.level == 1 {
        assert n == Reductions(c0);
        KeysAfterIsInterval(c0, k0, skipAtMulDepth, n + 1);
        WrittenAfterIsDecreasing(c0, k0, skipAtMulDepth, n + 1);
        return Ok(ShellRotationKey64(rawRotKeysAtLevel, ctx)), written;
      }
      ctx := ModReduceContext64(ctx);
      k := ModReduceKey64(k);
      n := n + 1;
    }
    KeysAfterIsInterval(c0, k0, skipAtMulDepth, 0);
    return Ok(ShellRotationKey64(rawRotKeysAtLevel, ctx)), written;
  }

  /** Looking up a level in the result of create_rotation_key64 succeeds
      exactly at the visited levels whose multiplicative depth was not
      skipped (skipping is by depth, storage by level); the entry found was
      generated from a context and a key that were both at that level. */
  lemma RotationKeyLookup(c: ShellContext64, k: ShellKey64, skip: seq<int>, l: int)
    requires c.level == k.level
    ensures var rk := ShellRotationKey64(RotationKeysAtLevels(c, k, skip, Iterations(c)),
                                         ReducedContext(c, Reductions(c)));
            var r := GetKeyAtLevel(rk, l);
            (r.Ok? <==> c.level - Iterations(c) < l <= c.level
                        && DepthAtLevel(c, l) !in skip)
            && (r.Ok? ==>
                  var ctx := ReducedContext(c, c.level - l);
                  var key := ReducedKey(k, c.level - l);
                  ctx.level == l && key.level == l
                  && ctx.mulDepthSupported !in skip
                  && r.value == RotationKeyGen64(ctx.raw, key.rawKey))
  {
  }

  /** The loop never reduces a context below level 1 or below depth 0, and
      when it ran at all, the context it returns is the one at which it
      stopped: depth 0 or level 1. Every stored level lies between the
      returned context's level and the caller's. */
  lemma LoopStopsAtDepthZeroOrLevelOne(c: ShellContext64, k: ShellKey64, skip: seq<int>)
    ensures var last := ReducedContext(c, Reductions(c));
            (c.level >= 1 ==> last.level >= 1)
            && (c.mulDepthSupported >= 0 ==> last.mulDepthSupported >= 0)
            && (Iterations(c) > 0 ==> last.mulDepthSupported == 0 || last.level == 1)
            && (Iterations(c) == 0 ==> last == c && RotationKeysAtLevels(c, k, skip, 0) == map[])
            && (forall l :: l in RotationKeysAtLevels(c, k, skip, Iterations(c))
                  ==> last.level <= l <= c.level)
  {
  }
}
