/** The arithmetic of the native render noise, on machine words: a 64-bit mixer,
    a scope hash, scale factors near one, and a per-channel canvas perturbation.
    Scale factors are exact reals; rounding to double is not modelled. */
module RenderPrivacy {

  // The five steps of the mixer and what undoes each of them.
  function Spread30(x: bv64): bv64 { x ^ (x >> 30) }
  function Spread27(x: bv64): bv64 { x ^ (x >> 27) }
  function Spread31(x: bv64): bv64 { x ^ (x >> 31) }
  function Stir1(x: bv64): bv64 { x * 0xbf58476d1ce4e5b9 }
  function Stir2(x: bv64): bv64 { x * 0x94d049bb133111eb }
  function Gather30(x: bv64): bv64 { x ^ (x >> 30) ^ (x >> 60) }
  function Gather27(x: bv64): bv64 { x ^ (x >> 27) ^ (x >> 54) }
  function Gather31(x: bv64): bv64 { x ^ (x >> 31) ^ (x >> 62) }
  function Settle1(x: bv64): bv64 { x * 0x96de1b173f119089 }
  function Settle2(x: bv64): bv64 { x * 0x319642b2d24d8ec3 }

  function Mix64(value: bv64): bv64 {
    Spread31(Stir2(Spread27(Stir1(Spread30(value)))))
  }

  function Unmix64(value: bv64): bv64 {
    Gather30(Settle1(Gather27(Settle2(Gather31(value)))))
  }

  lemma ShiftsCancel(x: bv64)
    ensures (x ^ (x >> 30)) ^ ((x ^ (x >> 30)) >> 30) ^ ((x ^ (x >> 30)) >> 60) == x
    ensures (x ^ (x >> 27)) ^ ((x ^ (x >> 27)) >> 27) ^ ((x ^ (x >> 27)) >> 54) == x
    ensures (x ^ (x >> 31)) ^ ((x ^ (x >> 31)) >> 31) ^ ((x ^ (x >> 31)) >> 62) == x
    ensures (x ^ (x >> 30) ^ (x >> 60)) ^ ((x ^ (x >> 30) ^ (x >> 60)) >> 30) == x
    ensures (x ^ (x >> 27) ^ (x >> 54)) ^ ((x ^ (x >> 27) ^ (x >> 54)) >> 27) == x
    ensures (x ^ (x >> 31) ^ (x >> 62)) ^ ((x ^ (x >> 31) ^ (x >> 62)) >> 31) == x
  {
  }

  lemma MultipliersCancel(x: bv64)
    ensures x * 0xbf58476d1ce4e5b9 * 0x96de1b173f119089 == x
    ensures x * 0x96de1b173f119089 * 0xbf58476d1ce4e5b9 == x
    ensures x * 0x94d049bb133111eb * 0x319642b2d24d8ec3 == x
    ensures x * 0x319642b2d24d8ec3 * 0x94d049bb133111eb == x
  {
  }

  lemma Stir1Inverts(x: bv64)
    ensures Settle1(Stir1(x)) == x
    ensures Stir1(Settle1(x)) == x
  {
    calc {
      Settle1(Stir1(x));
      Settle1(x * 0xbf58476d1ce4e5b9);
      x * 0xbf58476d1ce4e5b9 * 0x96de1b173f119089;
      { MultipliersCancel(x); }
      x;
    }
    calc {
      Stir1(Settle1(x));
      Stir1(x * 0x96de1b173f119089);
      x * 0x96de1b173f119089 * 0xbf58476d1ce4e5b9;
      { MultipliersCancel(x); }
      x;
    }
  }

  lemma Stir2Inverts(x: bv64)
    ensures Settle2(Stir2(x)) == x
    ensures Stir2(Settle2(x)) == x
  {
    calc {
      Settle2(Stir2(x));
      Settle2(x * 0x94d049bb133111eb);
      x * 0x94d049bb133111eb * 0x319642b2d24d8ec3;
      { MultipliersCancel(x); }
      x;
    }
    calc {
      Stir2(Settle2(x));
      Stir2(x * 0x319642b2d24d8ec3);
      x * 0x319642b2d24d8ec3 * 0x94d049bb133111eb;
      { MultipliersCancel(x); }
      x;
    }
  }

  lemma Spread30Inverts(x: bv64)
    ensures Gather30(Spread30(x)) == x
    ensures Spread30(Gather30(x)) == x
  {
    calc {
      Gather30(Spread30(x));
      Gather30(x ^ (x >> 30));
      (x ^ (x >> 30)) ^ ((x ^ (x >> 30)) >> 30) ^ ((x ^ (x >> 30)) >> 60);
      { ShiftsCancel(x); }
      x;
    }
    calc {
      Spread30(Gather30(x));
      Spread30(x ^ (x >> 30) ^ (x >> 60));
      (x ^ (x >> 30) ^ (x >> 60)) ^ ((x ^ (x >> 30) ^ (x >> 60)) >> 30);
      { ShiftsCancel(x); }
      x;
    }
  }

  lemma Spread27Inverts(x: bv64)
    ensures Gather27(Spread27(x)) == x
    ensures Spread27(Gather27(x)) == x
  {
    calc {
      Gather27(Spread27(x));
      Gather27(x ^ (x >> 27));
      (x ^ (x >> 27)) ^ ((x ^ (x >> 27)) >> 27) ^ ((x ^ (x >> 27)) >> 54);
      { ShiftsCancel(x); }
      x;
    }
    calc {
      Spread27(Gather27(x));
      Spread27(x ^ (x >> 27) ^ (x >> 54));
      (x ^ (x >> 27) ^ (x >> 54)) ^ ((x ^ (x >> 27) ^ (x >> 54)) >> 27);
      { ShiftsCancel(x); }
      x;
    }
  }

  lemma Spread31Inverts(x: bv64)
    ensures Gather31(Spread31(x)) == x
    ensures Spread31(Gather31(x)) == x
  {
    calc {
      Gather31(Spread31(x));
      Gather31(x ^ (x >> 31));
      (x ^ (x >> 31)) ^ ((x ^ (x >> 31)) >> 31) ^ ((x ^ (x >> 31)) >> 62);
      { ShiftsCancel(x); }
      x;
    }
    calc {
      Spread31(Gather31(x));
      Spread31(x ^ (x >> 31) ^ (x >> 62));
      (x ^ (x >> 31) ^ (x >> 62)) ^ ((x ^ (x >> 31) ^ (x >> 62)) >> 31);
      { ShiftsCancel(x); }
      x;
    }
  }

  /** The mixer loses nothing: distinct 64-bit seeds stay distinct, and every
      64-bit word is reached. */
  lemma Mix64IsBijective(value: bv64)
    ensures Unmix64(Mix64(value)) == value
    ensures Mix64(Unmix64(value)) == value
  {
    calc {
      Unmix64(Mix64(value));
      { Spread31Inverts(Stir2(Spread27(Stir1(Spread30(value))))); }
      Gather30(Settle1(Gather27(Settle2(Stir2(Spread27(Stir1(Spread30(value))))))));
      { Stir2Inverts(Spread27(Stir1(Spread30(value)))); }
      Gather30(Settle1(Gather27(Spread27(Stir1(Spread30(value))))));
      { Spread27Inverts(Stir1(Spread30(value))); }
      Gather30(Settle1(Stir1(Spread30(value))));
      { Stir1Inverts(Spread30(value)); Spread30Inverts(value); }
      value;
    }
    calc {
      Mix64(Unmix64(value));
      { Spread30Inverts(Settle1(Gather27(Settle2(Gather31(value))))); }
      Spread31(Stir2(Spread27(Stir1(Settle1(Gather27(Settle2(Gather31(value))))))));
      { Stir1Inverts(Gather27(Settle2(Gather31(value)))); }
      Spread31(Stir2(Spread27(Gather27(Settle2(Gather31(value))))));
      { Spread27Inverts(Settle2(Gather31(value))); }
      Spread31(Stir2(Settle2(Gather31(value))));
      { Stir2Inverts(Gather31(value)); Spread31Inverts(value); }
      value;
    }
  }

  function LowWord(value: bv64): bv32 {
    (value & 0xffff_ffff) as bv32
  }

  function FoldedHalf(half: bv64): bv32 {
    LowWord(Mix64(half)) ^ LowWord(Mix64(half) >> 32)
  }

  function High(seed: bv64): bv64 {
    seed >> 32
  }

  /** The low half of a seed under a key drawn from its high half. */
  function FoldWith(key: bv64 -> bv32, seed: bv64): bv32 {
    LowWord(seed) ^ key(High(seed))
  }

  function FoldCanvasSeed(seed: bv64): bv32 {
    FoldWith(FoldedHalf, seed)
  }

  lemma HalvesDetermineWord(a: bv64, b: bv64)
    requires High(a) == High(b) && LowWord(a) == LowWord(b)
    ensures a == b
  {
  }

  lemma FoldWithDeterminesLowWord(key: bv64 -> bv32, a: bv64, b: bv64)
    requires High(a) == High(b) && FoldWith(key, a) == FoldWith(key, b)
    ensures LowWord(a) == LowWord(b)
  {
  }

  /** Two seeds with the same high half fold to the same key only when they are equal. */
  lemma FoldSeparatesSeedsSharingHighHalf(a: bv64, b: bv64)
    requires High(a) == High(b)
    ensures FoldCanvasSeed(a) == FoldCanvasSeed(b) <==> a == b
  {
    if FoldCanvasSeed(a) == FoldCanvasSeed(b) {
      FoldWithDeterminesLowWord(FoldedHalf, a, b);
      HalvesDetermineWord(a, b);
    }
  }

  // ----- Scope hash -----

  function Widen(hash: bv64): bv64 { hash * 1099511628211 }
  function Narrow(hash: bv64): bv64 { hash * 0xce965057aff6957b }

  function HashStep(hash: bv64, character: bv8): bv64 {
    Widen(hash ^ (character as bv64))
  }

  function HashFrom(hash: bv64, scope: seq<bv8>): bv64
    decreases |scope|
  {
    if scope == [] then hash else HashFrom(HashStep(hash, scope[0]), scope[1..])
  }

  const HASH_START: bv64 := 1469598103934665603

  method ScopeHash(scope: seq<bv8>) returns (hash: bv64)
    ensures hash == HashFrom(HASH_START, scope)
  {
    hash := HASH_START;
    for i := 0 to |scope|
      invariant HashFrom(hash, scope[i..]) == HashFrom(HASH_START, scope)
    {
      hash := HashStep(hash, scope[i]);
    }
  }

  lemma WidenInverts(x: bv64)
    ensures Narrow(Widen(x)) == x
  {
    calc {
      Narrow(Widen(x));
      Narrow(x * 1099511628211);
      x * 1099511628211 * 0xce965057aff6957b;
      { PrimeCancels(x); }
      x;
    }
  }

  lemma PrimeCancels(x: bv64)
    ensures x * 1099511628211 * 0xce965057aff6957b == x
  {
  }

  lemma XorSeparatesStates(h: bv64, k: bv64, c: bv8)
    requires h != k
    ensures h ^ (c as bv64) != k ^ (c as bv64)
  {
  }

  lemma XorSeparatesCharacters(h: bv64, c: bv8, d: bv8)
    requires c != d
    ensures h ^ (c as bv64) != h ^ (d as bv64)
  {
  }

  lemma WidenSeparates(x: bv64, y: bv64)
    requires x != y
    ensures Widen(x) != Widen(y)
  {
    WidenInverts(x);
    WidenInverts(y);
  }

  lemma HashStepSeparatesStates(h: bv64, k: bv64, c: bv8)
    requires h != k
    ensures HashStep(h, c) != HashStep(k, c)
  {
    XorSeparatesStates(h, k, c);
    WidenSeparates(h ^ (c as bv64), k ^ (c as bv64));
  }

  lemma HashStepSeparatesCharacters(h: bv64, c: bv8, d: bv8)
    requires c != d
    ensures HashStep(h, c) != HashStep(h, d)
  {
    XorSeparatesCharacters(h, c, d);
    WidenSeparates(h ^ (c as bv64), h ^ (d as bv64));
  }

  lemma {:induction false} HashKeepsStatesApart(h: bv64, k: bv64, rest: seq<bv8>)
    requires h != k
    ensures HashFrom(h, rest) != HashFrom(k, rest)
    decreases |rest|
  {
    if rest != [] {
      HashStepSeparatesStates(h, k, rest[0]);
      HashKeepsStatesApart(HashStep(h, rest[0]), HashStep(k, rest[0]), rest[1..]);
    }
  }

  /** Scopes that differ in exactly one character never share a hash. */
  lemma {:induction false} ScopesDifferingOnceNeverCollide(hash: bv64, before: seq<bv8>, c: bv8, d: bv8, after: seq<bv8>)
    requires c != d
    ensures HashFrom(hash, before + [c] + after) != HashFrom(hash, before + [d] + after)
    decreases |before|
  {
    var left, right := before + [c] + after, before + [d] + after;
    if before == [] {
      assert left[1..] == after && right[1..] == after;
      HashStepSeparatesCharacters(hash, c, d);
      HashKeepsStatesApart(HashStep(hash, c), HashStep(hash, d), after);
    } else {
      assert left[1..] == before[1..] + [c] + after;
      assert right[1..] == before[1..] + [d] + after;
      ScopesDifferingOnceNeverCollide(HashStep(hash, before[0]), before[1..], c, d, after);
    }
  }

  // ----- Scale factors -----

  /** A machine word read as a fraction of its largest value, centred on zero. */
  function Centred(numerator: nat, top: nat): (r: real)
    requires numerator <= top && 0 < top
    ensures -0.5 <= r <= 0.5
  {
    FractionBound(numerator as real, top as real);
    numerator as real / top as real - 0.5
  }

  lemma FractionBound(numerator: real, top: real)
    requires 0.0 <= numerator <= top && 0.0 < top
    ensures 0.0 <= numerator / top <= 1.0
  {
  }

  function Sixteen(word: bv64): bv16 {
    (word & 0xffff) as bv16
  }

  function FontScaleOf(word: bv64): (factor: real)
    ensures Within(factor, 0.003)
  {
    1.0 + Centred(Sixteen(word) as int, 65535) * 0.006
  }

  function RectFactorOf(word: bv64): (factor: real)
    ensures Within(factor, 0.0000015)
  {
    1.0 + Centred(LowWord(word) as int, 4294967295) * 0.000003
  }

  function ShaderScaleOf(word: bv64): (factor: real)
    ensures Within(factor, 0.006)
  {
    1.0 + Centred(Sixteen(word) as int, 65535) * 0.012
  }

  function FontScale(seed: bv64): real {
    if seed == 0 then 1.0 else FontScaleOf(Mix64(seed))
  }

  function RectFactor(seed: bv64, scope: seq<bv8>, salt: bv64): real {
    if seed == 0 then 1.0 else RectFactorOf(Mix64(seed ^ HashFrom(HASH_START, scope) ^ salt))
  }

  function ChannelSalt(channel: bv32): bv64 {
    ((channel + 1) as bv64) * 0x9e3779b97f4a7c15
  }

  function ShaderChannelScale(seed: bv64, channel: bv32): real {
    if seed == 0 then 1.0 else ShaderScaleOf(Mix64(seed ^ ChannelSalt(channel)))
  }

  predicate Within(factor: real, bound: real) {
    1.0 - bound <= factor <= 1.0 + bound
  }

  /** Every factor stays near one: 0.3% for fonts, 0.00015% for rectangles, 0.6% for
      shaders; and without a seed nothing is scaled at all. */
  lemma FactorsStayNearOne(seed: bv64, scope: seq<bv8>, salt: bv64, channel: bv32)
    ensures Within(FontScale(seed), if seed == 0 then 0.0 else 0.003)
    ensures Within(RectFactor(seed, scope, salt), if seed == 0 then 0.0 else 0.0000015)
    ensures Within(ShaderChannelScale(seed, channel), if seed == 0 then 0.0 else 0.006)
  {
  }

  lemma FractionsGrow(a: nat, b: nat, top: nat)
    requires a < b <= top
    ensures Centred(a, top) < Centred(b, top)
  {
    QuotientsGrow(a as real, b as real, top as real);
  }

  lemma QuotientsGrow(a: real, b: real, top: real)
    requires a < b && 0.0 < top
    ensures a / top < b / top
  {
    assert b / top - a / top == (b - a) / top;
  }

  lemma ReadBits()
    ensures Sixteen(0) as int == 0 && Sixteen(0xffff) as int == 65535
    ensures LowWord(0) as int == 0 && LowWord(0xffff_ffff) as int == 4294967295
  {
  }

  lemma CentredEnds(top: nat)
    requires 0 < top
    ensures Centred(0, top) == -0.5 && Centred(top, top) == 0.5
  {
  }

  /** Each factor goes from one end of its range to the other. */
  lemma FactorsSpanTheirRange()
    ensures FontScaleOf(0) == 0.997 && FontScaleOf(0xffff) == 1.003
    ensures ShaderScaleOf(0) == 0.994 && ShaderScaleOf(0xffff) == 1.006
    ensures RectFactorOf(0) == 0.9999985 && RectFactorOf(0xffff_ffff) == 1.0000015
  {
    ReadBits();
    CentredEnds(65535);
    CentredEnds(4294967295);
  }

  /** And it grows with the bits of the mixed word that it reads: no two values of these bits give
      the same factor. */
  lemma FactorsTellWordsApart(a: bv64, b: bv64)
    ensures Sixteen(a) as int < Sixteen(b) as int ==> FontScaleOf(a) < FontScaleOf(b) && ShaderScaleOf(a) < ShaderScaleOf(b)
  {
    if Sixteen(a) as int < Sixteen(b) as int {
      FractionsGrow(Sixteen(a) as int, Sixteen(b) as int, 65535);
    }
  }

  lemma RectFactorsTellWordsApart(a: bv64, b: bv64)
    ensures LowWord(a) as int < LowWord(b) as int ==> RectFactorOf(a) < RectFactorOf(b)
  {
    if LowWord(a) as int < LowWord(b) as int {
      FractionsGrow(LowWord(a) as int, LowWord(b) as int, 4294967295);
    }
  }

  // ----- Canvas channel -----

  function Scramble(hash: bv32): bv32 {
    var a := (hash ^ (hash >> 16)) * 0x85ebca6b;
    var b := (a ^ (a >> 13)) * 0xc2b2ae35;
    b ^ (b >> 16)
  }

  function Bin(value: bv8): bv32 {
    (value & 0xfe) as bv32
  }

  function ChannelHash(seed: bv64, x: bv32, y: bv32, channel: bv32, bin: bv32): bv32 {
    Scramble(FoldCanvasSeed(seed) ^ (x * 374761393) ^ (y * 668265263) ^ (channel * 0x9e3779b9) ^ (bin * 2654435761))
  }

  /** One of the two levels of a bin, chosen by the low bit of the hash. */
  function LevelIn(bin: bv32, hash: bv32): bv8 {
    ((bin | (hash & 1)) & 0xff) as bv8
  }

  /** The perturbation for a given choice of hash per bin. */
  function Perturb(hash: bv32 -> bv32, value: bv8): bv8 {
    if value == 0 || value == 255 then value else LevelIn(Bin(value), hash(Bin(value)))
  }

  function CanvasChannel(seed: bv64, x: bv32, y: bv32, channel: bv32, value: bv8): bv8 {
    if seed == 0 then value else Perturb(bin => ChannelHash(seed, x, y, channel, bin), value)
  }

  /** At most one level away from the input, end points fixed. */
  predicate Gentle(value: bv8, once: bv8) {
    && -1 <= (once as int) - (value as int) <= 1
    && (value == 0 || value == 255 ==> once == value)
  }

  lemma PerturbSettles(hash: bv32 -> bv32, value: bv8)
    ensures Gentle(value, Perturb(hash, value))
    ensures Perturb(hash, Perturb(hash, value)) == Perturb(hash, value)
    ensures 2 <= value <= 253 ==> Perturb(hash, value) == Perturb(hash, value ^ 1)
  {
  }

  /** One application moves a level by at most one and fixes both end points; a second
      application at the same place changes nothing; and the two levels of an interior
      bin come out alike, so the page's low bit does not survive. */
  lemma CanvasChannelSettles(seed: bv64, x: bv32, y: bv32, channel: bv32, value: bv8)
    ensures Gentle(value, CanvasChannel(seed, x, y, channel, value))
    ensures CanvasChannel(seed, x, y, channel, CanvasChannel(seed, x, y, channel, value))
         == CanvasChannel(seed, x, y, channel, value)
    ensures seed != 0 && 2 <= value <= 253 ==>
              CanvasChannel(seed, x, y, channel, value) == CanvasChannel(seed, x, y, channel, value ^ 1)
  {
    if seed != 0 {
      var hash := bin => ChannelHash(seed, x, y, channel, bin);
      PerturbSettles(hash, value);
    }
  }
}
