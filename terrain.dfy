// Terrain generation: the column height, the block layering of a column, and the two 32-bit
// mixers that turn the world seed string into a pseudo-random stream.

module Terrain {
  import opened Constants

  /**
   * Everything terrain generation takes from outside the model.  `noise2d` is the seeded
   * simplex noise; the other fields are the values the engine draws from `Math.random()` and
   * `Math.sin`, keyed by the place they are drawn for.
   */
  datatype TerrainSource = TerrainSource(
    noise2d: (real, real) -> real,
    /** the draw for the cell just above a column's surface */
    plantDraw: (int, int) -> real,
    /** `Math.sin(cx * 12.9898 + cz * 78.233)` for the chunk (cx, cz) */
    treeSine: (int, int) -> real,
    /** the draw deciding the trunk height of the tree whose base is at (x, y, z) */
    trunkDraw: (int, int, int) -> real,
    /** the draw deciding the canopy radius of the tree whose base is at (x, y, z) */
    canopyDraw: (int, int, int) -> real)
  {
    /** Every `Math.random()` value lies in [0, 1). */
    ghost predicate Draws() {
      (forall x, z :: 0.0 <= plantDraw(x, z) < 1.0)
      && (forall x, y, z :: 0.0 <= trunkDraw(x, y, z) < 1.0)
      && (forall x, y, z :: 0.0 <= canopyDraw(x, y, z) < 1.0)
    }
  }

  /** `getHeightAt` before the clamp: two noise octaves around a base of 24 with amplitude 18. */
  function RawHeight(src: TerrainSource, x: int, z: int): int {
    var n := src.noise2d(x as real * (1.0 / 64.0), z as real * (1.0 / 64.0)) * 0.7
           + src.noise2d(x as real * (1.0 / 24.0), z as real * (1.0 / 24.0)) * 0.3;
    (24.0 + n * 18.0).Floor
  }

  /** `getHeightAt`: the surface height of column (x, z), raised to 4 and capped below the chunk top. */
  function GetHeightAt(src: TerrainSource, x: int, z: int): (h: int)
    ensures 4 <= h <= ChunkHeight - 1
    ensures 4 <= RawHeight(src, x, z) <= ChunkHeight - 1 ==> h == RawHeight(src, x, z)
    ensures RawHeight(src, x, z) < 4 ==> h == 4
    ensures RawHeight(src, x, z) >= ChunkHeight ==> h == ChunkHeight - 1
  {
    var height := RawHeight(src, x, z);
    var height' := if height < 4 then 4 else height;
    if height' >= ChunkHeight then ChunkHeight - 1 else height'
  }

  /** `getBlockAt`: the block at height y of a column whose surface is at `h`. */
  function GetBlockAt(src: TerrainSource, x: int, y: int, z: int, h: int): int {
    if y > h then
      (if y == h + 1 && src.plantDraw(x, z) < 0.03 then BlockGrassPlant else BlockAir)
    else if y == h then BlockGrass
    else if y >= h - 6 then BlockDirt
    else BlockStone
  }

  /**
   * A column is grass at its surface, dirt for the six cells below, stone further down, and
   * air above, except that the cell right above the surface may hold a grass plant.
   */
  lemma ColumnLayers(src: TerrainSource, x: int, y: int, z: int, h: int)
    ensures GetBlockAt(src, x, y, z, h) == BlockGrass <==> y == h
    ensures GetBlockAt(src, x, y, z, h) == BlockDirt <==> h - 6 <= y < h
    ensures GetBlockAt(src, x, y, z, h) == BlockStone <==> y < h - 6
    ensures GetBlockAt(src, x, y, z, h) == BlockGrassPlant ==> y == h + 1
    ensures y > h + 1 ==> GetBlockAt(src, x, y, z, h) == BlockAir
    ensures IsSolidBlock(GetBlockAt(src, x, y, z, h)) <==> y <= h
    ensures GetBlockAt(src, x, y, z, h) in {BlockAir, BlockGrass, BlockDirt, BlockStone, BlockGrassPlant}
  {
  }

  // ---------------------------------------------------------------------------------------
  // hashStringToInt

  /** `Math.imul(h ^ c, 3432918353)` followed by a left rotation by 13 bits. */
  function HashStep(h: bv32, c: bv16): bv32 {
    var m := (h ^ (c as bv32)) * 3432918353;
    (m << 13) | (m >> 19)
  }

  /** The starting value: 1779033703 xor the length (as a 32-bit integer). */
  function HashStart(len: nat): bv32 {
    1779033703 ^ ((len % 0x1_0000_0000) as bv32)
  }

  /** The hash state after the first `i` UTF-16 code units of `s`. */
  function HashPrefix(s: seq<bv16>, i: nat): bv32
    requires i <= |s|
    decreases i
  {
    if i == 0 then HashStart(|s|) else HashStep(HashPrefix(s, i - 1), s[i - 1])
  }

  /**
   * `hashStringToInt`: fold every code unit of the string into the state, then read the state
   * as an unsigned 32-bit integer.
   */
  method HashStringToInt(s: seq<bv16>) returns (r: int)
    ensures r == HashPrefix(s, |s|) as int
    ensures 0 <= r < 0x1_0000_0000
  {
    var h := HashStart(|s|);
    var i := 0;
    while i < |s|
      invariant 0 <= i <= |s|
      invariant h == HashPrefix(s, i)
    {
      h := HashStep(h, s[i]);
      i := i + 1;
    }
    r := h as int;
  }

  /** Strings of one length that agree on their first `i` units have the same state after them. */
  lemma {:induction false} PrefixesAgree(s: seq<bv16>, t: seq<bv16>, i: nat, k: nat)
    requires |s| == |t| && i <= k <= |s|
    requires forall j :: 0 <= j < k ==> s[j] == t[j]
    ensures HashPrefix(s, i) == HashPrefix(t, i)
  {
    if i > 0 {
      PrefixesAgree(s, t, i - 1, k);
    }
  }

  /** The world's seed string, "seed", as UTF-16 code units. */
  const WorldSeed: seq<bv16> := [0x73, 0x65, 0x65, 0x64]

  /** The world seed hashes to 1693061719, the initial state of the world's stream. */
  lemma WorldSeedHash()
    ensures HashPrefix(WorldSeed, |WorldSeed|) as int == 1693061719
  {
    SeedPrefix4();
  }

  // The states after the first one, two, three and four code units of "seed".
  lemma SeedPrefix1() ensures HashPrefix(WorldSeed, 1) == 0x5362010e {
    assert HashPrefix(WorldSeed, 0) == HashStart(4) == 0x6a09e663;
    assert HashStep(0x6a09e663, 0x73) == 0x5362010e;
  }
  lemma SeedPrefix2() ensures HashPrefix(WorldSeed, 2) == 0x883b7809 { SeedPrefix1(); }
  lemma SeedPrefix3() ensures HashPrefix(WorldSeed, 3) == 0x82c59e34 { SeedPrefix2(); }
  lemma SeedPrefix4() ensures HashPrefix(WorldSeed, 4) == 0x64ea1257 { SeedPrefix3(); }

  // ---------------------------------------------------------------------------------------
  // mulberry32

  /** mulberry32's output mixing of the 32-bit state `t`. */
  function MulberryMix(t0: bv32): bv32 {
    var t1 := (t0 ^ (t0 >> 15)) * (t0 | 1);
    var t2 := t1 ^ (t1 + (t1 ^ (t1 >> 7)) * (t1 | 61));
    t2 ^ (t2 >> 14)
  }

  /** The low 32 bits of the (non-negative or negative) integer `a`, as the bit operators read it. */
  function ToBits(a: int): bv32 {
    (a % 0x1_0000_0000) as bv32
  }

  /** The value drawn when the state has become `a`: the mixed bits as a fraction in [0, 1). */
  function MulberryOutput(a: int): (r: real)
    ensures 0.0 <= r < 1.0
  {
    BitsFraction(MulberryMix(ToBits(a)))
  }

  function BitsFraction(b: bv32): (r: real)
    ensures 0.0 <= r < 1.0
  {
    b as int as real / 4294967296.0
  }

  /**
   * The closure `mulberry32(a)` returns: it keeps `a` (a JavaScript number that is only reduced
   * to 32 bits where the bit operators read it) and adds 0x6d2b79f5 to it on every call.
   */
  class Mulberry32 {
    var a: int

    constructor (seed: int)
      ensures a == seed
    {
      a := seed;
    }

    method Next() returns (r: real)
      modifies this
      ensures a == old(a) + 0x6d2b79f5
      ensures r == MulberryOutput(a)
      ensures 0.0 <= r < 1.0
    {
      a := a + 0x6d2b79f5;
      r := BitsFraction(MulberryMix(ToBits(a)));
    }
  }
}
