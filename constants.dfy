/** World dimensions, streaming radii, block ids and texture-tile indices of the voxel engine. */
module Constants {
  import opened Basics

  const ChunkSize: int := 16
  const ChunkHeight: int := 64
  const WorldHeightMin: int := 0
  const WorldHeightMax: int := ChunkHeight - 1
  const LoadDistanceChunks: int := 12
  const UnloadDistanceChunks: int := 18

  const BlockAir: int := 0
  const BlockGrass: int := 1
  const BlockDirt: int := 2
  const BlockStone: int := 3
  const BlockGrassPlant: int := 4
  const BlockLog: int := 5
  const BlockLeaves: int := 6

  /** The registered block ids, in declaration order. */
  const BlockTypes: seq<int> :=
    [BlockAir, BlockGrass, BlockDirt, BlockStone, BlockGrassPlant, BlockLog, BlockLeaves]

  /** The string-keyed entries of the tile table. */
  const LogSideTile: int := 4
  const LogTopTile: int := 5

  const GrassSideTile: int := 1
  const GrassTopTile: int := 0
  const GrassBottomTile: int := 1

  /** The player's box, eye height and movement tuning (blocks and seconds). */
  const PlayerWidth: real := 0.6
  const PlayerDepth: real := 0.6
  const PlayerHeight: real := 1.8
  const PlayerEyeHeight: real := 1.62
  const PlayerSpeed: real := 36.0
  const PlayerJumpSpeed: real := 9.0
  const PlayerGravity: real := 24.0
  const PlayerDamping: real := 10.0
  const PlayerSprintMultiplier: real := 1.3

  /**
   * The numeric-keyed part of the tile table: the tile of a block id, or `None` where the
   * table has no entry (JavaScript yields `undefined` there).
   */
  function TileIndexOf(id: int): (r: Option<int>)
    ensures r.Some? <==> id in {BlockGrass, BlockDirt, BlockStone, BlockGrassPlant, BlockLeaves}
    ensures r.Some? ==> 0 <= r.value <= 6
  {
    if id == BlockGrass then Some(0)
    else if id == BlockDirt then Some(1)
    else if id == BlockStone then Some(2)
    else if id == BlockGrassPlant then Some(3)
    else if id == BlockLeaves then Some(6)
    else None
  }

  /** Solidity as the mesher and the AO computation see it. */
  predicate IsSolidBlock(t: int) {
    t == BlockGrass || t == BlockDirt || t == BlockStone || t == BlockLog || t == BlockLeaves
  }

  /** The fixed facts the rest of the engine relies on. */
  lemma ConstantsConsistent()
    ensures UnloadDistanceChunks > LoadDistanceChunks
    ensures WorldHeightMax == ChunkHeight - 1
    ensures forall i :: 0 <= i < |BlockTypes| ==> BlockTypes[i] == i
    ensures forall i, j :: 0 <= i < j < |BlockTypes| ==> BlockTypes[i] != BlockTypes[j]
    ensures 0 <= LogSideTile <= 6 && 0 <= LogTopTile <= 6
    ensures 0 <= GrassSideTile <= 6 && 0 <= GrassTopTile <= 6 && 0 <= GrassBottomTile <= 6
  {
  }

  /** `isSolidBlock` holds exactly for grass, dirt, stone, log and leaves. */
  lemma SolidBlockIds(t: int)
    ensures IsSolidBlock(t) <==> t in {1, 2, 3, 5, 6}
  {
  }
}
