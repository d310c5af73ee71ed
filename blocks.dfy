/**
 * The block registry: per block id, whether it is solid, how it is rendered and which atlas
 * tile each face shows.  The registry's entries for the dark log and dark leaves are keyed by
 * imports that the constants table never defines; in JavaScript both collapse onto the key
 * "undefined", which no integer block id reaches, so only ids 0..6 are registered here.
 */
module Blocks {
  import opened Basics
  import opened Constants

  datatype RenderKind = Cube | Cross | CutoutCube

  /** The `faceTile` closure of a registry entry, as data. */
  datatype TileRule =
    | Fixed(tile: int)   // the same tile on every face
    | GrassRule          // top / bottom / side tiles by the normal's y component
    | LogRule            // end-grain tile on faces with a vertical normal

  datatype Entry = Entry(solid: bool, kind: RenderKind, faceTile: TileRule)

  /** The registry lookup; `None` for an unregistered id. */
  function Registry(t: int): (e: Option<Entry>)
    ensures e.Some? <==> 0 <= t <= 6
  {
    if t == BlockAir then Some(Entry(false, Cube, Fixed(0)))
    else if t == BlockGrass then Some(Entry(true, Cube, GrassRule))
    else if t == BlockDirt then Some(Entry(true, Cube, Fixed(TileIndexOf(BlockDirt).GetOr(1))))
    else if t == BlockStone then Some(Entry(true, Cube, Fixed(TileIndexOf(BlockStone).GetOr(2))))
    else if t == BlockGrassPlant then Some(Entry(false, Cross, Fixed(TileIndexOf(BlockGrassPlant).GetOr(3))))
    else if t == BlockLog then Some(Entry(true, Cube, LogRule))
    else if t == BlockLeaves then Some(Entry(true, CutoutCube, Fixed(TileIndexOf(BlockLeaves).GetOr(6))))
    else None
  }

  function ApplyRule(rule: TileRule, n: Vec3): int {
    match rule
    case Fixed(tile) => tile
    case GrassRule => if n.y == 1 then GrassTopTile else if n.y == -1 then GrassBottomTile else GrassSideTile
    case LogRule => if n.y != 0 then LogTopTile else LogSideTile
  }

  predicate IsSolid(t: int) {
    var e := Registry(t);
    e.Some? && e.value.solid
  }

  function KindOf(t: int): RenderKind {
    var e := Registry(t);
    if e.Some? then e.value.kind else Cube
  }

  function FaceTile(t: int, n: Vec3): int {
    var e := Registry(t);
    if e.Some? then ApplyRule(e.value.faceTile, n) else 0
  }

  predicate UsesAlphaTest(t: int) {
    KindOf(t) != Cube
  }

  /** The registry's solidity is exactly the five solid ids, and agrees with `isSolidBlock`. */
  lemma SolidIds(t: int)
    ensures IsSolid(t) <==> t in {BlockGrass, BlockDirt, BlockStone, BlockLog, BlockLeaves}
    ensures IsSolid(t) == IsSolidBlock(t)
  {
  }

  /** An unregistered id is not solid, renders as a cube and shows tile 0. */
  lemma Unregistered(t: int, n: Vec3)
    requires t < 0 || t > 6
    ensures !IsSolid(t) && KindOf(t) == Cube && FaceTile(t, n) == 0
  {
  }

  /** Alpha testing is used exactly for the grass plant and leaves. */
  lemma AlphaTestIds(t: int)
    ensures UsesAlphaTest(t) <==> t in {BlockGrassPlant, BlockLeaves}
  {
  }

  /** Grass shows the top tile upward, the bottom tile downward and the side tile elsewhere. */
  lemma GrassTiles(n: Vec3)
    ensures FaceTile(BlockGrass, n) ==
      (if n.y == 1 then GrassTopTile else if n.y == -1 then GrassBottomTile else GrassSideTile)
  {
  }

  /** A log shows its end grain on every face whose normal has a non-zero y component. */
  lemma LogTiles(n: Vec3)
    ensures FaceTile(BlockLog, n) == (if n.y != 0 then LogTopTile else LogSideTile)
  {
  }

  /** Dirt, stone, grass plant and leaves show one tile whatever the normal. */
  lemma FixedTiles(t: int, n: Vec3, m: Vec3)
    requires t in {BlockDirt, BlockStone, BlockGrassPlant, BlockLeaves}
    ensures FaceTile(t, n) == FaceTile(t, m)
    ensures FaceTile(t, n) == TileIndexOf(t).value
  {
  }
}
