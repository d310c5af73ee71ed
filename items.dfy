/**
 * Conversion between block ids and inventory item ids.  The dark-log item maps to a block id
 * the constants table never defines (`undefined`), which every caller treats like `null`.
 */
module Items {
  import opened Basics
  import opened Constants

  const ItemGrass: string := "grass"
  const ItemDirt: string := "dirt"
  const ItemStone: string := "stone"
  const ItemLog: string := "log"
  const ItemDarkLog: string := "dark_log"

  /** The item a broken block drops, if any. */
  function BlockTypeToItemId(blockType: int): (r: Option<string>)
    ensures r.Some? <==> blockType in {BlockGrass, BlockDirt, BlockStone, BlockLog}
  {
    if blockType == BlockGrass then Some(ItemDirt)
    else if blockType == BlockDirt then Some(ItemDirt)
    else if blockType == BlockStone then Some(ItemStone)
    else if blockType == BlockLog then Some(ItemLog)
    else None
  }

  /** The block an item places, if any. */
  function ItemIdToBlockType(id: string): (r: Option<int>)
    ensures r.Some? <==> id in {ItemDirt, ItemStone, ItemGrass, ItemLog}
  {
    if id == ItemDirt then Some(BlockDirt)
    else if id == ItemStone then Some(BlockStone)
    else if id == ItemGrass then Some(BlockGrass)
    else if id == ItemLog then Some(BlockLog)
    else if id == ItemDarkLog then None
    else None
  }

  /** Dirt, stone and log blocks survive block -> item -> block. */
  lemma BlockRoundTrip(b: int)
    requires b in {BlockDirt, BlockStone, BlockLog}
    ensures BlockTypeToItemId(b).Some?
    ensures ItemIdToBlockType(BlockTypeToItemId(b).value) == Some(b)
  {
  }

  /** A grass block drops dirt, so it comes back as dirt. */
  lemma GrassBlockBecomesDirt()
    ensures BlockTypeToItemId(BlockGrass) == Some(ItemDirt)
    ensures ItemIdToBlockType(ItemDirt) == Some(BlockDirt)
  {
  }

  /** Dirt, stone and log items survive item -> block -> item; grass comes back as dirt. */
  lemma ItemRoundTrip(id: string)
    requires id in {ItemDirt, ItemStone, ItemLog, ItemGrass}
    ensures ItemIdToBlockType(id).Some?
    ensures BlockTypeToItemId(ItemIdToBlockType(id).value) == Some(if id == ItemGrass then ItemDirt else id)
  {
  }

  /** Air, the grass plant and leaves drop nothing; unknown items (and "dark_log") place nothing. */
  lemma NoItemNoBlock(id: string)
    ensures BlockTypeToItemId(BlockAir).None?
    ensures BlockTypeToItemId(BlockGrassPlant).None?
    ensures BlockTypeToItemId(BlockLeaves).None?
    ensures ItemIdToBlockType(ItemDarkLog).None?
    ensures id !in {ItemDirt, ItemStone, ItemGrass, ItemLog} ==> ItemIdToBlockType(id).None?
  {
  }
}
