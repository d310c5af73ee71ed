# Voxel engine core in Dafny

This project models the core of a chunk-based voxel engine written in JavaScript. The world is
cut into 16 × 64 × 16 chunks of block ids:

- a terrain generator fills each chunk column by column;
- trees are planted across chunk borders;
- chunks stream in and out around the player;
- each dirty chunk is turned into a surface mesh;
- the player aims at blocks with a grid-traversal raycast, moves with axis-separated collision
  against solid blocks, and places a line of blocks from the active inventory slot.

Each source file has its own module:

| module | models |
|---|---|
| `Basics` (basics.dfy) | the shared helpers: `Option`, integer and real vectors, and the Chebyshev distance |
| `Constants` | constants.js |
| `Blocks` | blocks.js |
| `Items` | items.js |
| `Textures` | `getTileUV` and the atlas layout of textures.js |
| `Utils` | utils.js |
| `Terrain` | `hashStringToInt`, `mulberry32` and `TerrainGenerator` of world.js |
| `Chunks` | chunk.js |
| `WorldViews` | the contents of a world as a value, a map from chunk key to block array, with its read and write functions |
| `Trees` | the writes of `generateTree` and `plantTreesInChunk` |
| `Worlds` | the `World` class of world.js |
| `Inventories` | inventory.js |
| `Players` | the player operations of player.js listed below |

How the source's parts are represented:

- **Objects whose fields change.** These are Dafny classes whose methods are proved against pure
  specification functions:
  - `Chunk` has an `array<int>` for its `Uint8Array`;
  - `World` has a map of chunks and the build queue;
  - `Inventory` has an array of 27 slots;
  - `Player` has its position, velocity, view angles and drag gesture.
- **Arithmetic.** Block coordinates are unbounded integers. Positions, velocities and angles are
  reals.
- **Outside inputs.** Randomness, simplex noise and `Math.sin` come in as the functions of a
  `TerrainSource` value. The world's block lookup reaches the player as a function
  `(int, int, int) -> int`.

Where the engine's design description and its code disagree, the model follows the code:

- **Mesher at chunk borders.** The mesher reads neighbours only inside the chunk, and treats
  every cell outside it as air. So faces on a chunk border are always emitted, whatever lies in
  the next chunk (`Chunks.BorderFaceEmitted`).
- **Cross blocks.** They emit two quads, not four back-to-back ones. All quads go to one buffer.
- **Terrain.** It is the two-octave height field of `TerrainGenerator`: grass on top, then six
  layers of dirt, then stone, with a 3% chance of a grass plant above. There are no biomes and
  no caves.
- **Unloading.** It does not take chunks out of the build queue. A queued chunk that was
  unloaded is still built when it reaches the front. The model keeps the dropped chunks in a
  ghost set `Unloaded`. Block writes and loads modify only `Repr - Unloaded`, so they never
  touch a dropped chunk; only the drain loop builds one.

## Model

| member | source | states |
|---|---|---|
| Constants.ConstantsConsistent | src/voxel/constants.js:1-44 | The unload radius exceeds the load radius. The top world layer is the chunk height minus one. The block types list the ids 0..6 in order, each once. Every string-keyed tile lies in 0..6. |
| Constants.TileIndexOf | src/voxel/constants.js:32-41 | The numeric tile table has an entry exactly for grass, dirt, stone, grass plant and leaves, and each entry is a tile in 0..6. |
| Constants.SolidBlockIds | src/voxel/constants.js:57-65 | `isSolidBlock` holds exactly for ids 1, 2, 3, 5 and 6. |
| Blocks.Registry | src/voxel/blocks.js:23-74 | The registry has an entry exactly for the ids 0..6. The dark variants are keyed by undefined imports, so no integer id reaches them. |
| Blocks.SolidIds | src/voxel/blocks.js:76-79 | `isSolid` holds exactly for grass, dirt, stone, log and leaves, so it agrees with `isSolidBlock` on every id. |
| Blocks.Unregistered | src/voxel/blocks.js:76-89 | An unregistered id is not solid, renders as a cube and shows tile 0 on every face. |
| Blocks.AlphaTestIds | src/voxel/blocks.js:81-93 | Alpha testing is used exactly for the grass plant (a cross) and leaves (a cutout cube). |
| Blocks.GrassTiles | src/voxel/blocks.js:25-34 | Grass shows the top tile on an upward normal, the bottom tile on a downward one and the side tile otherwise. |
| Blocks.LogTiles | src/voxel/blocks.js:50-55 | A log shows its end-grain tile on every face whose normal has a non-zero y, and its side tile otherwise. |
| Blocks.FixedTiles | src/voxel/blocks.js:35-60 | Dirt, stone, grass plant and leaves show one tile whatever the normal: their entry in the tile table. |
| Items.BlockTypeToItemId | src/voxel/items.js:18-25 | A block drops an item exactly when it is grass, dirt, stone or log. |
| Items.ItemIdToBlockType | src/voxel/items.js:27-34 | An item places a block exactly when it is dirt, stone, grass or log. "dark_log" maps to an undefined id, which callers treat as no block. |
| Items.BlockRoundTrip | src/voxel/items.js:18-34 | Dirt, stone and log blocks come back unchanged from block to item to block. |
| Items.GrassBlockBecomesDirt | src/voxel/items.js:19 | A broken grass block drops dirt, which places a dirt block. |
| Items.ItemRoundTrip | src/voxel/items.js:18-34 | Dirt, stone and log items come back unchanged from item to block to item. Grass comes back as dirt. |
| Items.NoItemNoBlock | src/voxel/items.js:18-34 | Air, the grass plant and leaves drop nothing. "dark_log" and every unknown item place nothing. |
| Textures.GameAtlasWellFormed | src/voxel/textures.js:3-9 | The engine's atlas is 11 × 2 tiles of 32 pixels, and its canvas is exactly that grid. |
| Textures.TileCell | src/voxel/textures.js:428-431 | For a tile index that is not negative, its column and row are its position in the grid: row × cols + col = index, with the column in range. |
| Textures.TileExtent | src/voxel/textures.js:428-437 | Every tile rectangle is one tile wide and one tile high in normalised units, and is not empty. |
| Textures.NormalisedTile | src/voxel/textures.js:428-437 | In a well-formed atlas, u0 and u1 are the column and the next column over the column count. Both lie in [0, 1], as do v0 and v1 for a tile index inside the grid. |
| Textures.SharedEdge | src/voxel/textures.js:428-437 | Neighbouring tiles in one row share an edge: u1 of tile t is u0 of tile t + 1, on the same rows. |
| Utils.JsRem | src/voxel/utils.js:16 | JavaScript's `%` truncates: the remainder is smaller than the divisor in size and has the sign of the dividend. |
| Utils.ModIsResidue | src/voxel/utils.js:15-17 | `mod` returns the residue in [0, m) of Euclidean division, and n = floor(n / m) · m + mod(n, m). |
| Utils.GetChunkCoordsFromWorld | src/voxel/utils.js:1-6 | On each axis, the chunk coordinate is the chunk whose span [c·s, (c+1)·s) contains the coordinate. |
| Utils.GetLocalVoxelCoords | src/voxel/utils.js:8-13 | Local coordinates lie in [0, s) and are the coordinate minus its chunk's origin. |
| Utils.SplitJoin | src/voxel/utils.js:1-13 | The chunk origin plus the local coordinate gives back the world coordinate. |
| Utils.IntToString | src/voxel/utils.js:19-21 | The decimal rendering of an integer contains no comma. |
| Utils.IntToStringInjective | src/voxel/utils.js:19-21 | Distinct integers render as distinct strings. |
| Utils.ChunkKeyInjective | src/voxel/utils.js:19-21 | Distinct chunk coordinates give distinct keys "cx,cz". |
| Utils.IterateNeighborhood | src/voxel/utils.js:23-33 | The loop yields exactly the ring-by-ring sequence `Neighborhood(radius)`. |
| Utils.NeighborhoodContents | src/voxel/utils.js:23-33 | The neighbourhood holds each offset within Chebyshev distance `radius` exactly once, nearer rings first. |
| Utils.RingsSpec | src/voxel/utils.js:25-31 | The first n rings hold exactly the offsets nearer than n, strictly ordered by ring, then x, then z. |
| Utils.NeighborhoodShape | src/voxel/utils.js:23-33 | There are (2r+1)² offsets, and the first is the centre (0, 0). |
| Utils.RingLength | src/voxel/utils.js:26-30 | Ring 0 has one offset and ring r > 0 has 8r. |
| Utils.DdaRaycast | src/voxel/utils.js:37-102 | The queried voxels are the first states of the traversal `DdaWalk`, whose steps cross the boundary `DdaAxis` picks, and each was reached within `maxDistance`; the first is the origin's voxel, and a negative distance queries nothing and misses. All but the last queried voxel are air. A miss means the last one was air too and the next state lies beyond `maxDistance`. A hit reports the last queried voxel, its non-zero block, and `previous`, the voxel minus the step vector. |
| Utils.AdvanceBudget | src/voxel/utils.js:79-99 | Advancing an axis keeps the boundary tables consistent. The remaining step count drops while the distance is within the limit, so the loop ends. |
| Utils.DdaAxis | src/voxel/utils.js:79-99 | The axis advanced is x exactly when x's next boundary is strictly nearer than y's and z's; y exactly when x's is not strictly nearer than y's and y's is strictly nearer than z's; z in every other case, so ties go to the later axis. |
| Utils.DdaCastUnique | src/voxel/utils.js:37-102 | The traversal fixes the outcome: two results that both meet the raycast's contract, with their queried voxels, are equal. |
| Utils.DdaWalkSteps | src/voxel/utils.js:37-102 | The voxels of the traversal start at the origin's voxel and each steps one cell along one axis in the direction of the ray. |
| Utils.DdaDownCast | src/voxel/utils.js:37-102 | Cast straight down from (0.5, 100, 0.5) onto a world whose only solid block is stone at (0, 10, 0), the ray hits that voxel, with `previous` (0, 11, 0) and block 3, exactly when `maxDistance` is at least 89, and misses otherwise. |
| Terrain.GetHeightAt | src/voxel/world.js:40-52 | The column height always lies in [4, 63]. It is the raw noise height when that is in range, 4 below the range and 63 above it. |
| Terrain.ColumnLayers | src/voxel/world.js:53-62 | A column is grass at its height, dirt for the six layers below, stone further down, possibly a grass plant just above, and air higher up. Its solid cells are exactly those at or below the height. |
| Terrain.HashStringToInt | src/voxel/world.js:17-24 | The loop computes the 32-bit hash of the string's UTF-16 units, an unsigned value below 2³². |
| Terrain.WorldSeedHash | src/voxel/world.js:17-24 | The world seed "seed" hashes to 1693061719. |
| Terrain.PrefixesAgree | src/voxel/world.js:17-24 | The hash state after i units depends only on the first i units and the length. |
| Terrain.Mulberry32.Next | src/voxel/world.js:26-33 | Each call advances the state by 0x6d2b79f5 and returns the mixed state over 2³², a number in [0, 1). |
| Terrain.MulberryOutput | src/voxel/world.js:28-31 | Every mulberry32 output lies in [0, 1). |
| Trees.TreeSizes | src/voxel/world.js:99-102 | With draws in [0, 1), a trunk is 4 to 6 blocks high and a canopy radius is 2 or 3. |
| Trees.InDiscRounding | src/voxel/world.js:107 | The canopy disc test is dx² + dz² ≤ r² + 1. |
| Trees.TrunkMembership | src/voxel/world.js:100-101 | The trunk writes are exactly the log cells (x, y..y+n-1, z). |
| Trees.CanopyMembership | src/voxel/world.js:103-117 | The canopy writes are exactly the leaf cells of layers dy = -1..2 around the trunk top, within radius r - abs(dy) and inside the disc. |
| Trees.TrunkIsLog | src/voxel/world.js:100-101 | Every trunk write places a log. |
| Trees.CanopyIsLeaves | src/voxel/world.js:103-117 | Every canopy write places leaves. |
| Trees.TreeColumn | src/voxel/world.js:98-118 | Applied in order, a tree of trunk height h leaves its trunk column as log for its first h − 2 cells and as leaves from h − 2 to h + 1 (the canopy overwrites the trunk's top two cells). It does not write the column elsewhere. |
| Trees.TreeNoise | src/voxel/world.js:75-76 | The chunk's tree noise `abs(sin(..)) % 1` lies in [0, 1). |
| Trees.TreeCount | src/voxel/world.js:77 | A chunk plants at most two trees. |
| Trees.TreeSpotsInside | src/voxel/world.js:80-83 | A tree's local x and z lie in [1, 14], so its trunk stands inside its chunk. |
| Trees.TreeSpotValues | src/voxel/world.js:80-83 | The first tree stands at local (6, 4) and the second at (11, 1). |
| Trees.TrunkInChunk | src/voxel/world.js:84-87 | A tree's base column lies in the chunk that plants it. |
| WorldViews.WriteBlock | src/voxel/world.js:193-202 | A world write keeps the set of loaded chunks and the size of every block array. |
| WorldViews.WorldReadAfterWrite | src/voxel/world.js:181-202 | After a write, reading the written cell gives the new type (as a byte) when its chunk is loaded and y is in range. Every other cell reads as before. |
| WorldViews.UnloadedIsAir | src/voxel/world.js:181-191 | A cell whose chunk is not loaded, or whose y is outside [0, 64), reads as air. |
| WorldViews.SplitAgrees | src/voxel/world.js:182-188 | The world's split of a coordinate into a chunk key and a local offset agrees with `chunkKey` and `mod`. |
| WorldViews.SameCell | src/voxel/world.js:182-188 | Two world cells with the same chunk key and the same local offsets are the same cell. |
| WorldViews.ReadAfterWrites | src/voxel/world.js:120-131 | After a sequence of writes, a cell reads as the last write to it, converted to a byte, if its chunk is loaded, and as before otherwise. |
| WorldViews.NoteWritesContents | src/voxel/world.js:120-131 | The changed-key list gains exactly the keys of loaded chunks that were written, with no key twice. |
| WorldViews.TouchedLoaded | src/voxel/world.js:124-125 | Only loaded chunks are ever noted as changed. |
| WorldViews.ApplyAppend | src/voxel/world.js:120-131 | Applying two runs of writes one after the other equals applying them joined. |
| WorldViews.LastValueUniform | src/voxel/world.js:100-114 | When every write places the same type, a cell's last write is that type exactly when the cell is written. |
| WorldViews.AddKey | src/voxel/world.js:130 | Adding a key to the changed set keeps its old keys, adds the key, and keeps the keys distinct. |
| Chunks.DimensionsAgree | src/voxel/chunk.js:114-121 | The cell array holds 16 × 64 × 16 entries, and `getIndex` is y · 16 · 16 + z · 16 + x written with the chunk dimensions. |
| Chunks.IndexInjective | src/voxel/chunk.js:120-122 | The flat index y·256 + z·16 + x of a cell inside the chunk lies in [0, 16384), and distinct cells have distinct indices. |
| Chunks.ToUint8 | src/voxel/chunk.js:137-149 | A stored block type is reduced to a byte in [0, 256), and a type that is already a byte is kept. |
| Chunks.ReadAfterWrite | src/voxel/chunk.js:124-149 | After a local write, the written cell reads as the new type (as a byte) when it lies inside the chunk. Every other cell reads as before. |
| Chunks.OutsideIsAir | src/voxel/chunk.js:124-135 | A local read outside the chunk gives air. |
| Chunks.Chunk.constructor | src/voxel/chunk.js:110-118 | A new chunk holds exactly the generated blocks of its columns, has no mesh, and is dirty. |
| Chunks.Chunk.GetBlockLocal | src/voxel/chunk.js:124-135 | Inside the chunk the read returns the stored cell at the flat index. Outside it returns air. |
| Chunks.Chunk.SetBlockLocal | src/voxel/chunk.js:137-149 | The block array becomes the local write of the old one. The chunk becomes dirty exactly when the cell lies inside it. |
| Chunks.Chunk.Populate | src/voxel/chunk.js:151-169 | Every cell holds the generator's block for its column height, and the chunk is dirty. |
| Chunks.GeneratedAt | src/voxel/chunk.js:151-169 | The generated contents hold, at each cell, the block `getBlockAt` gives for that cell's column height. |
| Chunks.PopulatedSolidity | src/voxel/chunk.js:151-169 | A generated cell is solid exactly when it lies at or below its column's height. |
| Chunks.Chunk.BuildMesh | src/voxel/chunk.js:171-347 | The mesh built is the mesh of the chunk's current blocks, stored on the chunk, and the chunk becomes clean. |
| Chunks.EmitSlice | src/voxel/chunk.js:179-312 | The loop over y and z appends the quads of one x-slice in order, and keeps the index list equal to six indices per quad. |
| Chunks.NormalIsUnit | src/voxel/chunk.js:16-107 | Every face normal is a unit vector along one axis. |
| Chunks.NormalsDistinct | src/voxel/chunk.js:16-107 | The six faces have six distinct normals. |
| Chunks.CornersOnFace | src/voxel/chunk.js:16-107 | The four corners of a face lie on the face's side of the unit cell. `uIndex` and `vIndex` name the axes of `uAxis` and `vAxis`. |
| Chunks.MeshTileMatchesRegistry | src/voxel/chunk.js:236-250 | For every type other than air and the grass plant, the tile the mesher picks for a face is the registry's `faceTile`. |
| Chunks.AoLevel | src/voxel/chunk.js:258-289 | The AO level lies in 0..3. It is 0 exactly when both side cells are solid, and 3 exactly when the two sides and the corner are all open. |
| Chunks.AoTint | src/voxel/chunk.js:288 | The vertex tint is the AO level over 3, in [0, 1]. |
| Chunks.AoOpenLayer | src/voxel/chunk.js:258-289 | A face whose outer 3 × 3 layer holds nothing solid, such as the top of an open floor, has AO level 3 at every corner. |
| Chunks.AoOpenQuad | src/voxel/chunk.js:258-289 | So the quad of such a face carries the levels [3, 3, 3, 3]. |
| Chunks.AoSideDarkens | src/voxel/chunk.js:258-289 | Turning one side cell of a corner solid, nothing else changing, strictly lowers that corner's level. |
| Chunks.AoCornerDarkens | src/voxel/chunk.js:258-289 | Turning the diagonal cell of a corner solid lowers its level by exactly one, unless it is already 0. |
| Chunks.QuadIndicesShape | src/voxel/chunk.js:218-226 | n quads give 6n indices, each below 4n. |
| Chunks.QuadIndicesTriangles | src/voxel/chunk.js:218-226 | Quad i contributes the two triangles (4i, 4i+1, 4i+2) and (4i, 4i+2, 4i+3). |
| Chunks.AirEmitsNothing | src/voxel/chunk.js:182-183 | An air cell emits no quad. |
| Chunks.PlantEmitsTwoQuads | src/voxel/chunk.js:185-229 | A grass plant emits exactly two quads, with upward normals and full brightness. |
| Chunks.FacesUpToSpec | src/voxel/chunk.js:230-308 | A cube cell emits one quad per face whose neighbour is not solid, each carrying that face's normal. |
| Chunks.FaceEmittedIffOpen | src/voxel/chunk.js:230-235 | A cube cell emits a quad with a face's normal exactly when the neighbour across that face is not solid. |
| Chunks.EnclosedCellEmitsNothing | src/voxel/chunk.js:230-235 | A cube cell with six solid neighbours emits nothing. |
| Chunks.SingleOpenFace | src/voxel/chunk.js:230-308 | A cube cell with exactly one open neighbour emits exactly one quad, on that face. |
| Chunks.BorderFaceEmitted | src/voxel/chunk.js:230-236 | A cube cell's face toward the outside of the chunk is always emitted. |
| Worlds.World.GetBlock | src/voxel/world.js:181-191 | Returns the block of the world's contents at the cell: air unless its chunk is loaded and y is in range. |
| Worlds.World.SetBlockDeferred | src/voxel/world.js:120-131 | The contents become the write of the old contents, and no mesh changes. The changed list gains the key when the cell lands in a loaded chunk, and that chunk becomes dirty. It modifies only `Repr - Unloaded`, so a queued chunk that is no longer loaded keeps its flag and mesh. |
| Worlds.World.SetBlock | src/voxel/world.js:193-206 | The contents become the write of the old contents. When the cell lands in a loaded chunk, that chunk's mesh is rebuilt from its new blocks and it is clean. All other chunks keep their mesh and flag. It modifies only `Repr - Unloaded`, so a queued chunk that is no longer loaded keeps its flag and mesh. |
| Worlds.World.GenerateTree | src/voxel/world.js:98-118 | The contents become the tree's writes applied in order, and exactly the touched loaded chunks become dirty. It modifies only `Repr - Unloaded`, so a queued chunk that is no longer loaded keeps its flag and mesh. |
| Worlds.World.PlantTrees | src/voxel/world.js:74-88 | The contents become every tree's writes applied in order. The changed list is the touched loaded keys. It modifies only `Repr - Unloaded`, so a queued chunk that is no longer loaded keeps its flag and mesh. |
| Worlds.QueueChangedContents | src/voxel/world.js:89-95 | Queueing the changed chunks keeps the old queue in front, queues every loaded changed chunk, and adds no chunk twice. |
| Worlds.World.MarkChanged | src/voxel/world.js:89-95 | The queue becomes the old queue plus the chunks of the changed keys not yet queued. The chunks of changed keys become dirty. |
| Worlds.World.PlantTreesInChunk | src/voxel/world.js:74-96 | The tree writes are applied, touched chunks are dirty, and every touched loaded chunk is in the build queue. It modifies only `Repr - Unloaded`, so a queued chunk that is no longer loaded keeps its flag and mesh. |
| Worlds.World.EnsureChunk | src/voxel/world.js:141-149 | Returns the chunk under the key, at (cx, cz); the keys gain that key and old chunks keep their object and mesh. The contents become `EnsureView`: unchanged for a loaded key, else the generated chunk plus its tree writes. The bookkeeping becomes `EnsureStep`: for a missing key the new chunk is pushed on the queue (line 146), the tree writes mark the loaded chunks they reach dirty and queue those not queued, and the new chunk is dirty and meshless. It modifies only the world's fields and `Repr - Unloaded`, so a queued chunk that is no longer loaded keeps its flag and mesh. |
| Worlds.World.UnloadFar | src/voxel/world.js:154-161 | A loaded chunk stays exactly when its Chebyshev distance from the player's chunk is at most 18, and the chunks that stay are unchanged, mesh included. The queue is untouched and the dirty and meshless keys are cut to the keys kept (`Kept`). Every queued chunk not left loaded under its key joins `Unloaded`. |
| Worlds.World.LoadNear | src/voxel/world.js:162-168 | After the load loop over `iterateNeighborhood(radius)`, every chunk at those offsets is loaded, old chunks stay with their mesh, and the new ones lie at those offsets. The queue, dirty and meshless keys are `LoadFold`: one `LoadStep` per offset, that is the `ensureChunk` pushes and tree marks (line 146-147) followed by the re-push of a dirty meshless chunk (line 167). It modifies only the world's fields and `Repr - Unloaded`, so a queued chunk that is no longer loaded keeps its flag and mesh. |
| Worlds.World.LoadOne | src/voxel/world.js:165-167 | One pass of the load loop: the contents become `EnsureView` and the bookkeeping `LoadStep`, the chunk being pushed again when dirty and meshless; no loaded chunk's mesh changes. It modifies only the world's fields and `Repr - Unloaded`, so a queued chunk that is no longer loaded keeps its flag and mesh. |
| Worlds.World.LoadOffsets | src/voxel/world.js:163-168 | The loop over a list of offsets: every chunk at them is loaded, no other is added, old chunks keep their object and mesh, and the bookkeeping is `LoadFold` over the list. It modifies only the world's fields and `Repr - Unloaded`, so a queued chunk that is no longer loaded keeps its flag and mesh. |
| Worlds.LoadStepQueue | src/voxel/world.js:141-149 | A pass of the load loop keeps the old queue in front and appends only loaded chunks, clears no dirty flag, makes only the new chunk meshless, queues every chunk it makes dirty, and queues its own chunk when that ends dirty and meshless. |
| Worlds.LoadFoldGrows | src/voxel/world.js:162-168 | The whole load loop keeps the old queue in front, appends only loaded chunks and clears no dirty flag. |
| Worlds.LoadFoldKeepsUnloaded | src/voxel/world.js:162-168 | A chunk in the queue after the load loop that is not loaded was already in the queue before it. |
| Worlds.LoadFoldDirtied | src/voxel/world.js:162-168 | Every chunk the load loop makes dirty is in the queue afterwards. |
| Worlds.LoadFoldQueued | src/voxel/world.js:162-168 | Every chunk at the offsets that ends the load loop dirty and without a mesh is in the queue. |
| Worlds.LoadFoldMeshless | src/voxel/world.js:162-168 | After the load loop the chunks without a mesh are those before it and exactly the chunks it created. |
| Worlds.LoadViewKeys | src/voxel/world.js:162-168 | The load loop's contents hold exactly the old keys and those of the offsets. |
| Worlds.LoadViewIdle | src/voxel/world.js:162-168 | When every chunk at the offsets is loaded, the load loop leaves the contents unchanged. |
| Worlds.LoadViewTwice | src/voxel/world.js:162-168 | A second load loop over the same offsets leaves the contents as the first one left them. |
| Worlds.EnsureView | src/voxel/world.js:141-149 | `ensureChunk` adds exactly the chunk's key to the contents and keeps every block array 16 × 64 × 16. |
| Worlds.DrainContents | src/voxel/world.js:169-178 | The drain builds at most two chunks, each dirty and each once. It builds every dirty chunk it takes off the queue, and leaves a suffix of the queue, empty when fewer than two were built. |
| Worlds.World.QueuedUnloaded | src/voxel/world.js:154-167 | A chunk is loaded exactly when it sits under its own key, and a queued chunk that is not loaded is in `Unloaded`, the set the writes and loads do not modify. |
| Worlds.World.DrainQueue | src/voxel/world.js:169-178 | The queue becomes what the drain leaves. The chunks built have fresh meshes and are clean, and every other queued chunk is untouched. |
| Worlds.StreamBounds | src/voxel/world.js:151-168 | Unload followed by load leaves every loaded chunk within 18 of the player's chunk and every chunk within the load radius loaded. It keeps exactly the old chunks within 18, as the same objects, and the map between the loops holds exactly the old keys still loaded at the end. |
| Worlds.PlayerChunk | src/voxel/world.js:152-153 | The player's chunk coordinate is the chunk whose span contains the position. |
| Worlds.World.UpdateStreaming | src/voxel/world.js:151-179 | The loaded chunks become the streamed set around the player's chunk (radius 12, unload beyond 18). The bookkeeping after the two streaming loops is `LoadFold` over the neighbourhood, starting from what the unload loop kept. The queue then becomes what `Drain` leaves of it, the chunks `Drain` picks get fresh meshes and are clean, and every other chunk keeps its mesh, the kept ones their old mesh. At most two meshes are built, and the queue is empty when fewer were. A queued chunk that is not loaded afterwards was queued before the call; it counts as dirty for the drain exactly when it was dirty before the call, and unless built it keeps its old flag and mesh. |
| Worlds.World.Stream | src/voxel/world.js:151-168 | The two streaming loops: the chunks become the streamed set, kept chunks keep their mesh, and the bookkeeping is `LoadFold` from what the unload loop kept. Every chunk queued before that is not loaded afterwards keeps its dirty flag and mesh. |
| Worlds.World.StreamAndBuild | src/voxel/world.js:154-179 | The same as `UpdateStreaming` around a given chunk and radius: the streamed set, the loaded bookkeeping, the queue and built chunks of `Drain`, and the mesh frame. A queued chunk that is not loaded afterwards was queued before the call; it counts as dirty for the drain exactly when it was dirty before the call, and unless built it keeps its old flag and mesh. |
| Inventories.FirstHolding | src/voxel/inventory.js:24-32 | The first slot in range holding the item, if any. |
| Inventories.FirstEmpty | src/voxel/inventory.js:33-41 | The first empty slot in range, if any. |
| Inventories.MergedSpec | src/voxel/inventory.js:24-32 | Merging changes at most one slot in range and keeps every other item's total. The item's total grows by what was added. The count is left unchanged exactly when it is not positive or no slot in range holds the item. |
| Inventories.PlacedSpec | src/voxel/inventory.js:33-41 | Placing fills at most one empty slot in range with the whole count, or leaves the count when it is not positive or no slot in range is empty. |
| Inventories.MergedPlacedSpec | src/voxel/inventory.js:42-45 | Merging then placing over one range stores the count in one slot of the range exactly when some slot holds the item or is empty. |
| Inventories.Inventory.TryMerge | src/voxel/inventory.js:24-32 | The loop leaves the slots and the count as the merge function gives them. |
| Inventories.Inventory.TryPlaceEmpty | src/voxel/inventory.js:33-41 | The loop leaves the slots and the count as the placement function gives them. |
| Inventories.AddItemSteps | src/voxel/inventory.js:19-47 | Adding changes at most one slot and keeps the stacks positive. The whole count is stored when some slot has room, and otherwise nothing changes. When the hotbar has room, the grid is untouched. |
| Inventories.AddItemTotals | src/voxel/inventory.js:19-47 | The item's total grows by the count exactly when the count is positive and some slot has room. Every other item's total is unchanged. |
| Inventories.AddItemOneSlot | src/voxel/inventory.js:19-47 | At most one slot changes. When the hotbar has room for the item, the change is in the hotbar. |
| Inventories.AddItemMergesFirst | src/voxel/inventory.js:24-32 | When the first slot holding the item is in the hotbar, the count is added to that stack. |
| Inventories.Inventory.AddItem | src/voxel/inventory.js:19-47 | The slots become `AddedTo` of the old slots, and the inventory stays valid. |
| Inventories.Inventory.constructor | src/voxel/inventory.js:2-8 | A new inventory has 27 empty slots and the first hotbar slot active. |
| Inventories.Inventory.RemoveFromActive | src/voxel/inventory.js:48-55 | Returns whether the active slot held a stack. The stack loses `count` items and the slot empties when none are left. All other slots are unchanged. |
| Inventories.RemoveTotals | src/voxel/inventory.js:48-55 | Removing from a stack lowers its item's total by the count, or by the whole stack when the count covers it. Other totals are unchanged. |
| Inventories.Inventory.GetActive | src/voxel/inventory.js:56-58 | Returns the active slot: none when it is empty, and a stack with a positive count otherwise. |
| Inventories.Inventory.SetActiveIndex | src/voxel/inventory.js:59-61 | The active index becomes i clamped to the hotbar [0, 8]. |
| Players.Player.constructor | src/voxel/player.js:14-48 | A new player stands still at (0, 40, 0), looks straight ahead, is not on the ground and is not dragging. |
| Players.ClampPitch | src/voxel/player.js:78-84 | The pitch is clamped to [-(π/2 - 0.001), π/2 - 0.001]. It is kept inside that range and set to the nearer limit outside it. |
| Players.Player.AddLookDeltas | src/voxel/player.js:78-84 | Yaw decreases by dx × 0.002. The pitch decreases by dy × 0.002 and is then clamped. |
| Players.BoxCellsTouch | src/voxel/player.js:584-589 | A cell lies in the floored bounds of the player's box exactly when the unit cell meets the closed box. |
| Players.Player.IsInsidePlayerAABB | src/voxel/player.js:315-335 | True exactly when the cell meets the player's box. |
| Players.Player.IntersectsSolid | src/voxel/player.js:582-599 | True exactly when some cell within the box's floored bounds holds a solid block. |
| Players.Player.SlideAlong | src/voxel/player.js:561-570 | One horizontal axis moves by velocity × dt. When the box then meets a solid block, the move is undone and that velocity is zeroed. |
| Players.Player.FallStep | src/voxel/player.js:571-579 | y moves by velocity × dt. When blocked, the move is undone, the vertical velocity is zeroed, and the player lands when it was falling. Otherwise it is airborne. |
| Players.Player.IntegrateWithCollisions | src/voxel/player.js:555-580 | The new position, velocity and ground flag are `Integrate` of the old ones. |
| Players.SlideClear | src/voxel/player.js:561-570 | A slide step from a clear box leaves the box clear of solid blocks. |
| Players.SlideMoves | src/voxel/player.js:561-570 | A slide step either moves the axis by its velocity or stops it with zero velocity. It leaves the other axes and the ground flag alone. |
| Players.FallClear | src/voxel/player.js:571-579 | A vertical step from a clear box leaves the box clear. |
| Players.FallMoves | src/voxel/player.js:571-579 | A vertical step moves or stops y. The player lands only from a fall, with vertical speed zero. A player with vertical speed is not on the ground. |
| Players.IntegrateClear | src/voxel/player.js:555-580 | When the box is clear after the height clamp, it is clear after the whole step: collision resolution never leaves the player inside a solid block. |
| Players.IntegrateMoves | src/voxel/player.js:555-580 | After the height clamp, each axis either moved by velocity × dt or stopped with zero velocity. The ground flag keeps the same rules as a single vertical step. |
| Players.RayAxisIsDdaAxis | src/voxel/player.js:369-372 | The player's axis choice is the same as the one in `ddaRaycast`. |
| Players.RayAxisFinite | src/voxel/player.js:369-372 | The axis chosen always has a finite next boundary. |
| Players.RayAxisMoves | src/voxel/player.js:369-385 | For a ray that moves, the axis advanced has a non-zero step. |
| Players.NormalBack | src/voxel/player.js:386-389 | The reported normal leads from the hit voxel back to the voxel visited before it. |
| Players.Player.RaycastVoxel | src/voxel/player.js:337-396 | The visited cells are the start cell and the cells entered, the first states of the traversal `RayWalk`, each step taken while the distance travelled was at most `maxDistance`. Every cell between start and end is air. A negative distance visits only the start cell and misses. A miss means the last cell entered was air and the distance travelled then exceeds `maxDistance`. A hit reports the last cell, its non-air block, and the normal of the step into it, which leads back to the previous cell. The path is traced, so on a moving ray the hit is never the start cell (`Players.NeverStartCell`). |
| Players.NeverStartCell | src/voxel/player.js:368-394 | A ray with a non-zero direction never returns to its start cell, so it cannot report the voxel the eye is in. |
| Players.RayWalkIsDdaWalk | src/voxel/player.js:337-396 | The aiming raycast walks through exactly the states of `ddaRaycast`'s traversal. |
| Players.RayCastUnique | src/voxel/player.js:337-396 | The traversal fixes the outcome: two results that both meet the raycast's contract, with their paths, are equal. |
| Players.RayDownCast | src/voxel/player.js:337-396 | Cast straight down from (0.5, 100, 0.5) onto a world whose only solid block is stone at (0, 10, 0), the ray hits that voxel with normal (0, 1, 0) and block 3 exactly when `maxDistance` is at least 88, and misses otherwise. |
| Players.DragPointsShape | src/voxel/player.js:233-247 | The line starts at the anchor, has 1 to 11 cells and steps one cell along the drag axis with the sign of the delta (+1 for a zero delta). It ends at anchor + round(delta) when that is within 10. |
| Players.Player.DragLine | src/voxel/player.js:239-247 | The loop builds exactly the drag line. |
| Players.PlacementsSpec | src/voxel/player.js:263-267 | The writes place the block on exactly those line cells that the player's box does not touch, in order. |
| Players.Player.PlaceLine | src/voxel/player.js:262-267 | The loop produces exactly the placements over the first `maxPlace` cells. |
| Players.PlacementKeepsClear | src/voxel/player.js:263-267 | Writes outside the player's box keep a clear player clear. |
| Players.Player.EndPlaceDrag | src/voxel/player.js:214-270 | The drag ends. The line is `DragPoints` from the anchor along the drag axis, for the `AimDelta` of a ray that is the `RayCast` from the eye (6 blocks): the cell in front of the hit face, or the camera's position on a miss. When the active stack places a block, min(line length, count) cells of the drag line are offered, the ones outside the player's box are written, and that many items leave the stack. Otherwise nothing is written and the inventory is unchanged. The inventory stays valid. |

## Left out

- Rendering is not modelled: THREE meshes, materials, the scene, the camera object, canvas
  drawing in `createAtlasTexture`, `createItemMesh` and `getItemIcon`. A chunk's mesh is
  modelled as its list of quads (corners, normal, tile, AO levels). Vertex colours follow from
  the AO level, and the UV rectangle from the tile via `getTileUV`. Which UV corner goes to
  which vertex is not modelled: the cross quads of a grass plant use the order
  (u0,v1), (u1,v1), (u1,v0), (u0,v0) (src/voxel/chunk.js:204-209), the cube faces the order
  (u0,v0), (u1,v0), (u1,v1), (u0,v1) (src/voxel/chunk.js:252-257), and a quad does not record
  either.
- Audio, particles, ghost previews and the highlighter are not modelled.
- The inventory's `addListener` and `emitChange` are left out. Callbacks into unseen code have
  no effect on the modelled state.
- Simplex noise, `Math.random()` and `Math.sin` are fields of `Terrain.TerrainSource`. The model
  does not compute them. The noise library is not part of this model.
- Terrain.TerrainSource: its random draws are keyed by place (`plantDraw(x, z)`,
  `trunkDraw(x, y, z)`, `canopyDraw(x, y, z)`), where the source calls `Math.random()` afresh
  on every use (src/voxel/world.js:55, 99, 102). So in the model a chunk that is unloaded and
  created again gets the same plants and trees, and `Worlds.World.EnsureChunk` makes a new
  chunk's contents a function of (cx, cz); in the source they may differ from one load to the
  next.
- The second terrain pipeline of `src/voxel/gen/terrain.js` is not used by the world and is
  not modelled.
- Floating point: positions, velocities, angles and UVs are exact reals. So an undone move
  restores the position exactly, and π is the decimal 3.141592653589793. NaN and infinite
  inputs are not modelled. The raycast uses an explicit "infinite" value for axes with zero
  direction.
- Players.Player.IntegrateWithCollisions: the height clamp can push the box into a block. The
  promise that the box stays clear (`Players.IntegrateClear`) is stated for a box that is clear
  after the clamp.
- Players.Player.EndPlaceDrag: the camera's aim direction and position are parameters. The
  world's `setBlock` calls are returned as an ordered list of writes, whose effect on the world
  is `Worlds.World.SetBlock`. The inventory is a parameter, where the source reaches it through
  the scene.
- Players.Player.RaycastVoxel: the world's `getBlock` is a function parameter.
- The two raycasts reach stone at (0, 10, 0) from (0.5, 100, 0.5) after travelling 89
  (`ddaRaycast`, which tests before stepping) and 88 (`raycastVoxel`, which steps before
  testing). The model follows these loop orders (`Utils.DdaDownCast`, `Players.RayDownCast`).
- The player's per-frame `update`, input handling, `startPlaceDrag`, `tryBreakBlock`,
  `tryPlaceBlock` and the drag preview are not modelled. They read the keyboard, mouse and
  camera. Only the pieces they share with the modelled operations are modelled (the raycast,
  the box test and the collision step).
- Inventory stacks are values. The source mutates a stack object in place, and nothing else
  in the core holds a reference to one. `setActiveIndex` takes an integer, while the source
  also accepts non-integers.
- Integer widths: block ids, coordinates and counts are unbounded integers. The byte storage
  of chunks is modelled by `Chunks.ToUint8`. The 32-bit arithmetic of the hash and of
  mulberry32 is modelled with `bv32`.
- `World.setAtlas` and `getLoadedChunkCount` are plain field accessors and are not modelled.
- Inventories.Inventory.AddItem: the default argument `count = 1` (src/voxel/inventory.js:19)
  is not modelled; callers pass the count.
- Inventories.Inventory.RemoveFromActive: the default argument `count = 1`
  (src/voxel/inventory.js:48) is not modelled; callers pass the count.
- Worlds.World.LoadNear: the blocks the load loop writes are stated pass by pass
  (`Worlds.World.LoadOne` and `Worlds.World.EnsureChunk` make the contents `EnsureView` of the
  old ones), not for the whole loop; `Worlds.LoadView` folds them over the offsets as a value.
