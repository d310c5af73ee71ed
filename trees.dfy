// Tree decoration as data: the writes `generateTree` makes for one tree (a log trunk and a
// rounded canopy of leaves), and the trees `plantTreesInChunk` places in a new chunk.

module Trees {
  import opened Basics
  import opened Constants
  import opened Utils
  import opened Terrain
  import opened WorldViews

  /** The trunk height `4 + floor(random * 3)` of the tree based at (x, y, z). */
  function TreeHeight(src: TerrainSource, x: int, y: int, z: int): int {
    4 + (src.trunkDraw(x, y, z) * 3.0).Floor
  }

  /** The canopy radius `2 + floor(random * 2)` of the tree based at (x, y, z). */
  function TreeRadius(src: TerrainSource, x: int, y: int, z: int): int {
    2 + (src.canopyDraw(x, y, z) * 2.0).Floor
  }

  /** With draws in [0, 1) trunks are 4 to 6 logs high and canopies have radius 2 or 3. */
  lemma TreeSizes(src: TerrainSource, x: int, y: int, z: int)
    requires src.Draws()
    ensures 4 <= TreeHeight(src, x, y, z) <= 6
    ensures 2 <= TreeRadius(src, x, y, z) <= 3
  {
    assert 0.0 <= src.trunkDraw(x, y, z) < 1.0;
    assert 0.0 <= src.canopyDraw(x, y, z) < 1.0;
  }

  /** The number of passes of `for (i = -r; i <= r; i++)`. */
  function Span(r: int): nat {
    if r >= 0 then 2 * r + 1 else 0
  }

  /** The trunk loop: logs at (x, y + i, z) for i = 0 .. n - 1. */
  function TrunkWrites(x: int, y: int, z: int, n: nat): seq<BlockWrite> {
    if n == 0 then [] else TrunkWrites(x, y, z, n - 1) + [BlockWrite(x, y + n - 1, z, BlockLog)]
  }

  /** n², as the sum of the first n odd numbers; `SquareIsProduct` ties it to n * n. */
  function Square(n: nat): nat {
    if n == 0 then 0 else Square(n - 1) + 2 * n - 1
  }

  lemma {:induction false} SquareIsProduct(n: nat)
    ensures Square(n) == n * n
  {
    if n > 0 {
      SquareIsProduct(n - 1);
    }
  }

  /** The rounding test of the canopy: a leaf goes where dx² + dz² ≤ r² + 1. */
  predicate InDisc(dx: int, dz: int, r: int) {
    Square(Abs(dx)) + Square(Abs(dz)) <= Square(Abs(r)) + 1
  }

  /** The square of |a| is a * a. */
  lemma SquareOfAbs(a: int)
    ensures Square(Abs(a)) == a * a
  {
    SquareIsProduct(Abs(a));
    if a < 0 {
      assert Abs(a) * Abs(a) == (-a) * (-a) == a * a;
    }
  }

  /** `InDisc` is the test `dx * dx + dz * dz <= r * r + 1` of generateTree. */
  lemma InDiscRounding(dx: int, dz: int, r: int)
    ensures InDisc(dx, dz, r) <==> dx * dx + dz * dz <= r * r + 1
  {
    SquareOfAbs(dx);
    SquareOfAbs(dz);
    SquareOfAbs(r);
  }

  /** The body of the innermost loop: a leaf at offset (dx, dz) of layer cy if it lies in the disc. */
  function LeafCell(x: int, cy: int, z: int, r: int, dx: int, dz: int): seq<BlockWrite> {
    if InDisc(dx, dz, r) then [BlockWrite(x + dx, cy, z + dz, BlockLeaves)] else []
  }

  /** The innermost loop: the first n values of dz = -r, -r + 1, ... at offset dx of layer cy. */
  function LeafRow(x: int, cy: int, z: int, r: int, dx: int, n: nat): seq<BlockWrite> {
    if n == 0 then [] else LeafRow(x, cy, z, r, dx, n - 1) + LeafCell(x, cy, z, r, dx, -r + n - 1)
  }

  /** The middle loop: the first n values of dx = -r, -r + 1, ... of layer cy. */
  function LeafLayer(x: int, cy: int, z: int, r: int, n: nat): seq<BlockWrite> {
    if n == 0 then []
    else LeafLayer(x, cy, z, r, n - 1) + LeafRow(x, cy, z, r, -r + n - 1, Span(r))
  }

  /** The outer loop: the first n layers dy = -1, 0, 1, 2 around the trunk top `top`. */
  function Canopy(x: int, top: int, z: int, radius: int, n: nat): seq<BlockWrite> {
    if n == 0 then []
    else
      var dy := -1 + n - 1;
      Canopy(x, top, z, radius, n - 1) + LeafLayer(x, top + dy, z, radius - Abs(dy), Span(radius - Abs(dy)))
  }

  const CanopyLayers: nat := 4

  /** Every write `generateTree(x, y, z)` makes, in order. */
  function TreeWrites(src: TerrainSource, x: int, y: int, z: int): seq<BlockWrite> {
    var h := TreeHeight(src, x, y, z);
    TrunkWrites(x, y, z, if h > 0 then h else 0) + Canopy(x, y + h - 1, z, TreeRadius(src, x, y, z), CanopyLayers)
  }

  // ---------------------------------------------------------------------------------------
  // Which cells a tree writes

  lemma {:induction false} TrunkMembership(x: int, y: int, z: int, n: nat, w: BlockWrite)
    ensures w in TrunkWrites(x, y, z, n) <==> w.x == x && w.z == z && y <= w.y < y + n && w.t == BlockLog
  {
    if n > 0 {
      TrunkMembership(x, y, z, n - 1, w);
    }
  }

  lemma {:induction false} LeafRowMembership(x: int, cy: int, z: int, r: int, dx: int, n: nat, w: BlockWrite)
    ensures w in LeafRow(x, cy, z, r, dx, n) <==>
      w.t == BlockLeaves && w.y == cy && w.x == x + dx && -r <= w.z - z < -r + n && InDisc(dx, w.z - z, r)
  {
    if n > 0 {
      LeafRowMembership(x, cy, z, r, dx, n - 1, w);
    }
  }

  lemma {:induction false} LeafLayerMembership(x: int, cy: int, z: int, r: int, n: nat, w: BlockWrite)
    ensures w in LeafLayer(x, cy, z, r, n) <==>
      w.t == BlockLeaves && w.y == cy && -r <= w.x - x < -r + n && -r <= w.z - z <= r
      && InDisc(w.x - x, w.z - z, r)
  {
    if n > 0 {
      LeafLayerMembership(x, cy, z, r, n - 1, w);
      LeafRowMembership(x, cy, z, r, -r + n - 1, Span(r), w);
    }
  }

  /** A leaf of the full layer at height cy: inside the square of half-width r and its rounded disc. */
  predicate LayerCell(x: int, cy: int, z: int, r: int, w: BlockWrite) {
    w.t == BlockLeaves && w.y == cy && -r <= w.x - x <= r && -r <= w.z - z <= r
    && InDisc(w.x - x, w.z - z, r)
  }

  /** The full layer of half-width r holds exactly the leaves of that layer. */
  lemma FullLayerMembership(x: int, cy: int, z: int, r: int, w: BlockWrite)
    ensures w in LeafLayer(x, cy, z, r, Span(r)) <==> LayerCell(x, cy, z, r, w)
  {
    LeafLayerMembership(x, cy, z, r, Span(r), w);
    if r < 0 {
      assert Span(r) == 0;
    }
  }

  /**
   * A leaf the canopy around trunk top `top` may hold: at height dy above the top it lies in the
   * square of half-width r = radius − |dy| with its corners cut where dx² + dz² > r² + 1.
   */
  predicate CanopyCell(x: int, top: int, z: int, radius: int, w: BlockWrite) {
    LayerCell(x, w.y, z, radius - Abs(w.y - top), w)
  }

  /** Layer dy of the canopy holds the canopy cells at height top + dy. */
  lemma CanopyLayerMembership(x: int, top: int, z: int, radius: int, dy: int, w: BlockWrite)
    ensures w in LeafLayer(x, top + dy, z, radius - Abs(dy), Span(radius - Abs(dy))) <==>
      CanopyCell(x, top, z, radius, w) && w.y - top == dy
  {
    FullLayerMembership(x, top + dy, z, radius - Abs(dy), w);
    if w.y - top == dy {
      assert w.y == top + dy;
    }
  }

  /** The first n layers hold the canopy cells from one below the top to n − 2 above it. */
  lemma {:induction false} CanopyPrefixMembership(x: int, top: int, z: int, radius: int, n: nat, w: BlockWrite)
    ensures w in Canopy(x, top, z, radius, n) <==> CanopyCell(x, top, z, radius, w) && -1 <= w.y - top < -1 + n
  {
    if n > 0 {
      var dy := -1 + n - 1;
      var prev, layer := Canopy(x, top, z, radius, n - 1), LeafLayer(x, top + dy, z, radius - Abs(dy), Span(radius - Abs(dy)));
      assert Canopy(x, top, z, radius, n) == prev + layer;
      assert w in prev + layer <==> w in prev || w in layer;
      CanopyPrefixMembership(x, top, z, radius, n - 1, w);
      CanopyLayerMembership(x, top, z, radius, dy, w);
    }
  }

  /**
   * The canopy is four layers from one below the trunk top to two above it; layer dy is the
   * square of half-width r = radius − |dy| with its corners cut where dx² + dz² > r² + 1.
   */
  lemma CanopyMembership(x: int, top: int, z: int, radius: int, w: BlockWrite)
    ensures w in Canopy(x, top, z, radius, CanopyLayers) <==>
      var dy := w.y - top;
      var r := radius - Abs(dy);
      w.t == BlockLeaves && -1 <= dy <= 2 && -r <= w.x - x <= r && -r <= w.z - z <= r
      && InDisc(w.x - x, w.z - z, r)
  {
    CanopyPrefixMembership(x, top, z, radius, CanopyLayers, w);
  }

  lemma {:induction false} TrunkIsLog(x: int, y: int, z: int, n: nat)
    ensures forall i | 0 <= i < |TrunkWrites(x, y, z, n)| :: TrunkWrites(x, y, z, n)[i].t == BlockLog
  {
    if n > 0 {
      TrunkIsLog(x, y, z, n - 1);
    }
  }

  lemma CanopyIsLeaves(x: int, top: int, z: int, radius: int)
    ensures forall i | 0 <= i < |Canopy(x, top, z, radius, CanopyLayers)| ::
      Canopy(x, top, z, radius, CanopyLayers)[i].t == BlockLeaves
  {
    var c := Canopy(x, top, z, radius, CanopyLayers);
    forall i | 0 <= i < |c|
      ensures c[i].t == BlockLeaves
    {
      CanopyMembership(x, top, z, radius, c[i]);
    }
  }

  /** Along its column the trunk's last write is a log exactly on its n cells. */
  lemma TrunkColumn(x: int, y: int, z: int, n: nat, i: int)
    ensures LastValue(TrunkWrites(x, y, z, n), x, y + i, z) == if 0 <= i < n then Some(BlockLog) else None
  {
    TrunkIsLog(x, y, z, n);
    LastValueUniform(TrunkWrites(x, y, z, n), BlockLog, x, y + i, z);
    TrunkMembership(x, y, z, n, BlockWrite(x, y + i, z, BlockLog));
  }

  /**
   * On the column of a trunk of n logs based at height y, the canopy puts leaves from one below
   * the trunk top (y + n − 1) to two above it.
   */
  lemma CanopyColumn(x: int, y: int, z: int, n: int, radius: int, i: int)
    requires radius >= 2
    ensures LastValue(Canopy(x, y + n - 1, z, radius, CanopyLayers), x, y + i, z) ==
      if n - 2 <= i <= n + 1 then Some(BlockLeaves) else None
  {
    var top := y + n - 1;
    var c := Canopy(x, top, z, radius, CanopyLayers);
    var w := BlockWrite(x, y + i, z, BlockLeaves);
    CanopyMembership(x, top, z, radius, w);
    if n - 2 <= i <= n + 1 {
      var r := radius - Abs(y + i - top);
      assert Square(0) == 0;
      assert r >= 0 && InDisc(0, 0, r);
      assert w in c;
    } else {
      assert w !in c;
    }
    CanopyIsLeaves(x, top, z, radius);
    LastValueUniform(c, BlockLeaves, x, y + i, z);
  }

  /** Leaves written after a trunk of n logs cover its top two cells and the two cells above it. */
  lemma StackedColumn(trunk: seq<BlockWrite>, canopy: seq<BlockWrite>, x: int, y: int, z: int, n: int, i: int)
    requires LastValue(trunk, x, y + i, z) == if 0 <= i < n then Some(BlockLog) else None
    requires LastValue(canopy, x, y + i, z) == if n - 2 <= i <= n + 1 then Some(BlockLeaves) else None
    ensures LastValue(trunk + canopy, x, y + i, z) ==
      if 0 <= i < n - 2 then Some(BlockLog)
      else if n - 2 <= i <= n + 1 then Some(BlockLeaves)
      else None
  {
    LastValueAppend(trunk, canopy, x, y + i, z);
  }

  /** The column argument for a trunk of n logs under a canopy of radius 2 or more. */
  lemma TrunkAndCanopyColumn(x: int, y: int, z: int, n: nat, radius: int, i: int)
    requires 2 <= radius
    ensures LastValue(TrunkWrites(x, y, z, n) + Canopy(x, y + n - 1, z, radius, CanopyLayers), x, y + i, z) ==
      if 0 <= i < n - 2 then Some(BlockLog)
      else if n - 2 <= i <= n + 1 then Some(BlockLeaves)
      else None
  {
    TrunkColumn(x, y, z, n, i);
    CanopyColumn(x, y, z, n, radius, i);
    StackedColumn(TrunkWrites(x, y, z, n), Canopy(x, y + n - 1, z, radius, CanopyLayers), x, y, z, n, i);
  }

  /**
   * Along the trunk's column the last write is a log for the lowest h − 2 cells and a leaf for
   * the four cells from h − 2 to h + 1: the canopy's two lower layers cover the trunk top.
   */
  lemma TreeColumn(src: TerrainSource, x: int, y: int, z: int, i: int)
    requires src.Draws()
    ensures var h := TreeHeight(src, x, y, z);
      LastValue(TreeWrites(src, x, y, z), x, y + i, z) ==
        if 0 <= i < h - 2 then Some(BlockLog)
        else if h - 2 <= i <= h + 1 then Some(BlockLeaves)
        else None
  {
    var h, r := TreeHeight(src, x, y, z), TreeRadius(src, x, y, z);
    TreeSizes(src, x, y, z);
    assert TreeWrites(src, x, y, z) == TrunkWrites(x, y, z, h) + Canopy(x, y + h - 1, z, r, CanopyLayers);
    TrunkAndCanopyColumn(x, y, z, h, r, i);
  }

  // ---------------------------------------------------------------------------------------
  // plantTreesInChunk

  /** `Math.abs(sine) % 1`, the fractional part of |sine|. */
  function TreeNoise(sine: real): (r: real)
    ensures 0.0 <= r < 1.0
  {
    var a := if sine < 0.0 then -sine else sine;
    a - a.Floor as real
  }

  /** `Math.floor(rng * 3)` trees: zero, one or two whatever the sine. */
  function TreeCount(sine: real): (n: nat)
    ensures n <= 2
  {
    (TreeNoise(sine) * 3.0).Floor
  }

  /** The local x of tree i: `floor(((i + 1) * 37 % 97) / 97 * (CHUNK_SIZE - 2)) + 1`. */
  function TreeLocalX(i: nat): int {
    (((i + 1) * 37 % 97) as real / 97.0 * (ChunkSize - 2) as real).Floor + 1
  }

  /** The local z of tree i: `floor(((i + 11) * 73 % 97) / 97 * (CHUNK_SIZE - 2)) + 1`. */
  function TreeLocalZ(i: nat): int {
    (((i + 11) * 73 % 97) as real / 97.0 * (ChunkSize - 2) as real).Floor + 1
  }

  /** Trunks stand at least one cell inside the chunk border. */
  lemma TreeSpotsInside(i: nat)
    ensures 1 <= TreeLocalX(i) <= ChunkSize - 2 && 1 <= TreeLocalZ(i) <= ChunkSize - 2
  {
    var mx, mz := (i + 1) * 37 % 97, (i + 11) * 73 % 97;
    assert 0 <= mx <= 96 && 0 <= mz <= 96;
    assert mx as real / 97.0 * 14.0 < 14.0;
    assert mz as real / 97.0 * 14.0 < 14.0;
  }

  /** The two possible trees of a chunk stand at local (6, 4) and (11, 1). */
  lemma TreeSpotValues()
    ensures TreeLocalX(0) == 6 && TreeLocalZ(0) == 4
    ensures TreeLocalX(1) == 11 && TreeLocalZ(1) == 1
  {
  }

  /** The base of tree i of chunk (cx, cz): one above the terrain surface of its column. */
  function TreeBase(src: TerrainSource, cx: int, cz: int, i: nat): Vec3 {
    var wx := cx * ChunkSize + TreeLocalX(i);
    var wz := cz * ChunkSize + TreeLocalZ(i);
    Vec3(wx, GetHeightAt(src, wx, wz) + 1, wz)
  }

  /** The writes of the first n trees of chunk (cx, cz). */
  function PlantPrefix(src: TerrainSource, cx: int, cz: int, n: nat): seq<BlockWrite> {
    if n == 0 then []
    else
      var b := TreeBase(src, cx, cz, n - 1);
      PlantPrefix(src, cx, cz, n - 1) + TreeWrites(src, b.x, b.y, b.z)
  }

  /** Every write `plantTreesInChunk` makes for chunk (cx, cz), tree after tree. */
  function PlantWrites(src: TerrainSource, cx: int, cz: int): seq<BlockWrite> {
    PlantPrefix(src, cx, cz, TreeCount(src.treeSine(cx, cz)))
  }

  /** A tree's trunk column lies in the chunk that planted it. */
  lemma TrunkInChunk(src: TerrainSource, cx: int, cz: int, i: nat)
    ensures var b := TreeBase(src, cx, cz, i);
      KeyOf(b.x, b.z) == ChunkKey(cx, cz)
  {
    TreeSpotsInside(i);
    var b := TreeBase(src, cx, cz, i);
    DivModUnique(b.x, ChunkSize, cx, TreeLocalX(i));
    DivModUnique(b.z, ChunkSize, cz, TreeLocalZ(i));
  }
}
