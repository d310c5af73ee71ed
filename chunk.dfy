// One 16×64×16 column of blocks: its flat byte storage, the terrain fill, and the mesher that
// turns the visible faces into quads with per-corner ambient-occlusion levels.

module Chunks {
  import opened Basics
  import opened Constants
  import opened Terrain
  import Blocks

  /** The number of cells of a chunk: 16 · 64 · 16. */
  const Volume: int := 16384

  /** The cell (x, y, z) lies inside the chunk. */
  predicate InChunk(x: int, y: int, z: int) {
    0 <= x < 16 && 0 <= y < 64 && 0 <= z < 16
  }

  /** `getIndex`: cells are laid out in y-major, then z, then x order. */
  function GetIndex(x: int, y: int, z: int): int {
    y * 256 + z * 16 + x
  }

  /**
   * The storage size and the index layout are the ones the chunk dimensions give: the cell
   * array holds 16 * 64 * 16 entries and `GetIndex` is y * 16 * 16 + z * 16 + x.
   */
  lemma DimensionsAgree()
    ensures Volume == ChunkSize * ChunkHeight * ChunkSize
    ensures 256 == ChunkSize * ChunkSize && 16 == ChunkSize && 64 == ChunkHeight
    ensures forall x, y, z :: GetIndex(x, y, z) == y * ChunkSize * ChunkSize + z * ChunkSize + x
  {
  }

  /** Every in-range cell has its own slot, and every slot lies inside the storage. */
  lemma IndexInjective(x: int, y: int, z: int, x': int, y': int, z': int)
    requires InChunk(x, y, z) && InChunk(x', y', z')
    ensures 0 <= GetIndex(x, y, z) < Volume
    ensures GetIndex(x, y, z) == GetIndex(x', y', z') <==> x == x' && y == y' && z == z'
  {
    var low := (z - z') * 16 + (x - x');
    assert GetIndex(x, y, z) - GetIndex(x', y', z') == (y - y') * 256 + low;
    assert -255 <= low <= 255;
    if y == y' && z != z' {
      assert low <= -1 || 1 <= low;
    }
  }

  /** A `Uint8Array` stores the low 8 bits of the integer written to it. */
  function ToUint8(t: int): (r: int)
    ensures 0 <= r < 256
    ensures 0 <= t < 256 ==> r == t
  {
    t % 256
  }

  /** `getBlockLocal` on the storage contents `cells`: air outside the chunk. */
  function LocalAt(cells: seq<int>, x: int, y: int, z: int): int
    requires |cells| == Volume
  {
    if !InChunk(x, y, z) then BlockAir else cells[GetIndex(x, y, z)]
  }

  /** `setBlockLocal` on the storage contents: a write inside the chunk, nothing outside it. */
  function WriteLocal(cells: seq<int>, x: int, y: int, z: int, t: int): (r: seq<int>)
    requires |cells| == Volume
    ensures |r| == Volume
  {
    if !InChunk(x, y, z) then cells else cells[GetIndex(x, y, z) := ToUint8(t)]
  }

  /** Reading back a cell gives what was written there; every other cell is unchanged. */
  lemma ReadAfterWrite(cells: seq<int>, x: int, y: int, z: int, t: int, x': int, y': int, z': int)
    requires |cells| == Volume
    ensures LocalAt(WriteLocal(cells, x, y, z, t), x', y', z') ==
      if InChunk(x, y, z) && x' == x && y' == y && z' == z then ToUint8(t) else LocalAt(cells, x', y', z')
  {
    if InChunk(x, y, z) && InChunk(x', y', z') {
      IndexInjective(x, y, z, x', y', z');
    }
  }

  /** Out of range, `getBlockLocal` is air whatever the contents. */
  lemma OutsideIsAir(cells: seq<int>, x: int, y: int, z: int)
    requires |cells| == Volume && !InChunk(x, y, z)
    ensures LocalAt(cells, x, y, z) == BlockAir
  {
  }

  /** The block `populate` writes at local cell (x, y, z) of chunk (cx, cz). */
  function Generated(src: TerrainSource, cx: int, cz: int, x: int, y: int, z: int): int {
    var wx := cx * 16 + x;
    var wz := cz * 16 + z;
    GetBlockAt(src, wx, y, wz, GetHeightAt(src, wx, wz))
  }

  /** The cell that storage slot i holds. */
  lemma SlotCell(i: int)
    requires 0 <= i < Volume
    ensures InChunk(i % 16, i / 256, i / 16 % 16)
    ensures GetIndex(i % 16, i / 256, i / 16 % 16) == i
  {
    assert i / 16 == (i / 256) * 16 + i / 16 % 16;
  }

  /** The storage `populate` leaves behind: every slot holds the generated block of its cell. */
  function GeneratedCells(src: TerrainSource, cx: int, cz: int): (cells: seq<int>)
    ensures |cells| == Volume
  {
    seq(Volume, i requires 0 <= i < Volume => Generated(src, cx, cz, i % 16, i / 256, i / 16 % 16))
  }

  /** Reading a cell of the generated storage gives the generated block of that cell. */
  lemma GeneratedAt(src: TerrainSource, cx: int, cz: int, x: int, y: int, z: int)
    requires InChunk(x, y, z)
    ensures LocalAt(GeneratedCells(src, cx, cz), x, y, z) == Generated(src, cx, cz, x, y, z)
  {
    var i := GetIndex(x, y, z);
    IndexInjective(x, y, z, x, y, z);
    SlotCell(i);
    IndexInjective(x, y, z, i % 16, i / 256, i / 16 % 16);
  }

  // ---------------------------------------------------------------------------------------
  // Mesh description

  /** One entry of the `directions` table. */
  datatype Face = Face(dir: Vec3, norm: Vec3, uAxis: Vec3, vAxis: Vec3, uIndex: nat, vIndex: nat,
                       corners: seq<Vec3>)

  /** The six entries of the `directions` table. */
  const FacePosX := Face(Vec3(1, 0, 0), Vec3(1, 0, 0), Vec3(0, 1, 0), Vec3(0, 0, 1), 1, 2,
                         [Vec3(1, 0, 0), Vec3(1, 1, 0), Vec3(1, 1, 1), Vec3(1, 0, 1)])
  const FaceNegX := Face(Vec3(-1, 0, 0), Vec3(-1, 0, 0), Vec3(0, 1, 0), Vec3(0, 0, 1), 1, 2,
                         [Vec3(0, 0, 1), Vec3(0, 1, 1), Vec3(0, 1, 0), Vec3(0, 0, 0)])
  const FacePosY := Face(Vec3(0, 1, 0), Vec3(0, 1, 0), Vec3(1, 0, 0), Vec3(0, 0, 1), 0, 2,
                         [Vec3(0, 1, 1), Vec3(1, 1, 1), Vec3(1, 1, 0), Vec3(0, 1, 0)])
  const FaceNegY := Face(Vec3(0, -1, 0), Vec3(0, -1, 0), Vec3(1, 0, 0), Vec3(0, 0, 1), 0, 2,
                         [Vec3(0, 0, 0), Vec3(1, 0, 0), Vec3(1, 0, 1), Vec3(0, 0, 1)])
  const FacePosZ := Face(Vec3(0, 0, 1), Vec3(0, 0, 1), Vec3(1, 0, 0), Vec3(0, 1, 0), 0, 1,
                         [Vec3(0, 0, 1), Vec3(1, 0, 1), Vec3(1, 1, 1), Vec3(0, 1, 1)])
  const FaceNegZ := Face(Vec3(0, 0, -1), Vec3(0, 0, -1), Vec3(1, 0, 0), Vec3(0, 1, 0), 0, 1,
                         [Vec3(0, 1, 0), Vec3(1, 1, 0), Vec3(1, 0, 0), Vec3(0, 0, 0)])

  /** `directions[f]`: the faces in table order +X, -X, +Y, -Y, +Z, -Z. */
  function Direction(f: nat): (face: Face)
    requires f < 6
    ensures |face.corners| == 4 && face.norm == face.dir
  {
    Directions[f]
  }

  const Directions: seq<Face> := [FacePosX, FaceNegX, FacePosY, FaceNegY, FacePosZ, FaceNegZ]

  /** A unit vector along one axis. */
  predicate IsUnitAxis(v: Vec3) {
    (Abs(v.x) + Abs(v.y) + Abs(v.z) == 1) && (v.x == 0 || v.y == 0) && (v.y == 0 || v.z == 0)
      && (v.x == 0 || v.z == 0)
  }

  /** Every normal is a unit vector along an axis. */
  lemma NormalIsUnit(f: nat)
    requires f < 6
    ensures IsUnitAxis(Direction(f).norm)
  {
  }

  /** The six normals are distinct. */
  lemma NormalsDistinct(f: nat, g: nat)
    requires f < 6 && g < 6
    ensures Direction(f).norm == Direction(g).norm ==> f == g
  {
  }

  /**
   * Each face's corners lie on that face: their coordinate along the normal is 1 on a positive
   * face and 0 on a negative one, and `uIndex`/`vIndex` name the axes of `uAxis`/`vAxis`.
   */
  lemma CornersOnFace(f: nat, i: nat)
    requires f < 6 && i < 4
    ensures var face := Direction(f);
      var d, c := face.dir, face.corners[i];
      d.x * (2 * c.x - 1) + d.y * (2 * c.y - 1) + d.z * (2 * c.z - 1) == 1
      && face.uAxis.Comp(face.uIndex) == 1 && face.vAxis.Comp(face.vIndex) == 1
  {
  }

  /** One emitted quad: its four vertex positions, normal, atlas tile and corner AO levels (0..3). */
  datatype Quad = Quad(positions: seq<Vec3>, normal: Vec3, tile: int, ao: seq<int>)

  /** The finished geometry: the quads in emission order and the triangle index list. */
  datatype Mesh = Mesh(quads: seq<Quad>, indices: seq<int>)

  /** The tile the mesher shows on a face of a cube cell of type `t` with normal `n`. */
  function MeshTile(t: int, n: Vec3): int {
    var tile := TileIndexOf(t).GetOr(0);
    var tile := if t != BlockAir && t == BlockGrass then
        (if n.y == 1 then GrassTopTile else if n.y == -1 then GrassBottomTile else GrassSideTile)
      else tile;
    var tile := if t == BlockLog then (if n.y != 0 then LogTopTile else LogSideTile) else tile;
    if t == BlockLeaves then TileIndexOf(BlockLeaves).GetOr(0) else tile
  }

  /**
   * The mesher's tiles agree with the block registry's `faceTile` for every block drawn as a
   * cube, and fall back to tile 0 for unregistered ids just as the registry does.
   */
  lemma MeshTileMatchesRegistry(t: int, n: Vec3)
    requires t != BlockAir && t != BlockGrassPlant
    ensures MeshTile(t, n) == Blocks.FaceTile(t, n)
  {
  }

  /** 1 when the cell at `v` is solid, else 0. */
  function SolidBit(cells: seq<int>, v: Vec3): (b: int)
    requires |cells| == Volume
    ensures b == 0 || b == 1
  {
    if IsSolidBlock(LocalAt(cells, v.x, v.y, v.z)) then 1 else 0
  }

  /** The two side cells and the diagonal cell next to corner `i` of a face, in the face's outer layer. */
  function AoSide1(cell: Vec3, face: Face, i: nat): Vec3
    requires i < |face.corners|
  {
    var uFlag := if face.corners[i].Comp(face.uIndex) == 1 then 1 else -1;
    cell.Plus(face.dir).Plus(face.uAxis.Scale(uFlag))
  }

  function AoSide2(cell: Vec3, face: Face, i: nat): Vec3
    requires i < |face.corners|
  {
    var vFlag := if face.corners[i].Comp(face.vIndex) == 1 then 1 else -1;
    cell.Plus(face.dir).Plus(face.vAxis.Scale(vFlag))
  }

  function AoCorner(cell: Vec3, face: Face, i: nat): Vec3
    requires i < |face.corners|
  {
    var uFlag := if face.corners[i].Comp(face.uIndex) == 1 then 1 else -1;
    var vFlag := if face.corners[i].Comp(face.vIndex) == 1 then 1 else -1;
    cell.Plus(face.dir).Plus(face.uAxis.Scale(uFlag)).Plus(face.vAxis.Scale(vFlag))
  }

  /**
   * `aoForCorner` as an integer level: 0 when both side cells are solid, otherwise 3 minus the
   * number of solid cells among the two sides and the diagonal.
   */
  function AoLevel(cells: seq<int>, cell: Vec3, face: Face, i: nat): (level: int)
    requires |cells| == Volume && i < |face.corners|
    ensures 0 <= level <= 3
    ensures level == 3 <==> SolidBit(cells, AoSide1(cell, face, i)) + SolidBit(cells, AoSide2(cell, face, i))
                             + SolidBit(cells, AoCorner(cell, face, i)) == 0
    ensures level == 0 <==> SolidBit(cells, AoSide1(cell, face, i)) + SolidBit(cells, AoSide2(cell, face, i)) == 2
  {
    var side1 := SolidBit(cells, AoSide1(cell, face, i));
    var side2 := SolidBit(cells, AoSide2(cell, face, i));
    var corner := SolidBit(cells, AoCorner(cell, face, i));
    if side1 == 1 && side2 == 1 then 0 else 3 - (side1 + side2 + corner)
  }

  /** The vertex colour of an AO level (`ao / 3`), a shade in [0, 1]. */
  function AoTint(level: int): (r: real)
    requires 0 <= level <= 3
    ensures 0.0 <= r <= 1.0
    ensures r * 3.0 == level as real
  {
    level as real / 3.0
  }

  /** A cell of the layer face `face` of `cell` looks into, `a` steps along `uAxis` and `b` along `vAxis`. */
  function Layer(cell: Vec3, face: Face, a: int, b: int): Vec3 {
    cell.Plus(face.dir).Plus(face.uAxis.Scale(a)).Plus(face.vAxis.Scale(b))
  }

  /** A face whose outer 3x3 layer holds nothing solid, such as the top of an open floor, is lit at every corner. */
  lemma AoOpenLayer(cells: seq<int>, cell: Vec3, face: Face, i: nat)
    requires |cells| == Volume && i < |face.corners|
    requires forall a, b | -1 <= a <= 1 && -1 <= b <= 1 :: SolidBit(cells, Layer(cell, face, a, b)) == 0
    ensures AoLevel(cells, cell, face, i) == 3
  {
    var uFlag := if face.corners[i].Comp(face.uIndex) == 1 then 1 else -1;
    var vFlag := if face.corners[i].Comp(face.vIndex) == 1 then 1 else -1;
    assert AoSide1(cell, face, i) == Layer(cell, face, uFlag, 0);
    assert AoSide2(cell, face, i) == Layer(cell, face, 0, vFlag);
    assert AoCorner(cell, face, i) == Layer(cell, face, uFlag, vFlag);
  }

  /** So a face looking into a clear layer is emitted with full brightness, level 3, at all four corners. */
  lemma AoOpenQuad(cells: seq<int>, cell: Vec3, f: nat, t: int)
    requires |cells| == Volume && f < 6
    requires forall a, b | -1 <= a <= 1 && -1 <= b <= 1 :: SolidBit(cells, Layer(cell, Direction(f), a, b)) == 0
    ensures FaceQuad(cells, cell, Direction(f), t).ao == [3, 3, 3, 3]
  {
    var face := Direction(f);
    AoOpenLayer(cells, cell, face, 0);
    AoOpenLayer(cells, cell, face, 1);
    AoOpenLayer(cells, cell, face, 2);
    AoOpenLayer(cells, cell, face, 3);
  }

  /** `after` is `before` with the cell at `v` turned solid and every other cell's solidity unchanged. */
  ghost predicate SolidifiedAt(before: seq<int>, after: seq<int>, v: Vec3)
    requires |before| == Volume && |after| == Volume
  {
    SolidBit(before, v) == 0 && SolidBit(after, v) == 1
    && forall w :: w != v ==> SolidBit(after, w) == SolidBit(before, w)
  }

  /** The two side cells and the diagonal cell of a corner of any of the six faces are three different cells. */
  lemma AoCellsDistinct(cell: Vec3, f: nat, i: nat)
    requires f < 6 && i < 4
    ensures var face := Direction(f);
      AoSide1(cell, face, i) != AoSide2(cell, face, i) && AoSide1(cell, face, i) != AoCorner(cell, face, i)
      && AoSide2(cell, face, i) != AoCorner(cell, face, i)
  {
  }

  /** Turning a side cell of a corner solid strictly darkens that corner. */
  lemma AoSideDarkens(before: seq<int>, after: seq<int>, cell: Vec3, f: nat, i: nat)
    requires |before| == Volume && |after| == Volume && f < 6 && i < 4
    requires SolidifiedAt(before, after, AoSide1(cell, Direction(f), i))
      || SolidifiedAt(before, after, AoSide2(cell, Direction(f), i))
    ensures AoLevel(after, cell, Direction(f), i) < AoLevel(before, cell, Direction(f), i)
  {
    var face := Direction(f);
    AoCellsDistinct(cell, f, i);
    var s1, s2, c := AoSide1(cell, face, i), AoSide2(cell, face, i), AoCorner(cell, face, i);
    if SolidifiedAt(before, after, s1) {
      assert SolidBit(after, s2) == SolidBit(before, s2) && SolidBit(after, c) == SolidBit(before, c);
    } else {
      assert SolidBit(after, s1) == SolidBit(before, s1) && SolidBit(after, c) == SolidBit(before, c);
    }
  }

  /** Turning the diagonal cell of a corner solid darkens it by one level, unless it is already fully dark. */
  lemma AoCornerDarkens(before: seq<int>, after: seq<int>, cell: Vec3, f: nat, i: nat)
    requires |before| == Volume && |after| == Volume && f < 6 && i < 4
    requires SolidifiedAt(before, after, AoCorner(cell, Direction(f), i))
    ensures var was := AoLevel(before, cell, Direction(f), i);
      AoLevel(after, cell, Direction(f), i) == if was == 0 then 0 else was - 1
  {
    var face := Direction(f);
    AoCellsDistinct(cell, f, i);
    var s1, s2 := AoSide1(cell, face, i), AoSide2(cell, face, i);
    assert SolidBit(after, s1) == SolidBit(before, s1) && SolidBit(after, s2) == SolidBit(before, s2);
  }

  /** The quad of one visible cube face of the cell at `cell`, whose type is `t`. */
  function FaceQuad(cells: seq<int>, cell: Vec3, face: Face, t: int): Quad
    requires |cells| == Volume && |face.corners| == 4
  {
    Quad([cell.Plus(face.corners[0]), cell.Plus(face.corners[1]), cell.Plus(face.corners[2]), cell.Plus(face.corners[3])],
         face.norm, MeshTile(t, face.norm),
         [AoLevel(cells, cell, face, 0), AoLevel(cells, cell, face, 1),
          AoLevel(cells, cell, face, 2), AoLevel(cells, cell, face, 3)])
  }

  /** The two diagonal planes of a grass plant. */
  const CrossPlanes: seq<seq<Vec3>> := [
    [Vec3(0, 0, 0), Vec3(1, 0, 1), Vec3(1, 1, 1), Vec3(0, 1, 0)],
    [Vec3(1, 0, 0), Vec3(0, 0, 1), Vec3(0, 1, 1), Vec3(1, 1, 0)]
  ]

  /** A plant plane: upward normal, the plant's tile, full brightness (level 3) at every corner. */
  function CrossQuad(cell: Vec3, plane: seq<Vec3>): Quad
    requires |plane| == 4
  {
    Quad([cell.Plus(plane[0]), cell.Plus(plane[1]), cell.Plus(plane[2]), cell.Plus(plane[3])],
         Vec3(0, 1, 0), TileIndexOf(BlockGrassPlant).GetOr(0), [3, 3, 3, 3])
  }

  /** The neighbour of `cell` across face `f`. */
  function Neighbour(cells: seq<int>, cell: Vec3, f: nat): int
    requires |cells| == Volume && f < 6
  {
    var n := cell.Plus(Direction(f).dir);
    LocalAt(cells, n.x, n.y, n.z)
  }

  /** The quads of the first `k` faces of a cube cell of type `t`: one per face whose neighbour is not solid. */
  function FacesUpTo(cells: seq<int>, cell: Vec3, t: int, k: nat): seq<Quad>
    requires |cells| == Volume && k <= 6
  {
    if k == 0 then [] else FacesUpTo(cells, cell, t, k - 1) + FaceStep(cells, cell, t, k - 1)
  }

  /** The quad face `f` of a cube cell of type `t` contributes: one when its local neighbour is not solid. */
  function FaceStep(cells: seq<int>, cell: Vec3, t: int, f: nat): seq<Quad>
    requires |cells| == Volume && f < 6
  {
    if !IsSolidBlock(Neighbour(cells, cell, f)) then [FaceQuad(cells, cell, Direction(f), t)] else []
  }

  /** The number of cube faces, the length of the directions table. */
  const FaceCount: nat := 6

  /** What one cell contributes: nothing for air, two plant planes, or its visible cube faces. */
  function CellQuads(cells: seq<int>, x: int, y: int, z: int): seq<Quad>
    requires |cells| == Volume
  {
    var t := LocalAt(cells, x, y, z);
    if t == BlockAir then []
    else if t == BlockGrassPlant then [CrossQuad(Vec3(x, y, z), CrossPlanes[0]), CrossQuad(Vec3(x, y, z), CrossPlanes[1])]
    else FacesUpTo(cells, Vec3(x, y, z), t, FaceCount)
  }

  /** The quads of cells (x, y, 0) .. (x, y, zEnd - 1). */
  function ZRun(cells: seq<int>, x: int, y: int, zEnd: nat): seq<Quad>
    requires |cells| == Volume
  {
    if zEnd == 0 then [] else ZRun(cells, x, y, zEnd - 1) + CellQuads(cells, x, y, zEnd - 1)
  }

  /** The quads of the rows y = 0 .. yEnd - 1 of the slice at x. */
  function YRun(cells: seq<int>, x: int, yEnd: nat): seq<Quad>
    requires |cells| == Volume
  {
    if yEnd == 0 then [] else YRun(cells, x, yEnd - 1) + ZRun(cells, x, yEnd - 1, ChunkSize)
  }

  /** The quads of the slices x = 0 .. xEnd - 1, in the mesher's x, y, z loop order. */
  function XRun(cells: seq<int>, xEnd: nat): seq<Quad>
    requires |cells| == Volume
  {
    if xEnd == 0 then [] else XRun(cells, xEnd - 1) + YRun(cells, xEnd - 1, ChunkHeight)
  }

  /** The index list of `n` quads: two triangles (o, o+1, o+2) and (o, o+2, o+3) per quad, o = 4·i. */
  function QuadIndices(n: nat): seq<int> {
    if n == 0 then []
    else
      var o := 4 * (n - 1);
      QuadIndices(n - 1) + [o, o + 1, o + 2, o, o + 2, o + 3]
  }

  /** The mesh `buildMesh` produces from the contents `cells`. */
  function MeshOf(cells: seq<int>): Mesh
    requires |cells| == Volume
  {
    var quads := XRun(cells, ChunkSize);
    Mesh(quads, QuadIndices(|quads|))
  }

  // ---------------------------------------------------------------------------------------
  // Properties of the mesh description

  /** Six indices per quad, quad i owning vertices 4i .. 4i+3, so every index names a vertex. */
  lemma {:induction false} QuadIndicesShape(n: nat)
    ensures |QuadIndices(n)| == 6 * n
    ensures forall j :: 0 <= j < |QuadIndices(n)| ==> 0 <= QuadIndices(n)[j] < 4 * n
  {
    if n > 0 {
      QuadIndicesShape(n - 1);
      var o := 4 * (n - 1);
      assert QuadIndices(n) == QuadIndices(n - 1) + [o, o + 1, o + 2, o, o + 2, o + 3];
    }
  }

  /** Quad i owns the six indices 6i .. 6i+5: its triangles (4i, 4i+1, 4i+2) and (4i, 4i+2, 4i+3). */
  lemma {:induction false} QuadIndicesTriangles(n: nat)
    ensures forall i :: 0 <= i < n ==> (6 * i + 6 <= |QuadIndices(n)| &&
      QuadIndices(n)[6 * i .. 6 * i + 6] == [4 * i, 4 * i + 1, 4 * i + 2, 4 * i, 4 * i + 2, 4 * i + 3])
  {
    if n > 0 {
      QuadIndicesTriangles(n - 1);
      QuadIndicesShape(n - 1);
      var prev := QuadIndices(n - 1);
      var o := 4 * (n - 1);
      assert QuadIndices(n) == prev + [o, o + 1, o + 2, o, o + 2, o + 3];
      forall i | 0 <= i < n
        ensures 6 * i + 6 <= |QuadIndices(n)|
        ensures QuadIndices(n)[6 * i .. 6 * i + 6] == [4 * i, 4 * i + 1, 4 * i + 2, 4 * i, 4 * i + 2, 4 * i + 3]
      {
        if i < n - 1 {
          assert QuadIndices(n)[6 * i .. 6 * i + 6] == prev[6 * i .. 6 * i + 6];
        } else {
          assert QuadIndices(n)[6 * i .. 6 * i + 6] == [o, o + 1, o + 2, o, o + 2, o + 3];
        }
      }
    }
  }


  /** An air cell emits nothing. */
  lemma AirEmitsNothing(cells: seq<int>, x: int, y: int, z: int)
    requires |cells| == Volume && LocalAt(cells, x, y, z) == BlockAir
    ensures CellQuads(cells, x, y, z) == []
  {
  }

  /** A grass plant emits exactly its two planes, whatever surrounds it. */
  lemma PlantEmitsTwoQuads(cells: seq<int>, x: int, y: int, z: int)
    requires |cells| == Volume && LocalAt(cells, x, y, z) == BlockGrassPlant
    ensures |CellQuads(cells, x, y, z)| == 2
    ensures forall q :: q in CellQuads(cells, x, y, z) ==> q.normal == Vec3(0, 1, 0) && q.ao == [3, 3, 3, 3]
  {
  }

  /** The number of the first `k` faces whose neighbour is not solid. */
  function OpenFaces(cells: seq<int>, cell: Vec3, k: nat): nat
    requires |cells| == Volume && k <= 6
  {
    if k == 0 then 0
    else OpenFaces(cells, cell, k - 1) + (if !IsSolidBlock(Neighbour(cells, cell, k - 1)) then 1 else 0)
  }

  /** Some quad of `qs` faces along `n`. */
  predicate HasNormal(qs: seq<Quad>, n: Vec3) {
    exists q :: q in qs && q.normal == n
  }

  lemma HasNormalAppend(a: seq<Quad>, b: seq<Quad>, n: Vec3)
    ensures HasNormal(a + b, n) <==> HasNormal(a, n) || HasNormal(b, n)
  {
    if HasNormal(a, n) {
      var q :| q in a && q.normal == n;
      assert q in a + b;
    }
    if HasNormal(b, n) {
      var q :| q in b && q.normal == n;
      assert q in a + b;
    }
  }

  /** Face g contributes a quad facing along face f's normal iff f is g and g is open. */
  lemma FaceStepNormal(cells: seq<int>, cell: Vec3, t: int, g: nat, f: nat)
    requires |cells| == Volume && g < 6 && f < 6
    ensures HasNormal(FaceStep(cells, cell, t, g), Direction(f).norm) <==>
      f == g && !IsSolidBlock(Neighbour(cells, cell, g))
  {
    NormalsDistinct(f, g);
    if f == g && !IsSolidBlock(Neighbour(cells, cell, g)) {
      assert FaceQuad(cells, cell, Direction(g), t) in FaceStep(cells, cell, t, g);
    }
  }

  /**
   * Face culling: among the first `k` faces, a quad with face f's normal is emitted exactly when
   * f's neighbour is not solid, and there is one quad per such face.
   */
  lemma {:induction false} FacesUpToSpec(cells: seq<int>, cell: Vec3, t: int, k: nat)
    requires |cells| == Volume && k <= 6
    ensures |FacesUpTo(cells, cell, t, k)| == OpenFaces(cells, cell, k)
    ensures forall f :: 0 <= f < 6 ==>
      (HasNormal(FacesUpTo(cells, cell, t, k), Direction(f).norm) <==> f < k && !IsSolidBlock(Neighbour(cells, cell, f)))
  {
    if k > 0 {
      FacesUpToSpec(cells, cell, t, k - 1);
      var prev, step := FacesUpTo(cells, cell, t, k - 1), FaceStep(cells, cell, t, k - 1);
      assert FacesUpTo(cells, cell, t, k) == prev + step;
      forall f | 0 <= f < 6
        ensures HasNormal(prev + step, Direction(f).norm) <==> f < k && !IsSolidBlock(Neighbour(cells, cell, f))
      {
        HasNormalAppend(prev, step, Direction(f).norm);
        FaceStepNormal(cells, cell, t, k - 1, f);
      }
    }
  }

  /** A cube cell is a cube cell: neither air nor the plant. */
  predicate IsCubeCell(cells: seq<int>, x: int, y: int, z: int)
    requires |cells| == Volume
  {
    LocalAt(cells, x, y, z) != BlockAir && LocalAt(cells, x, y, z) != BlockGrassPlant
  }

  /** A cube face is emitted iff the local neighbour across it is not solid. */
  lemma FaceEmittedIffOpen(cells: seq<int>, x: int, y: int, z: int, f: nat)
    requires |cells| == Volume && IsCubeCell(cells, x, y, z) && f < 6
    ensures HasNormal(CellQuads(cells, x, y, z), Direction(f).norm) <==> !IsSolidBlock(Neighbour(cells, Vec3(x, y, z), f))
  {
    FacesUpToSpec(cells, Vec3(x, y, z), LocalAt(cells, x, y, z), FaceCount);
  }

  /** When every face but `g` is closed, only `g` can count as open. */
  lemma {:induction false} OpenFacesOnly(cells: seq<int>, cell: Vec3, k: nat, g: int)
    requires |cells| == Volume && k <= 6
    requires forall f :: 0 <= f < 6 && f != g ==> IsSolidBlock(Neighbour(cells, cell, f))
    ensures OpenFaces(cells, cell, k) == if 0 <= g < k && !IsSolidBlock(Neighbour(cells, cell, g)) then 1 else 0
  {
    if k > 0 {
      OpenFacesOnly(cells, cell, k - 1, g);
    }
  }

  /** A cube cell whose six neighbours are all solid emits nothing. */
  lemma EnclosedCellEmitsNothing(cells: seq<int>, x: int, y: int, z: int)
    requires |cells| == Volume && IsCubeCell(cells, x, y, z)
    requires forall f :: 0 <= f < 6 ==> IsSolidBlock(Neighbour(cells, Vec3(x, y, z), f))
    ensures CellQuads(cells, x, y, z) == []
  {
    FacesUpToSpec(cells, Vec3(x, y, z), LocalAt(cells, x, y, z), FaceCount);
    OpenFacesOnly(cells, Vec3(x, y, z), 6, -1);
  }

  /** A cube cell with exactly one non-solid neighbour emits exactly the quad of that face. */
  lemma SingleOpenFace(cells: seq<int>, x: int, y: int, z: int, g: nat)
    requires |cells| == Volume && IsCubeCell(cells, x, y, z) && g < 6
    requires !IsSolidBlock(Neighbour(cells, Vec3(x, y, z), g))
    requires forall f :: 0 <= f < 6 && f != g ==> IsSolidBlock(Neighbour(cells, Vec3(x, y, z), f))
    ensures |CellQuads(cells, x, y, z)| == 1
    ensures CellQuads(cells, x, y, z)[0].normal == Direction(g).norm
  {
    FacesUpToSpec(cells, Vec3(x, y, z), LocalAt(cells, x, y, z), FaceCount);
    OpenFacesOnly(cells, Vec3(x, y, z), 6, g);
    var q :| q in CellQuads(cells, x, y, z) && q.normal == Direction(g).norm;
  }

  /**
   * Neighbours outside the chunk read as air, so a cube cell on the chunk's boundary always
   * emits each face that points out of the chunk.
   */
  lemma BorderFaceEmitted(cells: seq<int>, x: int, y: int, z: int, f: nat)
    requires |cells| == Volume && IsCubeCell(cells, x, y, z) && f < 6
    requires var n := Vec3(x, y, z).Plus(Direction(f).dir); !InChunk(n.x, n.y, n.z)
    ensures HasNormal(CellQuads(cells, x, y, z), Direction(f).norm)
  {
    FaceEmittedIffOpen(cells, x, y, z, f);
  }

  // ---------------------------------------------------------------------------------------
  // The chunk object

  class Chunk {
    const chunkX: int
    const chunkZ: int
    const generator: TerrainSource
    /** The block storage, a `Uint8Array` of `Volume` cells. */
    const data: array<int>
    /** `null` until the first `buildMesh`; the mesh built last otherwise. */
    var mesh: Option<Mesh>
    var isDirty: bool

    ghost predicate Valid() {
      data.Length == Volume
    }

    /** The storage contents. */
    function Cells(): (s: seq<int>)
      reads data
      requires Valid()
      ensures |s| == Volume
    {
      data[..]
    }

    /** The mesh is up to date: built from the current contents, and the chunk is not dirty. */
    ghost predicate Built()
      reads this, data
    {
      Valid() && mesh == Some(MeshOf(Cells())) && !isDirty
    }

    /** A new chunk is filled from the generator, has no mesh and is dirty. */
    constructor (cx: int, cz: int, gen: TerrainSource)
      ensures Valid() && fresh(data)
      ensures chunkX == cx && chunkZ == cz && generator == gen
      ensures mesh == None && isDirty
      ensures Cells() == GeneratedCells(gen, cx, cz)
    {
      chunkX := cx;
      chunkZ := cz;
      generator := gen;
      data := new int[16384](_ => 0);
      mesh := None;
      isDirty := true;
      new;
      Populate();
      forall i | 0 <= i < Volume
        ensures data[i] == GeneratedCells(gen, cx, cz)[i]
      {
        SlotCell(i);
        assert LocalAt(Cells(), i % 16, i / 256, i / 16 % 16) == data[i];
      }
    }

    /** `getBlockLocal`: air outside the chunk, otherwise the stored cell. */
    function GetBlockLocal(x: int, y: int, z: int): (r: int)
      reads this, data
      requires Valid()
      ensures !InChunk(x, y, z) ==> r == BlockAir
      ensures InChunk(x, y, z) ==> r == data[GetIndex(x, y, z)]
    {
      if x < 0 || y < 0 || z < 0 || x >= 16 || y >= 64 || z >= 16 then BlockAir
      else data[GetIndex(x, y, z)]
    }

    /** `setBlockLocal`: an in-range write stores the low 8 bits and marks the chunk dirty. */
    method SetBlockLocal(x: int, y: int, z: int, t: int)
      requires Valid()
      modifies data, this`isDirty
      ensures data[..] == WriteLocal(old(data[..]), x, y, z, t)
      ensures isDirty == (old(isDirty) || InChunk(x, y, z))
    {
      if x < 0 || y < 0 || z < 0 || x >= 16 || y >= 64 || z >= 16 {
        return;
      }
      data[GetIndex(x, y, z)] := ToUint8(t);
      isDirty := true;
    }

    /** `populate`: every cell, column by column, from the generator's height and layering. */
    method Populate()
      requires Valid()
      modifies data, this`isDirty
      ensures isDirty
      ensures forall x, y, z :: InChunk(x, y, z) ==>
        LocalAt(Cells(), x, y, z) == Generated(generator, chunkX, chunkZ, x, y, z)
    {
      var x := 0;
      while x < 16
        invariant 0 <= x <= 16
        invariant forall x', y', z' :: InChunk(x', y', z') && x' < x ==>
          data[GetIndex(x', y', z')] == Generated(generator, chunkX, chunkZ, x', y', z')
      {
        var z := 0;
        while z < 16
          invariant 0 <= z <= 16
          invariant forall x', y', z' :: InChunk(x', y', z') && (x' < x || (x' == x && z' < z)) ==>
            data[GetIndex(x', y', z')] == Generated(generator, chunkX, chunkZ, x', y', z')
        {
          var worldX := chunkX * 16 + x;
          var worldZ := chunkZ * 16 + z;
          var columnHeight := GetHeightAt(generator, worldX, worldZ);
          var y := 0;
          while y < 64
            invariant 0 <= y <= 64
            invariant forall x', y', z' :: InChunk(x', y', z') && (x' < x || (x' == x && (z' < z || (z' == z && y' < y)))) ==>
              data[GetIndex(x', y', z')] == Generated(generator, chunkX, chunkZ, x', y', z')
          {
            ghost var before := data[..];
            data[GetIndex(x, y, z)] := GetBlockAt(generator, worldX, y, worldZ, columnHeight);
            forall x', y', z' | InChunk(x', y', z') && (x' < x || (x' == x && (z' < z || (z' == z && y' < y + 1))))
              ensures data[GetIndex(x', y', z')] == Generated(generator, chunkX, chunkZ, x', y', z')
            {
              IndexInjective(x, y, z, x', y', z');
            }
            y := y + 1;
          }
          z := z + 1;
        }
        x := x + 1;
      }
      isDirty := true;
    }

    /**
     * `buildMesh`: every cell in x, y, z order.  The mesh is stored and the chunk is no longer
     * dirty.
     */
    method BuildMesh() returns (m: Mesh)
      requires Valid()
      modifies this`mesh, this`isDirty
      ensures m == MeshOf(Cells())
      ensures mesh == Some(m) && !isDirty
    {
      var cells := data[..];
      var quads: seq<Quad> := [];
      var indices: seq<int> := [];
      var indexOffset := 0;
      var x := 0;
      while x < 16
        invariant 0 <= x <= 16
        invariant quads == XRun(cells, x)
        invariant indices == QuadIndices(|quads|) && indexOffset == 4 * |quads|
      {
        quads, indices, indexOffset := EmitSlice(cells, x, quads, indices, indexOffset);
        x := x + 1;
      }
      m := Mesh(quads, indices);
      mesh := Some(m);
      isDirty := false;
    }
  }

  /** The y loop of `buildMesh`: the rows of slice x, bottom to top. */
  method EmitSlice(cells: seq<int>, x: int, quads: seq<Quad>, indices: seq<int>, indexOffset: int)
    returns (quads': seq<Quad>, indices': seq<int>, indexOffset': int)
    requires |cells| == Volume
    requires indices == QuadIndices(|quads|) && indexOffset == 4 * |quads|
    ensures quads' == quads + YRun(cells, x, ChunkHeight)
    ensures indices' == QuadIndices(|quads'|) && indexOffset' == 4 * |quads'|
  {
    quads', indices', indexOffset' := quads, indices, indexOffset;
    var y := 0;
    while y < 64
      invariant 0 <= y <= 64
      invariant quads' == quads + YRun(cells, x, y)
      invariant indices' == QuadIndices(|quads'|) && indexOffset' == 4 * |quads'|
    {
      ghost var before := quads';
      quads', indices', indexOffset' := EmitRow(cells, x, y, quads', indices', indexOffset');
      YRunStep(cells, x, y, quads, before);
      y := y + 1;
    }
  }

  lemma ZRunStep(cells: seq<int>, x: int, y: int, z: nat, start: seq<Quad>, quads: seq<Quad>)
    requires |cells| == Volume && quads == start + ZRun(cells, x, y, z)
    ensures quads + CellQuads(cells, x, y, z) == start + ZRun(cells, x, y, z + 1)
  {
    var run, cell := ZRun(cells, x, y, z), CellQuads(cells, x, y, z);
    assert ZRun(cells, x, y, z + 1) == run + cell;
    AppendAssoc(start, run, cell);
  }

  lemma YRunStep(cells: seq<int>, x: int, y: nat, start: seq<Quad>, quads: seq<Quad>)
    requires |cells| == Volume && quads == start + YRun(cells, x, y)
    ensures quads + ZRun(cells, x, y, ChunkSize) == start + YRun(cells, x, y + 1)
  {
    var run, row := YRun(cells, x, y), ZRun(cells, x, y, ChunkSize);
    assert YRun(cells, x, y + 1) == run + row;
    AppendAssoc(start, run, row);
  }

  lemma AppendAssoc<T>(a: seq<T>, b: seq<T>, c: seq<T>)
    ensures (a + b) + c == a + (b + c)
  {
  }

  /** The z loop of `buildMesh`: the cells of row (x, y), front to back. */
  method EmitRow(cells: seq<int>, x: int, y: int, quads: seq<Quad>, indices: seq<int>, indexOffset: int)
    returns (quads': seq<Quad>, indices': seq<int>, indexOffset': int)
    requires |cells| == Volume
    requires indices == QuadIndices(|quads|) && indexOffset == 4 * |quads|
    ensures quads' == quads + ZRun(cells, x, y, ChunkSize)
    ensures indices' == QuadIndices(|quads'|) && indexOffset' == 4 * |quads'|
  {
    quads', indices', indexOffset' := quads, indices, indexOffset;
    var z := 0;
    while z < ChunkSize
      invariant 0 <= z <= ChunkSize
      invariant quads' == quads + ZRun(cells, x, y, z)
      invariant indices' == QuadIndices(|quads'|) && indexOffset' == 4 * |quads'|
    {
      ZRunStep(cells, x, y, z, quads, quads');
      quads', indices', indexOffset' := EmitCell(cells, x, y, z, quads', indices', indexOffset');
      z := z + 1;
    }
  }

  /**
   * The body of `buildMesh` for one cell: air is skipped, a plant adds its two planes, a cube
   * adds one quad per face whose local neighbour is not solid.  Each quad appends the indices of
   * its two triangles and advances the vertex offset by 4.
   */
  method EmitCell(cells: seq<int>, x: int, y: int, z: int, quads: seq<Quad>, indices: seq<int>, indexOffset: int)
    returns (quads': seq<Quad>, indices': seq<int>, indexOffset': int)
    requires |cells| == Volume
    requires indices == QuadIndices(|quads|) && indexOffset == 4 * |quads|
    ensures quads' == quads + CellQuads(cells, x, y, z)
    ensures indices' == QuadIndices(|quads'|) && indexOffset' == 4 * |quads'|
  {
    var t := LocalAt(cells, x, y, z);
    if t == BlockAir {
      quads', indices', indexOffset' := quads, indices, indexOffset;
    } else if t == BlockGrassPlant {
      quads', indices', indexOffset' := quads, indices, indexOffset;
      var p := 0;
      while p < 2
        invariant 0 <= p <= 2
        invariant quads' == quads + seq(p, i requires 0 <= i < p => CrossQuad(Vec3(x, y, z), CrossPlanes[i]))
        invariant indices' == QuadIndices(|quads'|) && indexOffset' == 4 * |quads'|
      {
        quads', indices', indexOffset' := PushQuad(quads', indices', indexOffset', CrossQuad(Vec3(x, y, z), CrossPlanes[p]));
        p := p + 1;
      }
    } else {
      quads', indices', indexOffset' := EmitFaces(cells, x, y, z, t, quads, indices, indexOffset);
    }
  }

  /** The face loop of `buildMesh` for a cube cell of type `t`. */
  method EmitFaces(cells: seq<int>, x: int, y: int, z: int, t: int, quads: seq<Quad>, indices: seq<int>, indexOffset: int)
    returns (quads': seq<Quad>, indices': seq<int>, indexOffset': int)
    requires |cells| == Volume
    requires indices == QuadIndices(|quads|) && indexOffset == 4 * |quads|
    ensures quads' == quads + FacesUpTo(cells, Vec3(x, y, z), t, FaceCount)
    ensures indices' == QuadIndices(|quads'|) && indexOffset' == 4 * |quads'|
  {
    quads', indices', indexOffset' := quads, indices, indexOffset;
    var f := 0;
    while f < FaceCount
      invariant 0 <= f <= FaceCount
      invariant quads' == quads + FacesUpTo(cells, Vec3(x, y, z), t, f)
      invariant indices' == QuadIndices(|quads'|) && indexOffset' == 4 * |quads'|
    {
      FacesUpToStep(cells, Vec3(x, y, z), t, f, quads, quads');
      quads', indices', indexOffset' := EmitFace(cells, x, y, z, t, f, quads', indices', indexOffset');
      f := f + 1;
    }
  }

  /** One iteration of the face loop: the quad of face `f` when its local neighbour is not solid. */
  method EmitFace(cells: seq<int>, x: int, y: int, z: int, t: int, f: nat, quads: seq<Quad>, indices: seq<int>, indexOffset: int)
    returns (quads': seq<Quad>, indices': seq<int>, indexOffset': int)
    requires |cells| == Volume && f < 6
    requires indices == QuadIndices(|quads|) && indexOffset == 4 * |quads|
    ensures quads' == quads + FaceStep(cells, Vec3(x, y, z), t, f)
    ensures indices' == QuadIndices(|quads'|) && indexOffset' == 4 * |quads'|
  {
    var face := Direction(f);
    var neighbour := LocalAt(cells, x + face.dir.x, y + face.dir.y, z + face.dir.z);
    assert neighbour == Neighbour(cells, Vec3(x, y, z), f);
    if !IsSolidBlock(neighbour) {
      quads', indices', indexOffset' := PushQuad(quads, indices, indexOffset, FaceQuad(cells, Vec3(x, y, z), face, t));
    } else {
      quads', indices', indexOffset' := quads, indices, indexOffset;
    }
  }

  lemma FacesUpToStep(cells: seq<int>, cell: Vec3, t: int, f: nat, start: seq<Quad>, quads: seq<Quad>)
    requires |cells| == Volume && f < 6 && quads == start + FacesUpTo(cells, cell, t, f)
    ensures quads + FaceStep(cells, cell, t, f) == start + FacesUpTo(cells, cell, t, f + 1)
  {
  }

  /** Appends one quad: its four vertices start at `indexOffset`, and two triangles index them. */
  method PushQuad(quads: seq<Quad>, indices: seq<int>, indexOffset: int, q: Quad)
    returns (quads': seq<Quad>, indices': seq<int>, indexOffset': int)
    requires indices == QuadIndices(|quads|) && indexOffset == 4 * |quads|
    ensures quads' == quads + [q]
    ensures indices' == QuadIndices(|quads'|) && indexOffset' == 4 * |quads'|
  {
    quads' := quads + [q];
    indices' := indices + [indexOffset, indexOffset + 1, indexOffset + 2, indexOffset, indexOffset + 2, indexOffset + 3];
    indexOffset' := indexOffset + 4;
  }

  /** After `populate`, a cell is solid exactly up to its column's surface height. */
  lemma PopulatedSolidity(src: TerrainSource, cx: int, cz: int, x: int, y: int, z: int)
    ensures IsSolidBlock(Generated(src, cx, cz, x, y, z)) <==> y <= GetHeightAt(src, cx * 16 + x, cz * 16 + z)
  {
    ColumnLayers(src, cx * 16 + x, y, cz * 16 + z, GetHeightAt(src, cx * 16 + x, cz * 16 + z));
  }
}
