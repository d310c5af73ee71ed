// The texture atlas: tiles of `tileSize` pixels laid out in `cols` columns and `rows` rows, and
// the mapping from a tile index to its rectangle in normalised texture coordinates.

module Textures {
  import opened Utils

  /** The parts of an atlas that `getTileUV` reads: its grid and the pixel size of its image. */
  datatype Atlas = Atlas(tileSize: int, cols: int, rows: int, width: int, height: int)

  /** The atlas image is exactly the grid of tiles (the canvas is cols·tileSize by rows·tileSize). */
  predicate WellFormed(a: Atlas) {
    a.tileSize > 0 && a.cols > 0 && a.rows > 0
    && a.width == a.cols * a.tileSize && a.height == a.rows * a.tileSize
  }

  /** The atlas `createAtlasTexture` builds: 32-pixel tiles, 11 columns, 2 rows. */
  const GameAtlas := Atlas(32, 11, 2, 11 * 32, 2 * 32)

  datatype UV = UV(u0: real, v0: real, u1: real, v1: real)

  /** `getTileUV`: the rectangle of tile `t`, counting tiles row by row from the top left. */
  function GetTileUV(t: int, a: Atlas): UV
    requires a.cols != 0 && a.width != 0 && a.height != 0
  {
    var col := JsRem(t, a.cols);
    var row := FloorDiv(t, a.cols);
    UV((col * a.tileSize) as real / a.width as real,
       (row * a.tileSize) as real / a.height as real,
       ((col + 1) * a.tileSize) as real / a.width as real,
       ((row + 1) * a.tileSize) as real / a.height as real)
  }

  lemma GameAtlasWellFormed()
    ensures WellFormed(GameAtlas)
  {
  }

  /** For a tile index that is not negative, its column and row are its position in the grid. */
  lemma TileCell(t: int, a: Atlas)
    requires a.cols > 0 && t >= 0
    ensures 0 <= JsRem(t, a.cols) < a.cols
    ensures 0 <= FloorDiv(t, a.cols)
    ensures FloorDiv(t, a.cols) * a.cols + JsRem(t, a.cols) == t
  {
    ModIsResidue(t, a.cols);
    assert JsRem(t, a.cols) == Mod(t, a.cols);
    FloorDivNonNegative(t, a.cols);
  }

  /** Every rectangle is one tile wide and one tile high, so it is never empty for positive sizes. */
  lemma TileExtent(t: int, a: Atlas)
    requires a.cols != 0 && a.width != 0 && a.height != 0
    ensures GetTileUV(t, a).u1 - GetTileUV(t, a).u0 == a.tileSize as real / a.width as real
    ensures GetTileUV(t, a).v1 - GetTileUV(t, a).v0 == a.tileSize as real / a.height as real
    ensures a.tileSize > 0 && a.width > 0 ==> GetTileUV(t, a).u0 < GetTileUV(t, a).u1
    ensures a.tileSize > 0 && a.height > 0 ==> GetTileUV(t, a).v0 < GetTileUV(t, a).v1
  {
    var col := JsRem(t, a.cols);
    var row := FloorDiv(t, a.cols);
    NextMultiple(col, a.tileSize, a.width);
    NextMultiple(row, a.tileSize, a.height);
  }

  /** Consecutive multiples of `s`, scaled by `w`, lie `s / w` apart. */
  lemma NextMultiple(k: int, s: int, w: int)
    requires w != 0
    ensures ((k + 1) * s) as real / w as real - (k * s) as real / w as real == s as real / w as real
    ensures s > 0 && w > 0 ==> (k * s) as real / w as real < ((k + 1) * s) as real / w as real
  {
    assert (k + 1) * s == k * s + s;
    var x, y, ww := ((k + 1) * s) as real, (k * s) as real, w as real;
    assert x - y == s as real;
    assert x / ww - y / ww == (x - y) / ww;
  }

  /**
   * In a well-formed atlas the horizontal coordinates are the column over the column count and
   * lie in [0, 1]; for a tile index inside the grid so do the vertical ones.
   */
  lemma NormalisedTile(t: int, a: Atlas)
    requires WellFormed(a) && t >= 0
    ensures GetTileUV(t, a).u0 == JsRem(t, a.cols) as real / a.cols as real
    ensures GetTileUV(t, a).u1 == (JsRem(t, a.cols) + 1) as real / a.cols as real
    ensures 0.0 <= GetTileUV(t, a).u0 < GetTileUV(t, a).u1 <= 1.0
    ensures t < a.cols * a.rows ==> 0.0 <= GetTileUV(t, a).v0 < GetTileUV(t, a).v1 <= 1.0
  {
    TileExtent(t, a);
    HorizontalTile(t, a);
    if t < a.cols * a.rows {
      VerticalTile(t, a);
    }
  }

  /** The horizontal half of `NormalisedTile`. */
  lemma HorizontalTile(t: int, a: Atlas)
    requires WellFormed(a) && t >= 0
    ensures GetTileUV(t, a).u0 == JsRem(t, a.cols) as real / a.cols as real
    ensures GetTileUV(t, a).u1 == (JsRem(t, a.cols) + 1) as real / a.cols as real
    ensures 0.0 <= GetTileUV(t, a).u0 && GetTileUV(t, a).u1 <= 1.0
  {
    var col := JsRem(t, a.cols);
    TileCell(t, a);
    CancelTile(col, a.cols, a.tileSize);
    CancelTile(col + 1, a.cols, a.tileSize);
    FractionAtMostOne(col, a.cols);
    FractionAtMostOne(col + 1, a.cols);
  }

  /** The vertical half of `NormalisedTile`, for a tile index inside the grid. */
  lemma VerticalTile(t: int, a: Atlas)
    requires WellFormed(a) && 0 <= t < a.cols * a.rows
    ensures 0.0 <= GetTileUV(t, a).v0 && GetTileUV(t, a).v1 <= 1.0
  {
    var row := FloorDiv(t, a.cols);
    RowInGrid(t, a.cols, a.rows);
    CancelTile(row, a.rows, a.tileSize);
    CancelTile(row + 1, a.rows, a.tileSize);
    FractionAtMostOne(row, a.rows);
    FractionAtMostOne(row + 1, a.rows);
  }

  lemma CancelTile(k: int, n: int, s: int)
    requires n > 0 && s > 0
    ensures (k * s) as real / (n * s) as real == k as real / n as real
  {
    var ks, ns := (k * s) as real, (n * s) as real;
    assert ks == k as real * s as real;
    assert ns == n as real * s as real;
  }

  lemma FractionAtMostOne(k: int, n: int)
    requires 0 <= k <= n && n > 0
    ensures 0.0 <= k as real / n as real <= 1.0
  {
  }

  lemma RowInGrid(t: int, cols: int, rows: int)
    requires cols > 0 && rows > 0 && 0 <= t < cols * rows
    ensures 0 <= FloorDiv(t, cols) < rows
  {
    FloorDivNonNegative(t, cols);
    var q := FloorDiv(t, cols);
    FloorDivBounds(t, cols);
    assert q * cols <= t;
    assert cols * rows == rows * cols;
    LessByFactor(q, rows, cols);
  }

  lemma FloorDivNonNegative(t: int, n: int)
    requires n > 0 && t >= 0
    ensures 0 <= FloorDiv(t, n)
  {
  }

  lemma LessByFactor(a: int, b: int, m: int)
    requires m > 0 && a * m < b * m
    ensures a < b
  {
  }

  /** Neighbouring tiles of one row share an edge: the right edge of `t` is the left edge of `t + 1`. */
  lemma SharedEdge(t: int, a: Atlas)
    requires a.cols > 0 && a.width != 0 && a.height != 0
    requires t >= 0 && JsRem(t, a.cols) < a.cols - 1
    ensures GetTileUV(t + 1, a).u0 == GetTileUV(t, a).u1
    ensures GetTileUV(t + 1, a).v0 == GetTileUV(t, a).v0
    ensures GetTileUV(t + 1, a).v1 == GetTileUV(t, a).v1
  {
    NextInRow(t, a.cols);
  }

  lemma NextInRow(t: int, n: int)
    requires n > 0 && t >= 0 && JsRem(t, n) < n - 1
    ensures JsRem(t + 1, n) == JsRem(t, n) + 1
    ensures FloorDiv(t + 1, n) == FloorDiv(t, n)
  {
    DivModUnique(t + 1, n, FloorDiv(t, n), JsRem(t, n) + 1);
  }
}
