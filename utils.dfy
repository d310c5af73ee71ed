/**
 * Coordinate helpers of the voxel engine: JavaScript's remainder and floor division on
 * integers, the world-to-chunk split, chunk keys, the ring-ordered neighbourhood of a chunk
 * and a stand-alone grid-traversal raycast.
 */
module Utils {
  import opened Basics

  /** JavaScript's `%` on integers: truncating, the result takes the dividend's sign. */
  function JsRem(a: int, b: int): (r: int)
    requires b != 0
    ensures Abs(r) < Abs(b)
    ensures a >= 0 ==> r >= 0
    ensures a < 0 ==> r <= 0
  {
    if a >= 0 then a % Abs(b) else -((-a) % Abs(b))
  }

  /** `Math.floor(x / s)` for integers. */
  function FloorDiv(x: int, s: int): int
    requires s != 0
  {
    if s > 0 then x / s else (-x) / (-s)
  }

  /** `mod(n, m)`: the remainder shifted into the divisor's range. */
  function Mod(n: int, m: int): int
    requires m != 0
  {
    JsRem(JsRem(n, m) + m, m)
  }

  lemma {:induction false} MulAtLeast(a: int, m: int)
    requires a >= 1 && m > 0
    ensures a * m >= m
  {
    if a > 1 {
      MulAtLeast(a - 1, m);
      assert a * m == (a - 1) * m + m;
    }
  }

  /** Euclidean division is unique: any quotient/remainder pair in range is Dafny's. */
  lemma DivModUnique(n: int, m: int, q: int, r: int)
    requires m > 0 && 0 <= r < m && n == q * m + r
    ensures n / m == q && n % m == r
  {
    var q', r' := n / m, n % m;
    assert n == q' * m + r' && 0 <= r' < m;
    assert (q - q') * m == r' - r;
    if q > q' {
      MulAtLeast(q - q', m);
    } else if q < q' {
      MulAtLeast(q' - q, m);
    }
  }

  /** For a positive modulus, `mod` is the mathematical residue: in [0, m) and congruent to n. */
  lemma ModIsResidue(n: int, m: int)
    requires m > 0
    ensures 0 <= Mod(n, m) < m
    ensures Mod(n, m) == n % m
    ensures n == FloorDiv(n, m) * m + Mod(n, m)
  {
    var r := JsRem(n, m);
    var s := r + m;
    assert 0 < s < 2 * m;
    if n >= 0 {
      assert r == n % m;
      DivModUnique(s, m, 1, r);
    } else {
      var k := (-n) % m;
      assert r == -k && -n == ((-n) / m) * m + k;
      if k == 0 {
        DivModUnique(s, m, 1, 0);
        DivModUnique(n, m, -((-n) / m), 0);
      } else {
        DivModUnique(s, m, 0, s);
        DivModUnique(n, m, -((-n) / m) - 1, m - k);
      }
    }
  }

  /** The floor division satisfies cx*s <= x < (cx+1)*s for a positive divisor. */
  lemma FloorDivBounds(x: int, s: int)
    requires s > 0
    ensures FloorDiv(x, s) * s <= x < (FloorDiv(x, s) + 1) * s
  {
  }

  datatype ChunkCoords = ChunkCoords(cx: int, cy: int, cz: int)
  datatype LocalCoords = LocalCoords(lx: int, ly: int, lz: int)

  function GetChunkCoordsFromWorld(x: int, y: int, z: int, chunkSize: int): (c: ChunkCoords)
    requires chunkSize > 0
    ensures c.cx * chunkSize <= x < (c.cx + 1) * chunkSize
    ensures c.cy * chunkSize <= y < (c.cy + 1) * chunkSize
    ensures c.cz * chunkSize <= z < (c.cz + 1) * chunkSize
  {
    FloorDivBounds(x, chunkSize);
    FloorDivBounds(y, chunkSize);
    FloorDivBounds(z, chunkSize);
    ChunkCoords(FloorDiv(x, chunkSize), FloorDiv(y, chunkSize), FloorDiv(z, chunkSize))
  }

  /** The local part of one coordinate: `mod(x, s)` is `x - s * floor(x / s)`, in [0, s). */
  lemma LocalPart(x: int, s: int)
    requires s > 0
    ensures 0 <= Mod(x, s) < s
    ensures Mod(x, s) == x - s * FloorDiv(x, s)
  {
    ModIsResidue(x, s);
  }

  function GetLocalVoxelCoords(x: int, y: int, z: int, chunkSize: int): (l: LocalCoords)
    requires chunkSize > 0
    ensures 0 <= l.lx < chunkSize && 0 <= l.ly < chunkSize && 0 <= l.lz < chunkSize
    ensures l.lx == x - chunkSize * FloorDiv(x, chunkSize)
    ensures l.ly == y - chunkSize * FloorDiv(y, chunkSize)
    ensures l.lz == z - chunkSize * FloorDiv(z, chunkSize)
  {
    LocalPart(x, chunkSize);
    LocalPart(y, chunkSize);
    LocalPart(z, chunkSize);
    LocalCoords(Mod(x, chunkSize), Mod(y, chunkSize), Mod(z, chunkSize))
  }

  /** Splitting a coordinate into chunk and local parts and joining them again is the identity. */
  lemma SplitJoin(x: int, chunkSize: int)
    requires chunkSize > 0
    ensures GetChunkCoordsFromWorld(x, 0, 0, chunkSize).cx * chunkSize
            + GetLocalVoxelCoords(x, 0, 0, chunkSize).lx == x
  {
  }

  // ---------------------------------------------------------------------------------------
  // Chunk keys: the template string `${cx},${cz}`.

  function DigitChar(d: int): char
    requires 0 <= d < 10
  {
    "0123456789"[d]
  }

  predicate IsDigit(c: char) { '0' <= c <= '9' }

  /** Decimal digits of a natural number, most significant first. */
  function Digits(n: nat): (s: string)
    ensures |s| >= 1
    ensures forall i :: 0 <= i < |s| ==> IsDigit(s[i])
    ensures n >= 10 ==> |s| >= 2
  {
    if n < 10 then [DigitChar(n)] else Digits(n / 10) + [DigitChar(n % 10)]
  }

  /** JavaScript's number-to-string conversion for an integer. */
  function IntToString(n: int): (s: string)
    ensures forall i :: 0 <= i < |s| ==> s[i] != ','
  {
    if n < 0 then "-" + Digits(-n) else Digits(n)
  }

  function ChunkKey(cx: int, cz: int): string {
    IntToString(cx) + "," + IntToString(cz)
  }

  lemma {:induction false} DigitsInjective(a: nat, b: nat)
    requires Digits(a) == Digits(b)
    ensures a == b
  {
    if a < 10 && b < 10 {
      assert "0123456789"[a] == Digits(a)[0] == Digits(b)[0] == "0123456789"[b];
    } else if a >= 10 && b >= 10 {
      var da, db := Digits(a), Digits(b);
      assert da[|da| - 1] == DigitChar(a % 10);
      assert db[|db| - 1] == DigitChar(b % 10);
      assert a % 10 == b % 10;
      assert Digits(a / 10) == da[..|da| - 1] == db[..|db| - 1] == Digits(b / 10);
      DigitsInjective(a / 10, b / 10);
    }
  }

  /** A rendered integer starts with '-' exactly when it is negative. */
  lemma LeadingSign(n: int)
    ensures |IntToString(n)| >= 1
    ensures IntToString(n)[0] == '-' <==> n < 0
    ensures n < 0 ==> IntToString(n)[1..] == Digits(-n)
  {
  }

  lemma IntToStringInjective(a: int, b: int)
    requires IntToString(a) == IntToString(b)
    ensures a == b
  {
    LeadingSign(a);
    LeadingSign(b);
    if a < 0 {
      DigitsInjective(-a, -b);
    } else {
      DigitsInjective(a, b);
    }
  }

  lemma FirstComma(s: string, t: string)
    requires forall i :: 0 <= i < |s| ==> s[i] != ','
    ensures (s + "," + t)[|s|] == ','
    ensures forall i :: 0 <= i < |s| ==> (s + "," + t)[i] != ','
  {
  }

  /** Distinct chunk coordinates give distinct keys. */
  lemma ChunkKeyInjective(cx1: int, cz1: int, cx2: int, cz2: int)
    requires ChunkKey(cx1, cz1) == ChunkKey(cx2, cz2)
    ensures cx1 == cx2 && cz1 == cz2
  {
    var a1, b1 := IntToString(cx1), IntToString(cz1);
    var a2, b2 := IntToString(cx2), IntToString(cz2);
    var k := ChunkKey(cx1, cz1);
    assert k == a1 + "," + b1 == a2 + "," + b2;
    FirstComma(a1, b1);
    FirstComma(a2, b2);
    assert |a1| == |a2|;
    assert a1 == k[..|a1|] == a2;
    assert b1 == k[|a1| + 1..] == b2;
    IntToStringInjective(cx1, cx2);
    IntToStringInjective(cz1, cz2);
  }

  // ---------------------------------------------------------------------------------------
  // The neighbourhood of a chunk, ring by ring: offsets (x, z) with max(|x|, |z|) == r for
  // r = 0, 1, ..., each ring listed row by row (x ascending, then z ascending).

  /** Row x of ring r, for z in [-r, zEnd). */
  function RowCells(r: int, x: int, zEnd: int): seq<(int, int)>
    requires 0 <= r && -r <= zEnd <= r + 1
    decreases zEnd + r
  {
    if zEnd == -r then []
    else RowCells(r, x, zEnd - 1) + (if Cheb(x, zEnd - 1) == r then [(x, zEnd - 1)] else [])
  }

  /** Rows x in [-r, xEnd) of ring r. */
  function RingRows(r: int, xEnd: int): seq<(int, int)>
    requires 0 <= r && -r <= xEnd <= r + 1
    decreases xEnd + r
  {
    if xEnd == -r then [] else RingRows(r, xEnd - 1) + RowCells(r, xEnd - 1, r + 1)
  }

  /** Rings 0 .. rEnd - 1. */
  function Rings(rEnd: nat): seq<(int, int)> {
    if rEnd == 0 then [] else Rings(rEnd - 1) + RingRows(rEnd - 1, rEnd)
  }

  /** The offsets `iterateNeighborhood(radius)` lists, in its order. */
  function Neighborhood(radius: int): seq<(int, int)> {
    if radius < 0 then [] else Rings(radius + 1)
  }

  method IterateNeighborhood(radius: int) returns (coords: seq<(int, int)>)
    ensures coords == Neighborhood(radius)
  {
    coords := [];
    var r := 0;
    while r <= radius
      invariant 0 <= r <= Max(radius + 1, 0)
      invariant coords == Rings(r)
    {
      var x := -r;
      while x <= r
        invariant -r <= x <= r + 1
        invariant coords == Rings(r) + RingRows(r, x)
      {
        var z := -r;
        while z <= r
          invariant -r <= z <= r + 1
          invariant coords == Rings(r) + RingRows(r, x) + RowCells(r, x, z)
        {
          if Max(Abs(x), Abs(z)) == r {
            coords := coords + [(x, z)];
          }
          z := z + 1;
        }
        x := x + 1;
      }
      r := r + 1;
    }
  }

  /** The listing order: by ring, then by x, then by z. */
  predicate Precedes(p: (int, int), q: (int, int)) {
    Cheb(p.0, p.1) < Cheb(q.0, q.1)
    || (Cheb(p.0, p.1) == Cheb(q.0, q.1) && (p.0 < q.0 || (p.0 == q.0 && p.1 < q.1)))
  }

  predicate StrictlySorted(s: seq<(int, int)>) {
    forall i, j :: 0 <= i < j < |s| ==> Precedes(s[i], s[j])
  }

  lemma SortedConcat(a: seq<(int, int)>, b: seq<(int, int)>)
    requires StrictlySorted(a) && StrictlySorted(b)
    requires forall p, q :: p in a && q in b ==> Precedes(p, q)
    ensures StrictlySorted(a + b)
  {
    forall i, j | 0 <= i < j < |a + b|
      ensures Precedes((a + b)[i], (a + b)[j])
    {
      if j < |a| {
        assert (a + b)[i] == a[i] && (a + b)[j] == a[j];
      } else if i < |a| {
        assert (a + b)[i] == a[i] && (a + b)[j] == b[j - |a|];
        assert a[i] in a && b[j - |a|] in b;
      } else {
        assert (a + b)[i] == b[i - |a|] && (a + b)[j] == b[j - |a|];
      }
    }
  }

  lemma {:induction false} RowCellsSpec(r: int, x: int, zEnd: int)
    requires 0 <= r && -r <= zEnd <= r + 1
    ensures forall p :: p in RowCells(r, x, zEnd) <==> p.0 == x && -r <= p.1 < zEnd && Cheb(p.0, p.1) == r
    ensures StrictlySorted(RowCells(r, x, zEnd))
    decreases zEnd + r
  {
    if zEnd > -r {
      RowCellsSpec(r, x, zEnd - 1);
      var tail: seq<(int, int)> := if Cheb(x, zEnd - 1) == r then [(x, zEnd - 1)] else [];
      SortedConcat(RowCells(r, x, zEnd - 1), tail);
    }
  }

  lemma {:induction false} RingRowsSpec(r: int, xEnd: int)
    requires 0 <= r && -r <= xEnd <= r + 1
    ensures forall p :: p in RingRows(r, xEnd) <==> -r <= p.0 < xEnd && Cheb(p.0, p.1) == r
    ensures StrictlySorted(RingRows(r, xEnd))
    decreases xEnd + r
  {
    if xEnd > -r {
      RingRowsSpec(r, xEnd - 1);
      RowCellsSpec(r, xEnd - 1, r + 1);
      SortedConcat(RingRows(r, xEnd - 1), RowCells(r, xEnd - 1, r + 1));
    }
  }

  lemma {:induction false} RingsSpec(rEnd: nat)
    ensures forall p :: p in Rings(rEnd) <==> Cheb(p.0, p.1) < rEnd
    ensures StrictlySorted(Rings(rEnd))
  {
    if rEnd > 0 {
      RingsSpec(rEnd - 1);
      RingRowsSpec(rEnd - 1, rEnd);
      SortedConcat(Rings(rEnd - 1), RingRows(rEnd - 1, rEnd));
    }
  }

  /**
   * `iterateNeighborhood(radius)` lists every offset within Chebyshev distance `radius` and no
   * other, without repetition, ring by ring from the inside out.
   */
  lemma NeighborhoodContents(radius: int)
    ensures forall p :: p in Neighborhood(radius) <==> Cheb(p.0, p.1) <= radius
    ensures forall i, j :: 0 <= i < j < |Neighborhood(radius)| ==> Neighborhood(radius)[i] != Neighborhood(radius)[j]
    ensures forall i, j :: 0 <= i <= j < |Neighborhood(radius)| ==>
      Cheb(Neighborhood(radius)[i].0, Neighborhood(radius)[i].1) <= Cheb(Neighborhood(radius)[j].0, Neighborhood(radius)[j].1)
  {
    if radius >= 0 {
      RingsSpec(radius + 1);
      var s := Neighborhood(radius);
      forall i, j | 0 <= i <= j < |s|
        ensures Cheb(s[i].0, s[i].1) <= Cheb(s[j].0, s[j].1)
        ensures i < j ==> s[i] != s[j]
      {
        if i < j {
          assert Precedes(s[i], s[j]);
        }
      }
    }
  }

  lemma {:induction false} RowCellsLength(r: int, x: int, zEnd: int)
    requires 0 <= r && -r <= zEnd <= r + 1 && Abs(x) <= r
    ensures |RowCells(r, x, zEnd)| ==
      if Abs(x) == r then zEnd + r
      else (if zEnd > -r then 1 else 0) + (if zEnd == r + 1 then 1 else 0)
    decreases zEnd + r
  {
    if zEnd > -r {
      RowCellsLength(r, x, zEnd - 1);
    }
  }

  lemma {:induction false} RingRowsLength(r: int, xEnd: int)
    requires 0 <= r && -r <= xEnd <= r + 1
    ensures r == 0 ==> |RingRows(r, xEnd)| == xEnd
    ensures r > 0 ==> (|RingRows(r, xEnd)| ==
      if xEnd == -r then 0
      else (2 * r + 1) + 2 * (Min(xEnd, r) + r - 1) + (if xEnd == r + 1 then 2 * r + 1 else 0))
    decreases xEnd + r
  {
    if xEnd > -r {
      RingRowsLength(r, xEnd - 1);
      RowCellsLength(r, xEnd - 1, r + 1);
    }
  }

  /** Ring r holds the centre alone when r is 0, and 8r offsets otherwise. */
  lemma RingLength(r: nat)
    ensures |RingRows(r, r + 1)| == if r == 0 then 1 else 8 * r
  {
    RingRowsLength(r, r + 1);
  }

  lemma {:induction false} RingsLength(rEnd: nat)
    ensures |Rings(rEnd)| == if rEnd == 0 then 0 else (2 * rEnd - 1) * (2 * rEnd - 1)
  {
    if rEnd == 1 {
      RingLength(0);
    } else if rEnd > 1 {
      var prev, ring := Rings(rEnd - 1), RingRows(rEnd - 1, rEnd);
      assert Rings(rEnd) == prev + ring;
      RingsLength(rEnd - 1);
      RingLength(rEnd - 1);
      OddSquareGrowth(rEnd);
    }
  }

  /** The square of side 2n - 1 is the square of side 2n - 3 and a ring of 8(n - 1) cells. */
  lemma OddSquareGrowth(n: int)
    ensures (2 * n - 1) * (2 * n - 1) == (2 * (n - 1) - 1) * (2 * (n - 1) - 1) + 8 * (n - 1)
  {
  }

  /** The neighbourhood of radius r has (2r+1)^2 entries, and the first is the centre. */
  lemma NeighborhoodShape(radius: int)
    requires radius >= 0
    ensures |Neighborhood(radius)| == (2 * radius + 1) * (2 * radius + 1)
    ensures Neighborhood(radius)[0] == (0, 0)
  {
    RingsLength(radius + 1);
    RingsStartAtCentre(radius + 1);
  }

  lemma {:induction false} RingsStartAtCentre(rEnd: nat)
    requires rEnd >= 1
    ensures |Rings(rEnd)| >= 1 && Rings(rEnd)[0] == (0, 0)
  {
    if rEnd == 1 {
      assert RowCells(0, 0, 1) == [(0, 0)];
      assert RingRows(0, 1) == [(0, 0)];
    } else {
      RingsStartAtCentre(rEnd - 1);
    }
  }

  // ---------------------------------------------------------------------------------------
  // Grid traversal ("DDA") shared state.

  /** A JavaScript number that may be +Infinity: tMax and tDelta on an axis the ray never crosses. */
  datatype Ext = Fin(v: real) | Inf {
    /** JavaScript's `<` (Infinity < Infinity is false). */
    predicate Less(b: Ext) {
      Fin? && (b.Inf? || v < b.v)
    }
    /** JavaScript's `<= m` for a finite m. */
    predicate AtMost(m: real) {
      Fin? && v <= m
    }
    function Add(b: Ext): Ext {
      if Fin? && b.Fin? then Fin(v + b.v) else Inf
    }
  }

  datatype Axis = X | Y | Z

  /** A real 3-vector (positions and directions). */
  datatype RVec = RVec(x: real, y: real, z: real)

  /** Three per-axis values (tMax, tDelta). */
  datatype Triple = Triple(x: Ext, y: Ext, z: Ext) {
    function Get(a: Axis): Ext {
      match a case X => x case Y => y case Z => z
    }
    function Set(a: Axis, e: Ext): Triple {
      match a case X => Triple(e, y, z) case Y => Triple(x, e, z) case Z => Triple(x, y, e)
    }
  }

  function AxisComp(v: Vec3, a: Axis): int {
    match a case X => v.x case Y => v.y case Z => v.z
  }

  /** The unit offset of `step` along one axis only. */
  function AxisStep(step: Vec3, a: Axis): Vec3 {
    match a
    case X => Vec3(step.x, 0, 0)
    case Y => Vec3(0, step.y, 0)
    case Z => Vec3(0, 0, step.z)
  }

  /** `b` is `a` advanced along exactly one axis by that axis' step. */
  predicate StepAlong(a: Vec3, b: Vec3, step: Vec3) {
    b == a.Plus(AxisStep(step, X)) || b == a.Plus(AxisStep(step, Y)) || b == a.Plus(AxisStep(step, Z))
  }

  /** `Math.sign`. */
  function Sign(r: real): int {
    if r > 0.0 then 1 else if r < 0.0 then -1 else 0
  }

  function RAbs(r: real): real { if r < 0.0 then -r else r }

  function FloorVec(p: RVec): Vec3 { Vec3(p.x.Floor, p.y.Floor, p.z.Floor) }

  function StepVec(d: RVec): Vec3 { Vec3(Sign(d.x), Sign(d.y), Sign(d.z)) }

  /** Distance along the ray between two boundary crossings of one axis. */
  function DeltaOf(d: real): (e: Ext)
    ensures e.Fin? <==> d != 0.0
    ensures e.Fin? ==> e.v > 0.0
  {
    if d != 0.0 then Fin(RAbs(1.0 / d)) else Inf
  }

  /** Distance along the ray to the first boundary crossing of one axis. */
  function InitialTMax(o: real, d: real): (e: Ext)
    ensures e.Fin? <==> d != 0.0
  {
    var bound := o.Floor + (if Sign(d) > 0 then 1 else 0);
    if d != 0.0 then Fin(RAbs((bound as real - o) / d)) else Inf
  }

  function Deltas(d: RVec): Triple { Triple(DeltaOf(d.x), DeltaOf(d.y), DeltaOf(d.z)) }

  function InitialTMaxes(o: RVec, d: RVec): Triple {
    Triple(InitialTMax(o.x, d.x), InitialTMax(o.y, d.y), InitialTMax(o.z, d.z))
  }

  /** Per axis: tMax is finite exactly when tDelta is, and a finite tDelta is positive. */
  predicate Consistent(tMax: Triple, tDelta: Triple) {
    AxisConsistent(tMax.x, tDelta.x) && AxisConsistent(tMax.y, tDelta.y) && AxisConsistent(tMax.z, tDelta.z)
  }

  predicate AxisConsistent(t: Ext, d: Ext) {
    (t.Fin? <==> d.Fin?) && (d.Fin? ==> d.v > 0.0)
  }

  /** How many more crossings of one axis can happen before `maxDistance` is passed. */
  function Term(t: Ext, d: Ext, m: real): nat {
    if t.Fin? && d.Fin? && d.v > 0.0 && t.v <= m then
      assert (m - t.v) / d.v >= 0.0;
      ((m - t.v) / d.v).Floor + 1
    else 0
  }

  /** The termination measure of the traversal loops. */
  function Budget(tMax: Triple, tDelta: Triple, m: real): nat {
    Term(tMax.x, tDelta.x, m) + Term(tMax.y, tDelta.y, m) + Term(tMax.z, tDelta.z, m)
  }

  lemma ZeroProduct(x: real, d: real)
    requires d > 0.0 && x * d == 0.0
    ensures x == 0.0
  {
  }

  lemma TermStep(t: real, d: real, m: real)
    requires d > 0.0
    ensures t <= m ==> Term(Fin(t + d), Fin(d), m) < Term(Fin(t), Fin(d), m)
    ensures t > m ==> Term(Fin(t + d), Fin(d), m) == 0
  {
    if t + d <= m {
      ZeroProduct((m - (t + d)) / d - ((m - t) / d - 1.0), d);
    }
  }

  /**
   * Advancing the chosen axis either uses up budget, or (when that axis' crossing already lies
   * beyond `m`) leaves the budget as it is and sets `traveled` beyond `m`.
   */
  lemma AdvanceBudget(tMax: Triple, tDelta: Triple, a: Axis, m: real)
    requires Consistent(tMax, tDelta)
    ensures Consistent(tMax.Set(a, tMax.Get(a).Add(tDelta.Get(a))), tDelta)
    ensures tMax.Get(a).AtMost(m) ==>
      Budget(tMax.Set(a, tMax.Get(a).Add(tDelta.Get(a))), tDelta, m) < Budget(tMax, tDelta, m)
    ensures !tMax.Get(a).AtMost(m) ==>
      Budget(tMax.Set(a, tMax.Get(a).Add(tDelta.Get(a))), tDelta, m) == Budget(tMax, tDelta, m)
  {
    var t, d := tMax.Get(a), tDelta.Get(a);
    if t.Fin? {
      TermStep(t.v, d.v, m);
    }
  }

  /** ddaRaycast's axis choice: x when tMax.x < tMax.y and < tMax.z, else y if tMax.y < tMax.z, else z. */
  function DdaAxis(tx: Ext, ty: Ext, tz: Ext): (a: Axis)
    ensures a == X <==> tx.Less(ty) && tx.Less(tz)
    ensures a == Y <==> !tx.Less(ty) && ty.Less(tz)
    ensures a == Z <==> (tx.Less(ty) && !tx.Less(tz)) || (!tx.Less(ty) && !ty.Less(tz))
  {
    if tx.Less(ty) then (if tx.Less(tz) then X else Z)
    else (if ty.Less(tz) then Y else Z)
  }

  datatype DdaResult = DdaMiss | DdaHit(voxel: Vec3, previous: Vec3, block: int)

  /** The state of a grid traversal: the current voxel, the next crossings, the distance so far. */
  datatype Walker = Walker(voxel: Vec3, tMax: Triple, traveled: Ext)

  /** The state a traversal starts from: the voxel holding `origin`, nothing travelled yet. */
  function WalkStart(origin: RVec, direction: RVec): Walker {
    Walker(FloorVec(origin), InitialTMaxes(origin, direction), Fin(0.0))
  }

  /** One step of `ddaRaycast`: cross the boundary of the axis `DdaAxis` picks. */
  function DdaAdvance(w: Walker, direction: RVec): Walker {
    var a := DdaAxis(w.tMax.x, w.tMax.y, w.tMax.z);
    Walker(w.voxel.Plus(AxisStep(StepVec(direction), a)),
           w.tMax.Set(a, w.tMax.Get(a).Add(Deltas(direction).Get(a))),
           w.tMax.Get(a))
  }

  /** The state of `ddaRaycast`'s traversal after k steps. */
  function DdaWalk(origin: RVec, direction: RVec, k: nat): Walker {
    if k == 0 then WalkStart(origin, direction) else DdaAdvance(DdaWalk(origin, direction, k - 1), direction)
  }

  /** `queried` lists the first states of the walk in order, each reached within `maxDistance`. */
  ghost predicate Walked(origin: RVec, direction: RVec, maxDistance: real, queried: seq<Vec3>) {
    forall i {:trigger queried[i]} | 0 <= i < |queried| ::
      queried[i] == DdaWalk(origin, direction, i).voxel && DdaWalk(origin, direction, i).traveled.AtMost(maxDistance)
  }

  lemma WalkedAt(origin: RVec, direction: RVec, maxDistance: real, queried: seq<Vec3>, i: nat)
    requires Walked(origin, direction, maxDistance, queried) && i < |queried|
    ensures queried[i] == DdaWalk(origin, direction, i).voxel && DdaWalk(origin, direction, i).traveled.AtMost(maxDistance)
  {
  }

  lemma WalkedExtend(origin: RVec, direction: RVec, maxDistance: real, queried: seq<Vec3>, w: Walker)
    requires Walked(origin, direction, maxDistance, queried)
    requires w == DdaWalk(origin, direction, |queried|) && w.traveled.AtMost(maxDistance)
    ensures Walked(origin, direction, maxDistance, queried + [w.voxel])
  {
    var q := queried + [w.voxel];
    forall i | 0 <= i < |q|
      ensures q[i] == DdaWalk(origin, direction, i).voxel && DdaWalk(origin, direction, i).traveled.AtMost(maxDistance)
    {
      if i < |queried| {
        assert q[i] == queried[i];
      }
    }
  }

  /**
   * What `ddaRaycast` returns, in terms of its traversal: the voxels tested are the first states
   * of the walk, each reached within `maxDistance`, and all but the last hold air; a hit is the
   * last of them, which is not air, and a miss ends at the first state beyond `maxDistance`.
   */
  ghost predicate DdaCast(origin: RVec, direction: RVec, maxDistance: real, getVoxel: (int, int, int) -> int,
                          res: DdaResult, queried: seq<Vec3>)
  {
    && Walked(origin, direction, maxDistance, queried)
    && (forall i | 0 <= i < |queried| - 1 :: getVoxel(queried[i].x, queried[i].y, queried[i].z) == 0)
    && (res.DdaMiss? ==>
         (|queried| > 0 ==> getVoxel(queried[|queried| - 1].x, queried[|queried| - 1].y, queried[|queried| - 1].z) == 0)
         && !DdaWalk(origin, direction, |queried|).traveled.AtMost(maxDistance))
    && (res.DdaHit? ==>
         |queried| > 0 && res.voxel == queried[|queried| - 1]
         && res.block == getVoxel(res.voxel.x, res.voxel.y, res.voxel.z) && res.block != 0
         && res.previous == res.voxel.Minus(StepVec(direction)))
  }

  /** The traversal fixes the outcome: two results that both satisfy `DdaCast` are the same. */
  lemma DdaCastUnique(origin: RVec, direction: RVec, maxDistance: real, getVoxel: (int, int, int) -> int,
                      res1: DdaResult, queried1: seq<Vec3>, res2: DdaResult, queried2: seq<Vec3>)
    requires DdaCast(origin, direction, maxDistance, getVoxel, res1, queried1)
    requires DdaCast(origin, direction, maxDistance, getVoxel, res2, queried2)
    ensures res1 == res2 && queried1 == queried2
  {
    DdaCastPrefix(origin, direction, maxDistance, getVoxel, res1, queried1, res2, queried2);
    DdaCastPrefix(origin, direction, maxDistance, getVoxel, res2, queried2, res1, queried1);
    assert queried1 == queried2;
  }

  /** A cast never stops before another cast of the same ray does. */
  lemma DdaCastPrefix(origin: RVec, direction: RVec, maxDistance: real, getVoxel: (int, int, int) -> int,
                      res1: DdaResult, queried1: seq<Vec3>, res2: DdaResult, queried2: seq<Vec3>)
    requires DdaCast(origin, direction, maxDistance, getVoxel, res1, queried1)
    requires DdaCast(origin, direction, maxDistance, getVoxel, res2, queried2)
    ensures |queried1| >= |queried2|
    ensures |queried1| == |queried2| ==> res1.DdaHit? == res2.DdaHit?
  {
    var n := |queried1|;
    if n < |queried2| {
      WalkedAt(origin, direction, maxDistance, queried2, n);
      if res1.DdaHit? {
        WalkedAt(origin, direction, maxDistance, queried1, n - 1);
        WalkedAt(origin, direction, maxDistance, queried2, n - 1);
      }
      assert false;
    } else if n == |queried2| && res1.DdaHit? && res2.DdaMiss? {
      assert false;
    }
  }

  /**
   * `ddaRaycast`: test the voxel containing `origin`, then step voxel by voxel along the ray
   * until a non-air voxel is found or more than `maxDistance` has been travelled.  `queried`
   * lists the voxels tested, in order.
   */
  method DdaRaycast(origin: RVec, direction: RVec, maxDistance: real, getVoxel: (int, int, int) -> int)
    returns (res: DdaResult, ghost queried: seq<Vec3>)
    ensures DdaCast(origin, direction, maxDistance, getVoxel, res, queried)
    ensures maxDistance < 0.0 ==> res == DdaMiss
    ensures maxDistance >= 0.0 ==> |queried| >= 1 && queried[0] == FloorVec(origin)
    ensures forall i :: 0 <= i < |queried| - 1 ==> StepAlong(queried[i], queried[i + 1], StepVec(direction))
  {
    var step := StepVec(direction);
    var tDelta := Deltas(direction);
    var voxel := FloorVec(origin);
    var tMax := InitialTMaxes(origin, direction);
    var traveled := Fin(0.0);
    queried := [];
    while traveled.AtMost(maxDistance)
      invariant Consistent(tMax, tDelta) && tDelta == Deltas(direction)
      invariant Walker(voxel, tMax, traveled) == DdaWalk(origin, direction, |queried|)
      invariant Walked(origin, direction, maxDistance, queried)
      invariant forall i | 0 <= i < |queried| :: getVoxel(queried[i].x, queried[i].y, queried[i].z) == 0
      decreases Budget(tMax, tDelta, maxDistance), if traveled.AtMost(maxDistance) then 1 else 0
    {
      var block := getVoxel(voxel.x, voxel.y, voxel.z);
      WalkedExtend(origin, direction, maxDistance, queried, Walker(voxel, tMax, traveled));
      if block != 0 {
        queried := queried + [voxel];
        res := DdaHit(voxel, voxel.Minus(step), block);
        DdaWalkSteps(origin, direction, maxDistance, queried);
        DdaEnds(origin, direction, maxDistance, getVoxel, res, queried);
        return;
      }
      queried := queried + [voxel];
      var axis := DdaAxis(tMax.x, tMax.y, tMax.z);
      AdvanceBudget(tMax, tDelta, axis, maxDistance);
      ghost var before := Walker(voxel, tMax, traveled);
      voxel := voxel.Plus(AxisStep(step, axis));
      traveled := tMax.Get(axis);
      tMax := tMax.Set(axis, tMax.Get(axis).Add(tDelta.Get(axis)));
      assert Walker(voxel, tMax, traveled) == DdaAdvance(before, direction);
      DdaWalkNext(origin, direction, |queried| - 1);
    }
    res := DdaMiss;
    DdaWalkSteps(origin, direction, maxDistance, queried);
    DdaEnds(origin, direction, maxDistance, getVoxel, res, queried);
  }

  /** How `ddaRaycast`'s loop ends: on its first non-air voxel, or once beyond `maxDistance`. */
  lemma DdaEnds(origin: RVec, direction: RVec, maxDistance: real, getVoxel: (int, int, int) -> int,
                res: DdaResult, queried: seq<Vec3>)
    requires Walked(origin, direction, maxDistance, queried)
    requires forall i | 0 <= i < |queried| - 1 :: getVoxel(queried[i].x, queried[i].y, queried[i].z) == 0
    requires res.DdaMiss? ==>
      (|queried| > 0 ==> getVoxel(queried[|queried| - 1].x, queried[|queried| - 1].y, queried[|queried| - 1].z) == 0)
      && !DdaWalk(origin, direction, |queried|).traveled.AtMost(maxDistance)
    requires res.DdaHit? ==>
      |queried| > 0 && res.voxel == queried[|queried| - 1]
      && res.block == getVoxel(res.voxel.x, res.voxel.y, res.voxel.z) && res.block != 0
      && res.previous == res.voxel.Minus(StepVec(direction))
    ensures DdaCast(origin, direction, maxDistance, getVoxel, res, queried)
  {
  }

  /** One more step of the walk is `DdaAdvance` applied to the state before it. */
  lemma DdaWalkNext(origin: RVec, direction: RVec, k: nat)
    ensures DdaWalk(origin, direction, k + 1) == DdaAdvance(DdaWalk(origin, direction, k), direction)
  {
  }

  /** Voxels the walk visits one after another are neighbours across one face. */
  lemma DdaWalkSteps(origin: RVec, direction: RVec, maxDistance: real, queried: seq<Vec3>)
    requires Walked(origin, direction, maxDistance, queried)
    ensures |queried| >= 1 ==> queried[0] == FloorVec(origin)
    ensures forall i :: 0 <= i < |queried| - 1 ==> StepAlong(queried[i], queried[i + 1], StepVec(direction))
  {
    forall i | 0 <= i < |queried| - 1
      ensures StepAlong(queried[i], queried[i + 1], StepVec(direction))
    {
      var w := DdaWalk(origin, direction, i);
      assert queried[i + 1] == DdaAdvance(w, direction).voxel;
      match DdaAxis(w.tMax.x, w.tMax.y, w.tMax.z)
      case X =>
      case Y =>
      case Z =>
    }
  }

  // The straight-down cast from (0.5, 100, 0.5) onto a world whose only solid voxel is (0, 10, 0)

  /** The world of that example: stone (type 3) at (0, 10, 0), air everywhere else. */
  function LoneStone(x: int, y: int, z: int): int {
    if x == 0 && y == 10 && z == 0 then 3 else 0
  }

  const DownOrigin := RVec(0.5, 100.0, 0.5)
  const Down := RVec(0.0, -1.0, 0.0)

  /**
   * Straight down from (0.5, 100, 0.5): the origin lies on the boundary y = 100, so the first
   * crossing is at distance 0; after k steps the walk is k voxels down and has travelled k - 1.
   */
  lemma {:induction false} DownWalk(k: nat)
    ensures DdaWalk(DownOrigin, Down, k)
      == Walker(Vec3(0, 100 - k, 0), Triple(Inf, Fin(k as real), Inf), Fin(if k == 0 then 0.0 else (k - 1) as real))
  {
    if k == 0 {
      assert InitialTMax(100.0, -1.0) == Fin(0.0);
    } else {
      DownWalk(k - 1);
    }
  }

  /**
   * `ddaRaycast` straight down onto the lone stone: it tests (0, 10, 0) after travelling 89, so
   * it hits that voxel, with (0, 11, 0) as the voxel before it, exactly when `maxDistance` is at
   * least 89.
   */
  lemma DdaDownCast(maxDistance: real, res: DdaResult, queried: seq<Vec3>)
    requires DdaCast(DownOrigin, Down, maxDistance, LoneStone, res, queried)
    ensures maxDistance >= 89.0 ==> res == DdaHit(Vec3(0, 10, 0), Vec3(0, 11, 0), 3)
    ensures maxDistance < 89.0 ==> res == DdaMiss
  {
    if res.DdaHit? {
      var k := DdaHitStep(DownOrigin, Down, maxDistance, LoneStone, res, queried);
      DdaDownHit(maxDistance, res, k);
    } else {
      DdaDownMiss(maxDistance, res, queried);
    }
  }

  /** A hit of the straight-down cast at step k is the lone stone, reached after travelling 89. */
  lemma DdaDownHit(maxDistance: real, res: DdaResult, k: nat)
    requires res.DdaHit? && res.voxel == DdaWalk(DownOrigin, Down, k).voxel
    requires DdaWalk(DownOrigin, Down, k).traveled.AtMost(maxDistance)
    requires res.block == LoneStone(res.voxel.x, res.voxel.y, res.voxel.z) && res.block != 0
    requires res.previous == res.voxel.Minus(StepVec(Down))
    ensures maxDistance >= 89.0 && res == DdaHit(Vec3(0, 10, 0), Vec3(0, 11, 0), 3)
  {
    DownHitFrom(res, k);
    DownHitDistance(maxDistance, res, k);
  }

  /** A hit is the voxel of some state of the walk reached within `maxDistance`. */
  lemma DdaHitStep(origin: RVec, direction: RVec, maxDistance: real, getVoxel: (int, int, int) -> int,
                   res: DdaResult, queried: seq<Vec3>) returns (k: nat)
    requires DdaCast(origin, direction, maxDistance, getVoxel, res, queried) && res.DdaHit?
    ensures res.voxel == DdaWalk(origin, direction, k).voxel
    ensures DdaWalk(origin, direction, k).traveled.AtMost(maxDistance)
    ensures res.block == getVoxel(res.voxel.x, res.voxel.y, res.voxel.z) && res.block != 0
      && res.previous == res.voxel.Minus(StepVec(direction))
  {
    k := |queried| - 1;
    WalkedAt(origin, direction, maxDistance, queried, k);
  }

  /** A non-air voxel of the walk straight down is the lone stone, entered from above. */
  lemma DownHitFrom(res: DdaResult, k: nat)
    requires res.DdaHit? && res.voxel == DdaWalk(DownOrigin, Down, k).voxel
    requires res.block == LoneStone(res.voxel.x, res.voxel.y, res.voxel.z) && res.block != 0
    requires res.previous == res.voxel.Minus(StepVec(Down))
    ensures res == DdaHit(Vec3(0, 10, 0), Vec3(0, 11, 0), 3)
  {
    DownHitVoxel(k, res.voxel);
    AboveStone(res.voxel);
  }

  /** The walk straight down reaches the lone stone only when `maxDistance` is at least 89. */
  lemma DownHitDistance(maxDistance: real, res: DdaResult, k: nat)
    requires res.DdaHit? && res.voxel == DdaWalk(DownOrigin, Down, k).voxel
    requires LoneStone(res.voxel.x, res.voxel.y, res.voxel.z) != 0
    requires DdaWalk(DownOrigin, Down, k).traveled.AtMost(maxDistance)
    ensures maxDistance >= 89.0
  {
    DownVoxel(k);
    DownHitAt(k, res.voxel);
    DownTraveled(maxDistance, k);
  }

  /** The only voxel of the walk straight down that is not air is step 90, (0, 10, 0). */
  lemma DownHitVoxel(k: nat, v: Vec3)
    requires v == DdaWalk(DownOrigin, Down, k).voxel && LoneStone(v.x, v.y, v.z) != 0
    ensures v == Vec3(0, 10, 0)
  {
    DownVoxel(k);
    DownHitAt(k, v);
  }

  lemma DownVoxel(k: nat)
    ensures DdaWalk(DownOrigin, Down, k).voxel == Vec3(0, 100 - k, 0)
  {
    DownWalk(k);
  }

  /** The only voxel straight down from the origin's column that is not air is (0, 10, 0). */
  lemma DownHitAt(k: nat, v: Vec3)
    requires v == Vec3(0, 100 - k, 0) && LoneStone(v.x, v.y, v.z) != 0
    ensures k == 90 && v == Vec3(0, 10, 0)
  {
  }

  /** Stepping back against a downward ray leads to the voxel above. */
  lemma AboveStone(v: Vec3)
    ensures v.Minus(StepVec(Down)) == Vec3(v.x, v.y + 1, v.z)
  {
    assert StepVec(Down) == Vec3(0, -1, 0);
  }

  /** Steps 89 and 90 of the walk straight down are reached after travelling 88 and 89. */
  lemma DownTraveled(maxDistance: real, k: nat)
    requires DdaWalk(DownOrigin, Down, k).traveled.AtMost(maxDistance)
    ensures k == 89 ==> maxDistance >= 88.0
    ensures k == 90 ==> maxDistance >= 89.0
  {
    DownWalk(k);
  }

  /** The straight-down cast misses only when it stops before travelling 89. */
  lemma DdaDownMiss(maxDistance: real, res: DdaResult, queried: seq<Vec3>)
    requires DdaCast(DownOrigin, Down, maxDistance, LoneStone, res, queried) && res.DdaMiss?
    ensures maxDistance < 89.0
  {
    var n := |queried|;
    if maxDistance >= 89.0 {
      DownReach(maxDistance, n);
      DdaMissTested(DownOrigin, Down, maxDistance, LoneStone, res, queried, 90);
      DownStone(90, queried[90]);
    }
  }

  /** Every voxel a missing cast tests is air. */
  lemma DdaMissTested(origin: RVec, direction: RVec, maxDistance: real, getVoxel: (int, int, int) -> int,
                      res: DdaResult, queried: seq<Vec3>, i: nat)
    requires DdaCast(origin, direction, maxDistance, getVoxel, res, queried) && res.DdaMiss? && i < |queried|
    ensures queried[i] == DdaWalk(origin, direction, i).voxel && getVoxel(queried[i].x, queried[i].y, queried[i].z) == 0
  {
  }

  /** A walk straight down that has gone beyond `maxDistance` >= 88 has passed step 89. */
  lemma DownReach(maxDistance: real, n: nat)
    requires maxDistance >= 88.0 && !DdaWalk(DownOrigin, Down, n).traveled.AtMost(maxDistance)
    ensures n > 89
    ensures maxDistance >= 89.0 ==> n > 90
  {
    DownWalk(n);
  }

  /** Step 90 of the walk straight down is the lone stone. */
  lemma DownStone(k: nat, q: Vec3)
    requires k == 90 && q == DdaWalk(DownOrigin, Down, k).voxel
    ensures LoneStone(q.x, q.y, q.z) == 3
  {
    DownWalk(k);
  }
}
