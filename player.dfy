/**
 * The first-person player: looking around, the voxel raycast used for aiming, collision of the
 * player's box with solid blocks, and placing a line of blocks by dragging.  Positions are real
 * numbers (floating-point rounding is not modelled); the world is seen through `getBlock`.
 */
module Players {
  import opened Basics
  import opened Constants
  import opened Blocks
  import opened Items
  import opened Utils
  import opened Inventories

  // ---------------------------------------------------------------------------------------
  // Looking around

  const LookSensitivity: real := 0.002
  /** `Math.PI` as a double. */
  const Pi: real := 3.141592653589793
  /** Pitch stays strictly inside (-PI/2, PI/2). */
  const PitchLimit: real := Pi / 2.0 - 0.001

  /** The two clamps of `addLookDeltas`, applied to the updated pitch. */
  function ClampPitch(p: real): (r: real)
    ensures -PitchLimit <= r <= PitchLimit
    ensures -PitchLimit <= p <= PitchLimit ==> r == p
    ensures p > PitchLimit ==> r == PitchLimit
    ensures p < -PitchLimit ==> r == -PitchLimit
  {
    var q := if p > PitchLimit then PitchLimit else p;
    if q < -PitchLimit then -PitchLimit else q
  }

  // ---------------------------------------------------------------------------------------
  // The player's box and the cells it covers

  const HalfWidth: real := PlayerWidth / 2.0

  /** The inclusive range of integer cells the box at `pos` covers (the floors of its corners). */
  datatype Cells = Cells(lo: Vec3, hi: Vec3)

  function BoxCells(pos: RVec): Cells {
    Cells(Vec3((pos.x - HalfWidth).Floor, pos.y.Floor, (pos.z - HalfWidth).Floor),
          Vec3((pos.x + HalfWidth).Floor, (pos.y + PlayerHeight).Floor, (pos.z + HalfWidth).Floor))
  }

  predicate InCells(x: int, y: int, z: int, c: Cells) {
    c.lo.x <= x <= c.hi.x && c.lo.y <= y <= c.hi.y && c.lo.z <= z <= c.hi.z
  }

  /** The unit cell at `c` meets the closed interval [a, b] of one axis. */
  predicate Meets(c: int, a: real, b: real) {
    a < c as real + 1.0 && c as real <= b
  }

  /**
   * The unit cell at (x, y, z) meets the player's closed box: [x - w/2, x + w/2] by
   * [y, y + height] by [z - w/2, z + w/2].
   */
  predicate TouchesBox(x: int, y: int, z: int, pos: RVec) {
    && Meets(x, pos.x - HalfWidth, pos.x + HalfWidth)
    && Meets(y, pos.y, pos.y + PlayerHeight)
    && Meets(z, pos.z - HalfWidth, pos.z + HalfWidth)
  }

  /** A floor range is exactly the set of unit cells meeting the interval. */
  lemma FloorRange(c: int, a: real, b: real)
    ensures a.Floor <= c <= b.Floor <==> Meets(c, a, b)
  {
  }

  /** The covered cells are exactly the unit cells meeting the player's box. */
  lemma BoxCellsTouch(x: int, y: int, z: int, pos: RVec)
    ensures InCells(x, y, z, BoxCells(pos)) <==> TouchesBox(x, y, z, pos)
  {
    FloorRange(x, pos.x - HalfWidth, pos.x + HalfWidth);
    FloorRange(y, pos.y, pos.y + PlayerHeight);
    FloorRange(z, pos.z - HalfWidth, pos.z + HalfWidth);
  }

  /** Some cell covered by the box at `pos` holds a solid block. */
  predicate SolidNear(pos: RVec, getBlock: (int, int, int) -> int) {
    var c := BoxCells(pos);
    exists x, y, z | c.lo.x <= x <= c.hi.x && c.lo.y <= y <= c.hi.y && c.lo.z <= z <= c.hi.z ::
      IsSolid(getBlock(x, y, z))
  }

  /** No solid block in the cells [x0, x1) x [y0, y1) x [z0, z1). */
  predicate NoSolidIn(getBlock: (int, int, int) -> int, x0: int, x1: int, y0: int, y1: int, z0: int, z1: int) {
    forall x, y, z | x0 <= x < x1 && y0 <= y < y1 && z0 <= z < z1 :: !IsSolid(getBlock(x, y, z))
  }

  // ---------------------------------------------------------------------------------------
  // Moving with collisions

  /** The state `integrateWithCollisions` reads and writes. */
  datatype Body = Body(position: RVec, velocity: RVec, isOnGround: bool)

  function Get(v: RVec, a: Axis): real {
    match a case X => v.x case Y => v.y case Z => v.z
  }

  function With(v: RVec, a: Axis, r: real): RVec {
    match a case X => v.(x := r) case Y => v.(y := r) case Z => v.(z := r)
  }

  /** The highest the player's feet may start a step: just below the top of the world. */
  const TopLimit: real := ChunkHeight as real - PlayerHeight - 0.001

  function RMin(a: real, b: real): real { if a < b then a else b }

  /** The position the step starts from, pulled down below `TopLimit`. */
  function Lowered(b: Body): Body {
    b.(position := b.position.(y := RMin(b.position.y, TopLimit)))
  }

  /** The position after moving along `a` by velocity * dt. */
  function Moved(b: Body, a: Axis, dt: real): RVec {
    With(b.position, a, Get(b.position, a) + Get(b.velocity, a) * dt)
  }

  /**
   * The move along `a` (x or z): advance by velocity * dt; if the box then covers a solid cell,
   * step back and zero that velocity component.
   */
  function Slide(b: Body, a: Axis, dt: real, getBlock: (int, int, int) -> int): Body {
    var moved := Moved(b, a, dt);
    if SolidNear(moved, getBlock) then
      Body(With(moved, a, Get(moved, a) - Get(b.velocity, a) * dt), With(b.velocity, a, 0.0), b.isOnGround)
    else
      b.(position := moved)
  }

  /**
   * The vertical move: like `Slide`, and a blocked move while falling lands the player; an
   * unblocked move leaves the ground.
   */
  function Fall(b: Body, dt: real, getBlock: (int, int, int) -> int): Body {
    var moved := Moved(b, Y, dt);
    if SolidNear(moved, getBlock) then
      Body(With(moved, Y, Get(moved, Y) - Get(b.velocity, Y) * dt), With(b.velocity, Y, 0.0),
           if b.velocity.y < 0.0 then true else b.isOnGround)
    else
      Body(moved, b.velocity, false)
  }

  /** `integrateWithCollisions(dt)`: lower below the top, then move along x, z and y in turn. */
  function Integrate(b: Body, dt: real, getBlock: (int, int, int) -> int): Body {
    Fall(Slide(Slide(Lowered(b), X, dt, getBlock), Z, dt, getBlock), dt, getBlock)
  }

  /** Along one axis the body either made the whole move or none of it, with that velocity zeroed. */
  predicate MovedOrStopped(before: Body, after: Body, a: Axis, dt: real) {
    || (Get(after.position, a) == Get(before.position, a) + Get(before.velocity, a) * dt
        && Get(after.velocity, a) == Get(before.velocity, a))
    || (Get(after.position, a) == Get(before.position, a) && Get(after.velocity, a) == 0.0)
  }

  /** Position and velocity agree along `a`. */
  predicate SameAlong(p: Body, q: Body, a: Axis) {
    Get(p.position, a) == Get(q.position, a) && Get(p.velocity, a) == Get(q.velocity, a)
  }

  /** Undoing a move along `a` gives back the position before it. */
  lemma WithBack(b: Body, a: Axis, dt: real)
    ensures With(Moved(b, a, dt), a, Get(Moved(b, a, dt), a) - Get(b.velocity, a) * dt) == b.position
  {
    match a
    case X =>
    case Y =>
    case Z =>
  }

  /** A slide keeps a clear box clear. */
  lemma SlideClear(b: Body, a: Axis, dt: real, getBlock: (int, int, int) -> int)
    requires !SolidNear(b.position, getBlock)
    ensures !SolidNear(Slide(b, a, dt, getBlock).position, getBlock)
  {
    WithBack(b, a, dt);
  }

  /** A slide moves fully or not at all along its axis and changes nothing else. */
  lemma SlideMoves(b: Body, a: Axis, dt: real, getBlock: (int, int, int) -> int)
    requires a != Y
    ensures var r := Slide(b, a, dt, getBlock);
      && MovedOrStopped(b, r, a, dt)
      && SameAlong(b, r, Y) && SameAlong(b, r, if a == X then Z else X)
      && r.isOnGround == b.isOnGround
  {
    WithBack(b, a, dt);
  }

  /** The fall keeps a clear box clear. */
  lemma FallClear(b: Body, dt: real, getBlock: (int, int, int) -> int)
    requires !SolidNear(b.position, getBlock)
    ensures !SolidNear(Fall(b, dt, getBlock).position, getBlock)
  {
    WithBack(b, Y, dt);
  }

  /** The fall moves fully or not at all, and lands only when stopped while falling. */
  lemma FallMoves(b: Body, dt: real, getBlock: (int, int, int) -> int)
    ensures var r := Fall(b, dt, getBlock);
      && MovedOrStopped(b, r, Y, dt) && SameAlong(b, r, X) && SameAlong(b, r, Z)
      && (r.isOnGround && !b.isOnGround ==> b.velocity.y < 0.0 && r.velocity.y == 0.0)
      && (r.velocity.y != 0.0 ==> !r.isOnGround)
  {
    WithBack(b, Y, dt);
  }

  /** Collision never moves a clear player into a solid cell (the start is the lowered position). */
  lemma IntegrateClear(b: Body, dt: real, getBlock: (int, int, int) -> int)
    requires !SolidNear(Lowered(b).position, getBlock)
    ensures !SolidNear(Integrate(b, dt, getBlock).position, getBlock)
  {
    var b1 := Slide(Lowered(b), X, dt, getBlock);
    SlideClear(Lowered(b), X, dt, getBlock);
    SlideClear(b1, Z, dt, getBlock);
    FallClear(Slide(b1, Z, dt, getBlock), dt, getBlock);
  }

  /**
   * Every axis either moves by velocity * dt from the lowered start or stays with that velocity
   * zeroed; the player lands only by being stopped while falling, and any vertical velocity
   * left means airborne.
   */
  lemma IntegrateMoves(b: Body, dt: real, getBlock: (int, int, int) -> int)
    ensures var s, r := Lowered(b), Integrate(b, dt, getBlock);
      && MovedOrStopped(s, r, X, dt) && MovedOrStopped(s, r, Z, dt) && MovedOrStopped(s, r, Y, dt)
      && (r.isOnGround && !b.isOnGround ==> b.velocity.y < 0.0 && r.velocity.y == 0.0)
      && (r.velocity.y != 0.0 ==> !r.isOnGround)
  {
    var s := Lowered(b);
    var b1 := Slide(s, X, dt, getBlock);
    var b2 := Slide(b1, Z, dt, getBlock);
    SlideMoves(s, X, dt, getBlock);
    SlideMoves(b1, Z, dt, getBlock);
    FallMoves(b2, dt, getBlock);
    ThreeMoves(s, b1, b2, Fall(b2, dt, getBlock), dt);
  }

  /** Moves along x, then z, then y, each touching only its own axis, add up axis by axis. */
  lemma ThreeMoves(s: Body, b1: Body, b2: Body, r: Body, dt: real)
    requires MovedOrStopped(s, b1, X, dt) && SameAlong(s, b1, Y) && SameAlong(s, b1, Z)
    requires MovedOrStopped(b1, b2, Z, dt) && SameAlong(b1, b2, Y) && SameAlong(b1, b2, X)
    requires MovedOrStopped(b2, r, Y, dt) && SameAlong(b2, r, X) && SameAlong(b2, r, Z)
    ensures MovedOrStopped(s, r, X, dt) && MovedOrStopped(s, r, Z, dt) && MovedOrStopped(s, r, Y, dt)
  {
  }

  // ---------------------------------------------------------------------------------------
  // The aiming raycast

  /** `raycastVoxel`'s axis choice: x only when tMax.x is below both others, else y if below z, else z. */
  function RayAxis(tx: Ext, ty: Ext, tz: Ext): Axis {
    if tx.Less(ty) && tx.Less(tz) then X
    else if ty.Less(tz) then Y
    else Z
  }

  /** The aiming raycast and the world's `ddaRaycast` choose the same axis in every case. */
  lemma RayAxisIsDdaAxis(tx: Ext, ty: Ext, tz: Ext)
    ensures RayAxis(tx, ty, tz) == DdaAxis(tx, ty, tz)
  {
    if tx.Less(ty) && !tx.Less(tz) {
      assert !ty.Less(tz);
    }
  }

  /** When some axis is crossed at all, the chosen axis is one that is crossed. */
  lemma RayAxisFinite(tx: Ext, ty: Ext, tz: Ext)
    requires tx.Fin? || ty.Fin? || tz.Fin?
    ensures match RayAxis(tx, ty, tz) case X => tx.Fin? case Y => ty.Fin? case Z => tz.Fin?
  {
  }

  /** The hit normal: the step just taken, reversed. */
  function NormalOf(step: Vec3, a: Axis): Vec3 {
    match a
    case X => Vec3(-step.x, 0, 0)
    case Y => Vec3(0, -step.y, 0)
    case Z => Vec3(0, 0, -step.z)
  }

  datatype Ray = RayMiss | RayHit(voxel: Vec3, normal: Vec3, block: int)

  /** Signed distance along one axis, counted in the direction of that axis' step. */
  function Along(d: int, s: int): int {
    if s > 0 then d else if s < 0 then -d else 0
  }

  /** How many cell boundaries `v` lies beyond `o` in the direction of `step`. */
  function Progress(v: Vec3, o: Vec3, step: Vec3): int {
    Along(v.x - o.x, step.x) + Along(v.y - o.y, step.y) + Along(v.z - o.z, step.z)
  }

  /** Taking a nonzero step along one axis moves one boundary further. */
  lemma ProgressStep(v: Vec3, o: Vec3, d: RVec, a: Axis)
    requires AxisComp(StepVec(d), a) != 0
    ensures Progress(v.Plus(AxisStep(StepVec(d), a)), o, StepVec(d)) == Progress(v, o, StepVec(d)) + 1
  {
  }

  /** A direction with a nonzero component crosses boundaries. */
  predicate Moving(d: RVec) {
    d.x != 0.0 || d.y != 0.0 || d.z != 0.0
  }

  /** The crossing table the ray starts from: finite exactly on the axes the ray moves along. */
  predicate RayTables(tMax: Triple, tDelta: Triple, d: RVec) {
    Consistent(tMax, tDelta) && tDelta == Deltas(d)
  }

  /** On a moving ray the chosen axis is one the ray moves along. */
  lemma RayAxisMoves(tMax: Triple, tDelta: Triple, d: RVec)
    requires RayTables(tMax, tDelta, d) && Moving(d)
    ensures AxisComp(StepVec(d), RayAxis(tMax.x, tMax.y, tMax.z)) != 0
  {
    RayAxisFinite(tMax.x, tMax.y, tMax.z);
  }

  /**
   * `path` is a ray's start cell followed by the cells it entered: each one step along one
   * axis from the one before, all but possibly the last holding air, and on a moving ray each
   * one boundary further from the start.
   */
  ghost predicate Traced(path: seq<Vec3>, origin: RVec, direction: RVec, getBlock: (int, int, int) -> int) {
    && |path| >= 1 && path[0] == FloorVec(origin)
    && (forall i | 0 <= i < |path| - 1 :: StepAlong(path[i], path[i + 1], StepVec(direction)))
    && (forall i | 1 <= i < |path| - 1 :: getBlock(path[i].x, path[i].y, path[i].z) == BlockAir)
    && (Moving(direction) ==> forall i | 0 <= i < |path| :: Progress(path[i], path[0], StepVec(direction)) == i)
  }

  /** The last cell of a traced path holds air (or is the start cell, which is never tested). */
  ghost predicate LastAir(path: seq<Vec3>, getBlock: (int, int, int) -> int) {
    |path| > 1 ==> getBlock(path[|path| - 1].x, path[|path| - 1].y, path[|path| - 1].z) == BlockAir
  }

  /** Entering the next cell extends a traced path whose last cell held air. */
  lemma TracedStep(path: seq<Vec3>, origin: RVec, direction: RVec, getBlock: (int, int, int) -> int,
                   tMax: Triple, tDelta: Triple)
    requires Traced(path, origin, direction, getBlock) && LastAir(path, getBlock)
    requires RayTables(tMax, tDelta, direction)
    ensures var a := RayAxis(tMax.x, tMax.y, tMax.z);
      Traced(path + [path[|path| - 1].Plus(AxisStep(StepVec(direction), a))], origin, direction, getBlock)
  {
    var a := RayAxis(tMax.x, tMax.y, tMax.z);
    var v := path[|path| - 1];
    var next := v.Plus(AxisStep(StepVec(direction), a));
    var p := path + [next];
    forall i | 0 <= i < |p| - 1
      ensures StepAlong(p[i], p[i + 1], StepVec(direction))
    {
      if i == |path| - 1 {
        match a
        case X =>
        case Y =>
        case Z =>
      } else {
        assert p[i] == path[i] && p[i + 1] == path[i + 1];
      }
    }
    forall i | 1 <= i < |p| - 1
      ensures getBlock(p[i].x, p[i].y, p[i].z) == BlockAir
    {
      assert p[i] == path[i];
    }
    if Moving(direction) {
      RayAxisMoves(tMax, tDelta, direction);
      ProgressStep(v, path[0], direction, a);
      forall i | 0 <= i < |p|
        ensures Progress(p[i], p[0], StepVec(direction)) == i
      {
        if i < |path| {
          assert p[i] == path[i];
        }
      }
    }
  }

  /** The normal points back to the cell the ray came from. */
  lemma NormalBack(v: Vec3, step: Vec3, a: Axis)
    ensures v.Plus(AxisStep(step, a)).Plus(NormalOf(step, a)) == v
  {
  }

  /** One step of `raycastVoxel`: cross the boundary of the axis `RayAxis` picks. */
  function RayAdvance(w: Walker, direction: RVec): Walker {
    var a := RayAxis(w.tMax.x, w.tMax.y, w.tMax.z);
    Walker(w.voxel.Plus(AxisStep(StepVec(direction), a)),
           w.tMax.Set(a, w.tMax.Get(a).Add(Deltas(direction).Get(a))),
           w.tMax.Get(a))
  }

  /** The state of `raycastVoxel`'s traversal after k steps. */
  function RayWalk(origin: RVec, direction: RVec, k: nat): Walker {
    if k == 0 then WalkStart(origin, direction) else RayAdvance(RayWalk(origin, direction, k - 1), direction)
  }

  /** The aiming raycast walks through exactly the states of the world's `ddaRaycast`. */
  lemma {:induction false} RayWalkIsDdaWalk(origin: RVec, direction: RVec, k: nat)
    ensures RayWalk(origin, direction, k) == DdaWalk(origin, direction, k)
  {
    if k > 0 {
      RayWalkIsDdaWalk(origin, direction, k - 1);
      var w := RayWalk(origin, direction, k - 1);
      RayAxisIsDdaAxis(w.tMax.x, w.tMax.y, w.tMax.z);
    }
  }

  /**
   * `path` holds the first states of the walk, and every step into the next one was taken
   * while the distance travelled was at most `maxDistance`.
   */
  ghost predicate RayWalked(origin: RVec, direction: RVec, maxDistance: real, path: seq<Vec3>) {
    forall i {:trigger path[i]} | 0 <= i < |path| ::
      path[i] == RayWalk(origin, direction, i).voxel
      && (i < |path| - 1 ==> RayWalk(origin, direction, i).traveled.AtMost(maxDistance))
  }

  lemma RayWalkedAt(origin: RVec, direction: RVec, maxDistance: real, path: seq<Vec3>, i: nat)
    requires RayWalked(origin, direction, maxDistance, path) && i < |path|
    ensures path[i] == RayWalk(origin, direction, i).voxel
    ensures i < |path| - 1 ==> RayWalk(origin, direction, i).traveled.AtMost(maxDistance)
  {
  }

  /** Taking one more step, within `maxDistance`, extends the walked path by the next state. */
  lemma RayWalkedExtend(origin: RVec, direction: RVec, maxDistance: real, path: seq<Vec3>, w: Walker)
    requires |path| >= 1 && RayWalked(origin, direction, maxDistance, path)
    requires w == RayWalk(origin, direction, |path| - 1) && w.traveled.AtMost(maxDistance)
    ensures RayWalked(origin, direction, maxDistance, path + [RayAdvance(w, direction).voxel])
  {
    var p := path + [RayAdvance(w, direction).voxel];
    forall i | 0 <= i < |p|
      ensures p[i] == RayWalk(origin, direction, i).voxel
      ensures i < |p| - 1 ==> RayWalk(origin, direction, i).traveled.AtMost(maxDistance)
    {
      if i < |path| {
        assert p[i] == path[i];
      }
    }
  }

  /** One pass of `raycastVoxel`'s loop keeps its invariants, the path growing by the next cell. */
  lemma RayStep(origin: RVec, direction: RVec, maxDistance: real, getBlock: (int, int, int) -> int,
                path: seq<Vec3>, w: Walker)
    requires RayTables(w.tMax, Deltas(direction), direction)
    requires |path| > 0 && path[|path| - 1] == w.voxel
    requires Traced(path, origin, direction, getBlock) && LastAir(path, getBlock)
    requires w == RayWalk(origin, direction, |path| - 1) && w.traveled.AtMost(maxDistance)
    requires RayWalked(origin, direction, maxDistance, path)
    ensures var next := RayAdvance(w, direction);
      && RayTables(next.tMax, Deltas(direction), direction)
      && Traced(path + [next.voxel], origin, direction, getBlock)
      && next == RayWalk(origin, direction, |path|)
      && RayWalked(origin, direction, maxDistance, path + [next.voxel])
      && next.voxel.Plus(NormalOf(StepVec(direction), RayAxis(w.tMax.x, w.tMax.y, w.tMax.z))) == w.voxel
  {
    var a := RayAxis(w.tMax.x, w.tMax.y, w.tMax.z);
    AdvanceBudget(w.tMax, Deltas(direction), a, maxDistance);
    TracedStep(path, origin, direction, getBlock, w.tMax, Deltas(direction));
    RayWalkedExtend(origin, direction, maxDistance, path, w);
    NormalBack(w.voxel, StepVec(direction), a);
  }

  /**
   * What `raycastVoxel` returns, in terms of its traversal: `path` is the start cell and the
   * cells entered, each step taken within `maxDistance`; a hit is the last cell entered, which
   * is not air, with the normal of the step into it; a miss ends when the distance travelled
   * exceeds `maxDistance`, every cell entered being air.
   */
  ghost predicate RayCast(origin: RVec, direction: RVec, maxDistance: real, getBlock: (int, int, int) -> int,
                          r: Ray, path: seq<Vec3>)
  {
    && |path| >= 1 && RayWalked(origin, direction, maxDistance, path)
    && (forall i | 1 <= i < |path| - 1 :: getBlock(path[i].x, path[i].y, path[i].z) == BlockAir)
    && (r.RayMiss? ==>
         LastAir(path, getBlock) && !RayWalk(origin, direction, |path| - 1).traveled.AtMost(maxDistance))
    && (r.RayHit? ==>
         |path| >= 2 && r.voxel == path[|path| - 1]
         && r.block == getBlock(r.voxel.x, r.voxel.y, r.voxel.z) && r.block != BlockAir
         && var w := RayWalk(origin, direction, |path| - 2);
            r.normal == NormalOf(StepVec(direction), RayAxis(w.tMax.x, w.tMax.y, w.tMax.z)))
  }

  /** The traversal fixes the outcome: two results that both satisfy `RayCast` are the same. */
  lemma RayCastUnique(origin: RVec, direction: RVec, maxDistance: real, getBlock: (int, int, int) -> int,
                      r1: Ray, path1: seq<Vec3>, r2: Ray, path2: seq<Vec3>)
    requires RayCast(origin, direction, maxDistance, getBlock, r1, path1)
    requires RayCast(origin, direction, maxDistance, getBlock, r2, path2)
    ensures r1 == r2 && path1 == path2
  {
    RayCastPrefix(origin, direction, maxDistance, getBlock, r1, path1, r2, path2);
    RayCastPrefix(origin, direction, maxDistance, getBlock, r2, path2, r1, path1);
    assert path1 == path2;
  }

  /** A cast never stops before another cast of the same ray does. */
  lemma RayCastPrefix(origin: RVec, direction: RVec, maxDistance: real, getBlock: (int, int, int) -> int,
                      r1: Ray, path1: seq<Vec3>, r2: Ray, path2: seq<Vec3>)
    requires RayCast(origin, direction, maxDistance, getBlock, r1, path1)
    requires RayCast(origin, direction, maxDistance, getBlock, r2, path2)
    ensures |path1| >= |path2|
    ensures |path1| == |path2| ==> r1.RayHit? == r2.RayHit?
  {
    var n := |path1|;
    if n < |path2| {
      RayWalkedAt(origin, direction, maxDistance, path2, n - 1);
      assert false;
    } else if n == |path2| && r1.RayHit? && r2.RayMiss? {
      assert false;
    }
  }

  /** On a moving ray no cell tested is the start cell: the ray never reports its own cell. */
  lemma NeverStartCell(path: seq<Vec3>, origin: RVec, direction: RVec, getBlock: (int, int, int) -> int)
    requires Traced(path, origin, direction, getBlock) && Moving(direction)
    ensures forall i | 1 <= i < |path| :: path[i] != FloorVec(origin)
  {
    forall i | 1 <= i < |path|
      ensures path[i] != FloorVec(origin)
    {
      assert Progress(path[i], path[0], StepVec(direction)) == i;
      assert Progress(path[0], path[0], StepVec(direction)) == 0;
    }
  }

  /** How `raycastVoxel`'s loop ends: on the first non-air cell entered, or once beyond `maxDistance`. */
  lemma RayEnds(origin: RVec, direction: RVec, maxDistance: real, getBlock: (int, int, int) -> int,
                r: Ray, path: seq<Vec3>)
    requires Traced(path, origin, direction, getBlock) && RayWalked(origin, direction, maxDistance, path)
    requires r.RayMiss? ==>
      LastAir(path, getBlock) && !RayWalk(origin, direction, |path| - 1).traveled.AtMost(maxDistance)
    requires r.RayHit? ==>
      |path| >= 2 && r.voxel == path[|path| - 1]
      && r.block == getBlock(r.voxel.x, r.voxel.y, r.voxel.z) && r.block != BlockAir
      && var w := RayWalk(origin, direction, |path| - 2);
         r.normal == NormalOf(StepVec(direction), RayAxis(w.tMax.x, w.tMax.y, w.tMax.z))
    ensures RayCast(origin, direction, maxDistance, getBlock, r, path)
  {
  }

  /**
   * `raycastVoxel` straight down from (0.5, 100, 0.5) onto the lone stone at (0, 10, 0): the
   * step into that cell is taken after travelling 88, so the ray hits it, with the upward
   * normal (0, 1, 0), exactly when `maxDistance` is at least 88.
   */
  lemma RayDownCast(maxDistance: real, r: Ray, path: seq<Vec3>)
    requires RayCast(DownOrigin, Down, maxDistance, LoneStone, r, path)
    ensures maxDistance >= 88.0 ==> r == RayHit(Vec3(0, 10, 0), Vec3(0, 1, 0), 3)
    ensures maxDistance < 88.0 ==> r == RayMiss
  {
    if r.RayHit? {
      var k := RayHitStep(DownOrigin, Down, maxDistance, LoneStone, r, path);
      RayDownHit(maxDistance, r, k);
    } else {
      var n := RayMissEnd(DownOrigin, Down, maxDistance, LoneStone, r, path);
      RayDownMiss(maxDistance, n);
    }
  }

  /** A hit is entered by step k + 1 of the walk, taken within `maxDistance`. */
  lemma RayHitStep(origin: RVec, direction: RVec, maxDistance: real, getBlock: (int, int, int) -> int,
                   r: Ray, path: seq<Vec3>) returns (k: nat)
    requires RayCast(origin, direction, maxDistance, getBlock, r, path) && r.RayHit?
    ensures r.voxel == RayWalk(origin, direction, k + 1).voxel
    ensures RayWalk(origin, direction, k).traveled.AtMost(maxDistance)
    ensures r.block == getBlock(r.voxel.x, r.voxel.y, r.voxel.z) && r.block != BlockAir
    ensures var t := RayWalk(origin, direction, k).tMax;
      r.normal == NormalOf(StepVec(direction), RayAxis(t.x, t.y, t.z))
  {
    k := |path| - 2;
    RayWalkedAt(origin, direction, maxDistance, path, k + 1);
    RayWalkedAt(origin, direction, maxDistance, path, k);
  }

  /** A miss stops at some step beyond `maxDistance`, every cell entered up to it being air. */
  lemma RayMissEnd(origin: RVec, direction: RVec, maxDistance: real, getBlock: (int, int, int) -> int,
                   r: Ray, path: seq<Vec3>) returns (n: nat)
    requires RayCast(origin, direction, maxDistance, getBlock, r, path) && r.RayMiss?
    ensures !RayWalk(origin, direction, n).traveled.AtMost(maxDistance)
    ensures forall i | 1 <= i <= n :: AirAt(RayWalk(origin, direction, i).voxel, getBlock)
  {
    n := |path| - 1;
    forall i | 1 <= i <= n
      ensures AirAt(RayWalk(origin, direction, i).voxel, getBlock)
    {
      RayWalkedAt(origin, direction, maxDistance, path, i);
    }
  }

  ghost predicate AirAt(v: Vec3, getBlock: (int, int, int) -> int) {
    getBlock(v.x, v.y, v.z) == BlockAir
  }

  /** Straight down, the cell entered by step k + 1 is the lone stone only after travelling 88. */
  lemma RayDownHit(maxDistance: real, r: Ray, k: nat)
    requires r.RayHit? && r.voxel == RayWalk(DownOrigin, Down, k + 1).voxel
    requires RayWalk(DownOrigin, Down, k).traveled.AtMost(maxDistance)
    requires r.block == LoneStone(r.voxel.x, r.voxel.y, r.voxel.z) && r.block != BlockAir
    requires var t := RayWalk(DownOrigin, Down, k).tMax;
      r.normal == NormalOf(StepVec(Down), RayAxis(t.x, t.y, t.z))
    ensures maxDistance >= 88.0 && r == RayHit(Vec3(0, 10, 0), Vec3(0, 1, 0), 3)
  {
    RayDownVoxel(r.voxel, k);
    RayDownDistance(maxDistance, r.voxel, k);
    UpNormal(k);
  }

  lemma RayDownVoxel(v: Vec3, k: nat)
    requires v == RayWalk(DownOrigin, Down, k + 1).voxel && LoneStone(v.x, v.y, v.z) != 0
    ensures v == Vec3(0, 10, 0)
  {
    RayWalkIsDdaWalk(DownOrigin, Down, k + 1);
    DownHitVoxel(k + 1, v);
  }

  lemma RayDownDistance(maxDistance: real, v: Vec3, k: nat)
    requires v == RayWalk(DownOrigin, Down, k + 1).voxel && LoneStone(v.x, v.y, v.z) != 0
    requires RayWalk(DownOrigin, Down, k).traveled.AtMost(maxDistance)
    ensures maxDistance >= 88.0
  {
    RayWalkIsDdaWalk(DownOrigin, Down, k + 1);
    RayWalkIsDdaWalk(DownOrigin, Down, k);
    DownVoxel(k + 1);
    DownHitAt(k + 1, v);
    DownTraveled(maxDistance, k);
  }

  /** Every step straight down is along y, so its normal points up. */
  lemma UpNormal(k: nat)
    ensures var t := RayWalk(DownOrigin, Down, k).tMax;
      NormalOf(StepVec(Down), RayAxis(t.x, t.y, t.z)) == Vec3(0, 1, 0)
  {
    RayWalkIsDdaWalk(DownOrigin, Down, k);
    DownWalk(k);
    YStepUp(RayWalk(DownOrigin, Down, k).tMax);
  }

  /** With only the y boundary finite, the step is along y, and going down its normal is up. */
  lemma YStepUp(t: Triple)
    requires t.x == Inf && t.y.Fin? && t.z == Inf
    ensures NormalOf(StepVec(Down), RayAxis(t.x, t.y, t.z)) == Vec3(0, 1, 0)
  {
    assert StepVec(Down) == Vec3(0, -1, 0);
  }

  /** Straight down, a walk that stops beyond `maxDistance` on air alone stopped before travelling 88. */
  lemma RayDownMiss(maxDistance: real, n: nat)
    requires !RayWalk(DownOrigin, Down, n).traveled.AtMost(maxDistance)
    requires forall i | 1 <= i <= n :: AirAt(RayWalk(DownOrigin, Down, i).voxel, LoneStone)
    ensures maxDistance < 88.0
  {
    if maxDistance >= 88.0 {
      RayDownStone();
      RayWalkIsDdaWalk(DownOrigin, Down, n);
      DownReach(maxDistance, n);
      assert false;
    }
  }

  /** Step 90 of the walk straight down enters the lone stone. */
  lemma RayDownStone()
    ensures !AirAt(RayWalk(DownOrigin, Down, 90).voxel, LoneStone)
  {
    RayWalkIsDdaWalk(DownOrigin, Down, 90);
    DownStone(90, RayWalk(DownOrigin, Down, 90).voxel);
  }

  // ---------------------------------------------------------------------------------------
  // Drag placement

  /** JavaScript's `Math.round`: halves round up. */
  function JsRound(r: real): int {
    (r + 0.5).Floor
  }

  /** `Math.sign(delta) || 1`: the direction of the line, forwards when the cursor did not move. */
  function DragStep(delta: real): int {
    if Sign(delta) != 0 then Sign(delta) else 1
  }

  /** `Math.min(10, Math.abs(Math.round(delta)))`: how many cells the line extends past the anchor. */
  function DragLength(delta: real): nat {
    var n := Abs(JsRound(delta));
    if n < 10 then n else 10
  }

  /** The i-th cell of the line: the anchor moved by i * step along `axis` only. */
  function LinePoint(anchor: Vec3, axis: Axis, step: int, i: int): Vec3 {
    Vec3(anchor.x + (if axis == X then i * step else 0),
         anchor.y + (if axis == Y then i * step else 0),
         anchor.z + (if axis == Z then i * step else 0))
  }

  /** The cells of the drag line for a cursor `delta` cells from the anchor along its axis. */
  function DragPoints(anchor: Vec3, axis: Axis, delta: real): seq<Vec3> {
    seq(DragLength(delta) + 1, i => LinePoint(anchor, axis, DragStep(delta), i))
  }

  /**
   * The line starts at the anchor, has at most 11 cells, walks one cell at a time along its
   * axis in the direction of the cursor, and when the rounded cursor is at most 10 cells away
   * ends exactly on it.
   */
  lemma DragPointsShape(anchor: Vec3, axis: Axis, delta: real)
    ensures var line := DragPoints(anchor, axis, delta);
      && 1 <= |line| <= 11 && line[0] == anchor
      && (forall i | 0 <= i < |line| - 1 :: line[i + 1] == line[i].Plus(AxisStep(Vec3(DragStep(delta), DragStep(delta), DragStep(delta)), axis)))
      && (delta > 0.0 ==> DragStep(delta) == 1) && (delta < 0.0 ==> DragStep(delta) == -1)
      && (Abs(JsRound(delta)) <= 10 ==> AxisComp(line[|line| - 1], axis) == AxisComp(anchor, axis) + JsRound(delta))
  {
    var line := DragPoints(anchor, axis, delta);
    var st := DragStep(delta);
    assert line[0] == anchor;
    forall i | 0 <= i < |line| - 1
      ensures line[i + 1] == line[i].Plus(AxisStep(Vec3(st, st, st), axis))
    {
      assert (i + 1) * st == i * st + st;
    }
    var n := JsRound(delta);
    if Abs(n) <= 10 {
      assert DragLength(delta) == Abs(n);
      if delta >= 0.0 {
        assert n >= 0;
        assert Abs(n) * st == n;
      } else {
        assert n <= 0;
        assert Abs(n) * st == n;
      }
    }
  }

  /** The blocks written by the placement loop: each cell of `line` outside the player's box. */
  function Placements(line: seq<Vec3>, t: int, pos: RVec): seq<(Vec3, int)> {
    if line == [] then []
    else
      var p := line[|line| - 1];
      Placements(line[..|line| - 1], t, pos) + if TouchesBox(p.x, p.y, p.z, pos) then [] else [(p, t)]
  }

  /**
   * Placement writes `t` at exactly the cells of the line that the player's box does not
   * touch, in line order.
   */
  lemma {:induction false} PlacementsSpec(line: seq<Vec3>, t: int, pos: RVec)
    ensures var w := Placements(line, t, pos);
      && |w| <= |line|
      && (forall k | 0 <= k < |w| :: w[k].1 == t && w[k].0 in line && !TouchesBox(w[k].0.x, w[k].0.y, w[k].0.z, pos))
      && (forall p | p in line && !TouchesBox(p.x, p.y, p.z, pos) :: (p, t) in w)
  {
    if line != [] {
      var init := line[..|line| - 1];
      PlacementsSpec(init, t, pos);
      assert line == init + [line[|line| - 1]];
    }
  }

  /** The block at `v` after `writes`: the last write there, else `before`. */
  function Written(writes: seq<(Vec3, int)>, v: Vec3, before: int): int {
    if writes == [] then before
    else if writes[|writes| - 1].0 == v then writes[|writes| - 1].1
    else Written(writes[..|writes| - 1], v, before)
  }

  /** The world as `getBlock` sees it once `writes` are applied. */
  function AfterWrites(getBlock: (int, int, int) -> int, writes: seq<(Vec3, int)>): (int, int, int) -> int {
    (x, y, z) => Written(writes, Vec3(x, y, z), getBlock(x, y, z))
  }

  /** A cell no write names keeps its block. */
  lemma {:induction false} WrittenElsewhere(writes: seq<(Vec3, int)>, v: Vec3, before: int)
    requires forall k | 0 <= k < |writes| :: writes[k].0 != v
    ensures Written(writes, v, before) == before
  {
    if writes != [] {
      WrittenElsewhere(writes[..|writes| - 1], v, before);
    }
  }

  /** Placing blocks only outside the player's box cannot trap a player who was clear. */
  lemma PlacementKeepsClear(pos: RVec, getBlock: (int, int, int) -> int, writes: seq<(Vec3, int)>)
    requires !SolidNear(pos, getBlock)
    requires forall k | 0 <= k < |writes| :: !TouchesBox(writes[k].0.x, writes[k].0.y, writes[k].0.z, pos)
    ensures !SolidNear(pos, AfterWrites(getBlock, writes))
  {
    var c := BoxCells(pos);
    forall x, y, z | c.lo.x <= x <= c.hi.x && c.lo.y <= y <= c.hi.y && c.lo.z <= z <= c.hi.z
      ensures AfterWrites(getBlock, writes)(x, y, z) == getBlock(x, y, z)
    {
      BoxCellsTouch(x, y, z, pos);
      WrittenElsewhere(writes, Vec3(x, y, z), getBlock(x, y, z));
    }
  }

  function ToReal(v: Vec3): RVec {
    RVec(v.x as real, v.y as real, v.z as real)
  }

  /**
   * How far the aimed point lies from the anchor along the drag axis: the cell in front of the
   * hit face when the aim ray hits, or else the camera's position.
   */
  function AimDelta(r: Ray, cameraPosition: RVec, anchor: Vec3, axis: Axis): real {
    var current := if r.RayHit? then ToReal(r.voxel.Plus(r.normal)) else cameraPosition;
    Get(current, axis) - AxisComp(anchor, axis) as real
  }

  /** The block type a drag places from the active stack, if it places any. */
  function DragBlockType(active: Option<Stack>): Option<int> {
    if active.None? then None
    else
      var t := ItemIdToBlockType(active.value.id);
      if t.None? || active.value.count <= 0 then None else t
  }

  // ---------------------------------------------------------------------------------------
  // The player object

  /** The drag-placement gesture: where it started, the face it started on and its axis. */
  datatype PlaceDrag = PlaceDrag(active: bool, anchor: Vec3, normal: Vec3, axis: Axis)

  class Player {
    var position: RVec
    var velocity: RVec
    var yaw: real
    var pitch: real
    var isOnGround: bool
    var placeDrag: PlaceDrag

    /** A player standing still at (0, 40, 0), looking straight ahead, not dragging. */
    constructor ()
      ensures position == RVec(0.0, 40.0, 0.0) && velocity == RVec(0.0, 0.0, 0.0)
      ensures yaw == 0.0 && pitch == 0.0 && !isOnGround && !placeDrag.active
    {
      position := RVec(0.0, 40.0, 0.0);
      velocity := RVec(0.0, 0.0, 0.0);
      yaw := 0.0;
      pitch := 0.0;
      isOnGround := false;
      placeDrag := PlaceDrag(false, Vec3(0, 0, 0), Vec3(0, 0, 0), X);
    }

    /** `addLookDeltas(dx, dy)`: turn by the mouse movement; pitch stays within the limit. */
    method AddLookDeltas(dx: real, dy: real)
      modifies this`yaw, this`pitch
      ensures yaw == old(yaw) - dx * LookSensitivity
      ensures pitch == ClampPitch(old(pitch) - dy * LookSensitivity)
    {
      yaw := yaw - dx * LookSensitivity;
      pitch := pitch - dy * LookSensitivity;
      if pitch > PitchLimit {
        pitch := PitchLimit;
      }
      if pitch < -PitchLimit {
        pitch := -PitchLimit;
      }
    }

    /** `isInsidePlayerAABB(x, y, z)`: the cell is one the player's box touches. */
    function IsInsidePlayerAABB(x: int, y: int, z: int): (r: bool)
      reads this
      ensures r <==> TouchesBox(x, y, z, position)
    {
      BoxCellsTouch(x, y, z, position);
      InCells(x, y, z, BoxCells(position))
    }

    /** `intersectsSolid()`: scan the covered cells, x outermost, for a solid block. */
    method IntersectsSolid(getBlock: (int, int, int) -> int) returns (hit: bool)
      ensures hit <==> SolidNear(position, getBlock)
    {
      var c := BoxCells(position);
      var x := c.lo.x;
      while x <= c.hi.x
        invariant c.lo.x <= x
        invariant NoSolidIn(getBlock, c.lo.x, x, c.lo.y, c.hi.y + 1, c.lo.z, c.hi.z + 1)
        decreases c.hi.x - x
      {
        var y := c.lo.y;
        while y <= c.hi.y
          invariant c.lo.y <= y
          invariant NoSolidIn(getBlock, c.lo.x, x, c.lo.y, c.hi.y + 1, c.lo.z, c.hi.z + 1)
          invariant NoSolidIn(getBlock, x, x + 1, c.lo.y, y, c.lo.z, c.hi.z + 1)
          decreases c.hi.y - y
        {
          var z := c.lo.z;
          while z <= c.hi.z
            invariant c.lo.z <= z
            invariant NoSolidIn(getBlock, c.lo.x, x, c.lo.y, c.hi.y + 1, c.lo.z, c.hi.z + 1)
            invariant NoSolidIn(getBlock, x, x + 1, c.lo.y, y, c.lo.z, c.hi.z + 1)
            invariant NoSolidIn(getBlock, x, x + 1, y, y + 1, c.lo.z, z)
            decreases c.hi.z - z
          {
            if IsSolid(getBlock(x, y, z)) {
              return true;
            }
            z := z + 1;
          }
          y := y + 1;
        }
        x := x + 1;
      }
      return false;
    }

    /** `integrateWithCollisions(dt)`: the body moves as `Integrate` says. */
    method IntegrateWithCollisions(dt: real, getBlock: (int, int, int) -> int)
      modifies this`position, this`velocity, this`isOnGround
      ensures Body(position, velocity, isOnGround) == Integrate(old(Body(position, velocity, isOnGround)), dt, getBlock)
    {
      position := position.(y := RMin(position.y, TopLimit));
      SlideAlong(X, dt, getBlock);
      SlideAlong(Z, dt, getBlock);
      FallStep(dt, getBlock);
    }

    /** One horizontal axis of `integrateWithCollisions`: move, and undo the move if it collides. */
    method SlideAlong(a: Axis, dt: real, getBlock: (int, int, int) -> int)
      requires a != Y
      modifies this`position, this`velocity
      ensures Body(position, velocity, isOnGround) == Slide(old(Body(position, velocity, isOnGround)), a, dt, getBlock)
    {
      ghost var b := Body(position, velocity, isOnGround);
      position := With(position, a, Get(position, a) + Get(velocity, a) * dt);
      assert position == Moved(b, a, dt);
      var hit := IntersectsSolid(getBlock);
      if hit {
        position := With(position, a, Get(position, a) - Get(velocity, a) * dt);
        velocity := With(velocity, a, 0.0);
        WithBack(b, a, dt);
        assert position == b.position;
      }
    }

    /** The vertical axis of `integrateWithCollisions`, which also decides `isOnGround`. */
    method FallStep(dt: real, getBlock: (int, int, int) -> int)
      modifies this`position, this`velocity, this`isOnGround
      ensures Body(position, velocity, isOnGround) == Fall(old(Body(position, velocity, isOnGround)), dt, getBlock)
    {
      ghost var b := Body(position, velocity, isOnGround);
      position := position.(y := position.y + velocity.y * dt);
      assert position == Moved(b, Y, dt);
      var wasFalling := velocity.y < 0.0;
      var hit := IntersectsSolid(getBlock);
      if hit {
        position := position.(y := position.y - velocity.y * dt);
        WithBack(b, Y, dt);
        assert position == b.position;
        if wasFalling {
          isOnGround := true;
        }
        velocity := velocity.(y := 0.0);
      } else {
        isOnGround := false;
      }
    }

    /**
     * `raycastVoxel(origin, direction, maxDistance)`: starting from the cell holding `origin`,
     * step cell by cell along the ray, testing each cell entered, while the distance travelled
     * is at most `maxDistance`.  `path` is the start cell followed by the cells tested.
     */
    method RaycastVoxel(origin: RVec, direction: RVec, maxDistance: real, getBlock: (int, int, int) -> int)
      returns (r: Ray, ghost path: seq<Vec3>)
      ensures RayCast(origin, direction, maxDistance, getBlock, r, path)
      ensures Traced(path, origin, direction, getBlock)
      ensures maxDistance < 0.0 ==> r == RayMiss && |path| == 1
      ensures r.RayHit? ==> r.voxel.Plus(r.normal) == path[|path| - 2]
    {
      var step := StepVec(direction);
      var tDelta := Deltas(direction);
      var voxel := FloorVec(origin);
      var tMax := InitialTMaxes(origin, direction);
      var traveled := Fin(0.0);
      path := [voxel];
      while traveled.AtMost(maxDistance)
        invariant RayTables(tMax, tDelta, direction)
        invariant |path| > 0 && path[|path| - 1] == voxel
        invariant Traced(path, origin, direction, getBlock) && LastAir(path, getBlock)
        invariant Walker(voxel, tMax, traveled) == RayWalk(origin, direction, |path| - 1)
        invariant RayWalked(origin, direction, maxDistance, path)
        invariant |path| > 1 ==> 0.0 <= maxDistance
        decreases Budget(tMax, tDelta, maxDistance), if traveled.AtMost(maxDistance) then 1 else 0
      {
        var axis := RayAxis(tMax.x, tMax.y, tMax.z);
        AdvanceBudget(tMax, tDelta, axis, maxDistance);
        ghost var before := Walker(voxel, tMax, traveled);
        RayStep(origin, direction, maxDistance, getBlock, path, before);
        voxel := voxel.Plus(AxisStep(step, axis));
        traveled := tMax.Get(axis);
        tMax := tMax.Set(axis, tMax.Get(axis).Add(tDelta.Get(axis)));
        assert Walker(voxel, tMax, traveled) == RayAdvance(before, direction);
        var normal := NormalOf(step, axis);
        path := path + [voxel];
        var b := getBlock(voxel.x, voxel.y, voxel.z);
        if b != BlockAir {
          r := RayHit(voxel, normal, b);
          RayEnds(origin, direction, maxDistance, getBlock, r, path);
          return;
        }
      }
      r := RayMiss;
      RayEnds(origin, direction, maxDistance, getBlock, r, path);
    }

    /** The loop of `endPlaceDrag` that lists the cells of the drag line. */
    method DragLine(anchor: Vec3, axis: Axis, delta: real) returns (positions: seq<Vec3>)
      ensures positions == DragPoints(anchor, axis, delta)
    {
      var step := DragStep(delta);
      var len := DragLength(delta);
      positions := [];
      var i := 0;
      while i <= len
        invariant 0 <= i <= len + 1
        invariant |positions| == i
        invariant forall k | 0 <= k < i :: positions[k] == LinePoint(anchor, axis, step, k)
      {
        var px := anchor.x + (if axis == X then i * step else 0);
        var py := anchor.y + (if axis == Y then i * step else 0);
        var pz := anchor.z + (if axis == Z then i * step else 0);
        positions := positions + [Vec3(px, py, pz)];
        i := i + 1;
      }
    }

    /** The loop of `endPlaceDrag` that places the first `count` cells outside the player's box. */
    method PlaceLine(positions: seq<Vec3>, count: nat, t: int) returns (writes: seq<(Vec3, int)>)
      requires count <= |positions|
      ensures writes == Placements(positions[..count], t, position)
    {
      writes := [];
      var i := 0;
      while i < count
        invariant 0 <= i <= count
        invariant writes == Placements(positions[..i], t, position)
      {
        var p := positions[i];
        assert positions[..i + 1][..i] == positions[..i];
        if !IsInsidePlayerAABB(p.x, p.y, p.z) {
          writes := writes + [(p, t)];
        }
        i := i + 1;
      }
    }

    /**
     * `endPlaceDrag()`: aim again, draw the line from the anchor towards the aimed cell (the
     * cell in front of the hit, or the camera when nothing is hit) along the drag axis, place
     * the active stack's block on its first min(#cells, count) cells that the player's box does
     * not touch, and remove that many items even when some cells were skipped.  The world's
     * writes are returned in order.
     */
    method EndPlaceDrag(direction: RVec, cameraPosition: RVec, getBlock: (int, int, int) -> int, inv: Inventory?)
      returns (writes: seq<(Vec3, int)>, ghost line: seq<Vec3>, ghost placed: nat, ghost aim: Ray, ghost aimPath: seq<Vec3>)
      requires inv != null ==> inv.Valid()
      modifies this`placeDrag, if inv == null then {} else {inv.slots}
      ensures placeDrag == old(placeDrag).(active := false)
      ensures old(placeDrag.active) ==>
        RayCast(RVec(position.x, position.y + PlayerEyeHeight, position.z), direction, 6.0, getBlock, aim, aimPath)
        && line == DragPoints(old(placeDrag.anchor), old(placeDrag.axis),
                              AimDelta(aim, cameraPosition, old(placeDrag.anchor), old(placeDrag.axis)))
      ensures var t := if inv == null || !old(placeDrag.active) then None else DragBlockType(old(inv.GetActive()));
        && (t.None? ==> writes == [] && placed == 0)
        && (t.Some? ==> placed == Min(|line|, old(inv.GetActive()).value.count) && writes == Placements(line[..placed], t.value, position))
      ensures inv != null ==> inv.Valid()
      ensures inv != null && placed > 0 ==>
        inv.slots[..] == old(inv.slots[..])[inv.activeIndex := Taken(old(inv.slots[inv.activeIndex]), placed)]
      ensures inv != null && placed == 0 ==> inv.slots[..] == old(inv.slots[..])
    {
      line := [];
      placed := 0;
      aim, aimPath := RayMiss, [];
      if !placeDrag.active {
        return [], line, placed, aim, aimPath;
      }
      var origin := RVec(position.x, position.y + PlayerEyeHeight, position.z);
      var hit, path := RaycastVoxel(origin, direction, 6.0, getBlock);
      aim, aimPath := hit, path;
      var axis := placeDrag.axis;
      var delta := AimDelta(hit, cameraPosition, placeDrag.anchor, axis);
      var positions := DragLine(placeDrag.anchor, axis, delta);
      line := positions;
      var active := if inv != null then inv.GetActive() else None;
      if active.None? {
        placeDrag := placeDrag.(active := false);
        return [], line, placed, aim, aimPath;
      }
      var placeType := ItemIdToBlockType(active.value.id);
      if placeType.None? || active.value.count <= 0 {
        placeDrag := placeDrag.(active := false);
        return [], line, placed, aim, aimPath;
      }
      var maxPlace := Min(|positions|, active.value.count);
      writes := PlaceLine(positions, maxPlace, placeType.value);
      placed := maxPlace;
      var _ := inv.RemoveFromActive(maxPlace);
      placeDrag := placeDrag.(active := false);
    }

  }
}
