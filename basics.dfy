/** Small shared value types: an optional value (the source's `null`) and integer 3-vectors. */
module Basics {

  /** `None` stands for JavaScript's `null` (and `undefined` where callers test with `== null`). */
  datatype Option<T> = None | Some(value: T) {
    function GetOr(default: T): T {
      match this
      case Some(v) => v
      case None => default
    }
  }

  /** An integer voxel coordinate or offset. */
  datatype Vec3 = Vec3(x: int, y: int, z: int) {
    function Plus(o: Vec3): Vec3 { Vec3(x + o.x, y + o.y, z + o.z) }
    function Minus(o: Vec3): Vec3 { Vec3(x - o.x, y - o.y, z - o.z) }
    function Scale(k: int): Vec3 { Vec3(k * x, k * y, k * z) }

    /** Component 0 is x, 1 is y, anything else z (the source indexes `[x, y, z]` arrays). */
    function Comp(i: nat): int { if i == 0 then x else if i == 1 then y else z }
  }

  function Abs(n: int): nat { if n < 0 then -n else n }
  function Max(a: int, b: int): int { if a < b then b else a }
  function Min(a: int, b: int): int { if a < b then a else b }

  /** Chebyshev (max-norm) length of a horizontal offset. */
  function Cheb(dx: int, dz: int): nat { Max(Abs(dx), Abs(dz)) }
}
