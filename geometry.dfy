/** Plane vectors: the x/y part of Unity's Vector2/Vector3 that the board uses. */
module Geometry {

  /** A point or offset in the plane, with exact real coordinates. */
  datatype Vec2 = Vec2(x: real, y: real) {

    /** Component-wise sum, as Vector2 + Vector2. */
    function Plus(other: Vec2): Vec2
    {
      Vec2(x + other.x, y + other.y)
    }
  }

  /** The origin, Vector2.zero. */
  const Zero: Vec2 := Vec2(0.0, 0.0)

  /** Absolute value, as Mathf.Abs. */
  function Abs(r: real): (a: real)
    ensures a >= 0.0
    ensures a == r || a == -r
  {
    if r < 0.0 then -r else r
  }
}
