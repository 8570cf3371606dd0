/** Points of the plane, and the polar offset that places a tile's corners. */
module Vec {

  /** A point (or vector) of the plane. Coordinates are reals: floating-point
      rounding is not modelled. */
  datatype Vec2 = Vec2(x: real, y: real)

  /** The origin, where the SUN and STAR seeds are anchored. */
  const ZERO: Vec2 := Vec2(0.0, 0.0)

  /** Element-wise sum of two vectors. */
  function Add(a: Vec2, b: Vec2): Vec2
  {
    Vec2(a.x + b.x, a.y + b.y)
  }

  /** `Offset(point, angle, distance)` is the point at `distance` from `point`
      in the direction `angle` degrees (0 to the right, 90 upward). Its cosine
      and sine are not modelled: every operation that walks a tile takes the
      offset function as a parameter, so each property proved here holds for
      any choice of it. */
  type Offset = (Vec2, int, real) -> Vec2

  /** What the cos/sin definition of the offset guarantees over the reals:
      moving the start point moves the end point by the same vector. */
  ghost predicate TranslationInvariant(offset: Offset)
  {
    forall p, d, angle, distance :: offset(Add(p, d), angle, distance) == Add(offset(p, angle, distance), d)
  }
}
