/** Three-component vectors over the reals (floating-point rounding is not modelled)
    and the two-component screen points the camera produces. */
module Vectors {

  datatype Vector = Vector(x: real, y: real, z: real)

  /** A point on the drawing surface, as returned by the camera projector. */
  datatype Point = Point(x: real, y: real)

  /** Vector.zeroes() */
  const Zeroes := Vector(0.0, 0.0, 0.0)

  function Add(a: Vector, b: Vector): Vector {
    Vector(a.x + b.x, a.y + b.y, a.z + b.z)
  }

  function Subtract(a: Vector, b: Vector): Vector {
    Vector(a.x - b.x, a.y - b.y, a.z - b.z)
  }

  function Divide(a: Vector, k: real): Vector
    requires k != 0.0
  {
    Vector(a.x / k, a.y / k, a.z / k)
  }

  function Negate(a: Vector): Vector {
    Vector(-a.x, -a.y, -a.z)
  }

  /** Adding an offset and then its negation gives back the original vector. */
  lemma AddNegateCancels(v: Vector, offset: Vector)
    ensures Add(Add(v, offset), Negate(offset)) == v
  {
  }
}
