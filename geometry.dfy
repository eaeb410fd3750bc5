/** Vectors and rigid transforms over the reals, standing in for Bullet's
    btVector3, btMatrix3x3 and btTransform. Single-precision rounding is not
    modelled. The Euclidean norm needs a square root, so every member that
    uses it takes it as a parameter `norm`. */
module Geometry {

  datatype Vec3 = Vec3(x: real, y: real, z: real)

  const Zero: Vec3 := Vec3(0.0, 0.0, 0.0)

  function Add(a: Vec3, b: Vec3): Vec3 {
    Vec3(a.x + b.x, a.y + b.y, a.z + b.z)
  }

  function Sub(a: Vec3, b: Vec3): Vec3 {
    Vec3(a.x - b.x, a.y - b.y, a.z - b.z)
  }

  function Scale(a: Vec3, s: real): Vec3 {
    Vec3(a.x * s, a.y * s, a.z * s)
  }

  function Dot(a: Vec3, b: Vec3): real {
    a.x * b.x + a.y * b.y + a.z * b.z
  }

  /** A norm that is never negative; the only property of the square root the model relies on. */
  ghost predicate NonNegativeNorm(norm: Vec3 -> real) {
    forall v :: norm(v) >= 0.0
  }

  /** A norm that is the square root of the dot product: non-negative, 0 for
      the zero vector, and squaring to the dot product. Only the geometric
      properties of the track tracker assume this much. */
  ghost predicate EuclideanNorm(norm: Vec3 -> real) {
    && norm(Zero) == 0.0
    && forall v :: norm(v) >= 0.0 && norm(v) * norm(v) == Dot(v, v)
  }

  lemma DotScale(a: Vec3, b: Vec3, s: real, t: real)
    ensures Dot(Scale(a, s), Scale(b, t)) == s * t * Dot(a, b)
  {
  }

  /** A 3x3 matrix given by its rows. */
  datatype Mat3 = Mat3(row0: Vec3, row1: Vec3, row2: Vec3)

  /** A rigid transform: rotation basis followed by a translation. */
  datatype Transform = Transform(basis: Mat3, origin: Vec3)

  /** `t * v` for a btTransform: the basis applied to v, then the origin added. */
  function Apply(t: Transform, v: Vec3): (r: Vec3)
    ensures v == Zero ==> r == t.origin
  {
    Add(Vec3(Dot(t.basis.row0, v), Dot(t.basis.row1, v), Dot(t.basis.row2, v)), t.origin)
  }
}
