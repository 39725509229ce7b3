/** Points in space and the vector algebra the volume formula uses. Coordinates are exact
    reals: the source's double-precision rounding is not modelled. */
module Geometry {

  datatype Vec3 = Vec3(x: real, y: real, z: real)

  function Dot(a: Vec3, b: Vec3): real
  {
    a.x * b.x + a.y * b.y + a.z * b.z
  }

  function Cross(a: Vec3, b: Vec3): Vec3
  {
    Vec3(a.y * b.z - a.z * b.y, a.z * b.x - a.x * b.z, a.x * b.y - a.y * b.x)
  }

  /** The scalar triple product a · (b × c): six times the signed volume of the tetrahedron
      spanned by the origin and the three points. */
  function Triple(a: Vec3, b: Vec3, c: Vec3): real
  {
    Dot(a, Cross(b, c))
  }

  /** Swapping the last two corners flips the sign of the triple product. */
  lemma TripleAntisymmetric(a: Vec3, b: Vec3, c: Vec3)
    ensures Triple(a, c, b) == -Triple(a, b, c)
  {
  }

  /** The triple product is invariant under cyclic rotation of its corners, so a triangle's
      contribution does not depend on which corner is listed first. */
  lemma TripleCyclic(a: Vec3, b: Vec3, c: Vec3)
    ensures Triple(b, c, a) == Triple(a, b, c)
  {
  }
}
