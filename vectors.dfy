/**
  The `vcl::vec3` and `vcl::vec2` vectors of the graphics library, as triples
  and pairs of reals, with the operations the core uses.
 */
module Vectors {
  import opened Maths

  datatype Vec3 = Vec3(x: real, y: real, z: real)

  datatype Vec2 = Vec2(x: real, y: real)

  const Zero := Vec3(0.0, 0.0, 0.0)

  function Add(u: Vec3, v: Vec3): Vec3
  {
    Vec3(u.x + v.x, u.y + v.y, u.z + v.z)
  }

  function Sub(u: Vec3, v: Vec3): Vec3
  {
    Vec3(u.x - v.x, u.y - v.y, u.z - v.z)
  }

  /** Scalar times vector, `k * v` in the library. */
  function Scale(k: real, v: Vec3): Vec3
  {
    Vec3(k * v.x, k * v.y, k * v.z)
  }

  function Dot(u: Vec3, v: Vec3): real
  {
    u.x * v.x + u.y * v.y + u.z * v.z
  }

  function Cross(u: Vec3, v: Vec3): Vec3
  {
    Vec3(u.y * v.z - u.z * v.y, u.z * v.x - u.x * v.z, u.x * v.y - u.y * v.x)
  }

  /** The squared length, which is what `pow(norm(v), 2)` computes. */
  function Norm2(v: Vec3): real
  {
    Dot(v, v)
  }

  /** `vcl::norm`. */
  function Norm(e: Elementary, v: Vec3): real
  {
    e.sqrt(Norm2(v))
  }

  /** `vcl::normalize`; the zero vector is left as it is. */
  function Normalize(e: Elementary, v: Vec3): Vec3
  {
    var n := Norm(e, v);
    if n == 0.0 then Zero else Scale(1.0 / n, v)
  }

  function Sub2(u: Vec2, v: Vec2): Vec2
  {
    Vec2(u.x - v.x, u.y - v.y)
  }

  function Scale2(k: real, v: Vec2): Vec2
  {
    Vec2(k * v.x, k * v.y)
  }

  /** The squared length of a plane vector. */
  function SquaredNorm2D(v: Vec2): (r: real)
    ensures r >= 0.0
  {
    v.x * v.x + v.y * v.y
  }

  function Norm2D(e: Elementary, v: Vec2): real
  {
    e.sqrt(SquaredNorm2D(v))
  }

  /** The squared length is never negative. */
  lemma Norm2NonNegative(v: Vec3)
    ensures Norm2(v) >= 0.0
  {
  }

  /** Only the zero vector has squared length zero. */
  lemma Norm2Zero(v: Vec3)
    ensures Norm2(v) == 0.0 <==> v == Zero
  {
    if Norm2(v) == 0.0 {
      assert v.x * v.x >= 0.0 && v.y * v.y >= 0.0 && v.z * v.z >= 0.0;
      SquareZero(v.x);
      SquareZero(v.y);
      SquareZero(v.z);
    }
  }

  /** Under the square-root law, `norm(v) == 0` holds exactly for the zero vector. */
  lemma NormZero(e: Elementary, v: Vec3)
    requires SqrtLaw(e.sqrt)
    ensures Norm(e, v) == 0.0 <==> v == Zero
    ensures Norm(e, v) >= 0.0
  {
    var s := Norm2(v);
    Norm2NonNegative(v);
    Norm2Zero(v);
    SqrtZero(e, s);
    assert Norm(e, v) == e.sqrt(s);
  }

  lemma Norm2Scale(k: real, v: Vec3)
    ensures Norm2(Scale(k, v)) == k * k * Norm2(v)
  {
  }

  lemma DotScale(k: real, u: Vec3, v: Vec3)
    ensures Dot(Scale(k, u), v) == k * Dot(u, v)
    ensures Dot(u, Scale(k, v)) == k * Dot(u, v)
  {
  }

  /** The squared length of a combination `p u + q w`. */
  lemma Norm2Combination(p: real, u: Vec3, q: real, w: Vec3)
    ensures Norm2(Add(Scale(p, u), Scale(q, w)))
         == p * p * Norm2(u) + 2.0 * p * q * Dot(u, w) + q * q * Norm2(w)
  {
  }

  /** The dot product is linear in each argument. */
  lemma DotLinear(p: real, u: Vec3, q: real, w: Vec3, v: Vec3)
    ensures Dot(Add(Scale(p, u), Scale(q, w)), v) == p * Dot(u, v) + q * Dot(w, v)
    ensures Dot(v, Add(Scale(p, u), Scale(q, w))) == p * Dot(v, u) + q * Dot(v, w)
  {
    DotScale(p, u, v);
    DotScale(q, w, v);
    DotScale(p, v, u);
    DotScale(q, v, w);
  }

  lemma DotSymmetric(u: Vec3, v: Vec3)
    ensures Dot(u, v) == Dot(v, u)
  {
  }

  /** The cross product is orthogonal to both its factors. */
  lemma CrossOrthogonal(u: Vec3, v: Vec3)
    ensures Dot(Cross(u, v), u) == 0.0 && Dot(Cross(u, v), v) == 0.0
  {
  }

  /** Lagrange's identity. */
  lemma Lagrange(u: Vec3, v: Vec3)
    ensures Norm2(Cross(u, v)) == Norm2(u) * Norm2(v) - Dot(u, v) * Dot(u, v)
  {
  }

  /** The cross product of two orthogonal unit vectors is a unit vector. */
  lemma CrossUnit(u: Vec3, v: Vec3)
    requires Norm2(u) == 1.0 && Norm2(v) == 1.0 && Dot(u, v) == 0.0
    ensures Norm2(Cross(u, v)) == 1.0
  {
    Lagrange(u, v);
  }

  /** A non-zero vector normalizes to a unit vector along it. */
  lemma NormalizeUnit(e: Elementary, v: Vec3)
    requires SqrtLaw(e.sqrt) && v != Zero
    ensures Norm2(Normalize(e, v)) == 1.0
    ensures Normalize(e, v) == Scale(1.0 / Norm(e, v), v)
  {
    var n := Norm(e, v);
    NormZero(e, v);
    Norm2NonNegative(v);
    assert n * n == Norm2(v);
    Norm2Scale(1.0 / n, v);
    assert (1.0 / n) * (1.0 / n) * (n * n) == 1.0 by {
      DivMul(1.0, n);
    }
  }

  /** Normalizing the zero vector gives the zero vector. */
  lemma NormalizeZero(e: Elementary, v: Vec3)
    requires SqrtLaw(e.sqrt)
    ensures Normalize(e, v) == Zero <==> v == Zero
  {
    NormZero(e, v);
    if v != Zero {
      NormalizeUnit(e, v);
      Norm2Zero(Normalize(e, v));
    }
  }
}
