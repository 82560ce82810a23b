/**
  Real-number stand-ins for the C++ math library.

  The source computes with `float`/`double` and calls `std::sqrt`, `std::sin`,
  `std::cos`, `std::acos`, `std::atan` and `std::exp`.  The model computes with `real` and
  takes those functions as uninterpreted values bundled in `Elementary`; a proof
  that needs a law of one of them states that law as a precondition.
 */
module Maths {

  /** The elementary functions of <cmath> that the core calls. */
  datatype Elementary = Elementary(
    sqrt: real -> real,
    sin: real -> real,
    cos: real -> real,
    acos: real -> real,
    atan: real -> real,
    exp: real -> real)

  /** `f` is the non-negative square root on the non-negative reals. */
  ghost predicate SqrtLaw(f: real -> real)
  {
    forall x: real :: 0.0 <= x ==> 0.0 <= f(x) && f(x) * f(x) == x
  }

  /** The facts about sine and cosine that the orbit and sampling proofs use. */
  ghost predicate TrigLaw(sin: real -> real, cos: real -> real)
  {
    && sin(0.0) == 0.0
    && cos(0.0) == 1.0
    && forall a: real :: sin(a) * sin(a) + cos(a) * cos(a) == 1.0
  }

  function Max(a: real, b: real): (r: real)
    ensures r >= a && r >= b && (r == a || r == b)
  {
    if a >= b then a else b
  }

  function Min(a: real, b: real): (r: real)
    ensures r <= a && r <= b && (r == a || r == b)
  {
    if a <= b then a else b
  }

  /** C++ conversion of a floating value to `int`: truncation toward zero. */
  function Trunc(x: real): (n: int)
    ensures 0.0 <= x ==> 0 <= n && n as real <= x < n as real + 1.0
    ensures x < 0.0 ==> n <= 0 && n as real - 1.0 < x <= n as real
  {
    if x >= 0.0 then x.Floor else -((-x).Floor)
  }

  /** Under the square-root law, the root of x is zero exactly when x is. */
  lemma SqrtZero(e: Elementary, x: real)
    requires SqrtLaw(e.sqrt) && 0.0 <= x
    ensures e.sqrt(x) == 0.0 <==> x == 0.0
    ensures 0.0 < x ==> 0.0 < e.sqrt(x)
  {
    var s := e.sqrt(x);
    assert 0.0 <= s && s * s == x;
    if x == 0.0 {
      SquareZero(s);
    }
  }

  /** The root of the square of a non-negative value is that value. */
  lemma SqrtOfSquare(e: Elementary, y: real)
    requires SqrtLaw(e.sqrt) && 0.0 <= y
    ensures e.sqrt(y * y) == y
  {
    var s := e.sqrt(y * y);
    assert 0.0 <= s && s * s == y * y;
    assert (s + y) * (s - y) == s * s - y * y;
    if s + y != 0.0 {
      ZeroProduct(s + y, s - y);
    }
  }

  /** The absolute value. */
  function Abs(x: real): (r: real)
    ensures r >= 0.0 && (r == x || r == -x)
  {
    if x >= 0.0 then x else -x
  }

  /** The root of a square is the absolute value. */
  lemma SqrtOfSquareAbs(e: Elementary, y: real)
    requires SqrtLaw(e.sqrt)
    ensures e.sqrt(y * y) == Abs(y)
  {
    var s, a := e.sqrt(y * y), Abs(y);
    assert 0.0 <= s && s * s == y * y;
    assert a * a == y * y;
    assert (s + a) * (s - a) == s * s - a * a;
    if s + a != 0.0 {
      ZeroProduct(s + a, s - a);
    }
  }

  /** A product of non-negative factors is non-negative. */
  lemma ProductNonNegative(a: real, b: real)
    requires a >= 0.0 && b >= 0.0
    ensures a * b >= 0.0
  {
  }

  /** A root exceeds a non-negative bound exactly when the radicand exceeds its square. */
  lemma SqrtAbove(e: Elementary, q: real, c: real)
    requires SqrtLaw(e.sqrt) && 0.0 <= q && 0.0 <= c
    ensures e.sqrt(q) > c <==> q > c * c
  {
    var s := e.sqrt(q);
    assert 0.0 <= s && s * s == q;
    SquareMonotone(s, c);
  }

  /** Squaring is strictly increasing on the non-negative reals. */
  lemma SquareMonotone(s: real, c: real)
    requires 0.0 <= s && 0.0 <= c
    ensures s > c <==> s * s > c * c
  {
    assert s * s - c * c == (s - c) * (s + c);
    if s > c {
      ProductPositive(s - c, s + c);
    } else {
      ProductNonNegative(c - s, s + c);
    }
  }

  /** `(c v)^2 + (s v)^2 == v^2` on the unit circle, for either sign of `s v`. */
  lemma UnitCircleScaled(c: real, s: real, v: real)
    requires s * s + c * c == 1.0
    ensures (c * v) * (c * v) + (s * v) * (s * v) == v * v
    ensures (c * v) * (c * v) + (-(s * v)) * (-(s * v)) == v * v
  {
    assert (c * v) * (c * v) + (s * v) * (s * v) == (s * s + c * c) * (v * v);
  }

  lemma ProductPositive(a: real, b: real)
    requires a > 0.0 && b > 0.0
    ensures a * b > 0.0
  {
  }

  /** A product with a non-zero factor is zero only if the other factor is. */
  lemma ZeroProduct(a: real, b: real)
    requires a != 0.0 && a * b == 0.0
    ensures b == 0.0
  {
  }

  lemma SquareZero(a: real)
    requires a * a == 0.0
    ensures a == 0.0
  {
    if a != 0.0 {
      ZeroProduct(a, a);
    }
  }

  /** A square scaled by a non-negative factor is non-negative. */
  lemma ScaledSquare(a: real, x: real)
    requires 0.0 <= a
    ensures 0.0 <= a * x * x
  {
    assert a * x * x == a * (x * x);
    assert 0.0 <= x * x;
  }

  /** Cancelling a non-zero factor. */
  lemma Cancel(a: real, b: real, c: real)
    requires a != 0.0 && a * b == a * c
    ensures b == c
  {
  }

  /** Regrouping a product of four factors. */
  lemma Regroup(a: real, b: real, c: real, d: real)
    ensures (a * b) * (c * d) == ((a * c) * b) * d
  {
  }

  /** `(c v)(s r) + (s v)(c r)`, the cross term of two rotated vectors, is `2 s c v r`. */
  lemma DoubleProduct(c: real, s: real, v: real, r: real)
    ensures (c * v) * (s * r) == (s * v) * (c * r)
    ensures (c * v) * (s * r) + (s * v) * (c * r) == 2.0 * (s * c * v * r)
  {
    Regroup(c, v, s, r);
    Regroup(s, v, c, r);
    assert (s * v) * (c * r) == s * c * v * r;
    assert (c * v) * (s * r) == c * s * v * r;
  }

  /** Division undone by multiplication. */
  lemma DivMul(a: real, b: real)
    requires b != 0.0
    ensures (a / b) * b == a
  {
  }
}
