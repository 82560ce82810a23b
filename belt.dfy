/**
  `create_belt`: an asteroid belt around a parent body.  It fixes an orbital
  frame (axis, initial diameter, Kepler period and speed), then places the
  asteroids one by one, drawing positions until one keeps its distance from
  every asteroid already placed, and links each asteroid to the parent.

  The random draws are inputs: `positionDraw(m)` is the `m`-th attempt of the
  rejection loop, `speedDraw(k)` and `massDraw(k)` the draws of asteroid `k`.
 */
module Belt {
  import opened Maths
  import opened Vectors
  import opened Wrappers
  import opened Strings
  import Orbit

  /** `perlin_noise_parameters::terrain_height`, which scales the belt's interaction distance. */
  const TerrainHeight: real := 1.5

  /** The `unsigned int` loop counter wraps at 2^32. */
  const Two32: int := 0x1_0000_0000

  /** A C++ `int`. */
  newtype Int32 = x: int | -0x8000_0000 <= x < 0x8000_0000

  /** The number of rounds of `for (unsigned int i = 0; i < N; i++)`: `N` converted to `unsigned`. */
  function Rounds(n: Int32): (r: nat)
    ensures n >= 0 ==> r == n as int
    ensures n < 0 ==> r == n as int + Two32 && r >= 0x8000_0000
  {
    if n >= 0 then n as int else n as int + Two32
  }

  // ---------------------------------------------------------------- the frame

  /** The belt's orbital data as `create_belt` sets it, lines before the loop. */
  datatype Frame = Frame(
    center: Vec3,
    radiusOrbit: real,
    axis: Vec3,
    period: real,
    diameterIni: Vec3,
    sigma: real,
    lam: real,
    ka: real,
    d: real,
    speedRotation: real)

  /** The unit vectors `(1,0,0)` and `(0,1,0)`. */
  const Ex := Vec3(1.0, 0.0, 0.0)
  const Ey := Vec3(0.0, 1.0, 0.0)

  /** The initial diameter as written: crossed with `(0,1,0)` for the axis `(1,0,0)`, else with `(1,0,0)`. */
  function DiameterIni(e: Elementary, axis: Vec3): Vec3
  {
    Normalize(e, DiameterCross(axis))
  }

  /** `Normalize` returns a multiple of its argument. */
  lemma NormalizeMultiple(e: Elementary, v: Vec3) returns (k: real)
    ensures Normalize(e, v) == Scale(k, v)
  {
    if Norm(e, v) == 0.0 {
      k := 0.0;
    } else {
      k := 1.0 / Norm(e, v);
    }
  }

  /** A normalized cross product is orthogonal to its first factor, and a unit vector unless zero. */
  lemma NormalizedCross(e: Elementary, a: Vec3, b: Vec3)
    requires SqrtLaw(e.sqrt)
    ensures Dot(Normalize(e, Cross(a, b)), a) == 0.0
    ensures Cross(a, b) != Zero ==> Norm2(Normalize(e, Cross(a, b))) == 1.0
  {
    var c := Cross(a, b);
    var k := NormalizeMultiple(e, c);
    CrossOrthogonal(a, b);
    DotScale(k, c, a);
    if c != Zero {
      NormalizeUnit(e, c);
    }
  }

  lemma CrossWithEx(a: Vec3)
    ensures Cross(a, Ex) == Vec3(0.0, a.z, -a.y)
  {
  }

  lemma CrossWithEy(a: Vec3)
    ensures Cross(a, Ey) == Vec3(-a.z, 0.0, a.x)
  {
  }

  /** The cross product `DiameterIni` normalizes. */
  function DiameterCross(axis: Vec3): Vec3
  {
    if axis == Ex then Cross(axis, Ey) else Cross(axis, Ex)
  }

  /**
    The diameter is always orthogonal to the axis, and is a unit vector
    whenever the cross product it normalizes is non-zero.
   */
  lemma DiameterOrthogonal(e: Elementary, axis: Vec3)
    requires SqrtLaw(e.sqrt)
    ensures Dot(DiameterIni(e, axis), axis) == 0.0
    ensures DiameterCross(axis) != Zero ==> Norm2(DiameterIni(e, axis)) == 1.0
  {
    if axis == Ex {
      NormalizedCross(e, axis, Ey);
    } else {
      NormalizedCross(e, axis, Ex);
    }
  }

  /** A unit vector on the x axis is `(1,0,0)` or `(-1,0,0)`. */
  lemma UnitOnXAxis(a: Vec3)
    requires Norm2(a) == 1.0 && a.y == 0.0 && a.z == 0.0
    ensures a == Ex || a == Vec3(-1.0, 0.0, 0.0)
  {
    assert a.x * a.x == 1.0;
    assert (a.x - 1.0) * (a.x + 1.0) == 0.0;
    if a.x - 1.0 != 0.0 {
      ZeroProduct(a.x - 1.0, a.x + 1.0);
    }
  }

  /**
    For a unit axis the check misses exactly one axis: the diameter is zero
    if and only if the axis is `(-1,0,0)`.
   */
  lemma DiameterZero(e: Elementary, axis: Vec3)
    requires SqrtLaw(e.sqrt) && Norm2(axis) == 1.0
    ensures DiameterIni(e, axis) == Zero <==> axis == Vec3(-1.0, 0.0, 0.0)
  {
    hide Normalize, Norm, Norm2, Cross;
    var c := DiameterCross(axis);
    NormalizeZero(e, c);
    if axis == Ex {
      CrossWithEy(axis);
      assert c != Zero;
    } else {
      CrossWithEx(axis);
      if axis.y == 0.0 && axis.z == 0.0 {
        UnitOnXAxis(axis);
      }
      assert c == Zero <==> axis.y == 0.0 && axis.z == 0.0;
    }
  }

  /** The axis `(-1,0,0)` gets a zero diameter. */
  lemma DiameterMissesMinusX(e: Elementary)
    requires SqrtLaw(e.sqrt)
    ensures DiameterIni(e, Vec3(-1.0, 0.0, 0.0)) == Zero
  {
    DiameterZero(e, Vec3(-1.0, 0.0, 0.0));
  }

  /**
    The intended diameter: the axis is crossed with `(0,1,0)` whenever it is
    parallel to `(1,0,0)`, in either direction.
   */
  function PerpendicularDiameter(e: Elementary, axis: Vec3): Vec3
  {
    if axis.y == 0.0 && axis.z == 0.0 then Normalize(e, Cross(axis, Ey)) else Normalize(e, Cross(axis, Ex))
  }

  /** For every non-zero axis the intended diameter is a unit vector orthogonal to it. */
  lemma PerpendicularDiameterUnit(e: Elementary, axis: Vec3)
    requires SqrtLaw(e.sqrt) && axis != Zero
    ensures Dot(PerpendicularDiameter(e, axis), axis) == 0.0
    ensures Norm2(PerpendicularDiameter(e, axis)) == 1.0
  {
    if axis.y == 0.0 && axis.z == 0.0 {
      CrossWithEy(axis);
      NormalizedCross(e, axis, Ey);
    } else {
      CrossWithEx(axis);
      NormalizedCross(e, axis, Ex);
    }
  }

  /** The two choices agree except on the axes `(x,0,0)` with `x != 1`. */
  lemma DiameterAgrees(e: Elementary, axis: Vec3)
    requires !(axis.y == 0.0 && axis.z == 0.0) || axis == Ex
    ensures DiameterIni(e, axis) == PerpendicularDiameter(e, axis)
  {
  }

  /** `D = 1.7 * terrain_height * radius_ast`. */
  function InteractionDistance(radiusAst: real): real
  {
    1.7 * TerrainHeight * radiusAst
  }

  /** The frame `create_belt` sets before placing any asteroid. */
  function Setup(e: Elementary, parentMass: real, ax: Vec3, radius: real, radiusAst: real): Frame
    requires parentMass != 0.0 && Orbit.Period(e, radius, parentMass) != 0.0
  {
    var axis := Normalize(e, ax);
    var period := Orbit.Period(e, radius, parentMass);
    Frame(Zero, radius, axis, period, DiameterIni(e, axis), 10.0, 1.0, 1.0,
          InteractionDistance(radiusAst), Orbit.CircularSpeed(radius, period))
  }

  /**
    For a non-zero axis the frame's axis is a unit vector and its diameter is
    orthogonal to it; the tuning constants are `sigma = 10`, `lambda = ka = 1`,
    `D = 2.55 radius_ast`, and the centre is the origin.
   */
  lemma SetupAxes(e: Elementary, parentMass: real, ax: Vec3, radius: real, radiusAst: real)
    requires SqrtLaw(e.sqrt) && ax != Zero && parentMass != 0.0 && Orbit.Period(e, radius, parentMass) != 0.0
    ensures var f := Setup(e, parentMass, ax, radius, radiusAst);
      && f.center == Zero && f.radiusOrbit == radius
      && Norm2(f.axis) == 1.0
      && Dot(f.diameterIni, f.axis) == 0.0
      && f.sigma == 10.0 && f.lam == 1.0 && f.ka == 1.0 && f.d == 2.55 * radiusAst
  {
    hide Normalize, Norm, DiameterIni, Orbit.Period, Orbit.CircularSpeed, Norm2, Dot;
    NormalizeUnit(e, ax);
    DiameterOrthogonal(e, Normalize(e, ax));
  }

  /**
    For a positive radius and parent mass the belt turns at the speed of a
    circular orbit: `speed_rotation^2 R == G M`.
   */
  lemma SetupSpeed(e: Elementary, parentMass: real, ax: Vec3, radius: real, radiusAst: real)
    requires SqrtLaw(e.sqrt) && radius > 0.0 && parentMass > 0.0
    ensures Orbit.Period(e, radius, parentMass) > 0.0
    ensures var f := Setup(e, parentMass, ax, radius, radiusAst);
      f.speedRotation * f.speedRotation * radius == Orbit.G * parentMass
  {
    hide Normalize, Norm, DiameterIni, Orbit.Period, Orbit.CircularSpeed;
    Orbit.CircularSpeedKepler(e, radius, parentMass);
  }

  // ---------------------------------------------------------------- the draws

  /**
    One attempt of `generate_rand_position`, as standard deviates: the radius
    is `R + depth * radial`, the longitude `2 * 3.14 * turn` with `turn` in
    `[0, 1]`, the colatitude `(depth / R) * polar`.
   */
  datatype PositionDraw = PositionDraw(radial: real, turn: real, polar: real)

  /** `rad sin(theta) cos(phi) ex + rad sin(theta) sin(phi) (ez x ex) + rad cos(theta) ez`. */
  function SphericalPoint(rad: real, sinT: real, cosT: real, sinP: real, cosP: real, ex: Vec3, ez: Vec3): Vec3
  {
    Add(Add(Scale(rad * sinT * cosP, ex), Scale(rad * sinT * sinP, Cross(ez, ex))), Scale(rad * cosT, ez))
  }

  /** The radius drawn from `normal_distribution(R, depth)`. */
  function DrawnRadius(radius: real, depth: real, d: PositionDraw): real
  {
    radius + depth * d.radial
  }

  /** The longitude drawn from `rand_interval(0, 2 * 3.14)`. */
  function Longitude(d: PositionDraw): real
  {
    2.0 * Orbit.Pi * d.turn
  }

  /** The colatitude drawn from `normal_distribution(0, depth / R)`. */
  function Colatitude(radius: real, depth: real, d: PositionDraw): real
    requires radius != 0.0
  {
    (depth / radius) * d.polar
  }

  /** `generate_rand_position(R, depth, ex, ez)` for one draw. */
  function GenerateRandPosition(e: Elementary, radius: real, depth: real, ex: Vec3, ez: Vec3, d: PositionDraw): Vec3
    requires radius != 0.0
  {
    var theta := Colatitude(radius, depth, d);
    var phi := Longitude(d);
    SphericalPoint(DrawnRadius(radius, depth, d), e.sin(theta), e.cos(theta), e.sin(phi), e.cos(phi), ex, ez)
  }

  /** The coefficients of a point in spherical coordinates have squares summing to `rad^2`. */
  lemma SphericalCoefficients(rad: real, sinT: real, cosT: real, sinP: real, cosP: real)
    requires sinT * sinT + cosT * cosT == 1.0 && sinP * sinP + cosP * cosP == 1.0
    ensures SumOfSquares(rad * sinT * cosP, rad * sinT * sinP, rad * cosT) == rad * rad
  {
    var a := rad * sinT;
    assert (a * cosP) * (a * cosP) + (a * sinP) * (a * sinP) == (a * a) * (sinP * sinP + cosP * cosP);
    assert a * a == (rad * rad) * (sinT * sinT);
    assert (rad * cosT) * (rad * cosT) == (rad * rad) * (cosT * cosT);
    assert (rad * rad) * (sinT * sinT) + (rad * rad) * (cosT * cosT) == (rad * rad) * (sinT * sinT + cosT * cosT);
  }

  function SumOfSquares(a: real, b: real, c: real): real
  {
    a * a + b * b + c * c
  }

  /** Three orthonormal vectors. */
  predicate Orthonormal3(x: Vec3, y: Vec3, z: Vec3)
  {
    && Norm2(x) == 1.0 && Norm2(y) == 1.0 && Norm2(z) == 1.0
    && Dot(x, y) == 0.0 && Dot(x, z) == 0.0 && Dot(y, z) == 0.0
  }

  /** The squared length of `a x + b y + c z` over an orthonormal triple. */
  lemma Norm2Combination3(a: real, x: Vec3, b: real, y: Vec3, c: real, z: Vec3)
    requires Orthonormal3(x, y, z)
    ensures Norm2(Add(Add(Scale(a, x), Scale(b, y)), Scale(c, z))) == SumOfSquares(a, b, c)
  {
    var w := Add(Scale(a, x), Scale(b, y));
    Norm2Combination(a, x, b, y);
    DotLinear(a, x, b, y, z);
    assert Scale(1.0, w) == w;
    Norm2Combination(1.0, w, c, z);
  }

  /** With `ex`, `ez` orthonormal, a spherical point lies at distance `|rad|` from the origin. */
  lemma SphericalPointNorm(e: Elementary, rad: real, sinT: real, cosT: real, sinP: real, cosP: real, ex: Vec3, ez: Vec3)
    requires SqrtLaw(e.sqrt)
    requires sinT * sinT + cosT * cosT == 1.0 && sinP * sinP + cosP * cosP == 1.0
    requires Norm2(ex) == 1.0 && Norm2(ez) == 1.0 && Dot(ex, ez) == 0.0
    ensures Norm2(SphericalPoint(rad, sinT, cosT, sinP, cosP, ex, ez)) == rad * rad
    ensures Norm(e, SphericalPoint(rad, sinT, cosT, sinP, cosP, ex, ez)) == Abs(rad)
  {
    var ey := Cross(ez, ex);
    DotSymmetric(ex, ez);
    CrossUnit(ez, ex);
    CrossOrthogonal(ez, ex);
    DotSymmetric(ey, ex);
    DotSymmetric(ey, ez);
    Norm2Combination3(rad * sinT * cosP, ex, rad * sinT * sinP, ey, rad * cosT, ez);
    SphericalCoefficients(rad, sinT, cosT, sinP, cosP);
    SqrtOfSquareAbs(e, rad);
  }

  /**
    With `ex` and `ez` orthonormal, `generate_rand_position` returns a vector
    of norm `|R + depth * radial|`, the radius it drew.
   */
  lemma RandPositionNorm(e: Elementary, radius: real, depth: real, ex: Vec3, ez: Vec3, d: PositionDraw)
    requires SqrtLaw(e.sqrt) && TrigLaw(e.sin, e.cos) && radius != 0.0
    requires Norm2(ex) == 1.0 && Norm2(ez) == 1.0 && Dot(ex, ez) == 0.0
    ensures Norm(e, GenerateRandPosition(e, radius, depth, ex, ez, d)) == Abs(DrawnRadius(radius, depth, d))
  {
    var theta := Colatitude(radius, depth, d);
    var phi := Longitude(d);
    assert e.sin(theta) * e.sin(theta) + e.cos(theta) * e.cos(theta) == 1.0;
    assert e.sin(phi) * e.sin(phi) + e.cos(phi) * e.cos(phi) == 1.0;
    SphericalPointNorm(e, DrawnRadius(radius, depth, d), e.sin(theta), e.cos(theta), e.sin(phi), e.cos(phi), ex, ez);
  }

  /** `generate_rand_speed(speed_ini, rand_speed)` for a triple of standard deviates. */
  function GenerateRandSpeed(speedIni: Vec3, randSpeed: real, z: Vec3): (v: Vec3)
    ensures Sub(v, speedIni) == Scale(randSpeed, z)
    ensures randSpeed == 0.0 ==> v == speedIni
  {
    Add(speedIni, Scale(randSpeed, z))
  }

  /** `vcl::rand_interval(lo, hi)` for a uniform draw `u` of `[0, 1]`. */
  function RandInterval(lo: real, hi: real, u: real): real
  {
    lo + u * (hi - lo)
  }

  /** `rand_interval(mass_ast * 3 / 4, mass_ast * 5 / 4)`. */
  function AsteroidMass(massAst: real, u: real): real
  {
    RandInterval(massAst * 3.0 / 4.0, massAst * 5.0 / 4.0, u)
  }

  /** A draw of `[0, 1]` lands between the two bounds, whichever is smaller. */
  lemma RandIntervalBounds(lo: real, hi: real, u: real)
    requires 0.0 <= u <= 1.0
    ensures Min(lo, hi) <= RandInterval(lo, hi, u) <= Max(lo, hi)
  {
    if lo <= hi {
      ProductNonNegative(u, hi - lo);
      ProductNonNegative(1.0 - u, hi - lo);
    } else {
      ProductNonNegative(u, lo - hi);
      ProductNonNegative(1.0 - u, lo - hi);
    }
  }

  /** For a non-negative `mass_ast` the asteroid mass lies in `[3/4 mass_ast, 5/4 mass_ast]`. */
  lemma AsteroidMassBounds(massAst: real, u: real)
    requires 0.0 <= u <= 1.0 && massAst >= 0.0
    ensures massAst * 3.0 / 4.0 <= AsteroidMass(massAst, u) <= massAst * 5.0 / 4.0
  {
    RandIntervalBounds(massAst * 3.0 / 4.0, massAst * 5.0 / 4.0, u);
  }

  /**
    The mean velocity `speed_rotation * normalize(axis x p)`: orthogonal to the
    axis and to the position, and of magnitude `speed_rotation` unless the
    position lies on the axis.
   */
  function MeanVelocity(e: Elementary, speedRotation: real, axis: Vec3, p: Vec3): Vec3
  {
    Scale(speedRotation, Normalize(e, Cross(axis, p)))
  }

  lemma MeanVelocityTangent(e: Elementary, speedRotation: real, axis: Vec3, p: Vec3)
    requires SqrtLaw(e.sqrt)
    ensures Dot(MeanVelocity(e, speedRotation, axis, p), axis) == 0.0
    ensures Dot(MeanVelocity(e, speedRotation, axis, p), p) == 0.0
    ensures Cross(axis, p) != Zero ==> Norm2(MeanVelocity(e, speedRotation, axis, p)) == speedRotation * speedRotation
  {
    var c := Cross(axis, p);
    var k := NormalizeMultiple(e, c);
    CrossOrthogonal(axis, p);
    DotScale(k, c, axis);
    DotScale(k, c, p);
    DotScale(speedRotation, Normalize(e, c), axis);
    DotScale(speedRotation, Normalize(e, c), p);
    Norm2Scale(speedRotation, Normalize(e, c));
    if c != Zero {
      NormalizeUnit(e, c);
    }
  }

  // ---------------------------------------------------------------- separation

  /** The candidate keeps a distance of at least `3 radius_ast` from every placed position. */
  ghost predicate Separated(e: Elementary, ps: seq<Vec3>, p: Vec3, radiusAst: real)
  {
    forall j :: 0 <= j < |ps| ==> Norm(e, Sub(ps[j], p)) >= 3.0 * radiusAst
  }

  /** Every two positions are at least `3 radius_ast` apart. */
  ghost predicate PairwiseSeparated(e: Elementary, ps: seq<Vec3>, radiusAst: real)
  {
    forall i, j :: 0 <= i < j < |ps| ==> Norm(e, Sub(ps[i], ps[j])) >= 3.0 * radiusAst
  }

  /** Accepting a separated candidate keeps the placed positions pairwise separated. */
  lemma SeparatedAppend(e: Elementary, ps: seq<Vec3>, p: Vec3, radiusAst: real)
    requires PairwiseSeparated(e, ps, radiusAst) && Separated(e, ps, p, radiusAst)
    ensures PairwiseSeparated(e, ps + [p], radiusAst)
  {
    var qs := ps + [p];
    forall i, j | 0 <= i < j < |qs|
      ensures Norm(e, Sub(qs[i], qs[j])) >= 3.0 * radiusAst
    {
      if j < |ps| {
        assert qs[i] == ps[i] && qs[j] == ps[j];
      } else {
        assert qs[i] == ps[i] && qs[j] == p;
      }
    }
  }

  /** For a positive radius, pairwise separated positions are pairwise distinct. */
  lemma SeparatedDistinct(e: Elementary, ps: seq<Vec3>, radiusAst: real, i: int, j: int)
    requires SqrtLaw(e.sqrt) && radiusAst > 0.0 && PairwiseSeparated(e, ps, radiusAst)
    requires 0 <= i < |ps| && 0 <= j < |ps| && i != j
    ensures ps[i] != ps[j]
  {
    var a, b := if i < j then i else j, if i < j then j else i;
    assert Norm(e, Sub(ps[a], ps[b])) >= 3.0 * radiusAst;
    if ps[a] == ps[b] {
      assert Sub(ps[a], ps[b]) == Zero;
      NormZero(e, Zero);
    }
  }

  // ---------------------------------------------------------------- the objects

  /** An `Object_Drawable` as the belt code uses it: a named body with a parent and children. */
  class Drawable {
    var name: string
    var mass: real
    var pos: Vec3
    var speed: Vec3
    var radius: real
    var parent: Drawable?
    var enfants: seq<Drawable>

    /** `create_ast(M, position_ini, speed_ini, radius)`: the four values copied as given. */
    constructor CreateAst(m: real, positionIni: Vec3, speedIni: Vec3, r: real)
      ensures mass == m && pos == positionIni && speed == speedIni && radius == r
      ensures name == "" && parent == null && enfants == []
    {
      name, mass, pos, speed, radius, parent, enfants := "", m, positionIni, speedIni, r, null, [];
    }
  }

  /** The positions of a sequence of bodies. */
  function Positions(xs: seq<Drawable>): (ps: seq<Vec3>)
    reads xs
    ensures |ps| == |xs| && forall k :: 0 <= k < |xs| ==> ps[k] == xs[k].pos
  {
    if xs == [] then [] else Positions(xs[..|xs| - 1]) + [xs[|xs| - 1].pos]
  }

  /** The belt `create_belt` returns: its frame and its asteroids. */
  class AsteroidBelt {
    var center: Vec3
    var radiusOrbit: real
    var axis: Vec3
    var period: real
    var diameterIni: Vec3
    var sigma: real
    var lam: real
    var ka: real
    var d: real
    var speedRotation: real
    var elements: seq<Drawable>

    constructor ()
      ensures elements == []
    {
      elements := [];
    }

    function Value(): Frame
      reads this
    {
      Frame(center, radiusOrbit, axis, period, diameterIni, sigma, lam, ka, d, speedRotation)
    }
  }

  /**
    The inner `for` loop of the rejection test: `b` is set when some placed
    asteroid lies closer than `3 radius_ast` to the candidate.
   */
  method TooClose(e: Elementary, elements: seq<Drawable>, p: Vec3, radiusAst: real) returns (b: bool)
    ensures b <==> !Separated(e, Positions(elements), p, radiusAst)
  {
    b := false;
    for j := 0 to |elements|
      invariant b <==> exists i :: 0 <= i < j && Norm(e, Sub(elements[i].pos, p)) < 3.0 * radiusAst
    {
      if Norm(e, Sub(elements[j].pos, p)) < 3.0 * radiusAst {
        b := true;
      }
    }
  }

  /** The random inputs of `create_belt`: position attempts, and speed and mass draws per asteroid. */
  datatype Draws = Draws(position: nat -> PositionDraw, speed: nat -> Vec3, mass: nat -> real)

  /** The start of `create_belt`, before the placement loop: the frame fields, assigned one by one. */
  method InitFrame(e: Elementary, belt: AsteroidBelt, parentMass: real, ax: Vec3, radius: real, radiusAst: real)
    requires parentMass != 0.0 && Orbit.Period(e, radius, parentMass) != 0.0
    modifies belt
    ensures belt.Value() == Setup(e, parentMass, ax, radius, radiusAst) && belt.radiusOrbit == radius
    ensures belt.elements == old(belt.elements)
  {
    hide Normalize, Orbit.Period, DiameterIni, Orbit.CircularSpeed, InteractionDistance;
    belt.center := Zero;
    belt.radiusOrbit := radius;
    belt.axis := Normalize(e, ax);
    belt.period := Orbit.Period(e, belt.radiusOrbit, parentMass);
    belt.diameterIni := DiameterIni(e, belt.axis);
    belt.sigma, belt.lam, belt.ka := 10.0, 1.0, 1.0;
    belt.d := InteractionDistance(radiusAst);
    belt.speedRotation := Orbit.CircularSpeed(belt.radiusOrbit, belt.period);
  }

  /** Attempt `m` of the belt's rejection loop. */
  function Candidate(e: Elementary, f: Frame, depth: real, d: PositionDraw): Vec3
    requires f.radiusOrbit != 0.0
  {
    GenerateRandPosition(e, f.radiusOrbit, depth, f.diameterIni, f.axis, d)
  }

  /**
    Asteroid `k`, accepted at attempt `pick`: named `"ast_k"`, linked to
    `parent`, at the candidate position, with its speed drawn around the mean
    velocity there, its mass drawn from `[3/4 mass_ast, 5/4 mass_ast]` and
    radius `radius_ast`.
   */
  ghost predicate Placed(e: Elementary, a: Drawable, k: nat, pick: nat, parent: Drawable, f: Frame, depth: real,
                         massAst: real, radiusAst: real, randSpeed: real, draws: Draws)
    reads a
    requires f.radiusOrbit != 0.0
  {
    && a.name == AsteroidName(k) && a.parent == parent && a.enfants == []
    && a.mass == AsteroidMass(massAst, draws.mass(k)) && a.radius == radiusAst
    && a.pos == Candidate(e, f, depth, draws.position(pick))
    && a.speed == GenerateRandSpeed(MeanVelocity(e, f.speedRotation, f.axis, a.pos), randSpeed, draws.speed(k))
  }

  /**
    One accepted position `p`: the velocity and mass draws, `create_ast`, the
    name `"ast_" + elements.size()`, the link to the parent and the two pushes.
   */
  method PlaceAsteroid(e: Elementary, belt: AsteroidBelt, parent: Drawable, p: Vec3, ghost pick: nat, depth: real,
                       massAst: real, radiusAst: real, randSpeed: real, draws: Draws)
    returns (ast: Drawable)
    requires belt.radiusOrbit != 0.0 && p == Candidate(e, belt.Value(), depth, draws.position(pick))
    modifies belt, parent`enfants
    ensures fresh(ast) && belt.Value() == old(belt.Value())
    ensures belt.elements == old(belt.elements) + [ast]
    ensures parent.enfants == old(parent.enfants) + [ast]
    ensures ast.pos == p
    ensures Placed(e, ast, |old(belt.elements)|, pick, parent, belt.Value(), depth, massAst, radiusAst, randSpeed, draws)
  {
    var k := |belt.elements|;
    var v := GenerateRandSpeed(MeanVelocity(e, belt.speedRotation, belt.axis, p), randSpeed, draws.speed(k));
    var m := AsteroidMass(massAst, draws.mass(k));
    ast := new Drawable.CreateAst(m, p, v, radiusAst);
    ast.name := AsteroidName(k);
    parent.enfants := parent.enfants + [ast];
    ast.parent := parent;
    belt.elements := belt.elements + [ast];
  }

  /** Every asteroid `k` is `Placed`, accepted at `picks[k]`, an attempt before `attempts` and after the previous pick. */
  ghost predicate AllPlaced(e: Elementary, elements: seq<Drawable>, picks: seq<nat>, attempts: nat, parent: Drawable,
                            f: Frame, depth: real, massAst: real, radiusAst: real, randSpeed: real, draws: Draws)
    reads elements
    requires f.radiusOrbit != 0.0 && |picks| == |elements|
  {
    forall k :: 0 <= k < |elements| ==>
      && picks[k] < attempts && FirstAttempt(picks, k) <= picks[k]
      && Placed(e, elements[k], k, picks[k], parent, f, depth, massAst, radiusAst, randSpeed, draws)
  }

  /** Appending an asteroid placed at the next pick. */
  lemma AllPlacedAppend(e: Elementary, elements: seq<Drawable>, picks: seq<nat>, attempts: nat, parent: Drawable,
                        f: Frame, depth: real, massAst: real, radiusAst: real, randSpeed: real, draws: Draws,
                        ast: Drawable, pick: nat)
    requires f.radiusOrbit != 0.0 && |picks| == |elements|
    requires AllPlaced(e, elements, picks, attempts, parent, f, depth, massAst, radiusAst, randSpeed, draws)
    requires FirstAttempt(picks, |picks|) <= pick < attempts
    requires Placed(e, ast, |elements|, pick, parent, f, depth, massAst, radiusAst, randSpeed, draws)
    ensures AllPlaced(e, elements + [ast], picks + [pick], attempts, parent, f, depth, massAst, radiusAst, randSpeed, draws)
  {
    hide Placed, Candidate, GenerateRandPosition, GenerateRandSpeed, MeanVelocity, AsteroidMass, Normalize;
    var xs, picks' := elements + [ast], picks + [pick];
    forall k | 0 <= k < |xs|
      ensures picks'[k] < attempts && FirstAttempt(picks', k) <= picks'[k]
      ensures Placed(e, xs[k], k, picks'[k], parent, f, depth, massAst, radiusAst, randSpeed, draws)
    {
      if k < |elements| {
        assert xs[k] == elements[k] && picks'[k] == picks[k];
        assert FirstAttempt(picks', k) == FirstAttempt(picks, k);
      } else {
        assert xs[k] == ast && picks'[k] == pick && k == |picks|;
      }
    }
  }

  /** The empty belt satisfies the loop's invariants. */
  lemma EmptyBelt(e: Elementary, attempts: nat, parent: Drawable, f: Frame, depth: real, massAst: real,
                  radiusAst: real, randSpeed: real, draws: Draws)
    requires f.radiusOrbit != 0.0
    ensures AllPlaced(e, [], [], attempts, parent, f, depth, massAst, radiusAst, randSpeed, draws)
    ensures Positions([]) == []
    ensures PairwiseSeparated(e, [], radiusAst) && Rejections(e, [], [], f, depth, radiusAst, draws)
  {
  }

  /** The first attempt left for asteroid `k` once `picks[..k]` have been accepted. */
  function FirstAttempt(picks: seq<nat>, k: nat): nat
    requires k <= |picks|
  {
    if k == 0 then 0 else picks[k - 1] + 1
  }

  /**
    The attempts the rejection loop skipped: for every asteroid `k`, each
    attempt between the previous pick and `picks[k]` was too close to one of
    positions `0 .. k - 1`.
   */
  ghost predicate Rejections(e: Elementary, ps: seq<Vec3>, picks: seq<nat>, f: Frame, depth: real,
                             radiusAst: real, draws: Draws)
    requires f.radiusOrbit != 0.0 && |picks| <= |ps|
  {
    forall k, m :: 0 <= k < |picks| && FirstAttempt(picks, k) <= m < picks[k] ==>
      !Separated(e, ps[..k], Candidate(e, f, depth, draws.position(m)), radiusAst)
  }

  /** All attempts from `from` up to `to` were too close to the positions `ps`. */
  ghost predicate AllRejected(e: Elementary, ps: seq<Vec3>, from: nat, to: nat, f: Frame, depth: real,
                              radiusAst: real, draws: Draws)
    requires f.radiusOrbit != 0.0
  {
    forall m :: from <= m < to ==> !Separated(e, ps, Candidate(e, f, depth, draws.position(m)), radiusAst)
  }

  /**
    The `while (b)` rejection loop: draws candidates from attempt `start` on
    until one is separated from the placed asteroids, or until the attempts
    run out at `attempts`.  Every attempt it skips was too close.
   */
  method SamplePosition(e: Elementary, elements: seq<Drawable>, f: Frame, depth: real, radiusAst: real,
                        draws: Draws, start: nat, attempts: nat)
    returns (p: Vec3, found: bool, next: nat)
    requires f.radiusOrbit != 0.0 && start <= attempts
    ensures start <= next <= attempts
    ensures found ==> next > start && p == Candidate(e, f, depth, draws.position(next - 1))
    ensures found ==> Separated(e, Positions(elements), p, radiusAst)
    ensures !found ==> next == attempts
    ensures AllRejected(e, Positions(elements), start, if found then next - 1 else next, f, depth, radiusAst, draws)
  {
    hide Candidate, GenerateRandPosition, Normalize, Positions, Separated;
    next := start;
    var b := true;
    p := Zero;
    while b && next < attempts
      invariant start <= next <= attempts
      invariant !b ==> next > start && p == Candidate(e, f, depth, draws.position(next - 1))
      invariant !b ==> Separated(e, Positions(elements), p, radiusAst)
      invariant AllRejected(e, Positions(elements), start, if b then next else next - 1, f, depth, radiusAst, draws)
      decreases attempts - next, b
    {
      p := Candidate(e, f, depth, draws.position(next));
      next := next + 1;
      b := TooClose(e, elements, p, radiusAst);
    }
    found := !b;
  }

  /** Accepting attempt `pick` after rejecting all attempts since the previous pick. */
  lemma RejectionsExtend(e: Elementary, ps: seq<Vec3>, picks: seq<nat>, f: Frame, depth: real,
                         radiusAst: real, draws: Draws, p: Vec3, pick: nat)
    requires f.radiusOrbit != 0.0 && |picks| == |ps|
    requires Rejections(e, ps, picks, f, depth, radiusAst, draws)
    requires AllRejected(e, ps, FirstAttempt(picks, |picks|), pick, f, depth, radiusAst, draws)
    ensures Rejections(e, ps + [p], picks + [pick], f, depth, radiusAst, draws)
  {
    var qs, picks' := ps + [p], picks + [pick];
    forall k, m | 0 <= k < |picks'| && FirstAttempt(picks', k) <= m < picks'[k]
      ensures !Separated(e, qs[..k], Candidate(e, f, depth, draws.position(m)), radiusAst)
    {
      assert qs[..k] == ps[..k];
      if k < |picks| {
        assert FirstAttempt(picks', k) == FirstAttempt(picks, k) && picks'[k] == picks[k];
      } else {
        assert ps[..k] == ps;
      }
    }
  }

  lemma PositionsAppend(xs: seq<Drawable>, x: Drawable)
    ensures Positions(xs + [x]) == Positions(xs) + [x.pos]
  {
  }

  /**
    The accepting branch of one round: the asteroid at the separated
    candidate `p`, drawn at attempt `pick`, is placed, and the belt's
    invariants extend to it.
   */
  method Accept(e: Elementary, belt: AsteroidBelt, parent: Drawable, p: Vec3, ghost picks: seq<nat>, ghost pick: nat,
                ghost f: Frame, depth: real, massAst: real, radiusAst: real, randSpeed: real, draws: Draws,
                ghost attempts: nat)
    returns (ast: Drawable)
    requires f.radiusOrbit != 0.0 && belt.Value() == f && |picks| == |belt.elements| && parent !in belt.elements
    requires FirstAttempt(picks, |picks|) <= pick < attempts && p == Candidate(e, f, depth, draws.position(pick))
    requires Separated(e, Positions(belt.elements), p, radiusAst)
    requires AllRejected(e, Positions(belt.elements), FirstAttempt(picks, |picks|), pick, f, depth, radiusAst, draws)
    requires AllPlaced(e, belt.elements, picks, attempts, parent, f, depth, massAst, radiusAst, randSpeed, draws)
    requires PairwiseSeparated(e, Positions(belt.elements), radiusAst)
    requires Rejections(e, Positions(belt.elements), picks, f, depth, radiusAst, draws)
    modifies belt, parent`enfants
    ensures fresh(ast) && belt.Value() == f
    ensures belt.elements == old(belt.elements) + [ast]
    ensures parent.enfants == old(parent.enfants) + [ast]
    ensures AllPlaced(e, belt.elements, picks + [pick], attempts, parent, f, depth, massAst, radiusAst, randSpeed, draws)
    ensures PairwiseSeparated(e, Positions(belt.elements), radiusAst)
    ensures Rejections(e, Positions(belt.elements), picks + [pick], f, depth, radiusAst, draws)
  {
    hide Setup, Candidate, Placed, AllPlaced, GenerateRandPosition, Normalize;
    hide Positions, Separated, PairwiseSeparated, Rejections, AllRejected;
    ghost var elements := belt.elements;
    ghost var ps := Positions(elements);
    ast := PlaceAsteroid(e, belt, parent, p, pick, depth, massAst, radiusAst, randSpeed, draws);
    assert Positions(elements) == ps;
    AllPlacedAppend(e, elements, picks, attempts, parent, f, depth, massAst, radiusAst, randSpeed, draws, ast, pick);
    PositionsAppend(elements, ast);
    SeparatedAppend(e, ps, p, radiusAst);
    RejectionsExtend(e, ps, picks, f, depth, radiusAst, draws, p, pick);
  }

  /**
    `create_belt(parent, parentmass, ax, R, depth, N, mass_ast, radius_ast, rand_speed)`.

    The frame is `Setup`.  Asteroid `k` is the `picks[k]`-th attempt, the first
    after `picks[k - 1]` that keeps `3 radius_ast` away from asteroids
    `0 .. k - 1`; the asteroids are pairwise separated, appended to both the
    belt and `parent.enfants`, and `Placed`.  The loop runs `N` rounds, read
    as `unsigned`.  `attempts` bounds the position draws the rejection loop
    may consume; when they run out the belt is returned incomplete, every
    attempt after the last pick having been too close.
   */
  method CreateBelt(e: Elementary, parent: Drawable, parentMass: real, ax: Vec3, radius: real, depth: real,
                    n: Int32, massAst: real, radiusAst: real, randSpeed: real, draws: Draws, attempts: nat)
    returns (belt: AsteroidBelt, complete: bool, ghost picks: seq<nat>)
    requires parentMass != 0.0 && radius != 0.0 && Orbit.Period(e, radius, parentMass) != 0.0
    modifies parent`enfants
    ensures fresh(belt) && belt.Value() == Setup(e, parentMass, ax, radius, radiusAst) && belt.radiusOrbit == radius
    ensures complete <==> |belt.elements| == Rounds(n)
    ensures |belt.elements| <= Rounds(n) && |picks| == |belt.elements|
    ensures parent.enfants == old(parent.enfants) + belt.elements
    ensures forall k :: 0 <= k < |belt.elements| ==> fresh(belt.elements[k])
    ensures forall k, l :: 0 <= k < l < |belt.elements| ==> belt.elements[k] != belt.elements[l]
    ensures AllPlaced(e, belt.elements, picks, attempts, parent, belt.Value(), depth, massAst, radiusAst, randSpeed, draws)
    ensures PairwiseSeparated(e, Positions(belt.elements), radiusAst)
    ensures Rejections(e, Positions(belt.elements), picks, belt.Value(), depth, radiusAst, draws)
    ensures !complete ==>
      AllRejected(e, Positions(belt.elements), FirstAttempt(picks, |picks|), attempts, belt.Value(), depth, radiusAst, draws)
  {
    hide Setup, Candidate, Placed, AllPlaced, GenerateRandPosition, Normalize;
    hide Positions, Separated, PairwiseSeparated, Rejections, AllRejected;
    belt := new AsteroidBelt();
    InitFrame(e, belt, parentMass, ax, radius, radiusAst);
    ghost var f := belt.Value();
    EmptyBelt(e, attempts, parent, f, depth, massAst, radiusAst, randSpeed, draws);

    complete := true;
    picks := [];
    var i: nat := 0;
    var next: nat := 0;
    while i < Rounds(n) && complete
      invariant fresh(belt) && belt.Value() == f && f.radiusOrbit == radius
      invariant i == |belt.elements| == |picks| <= Rounds(n)
      invariant next == FirstAttempt(picks, |picks|) <= attempts
      invariant !complete ==> i < Rounds(n)
      invariant parent.enfants == old(parent.enfants) + belt.elements
      invariant forall k :: 0 <= k < |belt.elements| ==> fresh(belt.elements[k])
      invariant parent !in belt.elements
      invariant forall k, l :: 0 <= k < l < |belt.elements| ==> belt.elements[k] != belt.elements[l]
      invariant AllPlaced(e, belt.elements, picks, attempts, parent, f, depth, massAst, radiusAst, randSpeed, draws)
      invariant PairwiseSeparated(e, Positions(belt.elements), radiusAst)
      invariant Rejections(e, Positions(belt.elements), picks, f, depth, radiusAst, draws)
      invariant !complete ==>
        AllRejected(e, Positions(belt.elements), next, attempts, f, depth, radiusAst, draws)
      decreases Rounds(n) - i, if complete then 1 else 0
    {
      var p, found, after := SamplePosition(e, belt.elements, belt.Value(), depth, radiusAst, draws, next, attempts);
      if !found {
        complete := false;
      } else {
        var ast := Accept(e, belt, parent, p, picks, after - 1, f, depth, massAst, radiusAst, randSpeed, draws, attempts);
        picks := picks + [after - 1];
        next := after;
        i := i + 1;
      }
    }
  }
}
