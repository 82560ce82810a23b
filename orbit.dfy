/**
  `Orbit_Object`: a body on a circular orbit around a centre, with the frame
  it derives from its initial diameter and its axis, and `Planete_Drawable`'s
  spin.  `init_orbit_circ` updates an object in place, so `OrbitObject` is a
  class; the trajectory is a pure function of its field values, `Orbit`.
 */
module Orbit {
  import opened Maths
  import opened Vectors
  import opened Wrappers

  /** The gravitational constant of the orbit code, `float G = 6.6`. */
  const G: real := 6.6

  /** The approximation of pi the orbit code writes out. */
  const Pi: real := 3.14

  /** `vcl::call_error`, raised for a zero diameter or axis. */
  datatype OrbitError = CallError

  /** The field values of an `Orbit_Object`. */
  datatype Orbit = Orbit(
    mass: real,
    period: real,
    center: Vec3,
    axis: Vec3,
    radiusOrbit: real,
    diameterIni: Vec3)

  /** `sqrt(4 pi^2 R^3 / (G M))`, Kepler's period around a parent of mass `M`. */
  function Period(e: Elementary, radius: real, parentMass: real): real
    requires parentMass != 0.0
  {
    e.sqrt(4.0 * (Pi * Pi) * (radius * radius * radius) / (G * parentMass))
  }

  /** Under the square-root law the period solves Kepler's third law. */
  lemma KeplerThirdLaw(e: Elementary, radius: real, parentMass: real)
    requires SqrtLaw(e.sqrt) && radius > 0.0 && parentMass > 0.0
    ensures Period(e, radius, parentMass) > 0.0
    ensures Period(e, radius, parentMass) * Period(e, radius, parentMass) * (G * parentMass)
         == 4.0 * (Pi * Pi) * (radius * radius * radius)
  {
    var x := 4.0 * (Pi * Pi) * (radius * radius * radius) / (G * parentMass);
    assert radius * radius * radius > 0.0 by {
      assert radius * radius > 0.0;
    }
    assert x > 0.0;
    SqrtZero(e, x);
    DivMul(4.0 * (Pi * Pi) * (radius * radius * radius), G * parentMass);
  }

  /** The phase `2 * 3.14 * t / period`. */
  function Angle(t: real, period: real): real
    requires period != 0.0
  {
    2.0 * Pi * t / period
  }

  /** `2 * 3.14 * R / period`, the speed of a body covering a circle of radius `R` once per period. */
  function CircularSpeed(radius: real, period: real): real
    requires period != 0.0
  {
    2.0 * Pi * radius / period
  }

  /**
    With Kepler's period the circular speed is that of a circular orbit:
    `v^2 R == G M`, gravity supplying the centripetal force.
   */
  lemma CircularSpeedKepler(e: Elementary, radius: real, parentMass: real)
    requires SqrtLaw(e.sqrt) && radius > 0.0 && parentMass > 0.0
    ensures Period(e, radius, parentMass) > 0.0
    ensures var v := CircularSpeed(radius, Period(e, radius, parentMass));
      v * v * radius == G * parentMass
  {
    var t := Period(e, radius, parentMass);
    KeplerThirdLaw(e, radius, parentMass);
    var v := CircularSpeed(radius, t);
    var l := 2.0 * Pi * radius;
    DivMul(l, t);
    assert v * t == l;
    assert (v * t) * (v * t) == l * l;
    assert (t * t) * (v * v * radius) == (v * t) * (v * t) * radius;
    assert l * l * radius == 4.0 * (Pi * Pi) * (radius * radius * radius);
    assert (t * t) * (v * v * radius) == (t * t) * (G * parentMass);
    assert t * t != 0.0;
    Cancel(t * t, v * v * radius, G * parentMass);
  }

  /** The orbital speed `2 * 3.14 * radius_orbit / period`. */
  function OrbitSpeed(o: Orbit): real
    requires o.period != 0.0
  {
    CircularSpeed(o.radiusOrbit, o.period)
  }

  /** `axis1 = diameter_ini / norm(diameter_ini)`. */
  function Axis1(e: Elementary, o: Orbit): Vec3
    requires Norm(e, o.diameterIni) != 0.0
  {
    Scale(1.0 / Norm(e, o.diameterIni), o.diameterIni)
  }

  /** `axis3 = axis / norm(axis)`. */
  function Axis3(e: Elementary, o: Orbit): Vec3
    requires Norm(e, o.axis) != 0.0
  {
    Scale(1.0 / Norm(e, o.axis), o.axis)
  }

  /** `axis2 = cross(axis3, axis1)`. */
  function Axis2(e: Elementary, o: Orbit): Vec3
    requires !Degenerate(e, o)
  {
    Cross(Axis3(e, o), Axis1(e, o))
  }

  /** The guard of `position` and `speed`: a zero diameter or axis. */
  predicate Degenerate(e: Elementary, o: Orbit)
  {
    Norm(e, o.diameterIni) == 0.0 || Norm(e, o.axis) == 0.0
  }

  /** `center + cos r u + sin r w`, a point of the circle of radius `r` spanned by `u`, `w`. */
  function CirclePoint(center: Vec3, r: real, cosA: real, sinA: real, u: Vec3, w: Vec3): Vec3
  {
    Add(Add(center, Scale(cosA * r, u)), Scale(sinA * r, w))
  }

  /** `cos v w + sin v u`, the velocity `speed` writes. */
  function Turning(v: real, cosA: real, sinA: real, u: Vec3, w: Vec3): Vec3
  {
    Add(Scale(cosA * v, w), Scale(sinA * v, u))
  }

  /** `cos v w - sin v u`, the velocity of `CirclePoint` as the angle grows. */
  function Tangent(v: real, cosA: real, sinA: real, u: Vec3, w: Vec3): Vec3
  {
    Sub(Scale(cosA * v, w), Scale(sinA * v, u))
  }

  /** `position(t)`: `center + cos(angle) r axis1 + sin(angle) r axis2`. */
  function Position(e: Elementary, o: Orbit, t: real): Result<Vec3, OrbitError>
    requires o.period != 0.0
  {
    if Degenerate(e, o) then Err(CallError)
    else
      var a := Angle(t, o.period);
      Ok(CirclePoint(o.center, o.radiusOrbit, e.cos(a), e.sin(a), Axis1(e, o), Axis2(e, o)))
  }

  /** `speed(t)` as written: `cos(angle) v axis2 + sin(angle) v axis1`. */
  function Speed(e: Elementary, o: Orbit, t: real): Result<Vec3, OrbitError>
    requires o.period != 0.0
  {
    if Degenerate(e, o) then Err(CallError)
    else
      var a := Angle(t, o.period);
      Ok(Turning(OrbitSpeed(o), e.cos(a), e.sin(a), Axis1(e, o), Axis2(e, o)))
  }

  /**
    The velocity of the circle `position` traces: `cos(angle) v axis2 - sin(angle) v axis1`.
    It agrees with `Speed` at `t = 0` and is tangent to the circle at every `t`.
   */
  function TangentSpeed(e: Elementary, o: Orbit, t: real): Result<Vec3, OrbitError>
    requires o.period != 0.0
  {
    if Degenerate(e, o) then Err(CallError)
    else
      var a := Angle(t, o.period);
      Ok(Tangent(OrbitSpeed(o), e.cos(a), e.sin(a), Axis1(e, o), Axis2(e, o)))
  }

  /** Under the square-root law the guard fires exactly for a zero diameter or a zero axis. */
  lemma DegenerateZero(e: Elementary, o: Orbit)
    requires SqrtLaw(e.sqrt)
    ensures Degenerate(e, o) <==> o.diameterIni == Zero || o.axis == Zero
  {
    NormZero(e, o.diameterIni);
    NormZero(e, o.axis);
  }

  /** `position` and `speed` raise `call_error` exactly for a zero diameter or a zero axis. */
  lemma OrbitFails(e: Elementary, o: Orbit, t: real)
    requires SqrtLaw(e.sqrt) && o.period != 0.0
    ensures Position(e, o, t).Err? <==> o.diameterIni == Zero || o.axis == Zero
    ensures Speed(e, o, t).Err? <==> o.diameterIni == Zero || o.axis == Zero
    ensures Position(e, o, t).Err? ==> Position(e, o, t) == Err(CallError) && Speed(e, o, t) == Err(CallError)
  {
    DegenerateZero(e, o);
  }

  /** The frame of a non-degenerate orbit whose diameter is orthogonal to its axis is orthonormal. */
  lemma Orthonormal(e: Elementary, o: Orbit)
    requires SqrtLaw(e.sqrt) && !Degenerate(e, o) && Dot(o.diameterIni, o.axis) == 0.0
    ensures Orthonormal2(Axis1(e, o), Axis2(e, o))
  {
    DegenerateZero(e, o);
    var a1, a3 := Axis1(e, o), Axis3(e, o);
    NormalizeUnit(e, o.diameterIni);
    NormalizeUnit(e, o.axis);
    DotScale(1.0 / Norm(e, o.axis), o.axis, a1);
    DotScale(1.0 / Norm(e, o.diameterIni), o.axis, o.diameterIni);
    DotSymmetric(o.diameterIni, o.axis);
    assert Dot(a3, a1) == 0.0;
    CrossUnit(a3, a1);
    CrossOrthogonal(a3, a1);
    DotSymmetric(Axis2(e, o), a1);
  }

  /** Two orthonormal vectors. */
  predicate Orthonormal2(u: Vec3, w: Vec3)
  {
    Norm2(u) == 1.0 && Norm2(w) == 1.0 && Dot(u, w) == 0.0
  }

  /** `(p w + q u) . (x u + y w) == p y + q x` for orthonormal `u`, `w`. */
  lemma CrossTerms(p: real, q: real, x: real, y: real, u: Vec3, w: Vec3)
    requires Orthonormal2(u, w)
    ensures Dot(Add(Scale(p, w), Scale(q, u)), Add(Scale(x, u), Scale(y, w))) == p * y + q * x
    ensures Dot(Sub(Scale(p, w), Scale(q, u)), Add(Scale(x, u), Scale(y, w))) == p * y - q * x
  {
    DotSymmetric(u, w);
    var b := Add(Scale(x, u), Scale(y, w));
    DotLinear(p, w, q, u, b);
    DotLinear(p, w, -q, u, b);
    assert Sub(Scale(p, w), Scale(q, u)) == Add(Scale(p, w), Scale(-q, u));
    DotLinear(x, u, y, w, w);
    DotLinear(x, u, y, w, u);
  }

  /** A circle point lies at distance `r` from the centre. */
  lemma CircleRadius(center: Vec3, r: real, cosA: real, sinA: real, u: Vec3, w: Vec3)
    requires Orthonormal2(u, w) && sinA * sinA + cosA * cosA == 1.0
    ensures Norm2(Sub(CirclePoint(center, r, cosA, sinA, u, w), center)) == r * r
  {
    assert Sub(CirclePoint(center, r, cosA, sinA, u, w), center) == Add(Scale(cosA * r, u), Scale(sinA * r, w));
    Norm2Combination(cosA * r, u, sinA * r, w);
    assert (cosA * r) * (cosA * r) + (sinA * r) * (sinA * r) == (sinA * sinA + cosA * cosA) * (r * r);
  }

  /** A combination `p w + q u` of orthonormal vectors has squared length `p^2 + q^2`. */
  lemma UnitCombination(p: real, q: real, u: Vec3, w: Vec3)
    requires Orthonormal2(u, w)
    ensures Norm2(Add(Scale(p, w), Scale(q, u))) == p * p + q * q
  {
    DotSymmetric(u, w);
    Norm2Combination(p, w, q, u);
  }

  lemma TangentAsSum(v: real, cosA: real, sinA: real, u: Vec3, w: Vec3)
    ensures Tangent(v, cosA, sinA, u, w) == Add(Scale(cosA * v, w), Scale(-(sinA * v), u))
  {
  }

  /** Both velocities have magnitude `v`. */
  lemma VelocityMagnitudes(v: real, cosA: real, sinA: real, u: Vec3, w: Vec3)
    requires Orthonormal2(u, w) && sinA * sinA + cosA * cosA == 1.0
    ensures Norm2(Turning(v, cosA, sinA, u, w)) == v * v
    ensures Norm2(Tangent(v, cosA, sinA, u, w)) == v * v
  {
    hide Norm2, Dot, Orthonormal2;
    UnitCombination(cosA * v, sinA * v, u, w);
    TangentAsSum(v, cosA, sinA, u, w);
    UnitCombination(cosA * v, -(sinA * v), u, w);
    UnitCircleScaled(cosA, sinA, v);
  }

  /** `2 sin cos v r`, the radial component of `Turning` at a circle point. */
  function RadialPart(sinA: real, cosA: real, v: real, r: real): real
  {
    2.0 * (sinA * cosA * v * r)
  }

  /** The radial component is non-zero wherever `sin cos` and `v r` are. */
  lemma RadialNonZero(sinA: real, cosA: real, v: real, r: real)
    requires sinA * cosA != 0.0 && v * r != 0.0
    ensures RadialPart(sinA, cosA, v, r) != 0.0
  {
    assert sinA * cosA * v * r == (sinA * cosA) * (v * r);
    if (sinA * cosA) * (v * r) == 0.0 {
      ZeroProduct(sinA * cosA, v * r);
    }
  }

  /** The written velocity has radial component `2 sin cos v r`. */
  lemma TurningRadial(center: Vec3, r: real, v: real, cosA: real, sinA: real, u: Vec3, w: Vec3)
    requires Orthonormal2(u, w)
    ensures Dot(Turning(v, cosA, sinA, u, w), Sub(CirclePoint(center, r, cosA, sinA, u, w), center))
         == RadialPart(sinA, cosA, v, r)
  {
    hide Dot, Norm2;
    assert Sub(CirclePoint(center, r, cosA, sinA, u, w), center) == Add(Scale(cosA * r, u), Scale(sinA * r, w));
    CrossTerms(cosA * v, sinA * v, cosA * r, sinA * r, u, w);
    assert Dot(Add(Scale(cosA * v, w), Scale(sinA * v, u)), Add(Scale(cosA * r, u), Scale(sinA * r, w)))
        == (cosA * v) * (sinA * r) + (sinA * v) * (cosA * r);
    assert Dot(Turning(v, cosA, sinA, u, w), Add(Scale(cosA * r, u), Scale(sinA * r, w)))
        == (cosA * v) * (sinA * r) + (sinA * v) * (cosA * r);
    DoubleProduct(cosA, sinA, v, r);
  }

  /** The velocity of the circle point has no radial component. */
  lemma TangentRadial(center: Vec3, r: real, v: real, cosA: real, sinA: real, u: Vec3, w: Vec3)
    requires Orthonormal2(u, w)
    ensures Dot(Tangent(v, cosA, sinA, u, w), Sub(CirclePoint(center, r, cosA, sinA, u, w), center)) == 0.0
  {
    hide Dot, Norm2;
    assert Sub(CirclePoint(center, r, cosA, sinA, u, w), center) == Add(Scale(cosA * r, u), Scale(sinA * r, w));
    CrossTerms(cosA * v, sinA * v, cosA * r, sinA * r, u, w);
    assert Dot(Sub(Scale(cosA * v, w), Scale(sinA * v, u)), Add(Scale(cosA * r, u), Scale(sinA * r, w)))
        == (cosA * v) * (sinA * r) - (sinA * v) * (cosA * r);
    DoubleProduct(cosA, sinA, v, r);
  }

  /** At `t = 0` the body sits at `center + radius_orbit * normalize(diameter_ini)`. */
  lemma PositionAtStart(e: Elementary, o: Orbit)
    requires SqrtLaw(e.sqrt) && TrigLaw(e.sin, e.cos) && o.period != 0.0
    requires o.diameterIni != Zero && o.axis != Zero
    ensures Position(e, o, 0.0) == Ok(Add(o.center, Scale(o.radiusOrbit, Normalize(e, o.diameterIni))))
  {
    DegenerateZero(e, o);
    NormalizeUnit(e, o.diameterIni);
    assert Angle(0.0, o.period) == 0.0;
  }

  /** With the diameter orthogonal to the axis, the body stays at distance `radius_orbit` from the centre. */
  lemma PositionOnCircle(e: Elementary, o: Orbit, t: real)
    requires SqrtLaw(e.sqrt) && TrigLaw(e.sin, e.cos) && o.period != 0.0
    requires o.diameterIni != Zero && o.axis != Zero && Dot(o.diameterIni, o.axis) == 0.0
    ensures Position(e, o, t).Ok?
    ensures Norm2(Sub(Position(e, o, t).value, o.center)) == o.radiusOrbit * o.radiusOrbit
  {
    DegenerateZero(e, o);
    Orthonormal(e, o);
    var a := Angle(t, o.period);
    assert e.sin(a) * e.sin(a) + e.cos(a) * e.cos(a) == 1.0;
    CircleRadius(o.center, o.radiusOrbit, e.cos(a), e.sin(a), Axis1(e, o), Axis2(e, o));
  }

  /** Under the same orthogonality the speed has constant magnitude `2 * 3.14 * radius_orbit / period`. */
  lemma SpeedMagnitude(e: Elementary, o: Orbit, t: real)
    requires SqrtLaw(e.sqrt) && TrigLaw(e.sin, e.cos) && o.period != 0.0
    requires o.diameterIni != Zero && o.axis != Zero && Dot(o.diameterIni, o.axis) == 0.0
    ensures Speed(e, o, t).Ok?
    ensures Norm2(Speed(e, o, t).value) == OrbitSpeed(o) * OrbitSpeed(o)
  {
    DegenerateZero(e, o);
    Orthonormal(e, o);
    var a := Angle(t, o.period);
    assert e.sin(a) * e.sin(a) + e.cos(a) * e.cos(a) == 1.0;
    VelocityMagnitudes(OrbitSpeed(o), e.cos(a), e.sin(a), Axis1(e, o), Axis2(e, o));
  }

  /**
    `speed(t)` is not the velocity of `position(t)`: wherever `sin(angle) cos(angle)`
    is non-zero it has a component along the radius, `2 sin cos v r` of it.
   */
  lemma SpeedNotTangent(e: Elementary, o: Orbit, t: real)
    requires SqrtLaw(e.sqrt) && o.period != 0.0
    requires o.diameterIni != Zero && o.axis != Zero && Dot(o.diameterIni, o.axis) == 0.0
    ensures Position(e, o, t).Ok? && Speed(e, o, t).Ok?
    ensures var a := Angle(t, o.period);
      Dot(Speed(e, o, t).value, Sub(Position(e, o, t).value, o.center))
        == RadialPart(e.sin(a), e.cos(a), OrbitSpeed(o), o.radiusOrbit)
  {
    DegenerateZero(e, o);
    Orthonormal(e, o);
    var a := Angle(t, o.period);
    TurningRadial(o.center, o.radiusOrbit, OrbitSpeed(o), e.cos(a), e.sin(a), Axis1(e, o), Axis2(e, o));
  }

  /**
    The corrected speed is tangent to the circle, has magnitude `2 * 3.14 * radius_orbit / period`,
    and starts as `speed(0)` does.
   */
  lemma TangentSpeedIsTangent(e: Elementary, o: Orbit, t: real)
    requires SqrtLaw(e.sqrt) && TrigLaw(e.sin, e.cos) && o.period != 0.0
    requires o.diameterIni != Zero && o.axis != Zero && Dot(o.diameterIni, o.axis) == 0.0
    ensures Position(e, o, t).Ok? && TangentSpeed(e, o, t).Ok?
    ensures Dot(TangentSpeed(e, o, t).value, Sub(Position(e, o, t).value, o.center)) == 0.0
    ensures Norm2(TangentSpeed(e, o, t).value) == OrbitSpeed(o) * OrbitSpeed(o)
    ensures TangentSpeed(e, o, 0.0) == Speed(e, o, 0.0)
  {
    DegenerateZero(e, o);
    Orthonormal(e, o);
    var a := Angle(t, o.period);
    var v, u, w := OrbitSpeed(o), Axis1(e, o), Axis2(e, o);
    assert e.sin(a) * e.sin(a) + e.cos(a) * e.cos(a) == 1.0;
    TangentRadial(o.center, o.radiusOrbit, v, e.cos(a), e.sin(a), u, w);
    VelocityMagnitudes(v, e.cos(a), e.sin(a), u, w);
    assert Angle(0.0, o.period) == 0.0;
    assert Tangent(v, 1.0, 0.0, u, w) == Turning(v, 1.0, 0.0, u, w);
  }

  /** An `Orbit_Object`, whose fields `init_orbit_circ` assigns. */
  class OrbitObject {
    var mass: real
    var period: real
    var center: Vec3
    var axis: Vec3
    var radiusOrbit: real
    var diameterIni: Vec3

    constructor (o: Orbit)
      ensures Value() == o
    {
      mass, period, center, axis, radiusOrbit, diameterIni
        := o.mass, o.period, o.center, o.axis, o.radiusOrbit, o.diameterIni;
    }

    function Value(): Orbit
      reads this
    {
      Orbit(mass, period, center, axis, radiusOrbit, diameterIni)
    }
  }

  /**
    `init_orbit_circ` on values: the period from the radius the object had on
    entry, the centre at the parent's position, then each of `ax`, `diam_ini`
    and `rad` replaces its field only when it is non-zero.  When the parent's
    `position` raises, only the period has been assigned.
   */
  function InitOrbit(e: Elementary, o: Orbit, parent: Orbit, t: real, ax: Vec3, rad: real, diamIni: Vec3)
    : (r: (Orbit, Option<OrbitError>))
    requires parent.mass != 0.0 && parent.period != 0.0
    ensures r.0.mass == o.mass && r.0.period == Period(e, o.radiusOrbit, parent.mass)
    ensures Position(e, parent, t).Ok? ==> r.1 == None && r.0.center == Position(e, parent, t).value
    ensures Position(e, parent, t).Err? ==>
      r == (o.(period := Period(e, o.radiusOrbit, parent.mass)), Some(Position(e, parent, t).error))
  {
    var o1 := o.(period := Period(e, o.radiusOrbit, parent.mass));
    match Position(e, parent, t)
    case Err(x) => (o1, Some(x))
    case Ok(c) =>
      (o1.(center := c,
           axis := if ax != Zero then ax else o.axis,
           diameterIni := if diamIni != Zero then diamIni else o.diameterIni,
           radiusOrbit := if rad != 0.0 then rad else o.radiusOrbit),
       None)
  }

  /**
    Zero arguments keep the old values and non-zero ones replace them; the
    centre is the parent's position and the period uses the old radius.
   */
  lemma InitOrbitFields(e: Elementary, o: Orbit, parent: Orbit, t: real, ax: Vec3, rad: real, diamIni: Vec3)
    requires parent.mass != 0.0 && parent.period != 0.0 && Position(e, parent, t).Ok?
    ensures var r := InitOrbit(e, o, parent, t, ax, rad, diamIni).0;
      && InitOrbit(e, o, parent, t, ax, rad, diamIni).1 == None
      && r.center == Position(e, parent, t).value
      && (ax == Zero ==> r.axis == o.axis) && (ax != Zero ==> r.axis == ax)
      && (diamIni == Zero ==> r.diameterIni == o.diameterIni) && (diamIni != Zero ==> r.diameterIni == diamIni)
      && (rad == 0.0 ==> r.radiusOrbit == o.radiusOrbit) && (rad != 0.0 ==> r.radiusOrbit == rad)
  {
  }

  /**
    Repeating a call changes nothing but the period, which the second call
    takes from the radius the first one set.
   */
  lemma InitOrbitTwice(e: Elementary, o: Orbit, parent: Orbit, t: real, ax: Vec3, rad: real, diamIni: Vec3)
    requires parent.mass != 0.0 && parent.period != 0.0
    ensures var once := InitOrbit(e, o, parent, t, ax, rad, diamIni);
      var twice := InitOrbit(e, once.0, parent, t, ax, rad, diamIni);
      && twice.1 == once.1
      && twice.0 == once.0.(period := Period(e, once.0.radiusOrbit, parent.mass))
  {
  }

  /** `init_orbit_circ(obj, parent, t, ax, rad, diam_ini)` on distinct objects. */
  method InitOrbitCirc(e: Elementary, obj: OrbitObject, parent: OrbitObject, t: real, ax: Vec3, rad: real, diamIni: Vec3)
    returns (err: Option<OrbitError>)
    requires obj != parent && parent.mass != 0.0 && parent.period != 0.0
    modifies obj
    ensures (obj.Value(), err) == InitOrbit(e, old(obj.Value()), parent.Value(), t, ax, rad, diamIni)
  {
    obj.period := Period(e, obj.radiusOrbit, parent.mass);
    var c := Position(e, parent.Value(), t);
    if c.Err? {
      return Some(c.error);
    }
    obj.center := c.value;
    if ax != Zero {
      obj.axis := ax;
    }
    if diamIni != Zero {
      obj.diameterIni := diamIni;
    }
    if rad != 0.0 {
      obj.radiusOrbit := rad;
    }
    err := None;
  }

  /** The spin of a `Planete_Drawable`. */
  datatype Planet = Planet(name: string, radius: real, rotationAxis: Vec3, rotationSpeed: real)

  /** `rotation_angle(t)`: the planet turns at a constant rate. */
  function RotationAngle(p: Planet, t: real): real
  {
    p.rotationSpeed * t
  }

  /** The spin starts at zero and the angles of two durations add up. */
  lemma RotationAdditive(p: Planet, t1: real, t2: real)
    ensures RotationAngle(p, 0.0) == 0.0
    ensures RotationAngle(p, t1 + t2) == RotationAngle(p, t1) + RotationAngle(p, t2)
  {
  }
}
