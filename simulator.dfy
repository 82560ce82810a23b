/**
  The gravity simulator of `src/Simulator.h`: a registry of mass objects keyed
  by name, and a time step that accumulates gravitational velocity changes,
  forces the total energy of each object back to its recorded value with a
  quadratic correction, and then advances every position.

  The objects are heap objects (`Mass_object*` in the source), so they are a
  class.  The registry is a `std::map`, which iterates in key order; the class
  keeps that order explicitly as a sorted sequence of names beside the map.
  Every method is proved against a function on the sequence of body values
  (`Bodies()`) in that order.
 */
module Gravity {
  import opened Wrappers
  import opened Maths
  import opened Vectors
  import opened Strings

  /** The simulator's gravitational constant (arbitrary units). */
  const G: real := 1.0

  /** The two exceptions the simulator throws. */
  datatype SimError =
    | DuplicateName        // std::invalid_argument from add_object
    | CoincidentPositions  // std::runtime_error from potential_to

  /** The state of one `Mass_object`, as a value. */
  datatype Body = Body(
    mass: real,
    position: Vec3,
    axis: Vec3,
    speed: Vec3,
    lastMove: Vec3,
    level: int,
    attractsSimilar: bool,
    potential: real,
    total: real)

  function Kinetic(b: Body): real
  {
    0.5 * Norm2(b.speed) * b.mass
  }

  /** `update_energy`: only the total energy changes, to kinetic plus potential. */
  function WithEnergy(b: Body): (r: Body)
    ensures r.total - r.potential == Kinetic(r)
    ensures r.(total := b.total) == b
  {
    b.(total := Kinetic(b) + b.potential)
  }

  /** The fields a time step never changes. */
  predicate Fixed(a: Body, b: Body)
  {
    a.mass == b.mass && a.position == b.position && a.axis == b.axis
    && a.level == b.level && a.attractsSimilar == b.attractsSimilar
  }

  class MassObject {
    var mass: real
    var position: Vec3
    var axis: Vec3
    var speed: Vec3
    var lastMove: Vec3
    var level: int
    var attractsSimilar: bool
    var potential: real
    var total: real

    /** `attracts_similar` defaults to true; every other field is given. */
    constructor (mass: real, position: Vec3, axis: Vec3, speed: Vec3, lastMove: Vec3,
                 level: int, potential: real, total: real)
      ensures Value() == Body(mass, position, axis, speed, lastMove, level, true, potential, total)
    {
      this.mass := mass;
      this.position := position;
      this.axis := axis;
      this.speed := speed;
      this.lastMove := lastMove;
      this.level := level;
      this.attractsSimilar := true;
      this.potential := potential;
      this.total := total;
    }

    function Value(): Body
      reads this
    {
      Body(mass, position, axis, speed, lastMove, level, attractsSimilar, potential, total)
    }

    method UpdateEnergy()
      modifies this
      ensures Value() == WithEnergy(old(Value()))
    {
      total := 0.5 * Norm2(speed) * mass + potential;
    }
  }

  /** The attraction-level gate: does `from` act on `to`? */
  predicate Attracts(from: Body, to: Body)
  {
    from.level > to.level || (from.level == to.level && from.attractsSimilar)
  }

  /** What `potential_to` returns and the potential energy it leaves in `to`. */
  datatype Pull = Pull(force: real, potential: real)

  /** `-G m1 m2 / d`, the potential energy of a pair at distance `d`. */
  function PairEnergy(m1: real, m2: real, d: real): real
    requires d != 0.0
  {
    -G * m1 * m2 / d
  }

  /** What `potential_to` returns for potential energy `pe` at distance `d`. */
  function ForceOf(pe: real, d: real): real
    requires d != 0.0
  {
    -pe / (d * d)
  }

  /** `potential_to(from, to)`; a force of -1.0 means that `from` does not act on `to`. */
  function Potential(e: Elementary, from: Body, to: Body): Result<Pull, SimError>
  {
    if !Attracts(from, to) then Ok(Pull(-1.0, to.potential))
    else
      var distance := Norm(e, Sub(from.position, to.position));
      if distance == 0.0 then Err(CoincidentPositions)
      else
        var pe := PairEnergy(from.mass, to.mass, distance);
        Ok(Pull(ForceOf(pe, distance), to.potential + pe))
  }

  /** The potential energy of `to` in the field of `from`, zero when the gate is shut. */
  function PairPotential(e: Elementary, from: Body, to: Body): real
  {
    var d := Norm(e, Sub(from.position, to.position));
    if Attracts(from, to) && d != 0.0 then PairEnergy(from.mass, to.mass, d) else 0.0
  }

  /** `G m1 m2 / d^3`. */
  function InverseCube(m1: real, m2: real, d: real): real
    requires d != 0.0
  {
    G * m1 * m2 / (d * d * d)
  }

  /** The returned force is `G m1 m2 / d^3`. */
  lemma ForceIsInverseSquare(m1: real, m2: real, d: real)
    requires d != 0.0
    ensures ForceOf(PairEnergy(m1, m2, d), d) == InverseCube(m1, m2, d)
  {
    var m := G * m1 * m2;
    var q := m / d;
    assert PairEnergy(m1, m2, d) == -q;
    assert q * d == m;
    assert (q / (d * d)) * (d * d * d) == q * d;
  }

  /** The three behaviours of `potential_to`: gate shut, coincident positions, pull. */
  lemma PotentialCases(e: Elementary, from: Body, to: Body)
    requires SqrtLaw(e.sqrt)
    ensures !Attracts(from, to) ==> Potential(e, from, to) == Ok(Pull(-1.0, to.potential))
    ensures Attracts(from, to) && from.position == to.position
            ==> Potential(e, from, to) == Err(CoincidentPositions)
    ensures Attracts(from, to) && from.position != to.position ==>
              var d := Norm(e, Sub(from.position, to.position));
              && d > 0.0
              && Potential(e, from, to) == Ok(Pull(InverseCube(from.mass, to.mass, d),
                                                   to.potential + PairPotential(e, from, to)))
  {
    var v := Sub(from.position, to.position);
    NormZero(e, v);
    assert v == Zero <==> from.position == to.position;
    if Attracts(from, to) && from.position != to.position {
      var d := Norm(e, v);
      ForceIsInverseSquare(from.mass, to.mass, d);
      var pe := PairEnergy(from.mass, to.mass, d);
      assert PairPotential(e, from, to) == pe;
      assert Potential(e, from, to) == Ok(Pull(ForceOf(pe, d), to.potential + pe));
    }
  }

  lemma PositiveQuotient(m: real, d: real)
    requires m > 0.0 && d > 0.0
    ensures m / (d * d * d) > 0.0
  {
    var d3 := d * d * d;
    assert d * d > 0.0;
    assert d3 > 0.0;
    var q := m / d3;
    assert q * d3 == m;
  }

  /**
    With positive masses the force of an attracting object is positive, so the
    sentinel -1.0 that `simulate` tests for means exactly that the gate is shut.
   */
  lemma SentinelMeansNoAttraction(e: Elementary, from: Body, to: Body)
    requires SqrtLaw(e.sqrt) && from.mass > 0.0 && to.mass > 0.0
    requires Potential(e, from, to).Ok?
    ensures Potential(e, from, to).value.force == -1.0 <==> !Attracts(from, to)
  {
    PotentialCases(e, from, to);
    if Attracts(from, to) {
      var d := Norm(e, Sub(from.position, to.position));
      assert from.mass * to.mass > 0.0;
      PositiveQuotient(G * from.mass * to.mass, d);
    }
  }

  /** `potential_to` on heap objects: it writes only `to.potential_energy`. */
  method PotentialTo(e: Elementary, from: MassObject, to: MassObject) returns (r: Result<real, SimError>)
    requires from != to
    modifies to
    ensures match Potential(e, from.Value(), old(to.Value()))
            case Ok(p) => r == Ok(p.force) && to.Value() == old(to.Value()).(potential := p.potential)
            case Err(x) => r == Err(x) && to.Value() == old(to.Value())
  {
    if from.level > to.level || (from.level == to.level && from.attractsSimilar) {
      var distance := Norm(e, Sub(from.position, to.position));
      if distance == 0.0 {
        return Err(CoincidentPositions);
      }
      var pe := PairEnergy(from.mass, to.mass, distance);
      to.potential := to.potential + pe;
      return Ok(ForceOf(pe, distance));
    }
    return Ok(-1.0);
  }

  // ---------------------------------------------------------------------------
  // Registration (add_object)

  /** The bodies and the entering body part-way through the loop of `add_object`. */
  datatype Entering = Entering(existing: seq<Body>, entering: Body, error: Option<SimError>)

  /**
    The loop of `add_object` over the first `k` registered bodies, after the
    entering body's potential energy was reset to zero.
   */
  function Enter(e: Elementary, bs: seq<Body>, nb: Body, k: nat): (s: Entering)
    requires k <= |bs|
    ensures |s.existing| == |bs| && Fixed(s.entering, nb) && s.entering.speed == nb.speed
    ensures forall j :: 0 <= j < |bs| ==> Fixed(s.existing[j], bs[j]) && s.existing[j].speed == bs[j].speed
  {
    if k == 0 then Entering(bs, nb.(potential := 0.0), None)
    else
      var s := Enter(e, bs, nb, k - 1);
      if s.error.Some? then s
      else
        match Potential(e, s.existing[k - 1], s.entering)
        case Err(x) => Entering(s.existing, s.entering, Some(x))
        case Ok(p) =>
          var nb1 := s.entering.(potential := p.potential);
          match Potential(e, nb1, s.existing[k - 1])
          case Err(x) => Entering(s.existing, nb1, Some(x))
          case Ok(q) =>
            Entering(s.existing[k - 1 := WithEnergy(s.existing[k - 1].(potential := q.potential))], nb1, None)
  }

  /** The loop of `add_object` starts from the newcomer with its potential energy reset. */
  lemma EnterStart(e: Elementary, bs: seq<Body>, nb: Body)
    ensures Enter(e, bs, nb, 0) == Entering(bs, nb.(potential := 0.0), None)
  {
  }

  /** `add_object` for a new name, on values: the loop, then the entering body's energy. */
  function Register(e: Elementary, bs: seq<Body>, nb: Body): Entering
  {
    var s := Enter(e, bs, nb, |bs|);
    if s.error.None? then s.(entering := WithEnergy(s.entering)) else s
  }

  /** `Register` in terms of the loop it runs. */
  lemma RegisterAfterLoop(e: Elementary, bs: seq<Body>, nb: Body)
    ensures var s, r := Enter(e, bs, nb, |bs|), Register(e, bs, nb);
      && r.existing == s.existing && r.error == s.error
      && r.entering == if s.error.None? then WithEnergy(s.entering) else s.entering
  {
  }

  /** One more iteration of the loop of `add_object`, as `potential_to` both ways computes it. */
  lemma EnterNext(e: Elementary, bs: seq<Body>, nb: Body, k: nat)
    requires k < |bs| && Enter(e, bs, nb, k).error.None?
    ensures var s := Enter(e, bs, nb, k);
      var b := s.existing[k];
      Enter(e, bs, nb, k + 1) ==
        match Potential(e, b, s.entering)
        case Err(x) => Entering(s.existing, s.entering, Some(x))
        case Ok(p) =>
          match Potential(e, s.entering.(potential := p.potential), b)
          case Err(x) => Entering(s.existing, s.entering.(potential := p.potential), Some(x))
          case Ok(q) =>
            Entering(s.existing[k := WithEnergy(b.(potential := q.potential))], s.entering.(potential := p.potential), None)
  {
  }

  /** After an exception the loop of `add_object` does nothing more. */
  lemma EnterStops(e: Elementary, bs: seq<Body>, nb: Body, k: nat)
    requires k < |bs| && Enter(e, bs, nb, k).error.Some?
    ensures Enter(e, bs, nb, k + 1) == Enter(e, bs, nb, k)
  {
  }

  lemma {:induction false} EnterFailureSticks(e: Elementary, bs: seq<Body>, nb: Body, k: nat, m: nat)
    requires k <= m <= |bs| && Enter(e, bs, nb, k).error.Some?
    ensures Enter(e, bs, nb, m) == Enter(e, bs, nb, k)
    decreases m - k
  {
    hide Enter;
    if k < m {
      EnterFailureSticks(e, bs, nb, k, m - 1);
      EnterStops(e, bs, nb, m - 1);
    }
  }

  /** Two bodies that cannot both be registered: same place, and one acts on the other. */
  predicate Collide(a: Body, b: Body)
  {
    a.position == b.position && (Attracts(a, b) || Attracts(b, a))
  }

  lemma {:induction false} EnterFails(e: Elementary, bs: seq<Body>, nb: Body, k: nat)
    requires SqrtLaw(e.sqrt) && k <= |bs|
    ensures Enter(e, bs, nb, k).error.Some? <==> exists j :: 0 <= j < k && Collide(bs[j], nb)
    ensures Enter(e, bs, nb, k).error.Some? ==> Enter(e, bs, nb, k).error == Some(CoincidentPositions)
  {
    hide Enter, WithEnergy, PairEnergy, ForceOf, Kinetic, Norm, Norm2, Dot;
    if k > 0 {
      EnterFails(e, bs, nb, k - 1);
      var s := Enter(e, bs, nb, k - 1);
      if s.error.Some? {
        EnterStops(e, bs, nb, k - 1);
      } else {
        EnterNext(e, bs, nb, k - 1);
        var b := s.existing[k - 1];
        assert Fixed(b, bs[k - 1]) && Fixed(s.entering, nb);
        PotentialCases(e, b, s.entering);
        PotentialCases(e, s.entering.(potential := 0.0), b);
        if Potential(e, b, s.entering).Ok? {
          var nb1 := s.entering.(potential := Potential(e, b, s.entering).value.potential);
          PotentialCases(e, nb1, b);
        }
        assert Collide(bs[k - 1], nb) <==> Collide(b, s.entering);
      }
    } else {
      EnterStart(e, bs, nb);
    }
  }

  /**
    `add_object` fails exactly when the new object sits where a registered one
    is and one of the two acts on the other; it then throws `runtime_error`.
   */
  lemma RegisterFails(e: Elementary, bs: seq<Body>, nb: Body)
    requires SqrtLaw(e.sqrt)
    ensures Register(e, bs, nb).error.Some? <==> exists j :: 0 <= j < |bs| && Collide(bs[j], nb)
    ensures Register(e, bs, nb).error.Some? ==> Register(e, bs, nb).error == Some(CoincidentPositions)
  {
    EnterFails(e, bs, nb, |bs|);
  }

  /** The potential energy the entering body collects from the first `k` bodies. */
  function Incoming(e: Elementary, bs: seq<Body>, nb: Body, k: nat): real
    requires k <= |bs|
  {
    if k == 0 then 0.0 else Incoming(e, bs, nb, k - 1) + PairPotential(e, bs[k - 1], nb)
  }

  /** One successful iteration of the loop of `add_object`. */
  lemma EnterStep(e: Elementary, bs: seq<Body>, nb: Body, k: nat)
    requires 0 < k <= |bs| && Enter(e, bs, nb, k).error.None?
    ensures var s, t := Enter(e, bs, nb, k - 1), Enter(e, bs, nb, k);
      var b := s.existing[k - 1];
      && s.error.None?
      && t.entering == s.entering.(potential := s.entering.potential + PairPotential(e, b, s.entering))
      && t.existing == s.existing[k - 1 := WithEnergy(b.(potential := b.potential + PairPotential(e, s.entering, b)))]
  {
  }

  /** `PairPotential` reads only the fields a registration does not change. */
  lemma PairPotentialFixed(e: Elementary, a: Body, a': Body, b: Body, b': Body)
    requires Fixed(a, a') && Fixed(b, b')
    ensures PairPotential(e, a, b) == PairPotential(e, a', b')
  {
  }

  lemma {:induction false} EnterUntouched(e: Elementary, bs: seq<Body>, nb: Body, k: nat)
    requires k <= |bs| && Enter(e, bs, nb, k).error.None?
    ensures forall j :: k <= j < |bs| ==> Enter(e, bs, nb, k).existing[j] == bs[j]
  {
    hide Enter, Potential, WithEnergy, PairEnergy, ForceOf, Kinetic, Norm, Norm2, Dot, Attracts;
    if k > 0 {
      EnterStep(e, bs, nb, k);
      EnterUntouched(e, bs, nb, k - 1);
    } else {
      EnterStart(e, bs, nb);
    }
  }

  lemma {:induction false} EnterIncoming(e: Elementary, bs: seq<Body>, nb: Body, k: nat)
    requires k <= |bs| && Enter(e, bs, nb, k).error.None?
    ensures Enter(e, bs, nb, k).entering.potential == Incoming(e, bs, nb, k)
  {
    hide Enter, Potential, WithEnergy, PairEnergy, ForceOf, Kinetic, Norm, Norm2, Dot, Attracts;
    if k > 0 {
      EnterStep(e, bs, nb, k);
      EnterIncoming(e, bs, nb, k - 1);
      EnterUntouched(e, bs, nb, k - 1);
      var s := Enter(e, bs, nb, k - 1);
      PairPotentialFixed(e, s.existing[k - 1], bs[k - 1], s.entering, nb);
    } else {
      EnterStart(e, bs, nb);
    }
  }

  /** A body whose recorded total is its kinetic plus potential energy. */
  predicate EnergyCurrent(b: Body)
  {
    b.total == Kinetic(b) + b.potential
  }

  lemma {:induction false} EnterExisting(e: Elementary, bs: seq<Body>, nb: Body, k: nat)
    requires k <= |bs| && Enter(e, bs, nb, k).error.None?
    ensures forall j :: 0 <= j < k ==>
      Enter(e, bs, nb, k).existing[j].potential == bs[j].potential + PairPotential(e, nb, bs[j])
  {
    hide Enter, Potential, WithEnergy, PairEnergy, ForceOf, Kinetic, Norm, Norm2, Dot, Attracts;
    if k > 0 {
      EnterStep(e, bs, nb, k);
      EnterExisting(e, bs, nb, k - 1);
      EnterUntouched(e, bs, nb, k - 1);
      var s, t := Enter(e, bs, nb, k - 1), Enter(e, bs, nb, k);
      var b := s.existing[k - 1];
      var pp := PairPotential(e, s.entering, b);
      PairPotentialFixed(e, s.entering, nb, b, bs[k - 1]);
      assert b == bs[k - 1];
      forall j | 0 <= j < k
        ensures t.existing[j].potential == bs[j].potential + PairPotential(e, nb, bs[j])
      {
        if j < k - 1 {
          assert t.existing[j] == s.existing[j];
        } else {
          assert t.existing[j].potential == b.potential + pp;
        }
      }
    }
  }

  lemma {:induction false} EnterEnergies(e: Elementary, bs: seq<Body>, nb: Body, k: nat)
    requires k <= |bs| && Enter(e, bs, nb, k).error.None?
    ensures forall j :: 0 <= j < k ==> EnergyCurrent(Enter(e, bs, nb, k).existing[j])
  {
    hide Enter, Potential, PairEnergy, ForceOf, Norm, Norm2, Attracts;
    if k > 0 {
      EnterStep(e, bs, nb, k);
      EnterEnergies(e, bs, nb, k - 1);
    }
  }

  /**
    After a successful `add_object` the new object's total energy is its kinetic
    plus potential energy, and that potential is the sum of the contributions of
    the registered objects that act on it; every registered object gained the
    contribution of the new one (if it acts on it) and had its energy updated.
   */
  lemma RegisterEnergies(e: Elementary, bs: seq<Body>, nb: Body)
    requires Register(e, bs, nb).error.None?
    ensures var s := Register(e, bs, nb);
      && Fixed(s.entering, nb) && s.entering.speed == nb.speed && s.entering.lastMove == nb.lastMove
      && s.entering.potential == Incoming(e, bs, nb, |bs|)
      && EnergyCurrent(s.entering)
      && forall j :: 0 <= j < |bs| ==>
           && Fixed(s.existing[j], bs[j]) && s.existing[j].speed == bs[j].speed
           && s.existing[j].potential == bs[j].potential + PairPotential(e, nb, bs[j])
           && EnergyCurrent(s.existing[j])
  {
    EnterIncoming(e, bs, nb, |bs|);
    EnterExisting(e, bs, nb, |bs|);
    EnterEnergies(e, bs, nb, |bs|);
    EnterLastMove(e, bs, nb, |bs|);
  }

  lemma {:induction false} EnterLastMove(e: Elementary, bs: seq<Body>, nb: Body, k: nat)
    requires k <= |bs|
    ensures Enter(e, bs, nb, k).entering.lastMove == nb.lastMove
  {
    if k > 0 {
      EnterLastMove(e, bs, nb, k - 1);
    }
  }

  // ---------------------------------------------------------------------------
  // One time step (simulate(double))

  /** The velocity change and potential energy accumulated for one body. */
  datatype Gathered = Gathered(delta: Vec3, potential: real)

  /**
    The inner loop of `simulate` for body `i`, over the bodies before index `j`:
    the potential energy of body `i` is reset before each other body's
    contribution, and an attracting body adds `force * (p2 - p1) * dt`.
   */
  function Gather(e: Elementary, bs: seq<Body>, i: nat, dt: real, j: nat): Result<Gathered, SimError>
    requires i < |bs| && j <= |bs|
  {
    if j == 0 then Ok(Gathered(Zero, bs[i].potential))
    else
      match Gather(e, bs, i, dt, j - 1)
      case Err(x) => Err(x)
      case Ok(g) =>
        if j - 1 == i then Ok(g)
        else
          match Potential(e, bs[j - 1], bs[i].(potential := 0.0))
          case Err(x) => Err(x)
          case Ok(p) =>
            var delta :=
              if p.force != -1.0
              then Add(g.delta, Scale(dt, Scale(p.force, Sub(bs[j - 1].position, bs[i].position))))
              else g.delta;
            Ok(Gathered(delta, p.potential))
  }

  /** The inner loop of `simulate` starts from no velocity change. */
  lemma GatherStart(e: Elementary, bs: seq<Body>, i: nat, dt: real)
    requires i < |bs|
    ensures Gather(e, bs, i, dt, 0) == Ok(Gathered(Zero, bs[i].potential))
  {
  }

  /** One more iteration of the inner loop of `simulate`. */
  lemma GatherNext(e: Elementary, bs: seq<Body>, i: nat, dt: real, j: nat)
    requires i < |bs| && j < |bs|
    ensures Gather(e, bs, i, dt, j + 1) ==
      match Gather(e, bs, i, dt, j)
      case Err(x) => Err(x)
      case Ok(g) =>
        if j == i then Ok(g)
        else
          match Potential(e, bs[j], bs[i].(potential := 0.0))
          case Err(x) => Err(x)
          case Ok(p) =>
            Ok(Gathered(if p.force != -1.0
                        then Add(g.delta, Scale(dt, Scale(p.force, Sub(bs[j].position, bs[i].position))))
                        else g.delta,
                        p.potential))
  {
  }

  lemma {:induction false} GatherFailureSticks(e: Elementary, bs: seq<Body>, i: nat, dt: real, j: nat, m: nat)
    requires i < |bs| && j <= m <= |bs| && Gather(e, bs, i, dt, j).Err?
    ensures Gather(e, bs, i, dt, m) == Gather(e, bs, i, dt, j)
    decreases m - j
  {
    hide Gather;
    if j < m {
      GatherFailureSticks(e, bs, i, dt, j, m - 1);
      GatherNext(e, bs, i, dt, m - 1);
    }
  }

  /** The last body other than `i` in iteration order. */
  function LastOther(n: nat, i: nat): nat
    requires i < n && n >= 2
  {
    if i == n - 1 then n - 2 else n - 1
  }

  /**
    Because the potential energy is reset inside the inner loop, after it body
    `i` holds only the contribution of the last other body in name order (zero
    if that one does not act on it), and its old value when it is alone.
   */
  lemma GatherKeepsLastPotential(e: Elementary, bs: seq<Body>, i: nat, dt: real)
    requires i < |bs| && Gather(e, bs, i, dt, |bs|).Ok?
    ensures |bs| == 1 ==> Gather(e, bs, i, dt, |bs|).value.potential == bs[i].potential
    ensures |bs| >= 2 ==>
      Gather(e, bs, i, dt, |bs|).value.potential == PairPotential(e, bs[LastOther(|bs|, i)], bs[i])
  {
    var n := |bs|;
    if n >= 2 {
      var l := LastOther(n, i);
      assert Gather(e, bs, i, dt, l + 1).Ok? by {
        if l + 1 < n {
          assert l + 1 == n - 1 && n - 1 == i;
        }
      }
      var p := Potential(e, bs[l], bs[i].(potential := 0.0));
      assert p.Ok?;
      assert p.value.potential == PairPotential(e, bs[l], bs[i]);
    }
  }

  function Discriminant(a: real, b: real, c: real): real
  {
    b * b - 4.0 * a * c
  }

  /** The root `(-B + s) / 2 / A` of the correction polynomial. */
  function RootPlus(a: real, b: real, s: real): real
    requires a != 0.0
  {
    (-b + s) / 2.0 / a
  }

  /** The root `(-B - s) / 2 / A` of the correction polynomial. */
  function RootMinus(a: real, b: real, s: real): real
    requires a != 0.0
  {
    (-b - s) / 2.0 / a
  }

  /** The vertex `-B / 2 / A`, where the polynomial is smallest. */
  function Vertex(a: real, b: real): real
    requires a != 0.0
  {
    -b / 2.0 / a
  }

  /** The first correction's lambda: the root picked by the sign of B, or the vertex. */
  function FirstLambda(e: Elementary, a: real, b: real, c: real): real
    requires a != 0.0
  {
    var delta := Discriminant(a, b, c);
    if delta >= 0.0 then
      if b > 0.0 then RootPlus(a, b, e.sqrt(delta)) else RootMinus(a, b, e.sqrt(delta))
    else Vertex(a, b)
  }

  /** The second correction's lambda: the smaller root, or the vertex. */
  function SecondLambda(e: Elementary, a: real, b: real, c: real): real
    requires a != 0.0
  {
    var delta := Discriminant(a, b, c);
    if delta >= 0.0 then Min(RootPlus(a, b, e.sqrt(delta)), RootMinus(a, b, e.sqrt(delta)))
    else Vertex(a, b)
  }

  /**
    One correction of `simulate`: `v - lambda d`, with lambda chosen from the
    polynomial `|v - lambda d|^2 - expected^2 = A lambda^2 + B lambda + C`.
   */
  function Correct(e: Elementary, v: Vec3, d: Vec3, expected: real, first: bool): Vec3
    requires Norm2(d) != 0.0
  {
    Sub(v, Scale(Factor(e, v, d, expected, first), d))
  }

  /** The lambda of one correction pass. */
  function Factor(e: Elementary, v: Vec3, d: Vec3, expected: real, first: bool): real
    requires Norm2(d) != 0.0
  {
    var a, b, c := Norm2(d), -2.0 * Dot(d, v), Norm2(v) - expected * expected;
    if first then FirstLambda(e, a, b, c) else SecondLambda(e, a, b, c)
  }

  /** The discriminant a correction of `v` along `d` sees. */
  function CorrectionDiscriminant(v: Vec3, d: Vec3, expected: real): real
  {
    Discriminant(Norm2(d), -2.0 * Dot(d, v), Norm2(v) - expected * expected)
  }

  /** The speed the energy equation demands: `sqrt(2 (total - potential) / mass)`. */
  function ExpectedSpeed(e: Elementary, b: Body): real
    requires b.mass != 0.0
  {
    e.sqrt(2.0 * (b.total - b.potential) / b.mass)
  }

  /**
    The energy correction of `simulate` for one body whose velocity change is
    `delta`: update `last_move` and the speed; clamp the total energy when it
    fell below the potential; otherwise correct along the previous move and then
    along the new one, each when it is non-zero.
   */
  function Conserve(e: Elementary, b: Body, delta: Vec3): (r: Body)
    requires b.mass != 0.0
    ensures Fixed(r, b) && r.potential == b.potential && r.lastMove == delta
    ensures b.total - b.potential < 0.0 ==> r.total == b.potential && r.speed == Add(b.speed, delta)
    ensures b.total - b.potential >= 0.0 ==> r.total == b.total
  {
    var lm := b.lastMove;
    var b1 := b.(lastMove := delta, speed := Add(b.speed, delta));
    if b1.total - b1.potential < 0.0 then b1.(total := b1.potential)
    else if Norm2(lm) == 0.0 then b1
    else
      var expected := ExpectedSpeed(e, b1);
      var s1 := Correct(e, b1.speed, lm, expected, true);
      if Norm2(delta) == 0.0 then b1.(speed := s1)
      else b1.(speed := Correct(e, s1, delta, expected, false))
  }

  /** `(2 A lambda)` for a chosen root makes the quadratic vanish. */
  lemma QuadraticRoot(a: real, b: real, c: real, s: real, lam: real)
    requires a != 0.0 && s * s == Discriminant(a, b, c)
    requires 2.0 * a * lam == -b + s || 2.0 * a * lam == -b - s
    ensures a * lam * lam + b * lam + c == 0.0
  {
    var t := 2.0 * a * lam;
    assert 4.0 * a * (a * lam * lam + b * lam + c) == t * t + 2.0 * b * t + 4.0 * a * c;
    assert (t + b) * (t + b) == s * s;
    ZeroProduct(4.0 * a, a * lam * lam + b * lam + c);
  }

  lemma HalfOver(x: real, a: real, lam: real)
    requires a != 0.0 && lam == x / 2.0 / a
    ensures 2.0 * a * lam == x
  {
    DivMul(x / 2.0, a);
  }

  /** `|v - lambda d|^2` expanded. */
  lemma Norm2Along(v: Vec3, d: Vec3, lam: real)
    ensures Norm2(Sub(v, Scale(lam, d)))
         == Norm2(d) * lam * lam - 2.0 * Dot(d, v) * lam + Norm2(v)
  {
  }

  /**
    When the discriminant is non-negative, either correction picks a root, so
    the corrected speed has exactly the expected magnitude.
   */
  /** Both correction passes pick one of the two roots when there are roots. */
  lemma RootChoice(e: Elementary, a: real, b: real, c: real, first: bool)
    requires a != 0.0 && Discriminant(a, b, c) >= 0.0
    ensures var s := e.sqrt(Discriminant(a, b, c));
      var lam := if first then FirstLambda(e, a, b, c) else SecondLambda(e, a, b, c);
      lam == RootPlus(a, b, s) || lam == RootMinus(a, b, s)
  {
  }

  /** Both root choices make the correction polynomial vanish. */
  lemma PickedRoot(e: Elementary, a: real, b: real, c: real, first: bool)
    requires SqrtLaw(e.sqrt) && a != 0.0 && Discriminant(a, b, c) >= 0.0
    ensures var lam := if first then FirstLambda(e, a, b, c) else SecondLambda(e, a, b, c);
      a * lam * lam + b * lam + c == 0.0
  {
    var s := e.sqrt(Discriminant(a, b, c));
    assert s * s == Discriminant(a, b, c);
    var lam := if first then FirstLambda(e, a, b, c) else SecondLambda(e, a, b, c);
    RootChoice(e, a, b, c, first);
    if lam == RootPlus(a, b, s) {
      HalfOver(-b + s, a, lam);
    } else {
      HalfOver(-b - s, a, lam);
    }
    QuadraticRoot(a, b, c, s, lam);
  }

  lemma CorrectionHitsTarget(e: Elementary, v: Vec3, d: Vec3, expected: real, first: bool)
    requires SqrtLaw(e.sqrt) && Norm2(d) != 0.0
    requires CorrectionDiscriminant(v, d, expected) >= 0.0
    ensures Norm2(Correct(e, v, d, expected, first)) == expected * expected
  {
    hide FirstLambda, SecondLambda, Discriminant, RootPlus, RootMinus, Vertex, Min;
    var a, b, c := Norm2(d), -2.0 * Dot(d, v), Norm2(v) - expected * expected;
    var lam := Factor(e, v, d, expected, first);
    PickedRoot(e, a, b, c, first);
    assert a * lam * lam + b * lam + c == 0.0;
    Norm2Along(v, d, lam);
  }

  /**
    When the discriminant is negative no lambda reaches the expected speed; the
    correction then takes the vertex, the closest speed along `d`, which is
    still faster than expected.
   */
  /** Around its vertex `lam` the polynomial grows by `A (mu - lam)^2`. */
  lemma VertexSquare(a: real, b: real, c: real, mu: real)
    requires a != 0.0
    ensures var lam := Vertex(a, b);
      a * mu * mu + b * mu + c == (a * lam * lam + b * lam + c) + a * (mu - lam) * (mu - lam)
  {
    var lam := Vertex(a, b);
    HalfOver(-b, a, lam);
    assert b == -2.0 * a * lam;
    assert b * mu == -2.0 * a * lam * mu;
    assert b * lam == -2.0 * a * lam * lam;
  }

  /** With a negative discriminant the value at the vertex is positive. */
  lemma VertexPositive(a: real, b: real, c: real)
    requires a > 0.0 && Discriminant(a, b, c) < 0.0
    ensures var lam := Vertex(a, b); a * lam * lam + b * lam + c > 0.0
  {
    var lam := Vertex(a, b);
    HalfOver(-b, a, lam);
    var f := a * lam * lam + b * lam + c;
    assert b == -2.0 * a * lam;
    assert b * lam == -2.0 * a * lam * lam;
    assert b * b == 4.0 * a * (a * lam * lam);
    assert f == c - a * lam * lam;
    assert 4.0 * a * f == 4.0 * a * c - b * b;
  }

  lemma CorrectionFallback(e: Elementary, v: Vec3, d: Vec3, expected: real, first: bool, mu: real)
    requires Norm2(d) != 0.0 && CorrectionDiscriminant(v, d, expected) < 0.0
    ensures Norm2(Correct(e, v, d, expected, first)) <= Norm2(Sub(v, Scale(mu, d)))
    ensures Norm2(Correct(e, v, d, expected, first)) > expected * expected
  {
    var a, b, c := Norm2(d), -2.0 * Dot(d, v), Norm2(v) - expected * expected;
    Norm2NonNegative(d);
    var lam := Vertex(a, b);
    assert Factor(e, v, d, expected, first) == lam;
    Norm2Along(v, d, lam);
    Norm2Along(v, d, mu);
    VertexSquare(a, b, c, mu);
    VertexPositive(a, b, c);
    ScaledSquare(a, mu - lam);
  }

  /** The expected speed squared is what the energy equation asks of the kinetic energy. */
  lemma ExpectedSpeedSquared(e: Elementary, b: Body)
    requires SqrtLaw(e.sqrt) && b.mass > 0.0 && b.total - b.potential >= 0.0
    ensures 0.5 * (ExpectedSpeed(e, b) * ExpectedSpeed(e, b)) * b.mass + b.potential == b.total
  {
    var x := 2.0 * (b.total - b.potential) / b.mass;
    assert x * b.mass == 2.0 * (b.total - b.potential);
    assert x >= 0.0;
    assert ExpectedSpeed(e, b) * ExpectedSpeed(e, b) == x;
  }

  /** Whether the second correction of `Conserve` finds a real root. */
  predicate SecondPassHasRoot(e: Elementary, b: Body, delta: Vec3)
    requires b.mass != 0.0
  {
    var b1 := b.(lastMove := delta, speed := Add(b.speed, delta));
    && b1.total - b1.potential >= 0.0
    && Norm2(b.lastMove) != 0.0
    && Norm2(delta) != 0.0
    && var expected := ExpectedSpeed(e, b1);
       CorrectionDiscriminant(Correct(e, b1.speed, b.lastMove, expected, true), delta, expected) >= 0.0
  }

  /**
    The point of the correction: when the second pass has a real root, the
    corrected body's kinetic plus potential energy equals its recorded total.
   */
  lemma ConserveRestoresEnergy(e: Elementary, b: Body, delta: Vec3)
    requires SqrtLaw(e.sqrt) && b.mass > 0.0 && SecondPassHasRoot(e, b, delta)
    ensures Kinetic(Conserve(e, b, delta)) + b.potential == b.total
  {
    var b1 := b.(lastMove := delta, speed := Add(b.speed, delta));
    var expected := ExpectedSpeed(e, b1);
    var s1 := Correct(e, b1.speed, b.lastMove, expected, true);
    CorrectionHitsTarget(e, s1, delta, expected, false);
    ExpectedSpeedSquared(e, b1);
    assert Conserve(e, b, delta).speed == Correct(e, s1, delta, expected, false);
  }

  /**
    The lambda of one correction pass, computed as `simulate` does.  The
    `first` pass picks a root by the sign of B, the second the smaller root;
    both fall back on the vertex.
   */
  method CorrectionLambda(e: Elementary, d: Vec3, speed: Vec3, expected: real, first: bool)
    returns (lam: real)
    requires Norm2(d) != 0.0
    ensures lam == Factor(e, speed, d, expected, first)
  {
    var speed2 := Norm2(speed);
    var angle := Dot(d, speed);
    var a := Norm2(d);
    var b := -2.0 * angle;
    var c := speed2 - expected * expected;
    var delta := Discriminant(a, b, c);
    if delta >= 0.0 {
      if first {
        if b > 0.0 {
          lam := RootPlus(a, b, e.sqrt(delta));
        } else {
          lam := RootMinus(a, b, e.sqrt(delta));
        }
      } else {
        lam := Min(RootPlus(a, b, e.sqrt(delta)), RootMinus(a, b, e.sqrt(delta)));
      }
    } else {
      lam := Vertex(a, b);
    }
  }

  /** The energy correction of `simulate` on one object. */
  method ConserveObject(e: Elementary, obj: MassObject, deltaSpeed: Vec3)
    requires obj.mass != 0.0
    modifies obj
    ensures obj.Value() == Conserve(e, old(obj.Value()), deltaSpeed)
  {
    hide Factor, FirstLambda, SecondLambda, Discriminant, RootPlus, RootMinus, Vertex, Norm2, Dot, Kinetic;
    var lastMove := obj.lastMove;
    obj.lastMove := deltaSpeed;
    obj.speed := Add(obj.speed, deltaSpeed);
    if obj.total - obj.potential < 0.0 {
      obj.total := obj.potential;
      return;
    }
    var lastSpeedNorm2 := Norm2(lastMove);
    if lastSpeedNorm2 == 0.0 {
      return;
    }
    var expected := ExpectedSpeed(e, obj.Value());
    var lam := CorrectionLambda(e, lastMove, obj.speed, expected, true);
    obj.speed := Sub(obj.speed, Scale(lam, lastMove));
    lastSpeedNorm2 := Norm2(deltaSpeed);
    if lastSpeedNorm2 == 0.0 {
      return;
    }
    expected := ExpectedSpeed(e, obj.Value());
    lam := CorrectionLambda(e, deltaSpeed, obj.speed, expected, false);
    obj.speed := Sub(obj.speed, Scale(lam, deltaSpeed));
  }

  /** The outcome of a step: the bodies in name order, and the exception if one was thrown. */
  datatype Outcome = Outcome(bodies: seq<Body>, error: Option<SimError>)

  predicate MassesNonZero(bs: seq<Body>)
  {
    forall i :: 0 <= i < |bs| ==> bs[i].mass != 0.0
  }

  /**
    The outer loop's work on body `i`: gather, then conserve; when
    `potential_to` throws, body `i` is left with its potential energy reset.
   */
  function Kick(e: Elementary, bs: seq<Body>, i: nat, dt: real): (r: Outcome)
    requires i < |bs| && bs[i].mass != 0.0
    ensures |r.bodies| == |bs| && Fixed(r.bodies[i], bs[i])
    ensures forall k :: 0 <= k < |bs| && k != i ==> r.bodies[k] == bs[k]
  {
    match Gather(e, bs, i, dt, |bs|)
    case Err(x) => Outcome(bs[i := bs[i].(potential := 0.0)], Some(x))
    case Ok(g) => Outcome(bs[i := Conserve(e, bs[i].(potential := g.potential), g.delta)], None)
  }

  /** The first `k` iterations of the outer loop, each seeing the bodies as the previous left them. */
  function Kicks(e: Elementary, bs: seq<Body>, dt: real, k: nat): (r: Outcome)
    requires k <= |bs| && MassesNonZero(bs)
    ensures |r.bodies| == |bs| && forall i :: 0 <= i < |bs| ==> Fixed(r.bodies[i], bs[i])
  {
    if k == 0 then Outcome(bs, None)
    else
      var o := Kicks(e, bs, dt, k - 1);
      if o.error.Some? then o else Kick(e, o.bodies, k - 1, dt)
  }

  lemma {:induction false} KicksFailureSticks(e: Elementary, bs: seq<Body>, dt: real, k: nat, m: nat)
    requires k <= m <= |bs| && MassesNonZero(bs) && Kicks(e, bs, dt, k).error.Some?
    ensures Kicks(e, bs, dt, m) == Kicks(e, bs, dt, k)
    decreases m - k
  {
    hide Kicks, Kick;
    if k < m {
      KicksFailureSticks(e, bs, dt, k, m - 1);
      KicksNext(e, bs, dt, m - 1);
    }
  }

  /** One more iteration of the outer loop, on bodies whose masses are still non-zero. */
  lemma KicksNext(e: Elementary, bs: seq<Body>, dt: real, k: nat)
    requires k < |bs| && MassesNonZero(bs)
    ensures var o := Kicks(e, bs, dt, k);
      && MassesNonZero(o.bodies) && |o.bodies| == |bs|
      && Kicks(e, bs, dt, k + 1) == if o.error.Some? then o else Kick(e, o.bodies, k, dt)
  {
    var o := Kicks(e, bs, dt, k);
    assert forall i :: 0 <= i < |bs| ==> Fixed(o.bodies[i], bs[i]);
  }

  /** The outer loop starts from the bodies as they are. */
  lemma KicksStart(e: Elementary, bs: seq<Body>, dt: real)
    requires MassesNonZero(bs)
    ensures Kicks(e, bs, dt, 0) == Outcome(bs, None)
  {
  }

  /** The final pass of `simulate`: every position advances by `speed * dt`. */
  function Drift(bs: seq<Body>, dt: real): (r: seq<Body>)
    ensures |r| == |bs|
  {
    seq(|bs|, i requires 0 <= i < |bs| => bs[i].(position := Add(bs[i].position, Scale(dt, bs[i].speed))))
  }

  /** `simulate(timestep)` on values. */
  function Step(e: Elementary, bs: seq<Body>, dt: real): (r: Outcome)
    requires MassesNonZero(bs)
    ensures |r.bodies| == |bs| && forall i :: 0 <= i < |bs| ==> r.bodies[i].mass == bs[i].mass
  {
    var o := Kicks(e, bs, dt, |bs|);
    if o.error.Some? then o else Outcome(Drift(o.bodies, dt), None)
  }

  /** `simulate(timestep)` is its outer loop, then the drift unless an exception stopped it. */
  lemma StepAfterKicks(e: Elementary, bs: seq<Body>, dt: real)
    requires MassesNonZero(bs)
    ensures var o := Kicks(e, bs, dt, |bs|);
      Step(e, bs, dt) == if o.error.Some? then o else Outcome(Drift(o.bodies, dt), None)
  {
  }

  /**
    Every body moves, the clamped ones included: a completed step leaves each
    body at its old position plus `dt` times its new speed.
   */
  lemma StepMovesEveryBody(e: Elementary, bs: seq<Body>, dt: real)
    requires MassesNonZero(bs) && Step(e, bs, dt).error.None?
    ensures forall i :: 0 <= i < |bs| ==>
      Step(e, bs, dt).bodies[i].position == Add(bs[i].position, Scale(dt, Step(e, bs, dt).bodies[i].speed))
  {
    var o := Kicks(e, bs, dt, |bs|);
    forall i | 0 <= i < |bs|
      ensures Step(e, bs, dt).bodies[i].position == Add(bs[i].position, Scale(dt, Step(e, bs, dt).bodies[i].speed))
    {
      assert Fixed(o.bodies[i], bs[i]);
    }
  }

  /** A sequence of time steps, stopping at the first exception. */
  function Run(e: Elementary, bs: seq<Body>, steps: seq<real>): (r: Outcome)
    requires MassesNonZero(bs)
    ensures |r.bodies| == |bs| && forall i :: 0 <= i < |bs| ==> r.bodies[i].mass == bs[i].mass
    decreases |steps|
  {
    if steps == [] then Outcome(bs, None)
    else
      var o := Step(e, bs, steps[0]);
      if o.error.Some? then o else Run(e, o.bodies, steps[1..])
  }

  lemma {:induction false} RunAppend(e: Elementary, bs: seq<Body>, a: seq<real>, b: seq<real>)
    requires MassesNonZero(bs)
    ensures var o := Run(e, bs, a);
      Run(e, bs, a + b) == if o.error.Some? then o else Run(e, o.bodies, b)
    decreases |a|
  {
    if a != [] {
      assert (a + b)[0] == a[0] && (a + b)[1..] == a[1..] + b;
      var o := Step(e, bs, a[0]);
      if o.error.None? {
        RunAppend(e, o.bodies, a[1..], b);
      }
    } else {
      assert a + b == b;
    }
  }

  function Repeat(dt: real, n: nat): (r: seq<real>)
    ensures |r| == n && forall i :: 0 <= i < n ==> r[i] == dt
  {
    seq(n, _ => dt)
  }

  /** A loop `for (i = 0; i < n; i++)` runs `max(n, 0)` times. */
  function NonNegative(n: int): (r: nat)
    ensures n >= 0 ==> r == n
    ensures n < 0 ==> r == 0
  {
    if n > 0 then n else 0
  }

  /** The number of full steps of `simulate(time, timestep)`: `(int)time / timestep`, truncated. */
  function FullSteps(time: real, timestep: real): int
    requires timestep != 0.0
  {
    Trunc(Trunc(time) as real / timestep)
  }

  /** The length of the last step of `simulate(time, timestep)` as written: `timestep * n - time`. */
  function Remainder(time: real, timestep: real): real
    requires timestep != 0.0
  {
    timestep * FullSteps(time, timestep) as real - time
  }

  /** `simulate(time, timestep)` as written: `n` full steps, then one of `timestep * n - time`. */
  function Schedule(time: real, timestep: real): seq<real>
    requires timestep != 0.0
  {
    Repeat(timestep, NonNegative(FullSteps(time, timestep))) + [Remainder(time, timestep)]
  }

  /** One more full step of the loop of `simulate(time, timestep)`. */
  lemma RunNext(e: Elementary, bs: seq<Body>, dt: real, i: nat)
    requires MassesNonZero(bs)
    ensures var o := Run(e, bs, Repeat(dt, i));
      Run(e, bs, Repeat(dt, i + 1)) == if o.error.Some? then o else Step(e, o.bodies, dt)
  {
    RunAppend(e, bs, Repeat(dt, i), [dt]);
    assert Repeat(dt, i) + [dt] == Repeat(dt, i + 1);
    var o := Run(e, bs, Repeat(dt, i));
    if o.error.None? {
      assert [dt][1..] == [];
    }
  }

  /** After an exception the remaining full steps do nothing. */
  lemma RunStops(e: Elementary, bs: seq<Body>, dt: real, i: nat, m: nat)
    requires MassesNonZero(bs) && i <= m && Run(e, bs, Repeat(dt, i)).error.Some?
    ensures Run(e, bs, Repeat(dt, m)) == Run(e, bs, Repeat(dt, i))
  {
    assert Repeat(dt, i) + Repeat(dt, m - i) == Repeat(dt, m);
    RunAppend(e, bs, Repeat(dt, i), Repeat(dt, m - i));
  }

  /** `simulate(time, timestep)` is its full steps, then the last one unless an exception stopped it. */
  lemma RunSchedule(e: Elementary, bs: seq<Body>, time: real, timestep: real)
    requires MassesNonZero(bs) && timestep != 0.0
    ensures var o := Run(e, bs, Repeat(timestep, NonNegative(FullSteps(time, timestep))));
      Run(e, bs, Schedule(time, timestep))
        == if o.error.Some? then o else Step(e, o.bodies, Remainder(time, timestep))
  {
    var full := Repeat(timestep, NonNegative(FullSteps(time, timestep)));
    var last := [Remainder(time, timestep)];
    RunAppend(e, bs, full, last);
    assert last[1..] == [];
  }

  /** The same decomposition for the intended schedule. */
  lemma IntendedRunSchedule(e: Elementary, bs: seq<Body>, time: real, timestep: real)
    requires MassesNonZero(bs) && timestep != 0.0
    ensures var o := Run(e, bs, Repeat(timestep, NonNegative(FullSteps(time, timestep))));
      Run(e, bs, IntendedSchedule(time, timestep))
        == if o.error.Some? then o else Step(e, o.bodies, IntendedRemainder(time, timestep))
  {
    var full := Repeat(timestep, NonNegative(FullSteps(time, timestep)));
    var last := [IntendedRemainder(time, timestep)];
    RunAppend(e, bs, full, last);
    assert last[1..] == [];
  }

  function Sum(s: seq<real>): real
  {
    if s == [] then 0.0 else s[0] + Sum(s[1..])
  }

  lemma SumSingleton(x: real)
    ensures Sum([x]) == x
  {
    assert [x][1..] == [];
  }

  lemma {:induction false} SumAppend(a: seq<real>, b: seq<real>)
    ensures Sum(a + b) == Sum(a) + Sum(b)
  {
    if a != [] {
      assert (a + b)[1..] == a[1..] + b;
      SumAppend(a[1..], b);
    } else {
      assert a + b == b;
    }
  }

  lemma {:induction false} SumRepeat(dt: real, n: nat)
    ensures Sum(Repeat(dt, n)) == n as real * dt
  {
    if n > 0 {
      assert Repeat(dt, n)[1..] == Repeat(dt, n - 1);
      SumRepeat(dt, n - 1);
    }
  }

  /**
    For a non-negative duration and a positive timestep the final step of the
    schedule is never positive, and the schedule covers `2 timestep n - time`,
    not `time`: the remainder has the wrong sign.
   */
  lemma ScheduleRemainder(time: real, timestep: real)
    requires time >= 0.0 && timestep > 0.0
    ensures var n := FullSteps(time, timestep);
      && n >= 0
      && Schedule(time, timestep) == Repeat(timestep, n) + [Remainder(time, timestep)]
      && Remainder(time, timestep) <= 0.0
      && Sum(Schedule(time, timestep)) == 2.0 * timestep * n as real - time
  {
    var t := Trunc(time);
    var q := t as real / timestep;
    assert q * timestep == t as real;
    var n := FullSteps(time, timestep);
    assert n as real <= q;
    assert timestep * n as real <= timestep * q;
    var last := Remainder(time, timestep);
    SumAppend(Repeat(timestep, n), [last]);
    SumRepeat(timestep, n);
    SumSingleton(last);
  }

  /** One and a half time units at timestep one: one full step, then a step back by a half. */
  lemma ScheduleRunsBackwards()
    ensures Schedule(1.5, 1.0) == [1.0, -0.5]
    ensures Sum(Schedule(1.5, 1.0)) == 0.5
  {
    assert FullSteps(1.5, 1.0) == 1;
    assert Repeat(1.0, 1) == [1.0];
    assert Sum([1.0, -0.5]) == 1.0 + Sum([-0.5]);
  }

  /** The evidently intended last step: `time - timestep * n`. */
  function IntendedRemainder(time: real, timestep: real): real
    requires timestep != 0.0
  {
    time - timestep * FullSteps(time, timestep) as real
  }

  /** The evidently intended schedule: `n` full steps, then the rest of `time`. */
  function IntendedSchedule(time: real, timestep: real): seq<real>
    requires timestep != 0.0
  {
    Repeat(timestep, NonNegative(FullSteps(time, timestep))) + [IntendedRemainder(time, timestep)]
  }

  /** The intended schedule covers exactly `time`, with a last step that is not negative. */
  lemma IntendedScheduleCoversTime(time: real, timestep: real)
    requires time >= 0.0 && timestep > 0.0
    ensures Sum(IntendedSchedule(time, timestep)) == time
    ensures IntendedSchedule(time, timestep)[|IntendedSchedule(time, timestep)| - 1] >= 0.0
  {
    var n := FullSteps(time, timestep);
    ScheduleRemainder(time, timestep);
    var last := IntendedRemainder(time, timestep);
    SumAppend(Repeat(timestep, n), [last]);
    SumRepeat(timestep, n);
    SumSingleton(last);
  }

  // ---------------------------------------------------------------------------
  // The registry

  class Simulator {
    /** The keys of `objects` in the order a `std::map` visits them. */
    var names: seq<string>
    var objects: map<string, MassObject>

    /** The map's keys, in order, without two names for one object. */
    ghost predicate Registry()
      reads this
    {
      && Sorted(names)
      && (forall n :: n in names <==> n in objects)
      && (forall m, n :: m in objects && n in objects && m != n ==> objects[m] != objects[n])
    }

    ghost predicate Valid()
      reads this, objects.Values
    {
      && Registry()
      && (forall i :: 0 <= i < |names| ==> names[i] in objects && objects[names[i]].mass > 0.0)
    }

    /** The registered bodies, in name order. */
    ghost function Bodies(): (bs: seq<Body>)
      reads this, objects.Values
      requires Valid()
      ensures |bs| == |names| && MassesNonZero(bs)
      ensures forall i :: 0 <= i < |names| ==> bs[i] == objects[names[i]].Value()
    {
      seq(|names|, i requires 0 <= i < |names| && names[i] in objects reads this, objects.Values
                     => objects[names[i]].Value())
    }

    lemma DistinctObjects()
      requires Registry()
      ensures forall i, j :: 0 <= i < |names| && 0 <= j < |names| && i != j
                ==> objects[names[i]] != objects[names[j]]
    {
      forall i, j | 0 <= i < |names| && 0 <= j < |names| && i != j
        ensures objects[names[i]] != objects[names[j]]
      {
        SortedDistinct(names, i, j);
      }
    }

    constructor ()
      ensures Valid() && names == [] && objects == map[]
    {
      names := [];
      objects := map[];
    }

    /**
      One iteration of the loop of `add_object`, on the `k`-th registered
      object: `potential_to` both ways, then that object's energy.
     */
    method EnterPair(e: Elementary, k: nat, newcomer: MassObject, ghost bs: seq<Body>, ghost nb: Body)
      returns (err: Option<SimError>)
      requires Registry() && k < |names| == |bs| && newcomer !in objects.Values
      requires Enter(e, bs, nb, k).error.None?
      requires newcomer.Value() == Enter(e, bs, nb, k).entering
      requires forall j :: 0 <= j < |names| ==> objects[names[j]].Value() == Enter(e, bs, nb, k).existing[j]
      modifies objects[names[k]], newcomer
      ensures err == Enter(e, bs, nb, k + 1).error
      ensures newcomer.Value() == Enter(e, bs, nb, k + 1).entering
      ensures forall j :: 0 <= j < |names| ==> objects[names[j]].Value() == Enter(e, bs, nb, k + 1).existing[j]
    {
      hide Enter, Potential, WithEnergy, PairEnergy, ForceOf, Kinetic, Norm, Norm2, Dot, Sorted, Less, Attracts;
      EnterNext(e, bs, nb, k);
      DistinctObjects();
      var obj := objects[names[k]];
      var r := PotentialTo(e, obj, newcomer);
      if r.Ok? {
        r := PotentialTo(e, newcomer, obj);
        if r.Ok? {
          obj.UpdateEnergy();
        }
      }
      err := if r.Err? then Some(r.error) else None;
    }

    /**
      The newcomer's potential energy is reset, then the loop of `add_object`
      runs over every registered object; it stops at the first exception.
     */
    method EnterAll(e: Elementary, newcomer: MassObject, ghost bs: seq<Body>, ghost nb: Body)
      returns (err: Option<SimError>)
      requires Registry() && newcomer !in objects.Values && |bs| == |names|
      requires forall j :: 0 <= j < |names| ==> objects[names[j]].Value() == bs[j]
      requires newcomer.Value() == nb
      modifies objects.Values, newcomer
      ensures var s := Enter(e, bs, nb, |bs|);
        && err == s.error && newcomer.Value() == s.entering
        && forall j :: 0 <= j < |names| ==> objects[names[j]].Value() == s.existing[j]
    {
      hide Enter, Potential, PairEnergy, ForceOf, WithEnergy, Kinetic, Norm, Norm2, Dot, Sorted, Less, Attracts;
      EnterStart(e, bs, nb);
      newcomer.potential := 0.0;
      err := None;
      var k := 0;
      while k < |names| && err.None?
        invariant 0 <= k <= |names| && names == old(names) && objects == old(objects)
        invariant err == Enter(e, bs, nb, k).error
        invariant newcomer.Value() == Enter(e, bs, nb, k).entering
        invariant forall j :: 0 <= j < |names| ==> objects[names[j]].Value() == Enter(e, bs, nb, k).existing[j]
      {
        err := EnterPair(e, k, newcomer, bs, nb);
        k := k + 1;
      }
      if err.Some? {
        EnterFailureSticks(e, bs, nb, k, |bs|);
      }
    }

    /**
      `add_object`: a known name throws `invalid_argument` and changes nothing;
      otherwise the potential energies are recomputed as `Register` says, and
      the newcomer is registered unless `potential_to` threw on the way.
     */
    method AddObject(e: Elementary, name: string, newcomer: MassObject) returns (err: Option<SimError>)
      requires Valid() && newcomer !in objects.Values && newcomer.mass > 0.0
      modifies this, objects.Values, newcomer
      ensures Valid()
      ensures old(name in objects) ==>
        && err == Some(DuplicateName) && names == old(names) && objects == old(objects)
        && Bodies() == old(Bodies()) && newcomer.Value() == old(newcomer.Value())
      ensures !old(name in objects) ==>
        var s := Register(e, old(Bodies()), old(newcomer.Value()));
        && err == s.error && newcomer.Value() == s.entering
        && (err.None? ==> names == InsertSorted(old(names), name) && objects == old(objects)[name := newcomer])
        && (err.Some? ==> names == old(names) && objects == old(objects))
        && forall k :: 0 <= k < |old(names)| ==> old(objects)[old(names)[k]].Value() == s.existing[k]
    {
      hide Register, Enter, Potential, WithEnergy, PairEnergy, ForceOf, Kinetic, Norm, Norm2, Dot, Less, Attracts;
      if name in objects {
        return Some(DuplicateName);
      }
      err := Admit(e, name, newcomer);
    }

    /** `add_object` past the duplicate check. */
    method Admit(e: Elementary, name: string, newcomer: MassObject) returns (err: Option<SimError>)
      requires Valid() && name !in objects && newcomer !in objects.Values && newcomer.mass > 0.0
      modifies this, objects.Values, newcomer
      ensures Valid()
      ensures var s := Register(e, old(Bodies()), old(newcomer.Value()));
        && err == s.error && newcomer.Value() == s.entering
        && (err.None? ==> names == InsertSorted(old(names), name) && objects == old(objects)[name := newcomer])
        && (err.Some? ==> names == old(names) && objects == old(objects))
        && forall k :: 0 <= k < |old(names)| ==> old(objects)[old(names)[k]].Value() == s.existing[k]
    {
      hide Register, Enter, Potential, WithEnergy, PairEnergy, ForceOf, Kinetic, Norm, Norm2, Dot, Less, Attracts;
      ghost var bs := Bodies();
      ghost var nb := newcomer.Value();
      RegisterAfterLoop(e, bs, nb);
      err := EnterAll(e, newcomer, bs, nb);
      if err.Some? {
        return;
      }
      newcomer.UpdateEnergy();
      Insert(name, newcomer);
      err := None;
    }

    /** `objects[name] = object` for a new name and a new object. */
    method Insert(name: string, newcomer: MassObject)
      requires Valid() && name !in objects && newcomer !in objects.Values && newcomer.mass > 0.0
      modifies this
      ensures Valid()
      ensures names == InsertSorted(old(names), name) && objects == old(objects)[name := newcomer]
    {
      ghost var before := names;
      objects := objects[name := newcomer];
      names := InsertSorted(names, name);
      forall i | 0 <= i < |names|
        ensures names[i] in objects && objects[names[i]].mass > 0.0
      {
        assert names[i] in names;
        if names[i] != name {
          assert names[i] in before;
          var j :| 0 <= j < |before| && before[j] == names[i];
        }
      }
    }

    /** `remove_object`: erases the key, if present; no object changes. */
    method RemoveObject(name: string)
      requires Valid()
      modifies this
      ensures Valid()
      ensures objects == old(objects) - {name} && names == RemoveKey(old(names), name)
      ensures name !in old(objects) ==> names == old(names) && objects == old(objects)
      ensures forall n :: n in objects ==> objects[n].Value() == old(objects[n].Value())
    {
      objects := objects - {name};
      names := RemoveKey(names, name);
    }

    /** The registered objects hold the bodies `bs`, in name order. */
    ghost predicate Holds(bs: seq<Body>)
      reads this, objects.Values
    {
      && |bs| == |names|
      && forall j :: 0 <= j < |names| ==> names[j] in objects && objects[names[j]].Value() == bs[j]
    }

    lemma BodiesHeld(bs: seq<Body>)
      requires Valid() && Holds(bs)
      ensures Bodies() == bs
    {
    }

    /**
      The inner loop of `simulate` for the `i`-th object: its potential energy
      is reset before each other object's `potential_to`, and the velocity
      change of each attracting object is summed.
     */
    method Accumulate(e: Elementary, i: nat, dt: real, ghost bs: seq<Body>) returns (res: Result<Vec3, SimError>)
      requires Registry() && i < |names| && Holds(bs)
      modifies objects[names[i]]
      ensures match Gather(e, bs, i, dt, |bs|)
              case Ok(g) => res == Ok(g.delta) && objects[names[i]].Value() == bs[i].(potential := g.potential)
              case Err(x) => res == Err(x) && objects[names[i]].Value() == bs[i].(potential := 0.0)
    {
      hide Gather, Potential, PairEnergy, ForceOf, Kinetic, Norm, Norm2, Dot, Sorted, Less, Attracts;
      GatherStart(e, bs, i, dt);
      DistinctObjects();
      var obj1 := objects[names[i]];
      var deltaSpeed := Zero;
      res := Ok(Zero);
      var j := 0;
      while j < |names| && res.Ok?
        invariant 0 <= j <= |names|
        invariant forall k :: 0 <= k < |names| && k != i ==> objects[names[k]].Value() == bs[k]
        invariant res.Ok? ==> Gather(e, bs, i, dt, j) == Ok(Gathered(deltaSpeed, obj1.potential))
        invariant res.Ok? ==> res == Ok(deltaSpeed) && obj1.Value() == bs[i].(potential := obj1.potential)
        invariant res.Err? ==> Gather(e, bs, i, dt, j) == Err(res.error) && obj1.Value() == bs[i].(potential := 0.0)
      {
        GatherNext(e, bs, i, dt, j);
        if j != i {
          var obj2 := objects[names[j]];
          obj1.potential := 0.0;
          var force := PotentialTo(e, obj2, obj1);
          if force.Err? {
            res := Err(force.error);
          } else {
            if force.value != -1.0 {
              deltaSpeed := Add(deltaSpeed, Scale(dt, Scale(force.value, Sub(obj2.position, obj1.position))));
            }
            res := Ok(deltaSpeed);
          }
        }
        j := j + 1;
      }
      if res.Err? {
        GatherFailureSticks(e, bs, i, dt, j, |bs|);
      }
    }

    /** The outer loop's body for the `i`-th object: the inner loop, then the correction. */
    method KickOne(e: Elementary, i: nat, dt: real, ghost bs: seq<Body>) returns (err: Option<SimError>)
      requires Registry() && i < |names| && Holds(bs) && MassesNonZero(bs)
      modifies objects[names[i]]
      ensures err == Kick(e, bs, i, dt).error && Holds(Kick(e, bs, i, dt).bodies)
    {
      hide Gather, Conserve, Potential, PairEnergy, ForceOf, Kinetic, Norm, Norm2, Dot, Sorted, Less, Attracts;
      DistinctObjects();
      var obj1 := objects[names[i]];
      var res := Accumulate(e, i, dt, bs);
      if res.Ok? {
        ConserveObject(e, obj1, res.value);
        err := None;
      } else {
        err := Some(res.error);
      }
    }

    /** The outer loop of `simulate(timestep)`, stopping at the first exception. */
    method KickAll(e: Elementary, dt: real, ghost bs: seq<Body>) returns (err: Option<SimError>)
      requires Registry() && Holds(bs) && MassesNonZero(bs)
      modifies objects.Values
      ensures err == Kicks(e, bs, dt, |bs|).error && Holds(Kicks(e, bs, dt, |bs|).bodies)
    {
      hide Kicks, Kick, Gather, Conserve, Potential, PairEnergy, ForceOf, Kinetic, Norm, Norm2, Dot, Sorted, Less, Attracts;
      KicksStart(e, bs, dt);
      err := None;
      var i := 0;
      while i < |names| && err.None?
        invariant 0 <= i <= |names| && names == old(names) && objects == old(objects)
        invariant err == Kicks(e, bs, dt, i).error && Holds(Kicks(e, bs, dt, i).bodies)
      {
        KicksNext(e, bs, dt, i);
        err := KickOne(e, i, dt, Kicks(e, bs, dt, i).bodies);
        i := i + 1;
      }
      if err.Some? {
        KicksFailureSticks(e, bs, dt, i, |bs|);
      }
    }

    /** The final loop of `simulate(timestep)`: every position advances. */
    method DriftAll(dt: real, ghost bs: seq<Body>)
      requires Registry() && Holds(bs)
      modifies objects.Values
      ensures Holds(Drift(bs, dt))
    {
      hide Sorted, Less;
      DistinctObjects();
      var k := 0;
      while k < |names|
        invariant 0 <= k <= |names|
        invariant forall j :: 0 <= j < |names| ==>
          objects[names[j]].Value() == if j < k then Drift(bs, dt)[j] else bs[j]
      {
        var obj := objects[names[k]];
        obj.position := Add(obj.position, Scale(dt, obj.speed));
        k := k + 1;
      }
    }

    /** `simulate(timestep)`. */
    method Simulate(e: Elementary, timestep: real) returns (err: Option<SimError>)
      requires Valid()
      modifies objects.Values
      ensures Valid()
      ensures Outcome(Bodies(), err) == Step(e, old(Bodies()), timestep)
    {
      ghost var bs := Bodies();
      hide Step, Drift, Kicks, Kick, Gather, Conserve, Potential, PairEnergy, ForceOf, Kinetic, Norm, Norm2, Dot, Sorted, Less, Attracts;
      StepAfterKicks(e, bs, timestep);
      err := KickAll(e, timestep, bs);
      if err.None? {
        DriftAll(timestep, Kicks(e, bs, timestep, |bs|).bodies);
      }
      ghost var after := Step(e, bs, timestep);
      assert Holds(after.bodies) && after.error == err;
      forall i | 0 <= i < |names|
        ensures objects[names[i]].mass > 0.0
      {
        assert objects[names[i]].Value() == after.bodies[i];
      }
      BodiesHeld(after.bodies);
    }

    /** One iteration of the loop of `simulate(time, timestep)`. */
    method StepOnce(e: Elementary, timestep: real, ghost bs: seq<Body>, ghost i: nat) returns (err: Option<SimError>)
      requires Valid() && MassesNonZero(bs) && Run(e, bs, Repeat(timestep, i)) == Outcome(Bodies(), None)
      modifies objects.Values
      ensures Valid()
      ensures Run(e, bs, Repeat(timestep, i + 1)) == Outcome(Bodies(), err)
    {
      hide Run, Repeat, Step, Kicks, Kick, Gather, Conserve, Potential, PairEnergy, ForceOf, Kinetic, Norm, Norm2, Dot, Sorted, Less, Attracts;
      RunNext(e, bs, timestep, i);
      err := Simulate(e, timestep);
    }

    /** The loop of `simulate(time, timestep)`: `n` full steps, stopping at an exception. */
    method StepRepeatedly(e: Elementary, n: int, timestep: real) returns (err: Option<SimError>)
      requires Valid()
      modifies objects.Values
      ensures Valid()
      ensures Outcome(Bodies(), err) == Run(e, old(Bodies()), Repeat(timestep, NonNegative(n)))
    {
      ghost var bs := Bodies();
      hide Run, Repeat, Step, Kicks, Kick, Gather, Conserve, Potential, PairEnergy, ForceOf, Kinetic, Norm, Norm2, Dot, Sorted, Less, Attracts;
      err := None;
      var i := 0;
      while i < n && err.None?
        invariant 0 <= i <= NonNegative(n) && Valid()
        invariant Run(e, bs, Repeat(timestep, i)) == Outcome(Bodies(), err)
      {
        err := StepOnce(e, timestep, bs, i);
        i := i + 1;
      }
      if err.Some? {
        RunStops(e, bs, timestep, i, NonNegative(n));
      }
    }

    /** `simulate(time, timestep)`: the schedule above, step by step. */
    method SimulateFor(e: Elementary, time: real, timestep: real) returns (err: Option<SimError>)
      requires Valid() && timestep != 0.0
      modifies objects.Values
      ensures Valid()
      ensures Outcome(Bodies(), err) == Run(e, old(Bodies()), Schedule(time, timestep))
    {
      ghost var bs := Bodies();
      hide Run, Schedule, FullSteps, Remainder, Repeat, Step, Kicks, Kick, Gather, Conserve, Potential, PairEnergy, ForceOf, Kinetic, Norm, Norm2, Dot, Sorted, Less, Attracts;
      RunSchedule(e, bs, time, timestep);
      var n := FullSteps(time, timestep);
      err := StepRepeatedly(e, n, timestep);
      if err.None? {
        err := Simulate(e, Remainder(time, timestep));
      }
    }

    /** `simulate(time, timestep)` with the last step corrected to `time - timestep * n`. */
    method SimulateForIntended(e: Elementary, time: real, timestep: real) returns (err: Option<SimError>)
      requires Valid() && timestep != 0.0
      modifies objects.Values
      ensures Valid()
      ensures Outcome(Bodies(), err) == Run(e, old(Bodies()), IntendedSchedule(time, timestep))
    {
      ghost var bs := Bodies();
      hide Run, IntendedSchedule, FullSteps, IntendedRemainder, Repeat, Step, Kicks, Kick, Gather, Conserve, Potential, PairEnergy, ForceOf, Kinetic, Norm, Norm2, Dot, Sorted, Less, Attracts;
      IntendedRunSchedule(e, bs, time, timestep);
      var n := FullSteps(time, timestep);
      err := StepRepeatedly(e, n, timestep);
      if err.None? {
        err := Simulate(e, IntendedRemainder(time, timestep));
      }
    }
  }
}
