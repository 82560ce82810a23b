# Solar-system simulator core, modelled in Dafny

The system is a small OpenGL solar-system viewer. Most of it is window, shader
and texture code, but five parts carry logic that can be stated and proved:

- `Simulator` (`src/Simulator.h`): a name-keyed registry of mass objects. It
  registers and removes objects and keeps their potential and total energies.
  `simulate(timestep)` adds up the pull of every other object, forces the
  kinetic energy back to the conserved total through two quadratic
  corrections, and then moves every object.
- `create_belt` (`src/orbit_object_helper.hpp`): builds an asteroid belt
  around a parent body. It chooses an orbital basis, rejection-samples
  positions until each one keeps its distance from the asteroids already
  placed, and draws a speed and a mass for each asteroid. It then names the
  asteroid, links it to the parent and appends it to the belt.
- `Dual_camera` (`src/Dual_camera.cpp`, `src/Dual_camera.h`): switches
  between an orbit camera (CENTERED) and a free head camera (FREE) without
  moving the view.
- The scene tree (`src/scene_initializer.hpp`): find-by-name, the
  "closest object" searches, pre-order drawing and post-order deletion.
- `Orbit_Object` (`src/orbit_object.h`): position and speed on a circular
  orbit, and `init_orbit_circ`.

The modules are:

| file | module | contents |
|---|---|---|
| `wrappers.dfy` | `Wrappers` | `Option` and `Result` |
| `maths.dfy` | `Maths` | the elementary functions as parameters, and small real-arithmetic lemmas |
| `vectors.dfy` | `Vectors` | `vcl::vec3` / `vcl::vec2` as real triples and pairs |
| `strings.dfy` | `Strings` | the key order of `std::map<std::string, …>` and the asteroid names |
| `simulator.dfy` | `Gravity` | `Mass_object` and `Simulator` |
| `orbit.dfy` | `Orbit` | `Orbit_Object`, `init_orbit_circ` and `Planete_Drawable::rotation_angle` |
| `belt.dfy` | `Belt` | `create_belt` and its helpers |
| `camera.dfy` | `Camera` | `Dual_camera` |
| `scene.dfy` | `SceneTree` | `Scene_initializer`'s tree walks and mesh map |

How the model treats the maths:

- Floats are `real`.
- `sqrt`, `sin`, `cos`, `acos`, `atan` and `exp` are the fields of a
  `Maths.Elementary` value passed to every member that uses them.
- A proof that needs a law of those functions takes it as a precondition:
  `SqrtLaw` (the root of a non-negative number is a non-negative root of
  it) and `TrigLaw` (`sin² + cos² = 1`, `cos 0 = 1`, `sin 0 = 0`).
- The vcl camera library is treated the same way. `Camera.Vcl` holds its
  functions, and `Camera.LookAtLaw` is the one law used: `look_at` puts the
  eye where it was asked to.

How the model treats state:

- Objects the source updates in place are classes: `Gravity.MassObject`,
  `Gravity.Simulator`, `Orbit.OrbitObject`, `Belt.Drawable`,
  `Belt.AsteroidBelt`, `Camera.DualCamera` and `SceneTree.Scene`.
- Their methods are proved against spec functions of the old state. For
  example, `Gravity.Enter` specifies the `add_object` loop, `Gravity.Step`
  specifies `simulate(timestep)`, and `SceneTree.Preorder` specifies
  `draw_rec_`.
- The algebraic facts are lemmas about those functions.

The source's `std::map` iterates in key order. `Gravity.Simulator` therefore
keeps a sorted sequence of names (`Strings.Sorted`, under a lexicographic
`Strings.Less`) beside a `map` from names to objects.

## Model

| member | source | states |
|---|---|---|
| Gravity.WithEnergy | src/Simulator.h:23-25 | after `update_energy`, total energy minus potential energy is the kinetic energy ½·‖speed‖²·mass; nothing else changes |
| Gravity.MassObject.constructor | src/Simulator.h:7-21 | a new mass object holds the given fields; `attracts_similar` defaults to true |
| Gravity.MassObject.UpdateEnergy | src/Simulator.h:23-25 | the object's new value is `WithEnergy` of its old value |
| Gravity.Attracts | src/Simulator.h:183 | the attraction-level gate, with no contract of its own; PotentialCases and SentinelMeansNoAttraction state what `potential_to` does on each side of it |
| Gravity.Potential | src/Simulator.h:180-196 | `potential_to` on values, with no contract of its own; PotentialCases gives its three outcomes and ForceIsInverseSquare its force |
| Gravity.ForceIsInverseSquare | src/Simulator.h:189-192 | the returned force `-PE/d²` equals `G·m₁·m₂/d³` |
| Gravity.PotentialCases | src/Simulator.h:183-195 | if `from` does not attract `to`, the result is −1 and the potential is unchanged; if it attracts and the positions coincide, the result is an error; otherwise the potential grows by `−G·m₁·m₂/d` and the force is `G·m₁·m₂/d³` |
| Gravity.PositiveQuotient | src/Simulator.h:192 | for positive masses and distance the force is positive |
| Gravity.SentinelMeansNoAttraction | src/Simulator.h:183-195 | for positive masses, a successful `potential_to` returns −1 exactly when there is no attraction, so the test at line 72 is sound |
| Gravity.PotentialTo | src/Simulator.h:180-196 | the method's result and its new `to` agree with `Potential` in all three cases; `from` is unchanged |
| Gravity.Register | src/Simulator.h:39-49 | `add_object` for a new name on values, with no contract of its own; RegisterAfterLoop, RegisterFails and RegisterEnergies state its effect, its error and the energies it leaves |
| Gravity.Enter | src/Simulator.h:40-46 | the first k rounds of the `add_object` loop keep every mass, position and speed; only energies change |
| Gravity.EnterStart | src/Simulator.h:40 | before the loop, the incoming object's potential is reset to 0 |
| Gravity.RegisterAfterLoop | src/Simulator.h:48-49 | registering is the full loop followed by `update_energy` on the incoming object |
| Gravity.EnterNext | src/Simulator.h:43-45 | one round applies `potential_to` both ways, then `update_energy` on the existing object |
| Gravity.EnterStops | src/Simulator.h:43-44 | after an exception, another round changes nothing |
| Gravity.EnterFailureSticks | src/Simulator.h:42-46 | an exception is final for every later round |
| Gravity.EnterFails | src/Simulator.h:42-46 | the loop fails exactly when an attracting pair with coincident positions was met, and the error is the coincident-positions error |
| Gravity.RegisterFails | src/Simulator.h:35-50 | as `EnterFails`, for the whole registration |
| Gravity.EnterStep | src/Simulator.h:43-45 | one round adds the pair's potential on each side |
| Gravity.PairPotentialFixed | src/Simulator.h:189 | the pair contribution depends only on masses, positions and levels |
| Gravity.EnterUntouched | src/Simulator.h:42-46 | objects beyond round k are untouched |
| Gravity.EnterIncoming | src/Simulator.h:40-46 | the incoming potential is 0 plus the contributions of the first k existing objects only |
| Gravity.EnterExisting | src/Simulator.h:43-45 | each existing object visited gains exactly the incoming object's contribution |
| Gravity.EnterEnergies | src/Simulator.h:45 | every visited existing object has a current total energy |
| Gravity.RegisterEnergies | src/Simulator.h:35-50 | after a successful registration, every object's total equals kinetic energy plus potential |
| Gravity.EnterLastMove | src/Simulator.h:40-46 | registration leaves `last_move` alone |
| Gravity.Gather | src/Simulator.h:62-77 | the inner loop of `simulate` on values, with no contract of its own; GatherStart, GatherNext, GatherFailureSticks and GatherKeepsLastPotential state its rounds |
| Gravity.GatherStart | src/Simulator.h:60 | the velocity delta starts at zero |
| Gravity.GatherNext | src/Simulator.h:62-77 | one inner round: itself is skipped; otherwise the potential is reset, then `potential_to`, then the delta grows by `force·(p₂−p₁)·dt` only if the force is not −1 |
| Gravity.GatherFailureSticks | src/Simulator.h:62-77 | an exception is final for the inner loop |
| Gravity.GatherKeepsLastPotential | src/Simulator.h:62-77 | after the inner loop, the potential holds only the last other object's contribution, or the reset 0 if that object does not attract; with one object it is unchanged |
| Gravity.Conserve | src/Simulator.h:82-148 | keeps mass, position and potential; sets `last_move` to the delta; when total − potential < 0 it sets total := potential and only adds the delta to the speed; otherwise the total is kept |
| Gravity.QuadraticRoot | src/Simulator.h:101-113 | `λ = (−B ± √Δ)/2A` is a root of `Aλ² + Bλ + C` |
| Gravity.HalfOver | src/Simulator.h:111 | `x / 2 / A` times `2A` is `x` |
| Gravity.Norm2Along | src/Simulator.h:99-119 | `‖v − λd‖²` expands to `Aλ² + Bλ + ‖v‖²` with A and B as in the source |
| Gravity.RootChoice | src/Simulator.h:109-114 | each pass picks one of the two roots |
| Gravity.PickedRoot | src/Simulator.h:105-114 | under `SqrtLaw`, the picked λ solves the quadratic |
| Gravity.CorrectionHitsTarget | src/Simulator.h:93-148 | when Δ ≥ 0, the corrected speed has squared norm `expected_speed²` |
| Gravity.VertexSquare | src/Simulator.h:115-117 | the vertex `−B/2A` minimises `‖v − λd‖²` over λ |
| Gravity.VertexPositive | src/Simulator.h:115-117 | with A > 0 and Δ < 0 the quadratic stays positive |
| Gravity.CorrectionFallback | src/Simulator.h:115-119 | when Δ < 0 the fallback λ gives the least squared norm on the line, still above the target |
| Gravity.ExpectedSpeedSquared | src/Simulator.h:98 | `expected_speed² · mass / 2 + potential = total` |
| Gravity.ConserveRestoresEnergy | src/Simulator.h:93-148 | when the second pass has a root, the corrected body's kinetic energy plus potential equals its total |
| Gravity.CorrectionLambda | src/Simulator.h:93-146 | the method returns the λ of `Factor` for either pass |
| Gravity.ConserveObject | src/Simulator.h:82-148 | the object's new value is `Conserve` of its old value |
| Gravity.Kick | src/Simulator.h:58-154 | one outer round updates only object i and keeps its mass and position |
| Gravity.Kicks | src/Simulator.h:58-154 | the first k outer rounds keep every mass and position |
| Gravity.KicksFailureSticks | src/Simulator.h:58-154 | an exception is final for the outer loop |
| Gravity.KicksNext | src/Simulator.h:58-154 | one more outer round is `Kick` on the current state |
| Gravity.KicksStart | src/Simulator.h:58 | zero rounds change nothing |
| Gravity.Drift | src/Simulator.h:156-161 | the position pass keeps the number of objects |
| Gravity.Step | src/Simulator.h:56-162 | `simulate(timestep)` keeps every mass |
| Gravity.StepAfterKicks | src/Simulator.h:56-162 | a step is the outer loop, then the position pass unless an exception stopped it |
| Gravity.StepMovesEveryBody | src/Simulator.h:86-161 | after a step without an exception, every position is old position + new speed·dt, including bodies whose energy was clamped |
| Gravity.Run | src/Simulator.h:164-173 | a schedule of steps keeps every mass |
| Gravity.RunAppend | src/Simulator.h:168-171 | running two schedules in sequence equals running their concatenation |
| Gravity.Repeat | src/Simulator.h:168-169 | n copies of the timestep |
| Gravity.NonNegative | src/Simulator.h:168 | a loop `for i < n` runs max(n, 0) times |
| Gravity.RunNext | src/Simulator.h:168-169 | one more loop iteration is one more step |
| Gravity.RunStops | src/Simulator.h:168-169 | an exception ends the loop |
| Gravity.Remainder | src/Simulator.h:171 | the as-written last step `timestep·n − time`, with no contract of its own; ScheduleRemainder proves it is never positive for `time ≥ 0` |
| Gravity.Schedule | src/Simulator.h:166-171 | the as-written step list, with no contract of its own; RunSchedule, ScheduleRemainder and ScheduleRunsBackwards state what it runs and covers |
| Gravity.RunSchedule | src/Simulator.h:164-173 | `simulate(time, timestep)` is n full steps, then the remainder step |
| Gravity.IntendedRunSchedule | src/Simulator.h:164-173 | the same decomposition for the corrected remainder |
| Gravity.SumSingleton | src/Simulator.h:171 | the duration of a one-step schedule |
| Gravity.SumAppend | src/Simulator.h:168-171 | durations add up over concatenation |
| Gravity.SumRepeat | src/Simulator.h:168-169 | n full steps cover n·timestep |
| Gravity.ScheduleRemainder | src/Simulator.h:164-173 | for time ≥ 0 and timestep > 0, n ≥ 0, the extra step `timestep·n − time` is ≤ 0, and the schedule covers `2·timestep·n − time` |
| Gravity.ScheduleRunsBackwards | src/Simulator.h:164-173 | time 1.5 at timestep 1 runs steps 1.0 and −0.5, covering 0.5 |
| Gravity.IntendedScheduleCoversTime | src/Simulator.h:164-173 | with the last step `time − timestep·n`, the schedule covers exactly `time` and its last step is ≥ 0 |
| Gravity.Simulator.Bodies | src/Simulator.h:176 | the registry's objects in key order, all with non-zero mass |
| Gravity.Simulator.DistinctObjects | src/Simulator.h:176 | distinct names hold distinct objects |
| Gravity.Simulator.constructor | src/Simulator.h:176 | an empty registry |
| Gravity.Simulator.EnterPair | src/Simulator.h:43-45 | one loop round on the heap matches `Enter` |
| Gravity.Simulator.EnterAll | src/Simulator.h:40-46 | the heap loop matches `Enter` over all objects |
| Gravity.Simulator.AddObject | src/Simulator.h:35-50 | a duplicate name raises the error and changes no map entry and no object; otherwise the name maps to the object, the key order is kept, and every energy is `Register`'s |
| Gravity.Simulator.Admit | src/Simulator.h:39-49 | for a new name, the energies are `Register`'s; on success the name maps to the object in key order, and after an exception the map is unchanged |
| Gravity.Simulator.Insert | src/Simulator.h:48 | inserts the name in key order and the object under it |
| Gravity.Simulator.RemoveObject | src/Simulator.h:52-54 | erases exactly that key; a no-op when it is absent; no object is changed |
| Gravity.Simulator.BodiesHeld | src/Simulator.h:176 | a pointwise snapshot equals `Bodies()` |
| Gravity.Simulator.Accumulate | src/Simulator.h:60-77 | the inner loop on the heap matches `Gather` |
| Gravity.Simulator.KickOne | src/Simulator.h:58-154 | one outer round on the heap matches `Kick` |
| Gravity.Simulator.KickAll | src/Simulator.h:58-154 | the outer loop on the heap matches `Kicks` |
| Gravity.Simulator.DriftAll | src/Simulator.h:156-161 | the position pass on the heap matches `Drift` |
| Gravity.Simulator.Simulate | src/Simulator.h:56-162 | `simulate(timestep)` on the heap matches `Step` |
| Gravity.Simulator.StepOnce | src/Simulator.h:168-169 | one loop iteration extends the `Run` of i full steps to i + 1 |
| Gravity.Simulator.StepRepeatedly | src/Simulator.h:166-169 | the loop matches `Run` of max(n, 0) full steps |
| Gravity.Simulator.SimulateFor | src/Simulator.h:164-173 | `simulate(time, timestep)` as written matches `Run` of `Schedule` |
| Gravity.Simulator.SimulateForIntended | src/Simulator.h:164-173 | the corrected `simulate(time, timestep)` matches `Run` of `IntendedSchedule` |
| Strings.LessIrreflexive | src/Simulator.h:176 | the map's key order is irreflexive |
| Strings.LessTransitive | src/Simulator.h:176 | the key order is transitive |
| Strings.LessTotal | src/Simulator.h:176 | the key order is total |
| Strings.SortedDistinct | src/Simulator.h:176 | keys in order are distinct |
| Strings.InsertSorted | src/Simulator.h:48 | inserting a new key keeps the order and adds exactly that key |
| Strings.RemoveKey | src/Simulator.h:53 | erasing keeps the order and removes exactly that key; absent keys change nothing |
| Strings.DecimalString | src/orbit_object_helper.hpp:146 | `std::to_string` of a natural is non-empty, with two or more digits from 10 up |
| Strings.DecimalStringInjective | src/orbit_object_helper.hpp:146 | distinct naturals have distinct decimal strings |
| Strings.AsteroidName | src/orbit_object_helper.hpp:146 | `"ast_" + std::to_string(k)`, with no contract of its own; AsteroidNameInjective proves the names distinct |
| Strings.AsteroidNameInjective | src/orbit_object_helper.hpp:146 | the names `"ast_" + k` are pairwise distinct |
| Orbit.KeplerThirdLaw | src/orbit_object.h:42 | the period is positive, and `period²·G·M = 4·3.14²·R³` |
| Orbit.CircularSpeedKepler | src/orbit_object.h:37-42 | the speed `2·3.14·R/period` satisfies `v²·R = G·M` |
| Orbit.DegenerateZero | src/orbit_object.h:21 | the zero-norm test fails exactly on a zero vector |
| Orbit.OrbitFails | src/orbit_object.h:20-32 | `position` and `speed` report the call error exactly when `diameter_ini` or `axis` is the zero vector |
| Orbit.Orthonormal | src/orbit_object.h:24-26 | axis1 and axis2 are orthonormal when `diameter_ini ⟂ axis` |
| Orbit.CrossTerms | src/orbit_object.h:27-38 | dot products of combinations of an orthonormal pair |
| Orbit.CircleRadius | src/orbit_object.h:27 | a point of the circle lies at squared distance r² from its center |
| Orbit.UnitCombination | src/orbit_object.h:38 | `‖p·w + q·u‖² = p² + q²` for an orthonormal pair |
| Orbit.TangentAsSum | src/orbit_object.h:38 | the tangent velocity written as one combination |
| Orbit.VelocityMagnitudes | src/orbit_object.h:38 | both the source's velocity and the tangent velocity have squared norm v² |
| Orbit.TurningRadial | src/orbit_object.h:27-38 | the source's velocity has radial component `2·r·v·sin·cos` |
| Orbit.TangentRadial | src/orbit_object.h:27-38 | the tangent velocity has no radial component |
| Orbit.Position | src/orbit_object.h:20-28 | `position(t)`, with no contract of its own; OrbitFails, PositionAtStart and PositionOnCircle state its error case, its start and that it stays on the circle |
| Orbit.Speed | src/orbit_object.h:30-39 | `speed(t)` as written, with no contract of its own; SpeedMagnitude, SpeedNotTangent and RadialNonZero state its magnitude and its radial component |
| Orbit.PositionAtStart | src/orbit_object.h:23-27 | `position(0) = center + radius_orbit·diameter_ini/‖diameter_ini‖` |
| Orbit.PositionOnCircle | src/orbit_object.h:23-27 | with `diameter_ini ⟂ axis`, `‖position(t) − center‖² = radius_orbit²` |
| Orbit.SpeedMagnitude | src/orbit_object.h:33-38 | under the same condition `‖speed(t)‖² = (2·3.14·radius_orbit/period)²` for every t |
| Orbit.RadialNonZero | src/orbit_object.h:38 | the radial component `2·r·v·sin·cos` is non-zero whenever `sin·cos ≠ 0` and `v·r ≠ 0`, so the as-written speed leaves the tangent at those angles |
| Orbit.SpeedNotTangent | src/orbit_object.h:20-38 | `speed(t)` has radial component `2·r·v·sin·cos` |
| Orbit.TangentSpeedIsTangent | src/orbit_object.h:20-38 | the corrected velocity has no radial component, the same magnitude, and equals `speed(0)` |
| Orbit.TangentSpeed | src/orbit_object.h:30-39 | the corrected speed, with no contract of its own; TangentSpeedIsTangent proves it tangent, of the same magnitude, and equal to `speed(0)` |
| Orbit.OrbitObject.constructor | src/orbit_object.h:7-18 | an orbit object holds the given fields |
| Orbit.InitOrbit | src/orbit_object.h:41-49 | keeps the mass; the period is computed from the old `radius_orbit`; when `parent.position(t)` succeeds the center is that position and there is no error, and when it raises only the period has been assigned and its error is returned |
| Orbit.InitOrbitFields | src/orbit_object.h:42-48 | when the parent's position succeeds there is no error, the center is `parent.position(t)`, and axis, diameter and radius are replaced only by non-zero arguments; zero keeps the old value |
| Orbit.InitOrbitTwice | src/orbit_object.h:41-49 | a second identical call recomputes the period from the new radius |
| Orbit.InitOrbitCirc | src/orbit_object.h:41-49 | the method's new state and error match `InitOrbit` |
| Orbit.RotationAngle | src/orbit_object.h:65-67 | `rotation_angle(t)`, with no contract of its own; RotationAdditive states that it starts at 0 and adds over durations |
| Orbit.RotationAdditive | src/orbit_object.h:65-67 | `rotation_angle(0) = 0` and the angle is additive in t |
| Belt.Rounds | src/orbit_object_helper.hpp:131 | `i < N` with unsigned i runs N rounds for N ≥ 0 and N + 2³² for negative N |
| Belt.NormalizeMultiple | src/orbit_object_helper.hpp:110-114 | `normalize` returns a multiple of its argument |
| Belt.NormalizedCross | src/orbit_object_helper.hpp:113-114 | a normalised cross product is orthogonal to its first factor, and a unit vector when it is non-zero |
| Belt.CrossWithEx | src/orbit_object_helper.hpp:114 | `a × (1,0,0) = (0, a.z, −a.y)` |
| Belt.CrossWithEy | src/orbit_object_helper.hpp:113 | `a × (0,1,0) = (−a.z, 0, a.x)` |
| Belt.DiameterIni | src/orbit_object_helper.hpp:112-114 | the as-written diameter choice, with no contract of its own; DiameterOrthogonal, DiameterZero and DiameterMissesMinusX state when it is a unit vector orthogonal to the axis and when it is zero |
| Belt.DiameterOrthogonal | src/orbit_object_helper.hpp:112-114 | `diameter_ini` is orthogonal to the axis, and a unit vector when the chosen cross product is non-zero |
| Belt.UnitOnXAxis | src/orbit_object_helper.hpp:112-114 | a unit vector on the x axis is (1,0,0) or (−1,0,0) |
| Belt.DiameterZero | src/orbit_object_helper.hpp:112-114 | for a unit axis, `diameter_ini` is zero exactly for the axis (−1,0,0) |
| Belt.DiameterMissesMinusX | src/orbit_object_helper.hpp:112-114 | the axis (−1,0,0) slips past the check and gets a zero diameter |
| Belt.PerpendicularDiameter | src/orbit_object_helper.hpp:112-114 | the corrected diameter choice, with no contract of its own; PerpendicularDiameterUnit and DiameterAgrees state that it is a unit orthogonal vector and where it agrees with the source |
| Belt.PerpendicularDiameterUnit | src/orbit_object_helper.hpp:112-114 | the corrected choice is a unit vector orthogonal to every non-zero axis |
| Belt.DiameterAgrees | src/orbit_object_helper.hpp:112-114 | the corrected choice agrees with the source on every axis off the x line, and on (1,0,0) |
| Belt.Setup | src/orbit_object_helper.hpp:106-124 | the frame `create_belt` sets, with no contract of its own; SetupAxes and SetupSpeed state its fields and its Kepler speed |
| Belt.SetupAxes | src/orbit_object_helper.hpp:108-122 | center 0, radius R, unit axis, diameter orthogonal to it, sigma 10, lambda = ka = 1, D = 1.7·1.5·radius_ast |
| Belt.SetupSpeed | src/orbit_object_helper.hpp:111-124 | the period is positive and `speed_rotation²·R = G·M` |
| Belt.SphericalCoefficients | src/orbit_object_helper.hpp:82 | the three spherical coefficients have squares summing to rad² |
| Belt.Norm2Combination3 | src/orbit_object_helper.hpp:82 | the squared norm of a combination of an orthonormal triple |
| Belt.SphericalPointNorm | src/orbit_object_helper.hpp:82 | with orthonormal `Ex`, `Ez`, the point has squared norm rad² and norm ‖rad‖ |
| Belt.GenerateRandPosition | src/orbit_object_helper.hpp:74-84 | `generate_rand_position` for one draw, with no contract of its own; SphericalPointNorm and RandPositionNorm state the norm of its result |
| Belt.RandPositionNorm | src/orbit_object_helper.hpp:74-84 | `generate_rand_position` returns a vector of norm ‖rad‖ for orthonormal `Ex`, `Ez` |
| Belt.GenerateRandSpeed | src/orbit_object_helper.hpp:86-97 | the speed is `speed_ini` plus `rand_speed` times a standard draw, and `speed_ini` itself when `rand_speed = 0` |
| Belt.RandIntervalBounds | src/orbit_object_helper.hpp:144 | `rand_interval(lo, hi)` lies between lo and hi |
| Belt.AsteroidMass | src/orbit_object_helper.hpp:144 | the mass draw, with no contract of its own; AsteroidMassBounds bounds it |
| Belt.AsteroidMassBounds | src/orbit_object_helper.hpp:144 | each mass lies in `[mass_ast·3/4, mass_ast·5/4]` |
| Belt.MeanVelocityTangent | src/orbit_object_helper.hpp:143 | the mean velocity is orthogonal to the axis and to the position, with squared norm `speed_rotation²` when the cross product is non-zero |
| Belt.SeparatedAppend | src/orbit_object_helper.hpp:134-150 | appending a position that passed the test keeps the set pairwise separated |
| Belt.SeparatedDistinct | src/orbit_object_helper.hpp:139 | pairwise separated positions are distinct |
| Belt.Drawable.CreateAst | src/orbit_object_helper.hpp:59-72 | `create_ast` copies M, position, speed and radius unchanged |
| Belt.Positions | src/orbit_object_helper.hpp:139 | the positions of the elements, in order |
| Belt.AsteroidBelt.constructor | src/orbit_object_helper.hpp:106 | a belt starts with no elements |
| Belt.TooClose | src/orbit_object_helper.hpp:137-141 | the inner loop sets `b` exactly when some element is nearer than `3·radius_ast` |
| Belt.InitFrame | src/orbit_object_helper.hpp:108-124 | the frame fields are `Setup`'s; the elements are unchanged |
| Belt.PlaceAsteroid | src/orbit_object_helper.hpp:143-150 | the new asteroid is fresh, named `"ast_" + size`, linked to the parent, with mass, speed and radius from the draws, and appended to both `enfants` and `elements` |
| Belt.AllPlacedAppend | src/orbit_object_helper.hpp:143-150 | placing one more asteroid extends the placement invariant |
| Belt.EmptyBelt | src/orbit_object_helper.hpp:131 | the loop invariants hold before the first round |
| Belt.SamplePosition | src/orbit_object_helper.hpp:134-142 | the rejection loop returns the first candidate that passes the test, and every earlier one was rejected; without such a candidate it uses up the draws |
| Belt.RejectionsExtend | src/orbit_object_helper.hpp:134-142 | the record of rejected candidates extends by one round |
| Belt.PositionsAppend | src/orbit_object_helper.hpp:150 | pushing an element appends its position |
| Belt.Accept | src/orbit_object_helper.hpp:143-150 | accepting a candidate appends one asteroid and keeps placement, separation and rejection invariants |
| Belt.CreateBelt | src/orbit_object_helper.hpp:99-153 | the frame is `Setup`'s; with enough draws, N rounds append N fresh, distinct asteroids to `elements` and to `parent->enfants`, in order; each has its name, parent, mass, speed and accepted position; the positions are pairwise separated |
| Camera.SlideDistance | src/Dual_camera.cpp:47-56 | `max(min_rad + (d − min_rad)·(1 + dtc), 0.1)`: at least 0.1, at least the slid value, and one of the two |
| Camera.SlideKeepsOutside | src/Dual_camera.cpp:51-53 | from d ≥ min_rad with dtc ≥ −1, the distance stays ≥ min_rad |
| Camera.SlideMonotone | src/Dual_camera.cpp:51-53 | the result is monotone in dtc |
| Camera.SlideByZero | src/Dual_camera.cpp:51-53 | dtc = 0 gives `max(d, 0.1)` |
| Camera.TrackballThreshold | src/Dual_camera.cpp:83-84 | `‖p1 − p0‖ > 0.01` exactly when `‖p1 − p0‖² > 0.0001` |
| Camera.Damped | src/Dual_camera.cpp:109-112 | the damped trackball velocity is zero when the decayed vector is shorter than 0.00001, and the decayed vector otherwise |
| Camera.DualCamera.constructor | src/Dual_camera.h:53-66 | the current camera is the centered one, dp = 0, `min_rad` = 0, inertia = 1, `last_inertia` = 0; the state is consistent exactly when the initial mode is CENTERED |
| Camera.DualCamera.GetMode | src/Dual_camera.h:28 | returns the stored mode |
| Camera.DualCamera.Position | src/Dual_camera.cpp:29-32 | `position()` of the current camera, with no contract of its own; SwitchToCentered, SwitchToFree and LookAt state how it changes |
| Camera.DualCamera.Orientation | src/Dual_camera.cpp:34-37 | `orientation()` of the current camera, with no contract of its own; SwitchToFree states that switching keeps it |
| Camera.DualCamera.SwitchToCentered | src/Dual_camera.cpp:3-13 | a no-op in CENTERED; otherwise the orbit camera looks from the free position, and the mode and current camera become CENTERED; the position is kept under `LookAtLaw` |
| Camera.DualCamera.SwitchToFree | src/Dual_camera.cpp:15-37 | a no-op in FREE; otherwise the free camera copies the centered pose and the mode becomes FREE; `position()` and `orientation()` are unchanged |
| Camera.DualCamera.SetCenterOfRotation | src/Dual_camera.cpp:39-45 | sets `min_rad` and the center; the distance becomes `max(old, minrad + 0.1)` |
| Camera.DualCamera.SlideDistanceToCenter | src/Dual_camera.cpp:47-56 | in CENTERED, the slid and clamped distance followed by the library scaling; in FREE only the scaling |
| Camera.DualCamera.SetDistanceToCenter | src/Dual_camera.cpp:58-61 | assigns the distance unscaled |
| Camera.DualCamera.LookAt | src/Dual_camera.cpp:63-69 | the free camera takes the centered camera's resulting pose, and lands at the eye under `LookAtLaw` |
| Camera.DualCamera.RotateTrackball | src/Dual_camera.cpp:71-85 | always records `last_inertia = t`; overwrites dp only when `‖p1 − p0‖ > 0.01` |
| Camera.DualCamera.TranslatePosition | src/Dual_camera.cpp:87-92 | moves the free camera by p in FREE; nothing changes in CENTERED |
| Camera.DualCamera.Update | src/Dual_camera.cpp:99-119 | with a moving trackball, dp is damped; without the left button the current camera turns by the trackball rotation from 0 to the damped dp and `last_inertia` becomes t, and with it nothing turns |
| Camera.DualCamera.SetMinRad | src/Dual_camera.h:44-47 | sets `min_rad` and makes the distance `max(old, mr·1.1)` |
| SceneTree.Preorder | src/scene_initializer.hpp:370-375 | the order `draw_rec_` visits, with no contract of its own; TraversalSizes and PreorderChild state its length, contents and blocks |
| SceneTree.Postorder | src/scene_initializer.hpp:310-316 | the order `delete_rec` visits, with no contract of its own; TraversalSizes and PostorderChild state its length, contents and blocks |
| SceneTree.TraversalSizes | src/scene_initializer.hpp:310-375 | pre-order and post-order visit each node of the tree once, as the same multiset |
| SceneTree.TraversalSizesAll | src/scene_initializer.hpp:310-375 | the same for a sequence of subtrees |
| SceneTree.TraversalsSnoc | src/scene_initializer.hpp:370-375 | one more child appends its traversal |
| SceneTree.PreorderChild | src/scene_initializer.hpp:370-375 | `draw_rec_` draws the parent first, then child i's traversal as a contiguous block after children 0..i−1 |
| SceneTree.PostorderChild | src/scene_initializer.hpp:310-316 | `delete_rec` deletes the parent last, after child i's traversal, which sits after children 0..i−1 |
| SceneTree.PrefixTraversals | src/scene_initializer.hpp:370-375 | the traversal of the children splits at any child |
| SceneTree.FirstNamed | src/scene_initializer.hpp:357-368 | None exactly when no node of the sequence has the name; otherwise a node with that name |
| SceneTree.FirstNamedAppend | src/scene_initializer.hpp:362-366 | the first match in `a + b` is the first in a, else the first in b |
| SceneTree.Find | src/scene_initializer.hpp:357-368 | `get_object_rec_` on values, with no contract of its own; FindIsFirstInPreorder states that it is the first pre-order match |
| SceneTree.FindIsFirstInPreorder | src/scene_initializer.hpp:357-368 | `get_object_rec_` returns the first pre-order node with the name, so it is null exactly when no node has it |
| SceneTree.FindInIsFirst | src/scene_initializer.hpp:362-366 | the children loop returns the first match in the children's pre-order |
| SceneTree.GetObjectRec | src/scene_initializer.hpp:357-368 | the loop with early return yields `start` on a match, else the first match among the children |
| SceneTree.ClosestObjectRec | src/scene_initializer.hpp:292-306 | always returns its root argument p |
| SceneTree.ClosestObjectMissesNearerChild | src/scene_initializer.hpp:292-306 | a planet with a moon strictly nearer to the query point, for which the search still returns the planet |
| SceneTree.ClosestObject | src/scene_initializer.hpp:292-306 | the corrected search returns a node of the subtree at least as near to the point as every node of it |
| SceneTree.PickStepOver | src/scene_initializer.hpp:336-351 | merging a child's result keeps the search invariant |
| SceneTree.ClosestAngle | src/scene_initializer.hpp:326-355 | `closest_angle_rec` on values, with no contract of its own; ClosestAngleCorrect and ClosestAngleNone state what it picks and when it picks nothing |
| SceneTree.ClosestAngleCorrect | src/scene_initializer.hpp:326-355 | a non-null result is a node of the subtree that passes the angle test, returned with its distance, and is at least as near as every node of the subtree that passes it; a null result comes with the root's own distance |
| SceneTree.PickFoldOver | src/scene_initializer.hpp:336-351 | the children loop keeps the search invariant |
| SceneTree.ClosestAngleNone | src/scene_initializer.hpp:326-355 | the result is null exactly when no node of the subtree passes the angle test |
| SceneTree.ClosestAngleRec | src/scene_initializer.hpp:326-355 | the loop method's result and `dist_return` match `ClosestAngle` |
| SceneTree.Scene.constructor | src/scene_initializer.hpp:28-67 | an initializer with the given tree, no meshes, nothing drawn or deleted |
| SceneTree.Scene.AddMesh | src/scene_initializer.hpp:44-46 | stores m under name, overwriting, and leaves other names unchanged |
| SceneTree.Scene.GetObject | src/scene_initializer.hpp:28-30 | the first node of the tree with that name in pre-order |
| SceneTree.Scene.DrawRec | src/scene_initializer.hpp:370-375 | appends the subtree's pre-order to the draw log |
| SceneTree.Scene.Draw | src/scene_initializer.hpp:61-63 | draws the whole tree in pre-order |
| SceneTree.Scene.DeleteRec | src/scene_initializer.hpp:310-316 | appends the subtree's post-order to the delete log |
| SceneTree.Scene.KillInitializer | src/scene_initializer.hpp:65-67 | deletes the whole tree in post-order |

Notes on the code against its own intent:

- The all-pairs gate at `src/Simulator.h:183` is modelled as written. An
  object with a higher level attracts; so does an equal level with
  `attracts_similar`.
- When the energy is clamped (`src/Simulator.h:86-90`), the `continue` skips
  only the two corrections. The object still moves in the later position
  pass, as `Gravity.StepMovesEveryBody` states.
- `theta` in `generate_rand_position` is drawn from a normal distribution
  with mean 0 and deviation `depth / R` (`src/orbit_object_helper.hpp:79`).
  The model takes the draw as an input and does not assume a polar angle
  near π/2.

## Left out

- Floating point: all arithmetic is over reals, so float rounding, overflow, NaN and the `float`/`double` mix are not modelled.
- Elementary functions: `sqrt`, `sin`, `cos`, `acos`, `atan` and `exp` are parameters; only the laws a proof needs are assumed, as preconditions.
- Random draws: the generator, `rand_interval` and the normal distributions are inputs (`Belt.Draws`, `Belt.PositionDraw`); no probability is modelled. The global `generator` and `num_ast_mesh` are not state of the model.
- Belt.CreateBelt: the source's rejection loop is unbounded. The model takes a finite list of position draws and reports `complete = false` when they run out, so it does not model a loop that never ends.
- Belt.CreateBelt: `create_ast_mesh`, the mesh and the `Scene_initializer` copy are left out. `create_ast` is modelled as its field copies, and a new asteroid is taken to start with an empty name, no parent and no children (`Asteroid_Drawable` is not part of this model).
- Belt.CreateBelt: the debug output at `src/orbit_object_helper.hpp:126-129, 136` is left out.
- Belt.CreateBelt, Belt.Setup, Orbit.Period: require non-zero `parentmass` and period, where the source would divide by zero.
- Orbit.OrbitSpeed, Orbit.Position, Orbit.Speed, Orbit.TangentSpeed, Orbit.Angle, Orbit.CircularSpeed: require a non-zero `period`; the source divides by it in the angle and the speed and gets an infinity or NaN, which reals cannot represent.
- Orbit.InitOrbit, Orbit.InitOrbitCirc: require a non-zero `parent.period` and `parent.mass`, for the same division in the parent's position and in the period.
- Gravity.Simulator.SimulateFor, Gravity.Simulator.SimulateForIntended, Gravity.FullSteps, Gravity.Remainder, Gravity.Schedule, Gravity.RunSchedule: require a non-zero `timestep` (as do the corrected IntendedRemainder, IntendedSchedule and IntendedRunSchedule); the source would convert an infinite or NaN quotient to `int`, which has no defined result.
- `vcl::normalize(0)` is taken to return the zero vector, and `vcl::is_equal` is taken as exact equality; the vcl library is not part of this model.
- Gravity.Simulator.AddObject: requires the new object to be unregistered under any other name and to have positive mass. The source's pointer map allows aliases; the model's class invariant demands distinct objects with positive mass, which the energy correction divides by.
- Gravity.PotentialTo, Orbit.InitOrbitCirc: require distinct `from`/`to` (`obj`/`parent`) objects; the source's aliasing of the two is not modelled.
- Exceptions (`invalid_argument`, `runtime_error`, `call_error`) are `Err`/`Some(error)` results, and the state at the throw is modelled as the source leaves it.
- The debug output in `src/Simulator.h:87, 121, 150, 152` is left out.
- Camera.DualCamera.constructor: `mode` has no initialiser in the source, so the model takes the initial mode as a parameter (a zero-initialised global gets CENTERED).
- Camera: vcl's `look_at`, `trackball_rotation`, `inverse`, the quaternion product, `orbit position`, `head up` and `manipulator_scale_distance_to_center` are opaque functions in `Camera.Vcl`. `matrix_view_or_only` is left out, since it only returns a library matrix.
- Camera.DualCamera.SwitchToCentered: the promise that the switch does not move the camera is proved only under `LookAtLaw`, with a free position different from the center of rotation and a consistent mode. The orientation is whatever the library returns.
- Camera.DualCamera.Update: the exponential inertia decay is kept opaque (`exp` is a parameter); the default `dp_trackball` is taken to be the zero vector.
- SceneTree: nodes are values (`Node(id, name, children)`), so pointer identity and parent links are not modelled. `draw_obj` and `delete` are logged as sequences of the visited nodes.
- SceneTree.ClosestAngleRec: the angle test `angle < max(angle_min, angle_select)` and the distance are abstracted as the `Pick` parameters `hit` and `position`, with the distance being the norm.
- SceneTree: `get_texture`, `get_shader`, `get_mesh`, `load_texture`, `read_file` and the `Scene_initializer` constructor are left out; they are shader, file and texture I/O.
- `src/draw_helper.hpp`, `src/main.cpp` and `src/orbit_object.cpp` are not part of this model. The last is an older snapshot of the belt helpers.

## Findings

| source | as written | input that shows it | evidently intended | confidence | as-written member | corrected member |
|---|---|---|---|---|---|---|
| src/Simulator.h:171 | the last step is `timestep * n_timesteps - time`, which is never positive | `simulate(1.5, 1.0)` runs steps 1.0 and −0.5, covering 0.5 time units instead of 1.5 | the last step `time - timestep * n_timesteps`, so the steps cover `time` | not executed; high | Gravity.ScheduleRunsBackwards | Gravity.IntendedScheduleCoversTime |
| src/orbit_object.h:38 | `speed` returns `cos·v·axis2 + sin·v·axis1`, which is not the derivative of `position` | at angle π/4 the velocity has radial component `r·v ≠ 0` (`2·r·v·sin·cos`) | `cos·v·axis2 − sin·v·axis1`, tangent to the circle | not executed; high | Orbit.SpeedNotTangent | Orbit.TangentSpeedIsTangent |
| src/orbit_object_helper.hpp:112-114 | the special case tests only `axis == (1,0,0)` | the axis (−1,0,0) takes the else branch: `normalize((−1,0,0) × (1,0,0)) = normalize(0) = 0` | a diameter orthogonal to every non-zero axis | not executed; high | Belt.DiameterMissesMinusX | Belt.PerpendicularDiameterUnit |
| src/scene_initializer.hpp:299-300 | the running value is `min(mindist, d)`, which never exceeds `mindist`, so the replacing branch never runs | a planet with a moon nearer to the point: `closest_object_rec` returns the planet | the nearest node of the subtree, as the comment on `closest_object` says | not executed; high | SceneTree.ClosestObjectMissesNearerChild | SceneTree.ClosestObject |

Gravity.Simulator.SimulateFor keeps the source's schedule, and
Gravity.Simulator.SimulateForIntended runs the corrected one. Orbit.Speed and
Belt.Setup keep the as-written behaviour. Orbit.TangentSpeed and
Belt.PerpendicularDiameter are the corrected definitions.
SceneTree.ClosestObjectRec keeps the source's nearest-object search, which
always returns its root, and SceneTree.ClosestObject is the corrected search.
