/**
  `Dual_camera`: a camera that is either a camera turning around a center
  (CENTERED) or a free-flying head camera (FREE), with switches between the
  two that keep the visible pose.

  The two underlying cameras are library objects.  The model keeps the
  fields `Dual_camera` reads and writes (center, distance, position,
  orientation) and takes every library computation on them — the orbit
  camera's position, `look_at`, the trackball rotations, quaternion product
  and inverse, the distance scaling — as an uninterpreted function in `Vcl`.
 */
module Camera {
  import opened Maths
  import opened Vectors

  /** `camera_mode`. */
  datatype Mode = Centered | Free

  /** A rotation (a quaternion in the library); only compared and passed on here. */
  datatype Rotation = Rotation(x: real, y: real, z: real, w: real)

  /** `camera_around_center`: center of rotation, distance to it and orientation. */
  datatype OrbitCamera = OrbitCamera(center: Vec3, distance: real, orientation: Rotation)

  /** `camera_head`: position and orientation. */
  datatype HeadCamera = HeadCamera(position: Vec3, orientation: Rotation)

  /** Which of the two cameras `current_camera` points at. */
  datatype Current = AtCentered | AtFree

  /** The library operations the dual camera calls. */
  datatype Vcl = Vcl(
    orbitPosition: OrbitCamera -> Vec3,                      // camera_around_center::position
    lookAt: (OrbitCamera, Vec3, Vec3, Vec3) -> OrbitCamera,  // camera_around_center::look_at
    headUp: HeadCamera -> Vec3,                              // camera_head::up
    orbitTrackball: (OrbitCamera, Vec2, Vec2) -> OrbitCamera, // camera_around_center::manipulator_rotate_trackball
    trackball: (Vec2, Vec2) -> Rotation,                     // trackball_rotation
    compose: (Rotation, Rotation) -> Rotation,               // rotation product
    inverse: Rotation -> Rotation,                           // inverse
    scaleDistance: (OrbitCamera, real) -> OrbitCamera)       // manipulator_scale_distance_to_center

  /** `look_at(eye, center, up)` puts the orbit camera at `eye`. */
  ghost predicate LookAtLaw(lib: Vcl)
  {
    forall c, eye, center, up :: eye != center ==> lib.orbitPosition(lib.lookAt(c, eye, center, up)) == eye
  }

  /** The zero `vec2`. */
  const Still := Vec2(0.0, 0.0)

  /**
    The CENTERED-mode step of `slide_distance_to_center`, before the library
    scaling: the distance beyond `min_rad` is scaled by `1 + dtc`, and the result is kept at least `0.1`.
   */
  function SlideDistance(minRad: real, d: real, dtc: real): (r: real)
    ensures r >= 0.1 && r >= minRad + (d - minRad) * (1.0 + dtc)
    ensures r == 0.1 || r == minRad + (d - minRad) * (1.0 + dtc)
  {
    Max(minRad + (d - minRad) * (1.0 + dtc), 0.1)
  }

  /** A slide never takes a camera outside `min_rad` inside it, unless it shrinks by more than the whole gap. */
  lemma SlideKeepsOutside(minRad: real, d: real, dtc: real)
    requires d >= minRad && dtc >= -1.0
    ensures SlideDistance(minRad, d, dtc) >= minRad
  {
    ProductNonNegative(d - minRad, 1.0 + dtc);
  }

  /** Sliding by a larger amount never ends nearer, from outside `min_rad`. */
  lemma SlideMonotone(minRad: real, d: real, a: real, b: real)
    requires d >= minRad && a <= b
    ensures SlideDistance(minRad, d, a) <= SlideDistance(minRad, d, b)
  {
    ProductNonNegative(d - minRad, b - a);
    assert (d - minRad) * (1.0 + b) - (d - minRad) * (1.0 + a) == (d - minRad) * (b - a);
  }

  /** A slide by `0` only applies the `0.1` floor. */
  lemma SlideByZero(minRad: real, d: real)
    ensures SlideDistance(minRad, d, 0.0) == Max(d, 0.1)
  {
    assert (d - minRad) * (1.0 + 0.0) == d - minRad;
  }

  /** Under the square-root law, `norm(p1 - p0) > 0.01` is `|p1 - p0|^2 > 0.0001`. */
  lemma TrackballThreshold(e: Elementary, p0: Vec2, p1: Vec2)
    requires SqrtLaw(e.sqrt)
    ensures Norm2D(e, Sub2(p1, p0)) > 0.01 <==> SquaredNorm2D(Sub2(p1, p0)) > 0.0001
  {
    SqrtAbove(e, SquaredNorm2D(Sub2(p1, p0)), 0.01);
  }

  /**
    The inertia damping of `update`, before the trackball call: `dp_trackball` scaled by
    `exp(-(t - last_inertia) / inertia)`, and set to zero once shorter than
    `0.00001`.
   */
  function Damped(e: Elementary, dp: Vec2, elapsed: real, inertia: real): (r: Vec2)
    requires inertia != 0.0
    ensures r == Still || r == Scale2(e.exp(-elapsed / inertia), dp)
    ensures r == Still <== Norm2D(e, Scale2(e.exp(-elapsed / inertia), dp)) < 0.00001
    ensures Norm2D(e, Scale2(e.exp(-elapsed / inertia), dp)) >= 0.00001 ==> r == Scale2(e.exp(-elapsed / inertia), dp)
  {
    var s := Scale2(e.exp(-elapsed / inertia), dp);
    if Norm2D(e, s) < 0.00001 then Still else s
  }

  class DualCamera {
    var mode: Mode
    var centered: OrbitCamera
    var free: HeadCamera
    var current: Current
    var dpTrackball: Vec2
    var minRad: real
    /** `inertia` is never assigned after its initialiser. */
    const inertia: real := 1.0
    var lastInertia: real

    /** `current_camera` points at the camera that `mode` names. */
    ghost predicate Consistent()
      reads this
    {
      (mode == Centered) == (current == AtCentered)
    }

    /** `position()`: the position of the camera `current_camera` points at. */
    function Position(lib: Vcl): Vec3
      reads this
    {
      if current == AtCentered then lib.orbitPosition(centered) else free.position
    }

    /** `orientation()`: the orientation of the camera `current_camera` points at. */
    function Orientation(): Rotation
      reads this
    {
      if current == AtCentered then centered.orientation else free.orientation
    }

    /** The free camera stands where the orbit camera is, turned the same way. */
    ghost predicate Synchronised(lib: Vcl)
      reads this
    {
      free.position == lib.orbitPosition(centered) && free.orientation == centered.orientation
    }

    /**
      A new camera.  `mode` has no initialiser; `initial` is its starting value
      (a zero-initialised object starts CENTERED).  The two library cameras
      start as `orbit` and `head`.  `current_camera` points at the orbit camera
      whatever `mode` is, so the camera is consistent only when it starts CENTERED.
     */
    constructor (initial: Mode, orbit: OrbitCamera, head: HeadCamera)
      ensures mode == initial && centered == orbit && free == head && current == AtCentered
      ensures dpTrackball == Still && minRad == 0.0 && inertia == 1.0 && lastInertia == 0.0
      ensures Consistent() <==> initial == Centered
    {
      mode := initial;
      centered := orbit;
      free := head;
      current := AtCentered;
      dpTrackball := Still;
      minRad := 0.0;
      lastInertia := 0.0;
    }

    /** `getMode()`. */
    method GetMode() returns (m: Mode)
      ensures m == mode
    {
      m := mode;
    }

    /**
      `switch_to_centered()`: nothing happens in CENTERED mode; otherwise the
      orbit camera looks from the free camera's position at its own center
      with the free camera's up vector, and becomes current.  The position
      seen is kept when the library's `look_at` puts the camera at its eye.
     */
    method SwitchToCentered(lib: Vcl)
      modifies this
      ensures old(mode) == Centered ==>
        mode == old(mode) && centered == old(centered) && current == old(current)
      ensures old(mode) == Free ==>
        && centered == lib.lookAt(old(centered), old(free.position), old(centered.center), lib.headUp(old(free)))
        && current == AtCentered
      ensures mode == Centered
      ensures Consistent() <== old(Consistent())
      ensures free == old(free) && dpTrackball == old(dpTrackball) && minRad == old(minRad)
      ensures lastInertia == old(lastInertia)
      ensures old(Consistent()) && LookAtLaw(lib) && old(free.position) != old(centered.center) ==>
        Position(lib) == old(Position(lib))
    {
      if mode == Centered {
        return;
      }
      centered := lib.lookAt(centered, free.position, centered.center, lib.headUp(free));
      current := AtCentered;
      mode := Centered;
    }

    /**
      `switch_to_free()`: nothing happens in FREE mode; otherwise the free
      camera is put where the orbit camera is, turned the same way, and
      becomes current, so neither the position nor the orientation seen changes.
     */
    method SwitchToFree(lib: Vcl)
      modifies this
      ensures old(mode) == Free ==> mode == old(mode) && free == old(free) && current == old(current)
      ensures old(mode) == Centered ==> Synchronised(lib) && current == AtFree && mode == Free
      ensures centered == old(centered) && dpTrackball == old(dpTrackball) && minRad == old(minRad)
      ensures lastInertia == old(lastInertia)
      ensures old(Consistent()) ==> Consistent() && mode == Free
      ensures old(Consistent()) ==> Position(lib) == old(Position(lib)) && Orientation() == old(Orientation())
    {
      if mode == Free {
        return;
      }
      free := free.(position := lib.orbitPosition(centered), orientation := centered.orientation);
      current := AtFree;
      mode := Free;
    }

    /**
      `set_center_of_rotation(cor, minrad)`: records `minrad`, moves the
      orbit camera's center to `cor` and pushes its distance out to at least
      `minrad + 0.1`.
     */
    method SetCenterOfRotation(cor: Vec3, minrad: real)
      modifies this
      ensures minRad == minrad
      ensures centered == old(centered).(center := cor, distance := Max(old(centered.distance), minrad + 0.1))
      ensures centered.distance >= minrad + 0.1 && centered.distance >= old(centered.distance)
      ensures old(centered.distance) >= minrad + 0.1 ==> centered.distance == old(centered.distance)
      ensures mode == old(mode) && current == old(current) && free == old(free)
      ensures dpTrackball == old(dpTrackball) && lastInertia == old(lastInertia)
    {
      minRad := minrad;
      centered := centered.(distance := Max(centered.distance, minrad + 0.1));
      centered := centered.(center := cor);
    }

    /**
      `slide_distance_to_center(dtc)`: in CENTERED mode the distance is
      first slid past `min_rad` (`SlideDistance`); in both modes the library's
      distance scaling then runs.
     */
    method SlideDistanceToCenter(lib: Vcl, dtc: real)
      modifies this
      ensures old(mode) == Centered ==>
        centered == lib.scaleDistance(old(centered).(distance := SlideDistance(old(minRad), old(centered.distance), dtc)), dtc)
      ensures old(mode) == Free ==> centered == lib.scaleDistance(old(centered), dtc)
      ensures mode == old(mode) && current == old(current) && free == old(free) && minRad == old(minRad)
      ensures dpTrackball == old(dpTrackball) && lastInertia == old(lastInertia)
    {
      if mode == Centered {
        centered := centered.(distance := minRad + (centered.distance - minRad) * (1.0 + dtc));
        centered := centered.(distance := Max(centered.distance, 0.1));
      }
      centered := lib.scaleDistance(centered, dtc);
    }

    /** `set_distance_to_center(dtc)`: the distance is set to `dtc`, with no clamp and no scaling. */
    method SetDistanceToCenter(dtc: real)
      modifies this
      ensures centered == old(centered).(distance := dtc)
      ensures mode == old(mode) && current == old(current) && free == old(free) && minRad == old(minRad)
      ensures dpTrackball == old(dpTrackball) && lastInertia == old(lastInertia)
    {
      centered := centered.(distance := dtc);
    }

    /**
      `look_at(eye, center, up)`: the orbit camera looks at `center` from
      `eye`, and the free camera takes its pose, so both modes see the same.
     */
    method LookAt(lib: Vcl, eye: Vec3, center: Vec3, up: Vec3)
      modifies this
      ensures centered == lib.lookAt(old(centered), eye, center, up)
      ensures Synchronised(lib)
      ensures LookAtLaw(lib) && eye != center ==> free.position == eye
      ensures mode == old(mode) && current == old(current) && minRad == old(minRad)
      ensures dpTrackball == old(dpTrackball) && lastInertia == old(lastInertia)
    {
      centered := lib.lookAt(centered, eye, center, up);
      free := free.(position := lib.orbitPosition(centered));
      free := free.(orientation := centered.orientation);
    }

    /**
      `manipulator_rotate_trackball(p0, p1, t)`: records `t`, rotates the
      current camera, and keeps `p1 - p0` as the inertia step only when it is
      longer than `0.01`.
     */
    method RotateTrackball(lib: Vcl, e: Elementary, p0: Vec2, p1: Vec2, t: real)
      modifies this
      ensures lastInertia == t
      ensures old(mode) == Centered ==> centered == lib.orbitTrackball(old(centered), p0, p1) && free == old(free)
      ensures old(mode) == Free ==>
        && free == old(free).(orientation := lib.compose(old(free.orientation), lib.inverse(lib.trackball(p0, p1))))
        && centered == old(centered)
      ensures dpTrackball == if Norm2D(e, Sub2(p1, p0)) > 0.01 then Sub2(p1, p0) else old(dpTrackball)
      ensures mode == old(mode) && current == old(current) && minRad == old(minRad)
    {
      lastInertia := t;
      if mode == Centered {
        centered := lib.orbitTrackball(centered, p0, p1);
      } else {
        var r := lib.trackball(p0, p1);
        free := free.(orientation := lib.compose(free.orientation, lib.inverse(r)));
      }
      if Norm2D(e, Sub2(p1, p0)) > 0.01 {
        dpTrackball := Sub2(p1, p0);
      }
    }

    /** `translate_position(p)`: the free camera moves by `p` in FREE mode; nothing changes in CENTERED mode. */
    method TranslatePosition(p: Vec3)
      modifies this
      ensures old(mode) == Free ==> free == old(free).(position := Add(old(free.position), p))
      ensures old(mode) == Centered ==> free == old(free)
      ensures mode == old(mode) && current == old(current) && centered == old(centered) && minRad == old(minRad)
      ensures dpTrackball == old(dpTrackball) && lastInertia == old(lastInertia)
    {
      if mode == Free {
        free := free.(position := Add(free.position, p));
      }
    }

    /**
      `update(t, state)`: while an inertia step is stored it is damped (`Damped`), and
      when the left button is up the camera turns by it again through the
      trackball.  The damped step is what remains stored either way.
     */
    method Update(lib: Vcl, e: Elementary, t: real, mouseLeft: bool)
      modifies this
      ensures old(dpTrackball) == Still ==>
        dpTrackball == Still && lastInertia == old(lastInertia) && centered == old(centered) && free == old(free)
      ensures old(dpTrackball) != Still ==> dpTrackball == Damped(e, old(dpTrackball), t - old(lastInertia), inertia)
      ensures lastInertia == if old(dpTrackball) != Still && !mouseLeft then t else old(lastInertia)
      ensures old(dpTrackball) != Still && mouseLeft ==> centered == old(centered) && free == old(free)
      ensures old(dpTrackball) != Still && !mouseLeft && old(mode) == Centered ==>
        centered == lib.orbitTrackball(old(centered), Still, dpTrackball) && free == old(free)
      ensures old(dpTrackball) != Still && !mouseLeft && old(mode) == Free ==>
        && free == old(free).(orientation := lib.compose(old(free.orientation), lib.inverse(lib.trackball(Still, dpTrackball))))
        && centered == old(centered)
      ensures mode == old(mode) && current == old(current) && minRad == old(minRad)
    {
      if dpTrackball != Still {
        dpTrackball := Damped(e, dpTrackball, t - lastInertia, inertia);
        if !mouseLeft {
          ghost var damped := dpTrackball;
          assert Sub2(dpTrackball, Still) == dpTrackball;
          RotateTrackball(lib, e, Still, dpTrackball, t);
          assert dpTrackball == damped;
        }
      }
    }

    /**
      `set_min_rad(mr)`: records `mr` and pushes the orbit camera's distance
      out to at least `1.1 mr`, leaving a larger distance alone.
     */
    method SetMinRad(mr: real)
      modifies this
      ensures minRad == mr
      ensures centered == old(centered).(distance := Max(old(centered.distance), mr * 1.1))
      ensures centered.distance >= mr * 1.1 && centered.distance >= old(centered.distance)
      ensures old(centered.distance) >= mr * 1.1 ==> centered.distance == old(centered.distance)
      ensures mode == old(mode) && current == old(current) && free == old(free)
      ensures dpTrackball == old(dpTrackball) && lastInertia == old(lastInertia)
    {
      minRad := mr;
      centered := centered.(distance := Max(centered.distance, mr * 1.1));
    }
  }
}
