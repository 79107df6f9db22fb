/** The two per-frame integrators of a sticker (src/App.tsx, the `useFrame`
    callback): the damped spring that pulls a dragged sticker toward its
    target and tilts it by its velocity, and the 5% relaxation of an idle
    sticker toward its resting pose. */
module Motion {
  import opened Vectors

  /** `Math.PI`; no proof depends on its value. */
  const PI: real

  /** Fraction of the offset to the target added to the velocity each frame. */
  const Stiffness: real := 0.05
  /** Factor the velocity is multiplied by after the acceleration is added. */
  const Damping: real := 0.75
  /** Radians of tilt per unit of spring velocity. */
  const TiltStrength: real := 5.0
  /** Height an idle sticker settles at, just above the floor. */
  const RestHeight: real := 0.01
  /** Interpolation factor of one idle frame. */
  const RestFactor: real := 0.05

  /** Position and velocity of a sticker under the spring. */
  datatype Spring = Spring(pos: Vec3, vel: Vec3)

  /** Position and Euler rotation of a sticker's mesh. */
  datatype Pose = Pose(pos: Vec3, rot: Vec3)

  /** One frame of the drag spring: the velocity gains 5% of the offset
      to the target, is then damped by 0.75, and the position moves by the
      new velocity. Stated against the offset `e = pos - target`, the step
      is the linear map `vel' = 0.75 vel - 0.0375 e`, `e' = 0.9625 e + 0.75 vel`. */
  function SpringStep(pos: Vec3, vel: Vec3, target: Vec3): (r: Spring)
    ensures r.vel == Sub(Scale(vel, 0.75), Scale(Sub(pos, target), 0.0375))
    ensures Sub(r.pos, target) == Add(Scale(Sub(pos, target), 0.9625), Scale(vel, 0.75))
    ensures Sub(r.pos, pos) == r.vel
  {
    var force := Sub(target, pos);
    var acceleration := Scale(force, Stiffness);
    var v := Scale(Add(vel, acceleration), Damping);
    Spring(Add(pos, v), v)
  }

  /** The mesh rotation a sticker at rest has: lying flat (a quarter turn
      about x) plus its own static rotation. */
  function BasePose(rotation: Vec3): Vec3 {
    Vec3(-PI / 2.0 + rotation.x, rotation.y, rotation.z)
  }

  /** The rotation of a dragged sticker: the base pose leaned forward by
      the z velocity and sideways against the x velocity. */
  function Tilt(rotation: Vec3, vel: Vec3): (r: Vec3)
    ensures Sub(r, BasePose(rotation)) == Vec3(TiltStrength * vel.z, 0.0, -TiltStrength * vel.x)
    ensures r == BasePose(rotation) <==> vel.x == 0.0 && vel.z == 0.0
  {
    Vec3(-PI / 2.0 + rotation.x + vel.z * TiltStrength,
         rotation.y,
         rotation.z - vel.x * TiltStrength)
  }

  /** The point an idle sticker relaxes toward: its stored x and z at the
      rest height. */
  function RestAnchor(position: Vec3): (r: Vec3)
    ensures r.x == position.x && r.z == position.z && r.y == RestHeight
  {
    Vec3(position.x, RestHeight, position.z)
  }

  /** One idle frame: the position moves 5% of the way to the rest anchor
      (`Vector3.lerp`) and each rotation angle 5% of the way to the base
      pose (`MathUtils.lerp`), so both offsets shrink to 0.95 of their size. */
  function RestStep(p: Pose, position: Vec3, rotation: Vec3): (r: Pose)
    ensures Sub(r.pos, RestAnchor(position)) == Scale(Sub(p.pos, RestAnchor(position)), 0.95)
    ensures Sub(r.rot, BasePose(rotation)) == Scale(Sub(p.rot, BasePose(rotation)), 0.95)
  {
    var base := BasePose(rotation);
    LerpOffset(p.pos, RestAnchor(position), RestFactor);
    LerpScalarOffset(p.rot.x, base.x, RestFactor);
    LerpScalarOffset(p.rot.y, base.y, RestFactor);
    LerpScalarOffset(p.rot.z, base.z, RestFactor);
    Pose(Lerp(p.pos, RestAnchor(position), RestFactor),
         Vec3(LerpScalar(p.rot.x, base.x, RestFactor),
              LerpScalar(p.rot.y, base.y, RestFactor),
              LerpScalar(p.rot.z, base.z, RestFactor)))
  }

  // ---------------------------------------------------------------------
  // Spring properties

  /** The velocity component one spring frame produces on one axis. */
  function AxisVel(p: real, v: real, t: real): real {
    (v + (t - p) * Stiffness) * Damping
  }

  /** The spring frame axis by axis: each component of the new velocity is
      `(v + (t - p) * Stiffness) * Damping` and the position moves by it. */
  lemma SpringAxes(pos: Vec3, vel: Vec3, target: Vec3)
    ensures SpringStep(pos, vel, target) == Spring(
              Vec3(pos.x + AxisVel(pos.x, vel.x, target.x),
                   pos.y + AxisVel(pos.y, vel.y, target.y),
                   pos.z + AxisVel(pos.z, vel.z, target.z)),
              Vec3(AxisVel(pos.x, vel.x, target.x),
                   AxisVel(pos.y, vel.y, target.y),
                   AxisVel(pos.z, vel.z, target.z)))
  {
  }

  /** From (0,1,0) at rest with the target at (5,1,0), one frame gives
      velocity (0.1875,0,0) and position (0.1875,1,0). */
  lemma SpringExample()
    ensures SpringStep(Vec3(0.0, 1.0, 0.0), Zero3, Vec3(5.0, 1.0, 0.0))
            == Spring(Vec3(0.1875, 1.0, 0.0), Vec3(0.1875, 0.0, 0.0))
  {
    SpringAxes(Vec3(0.0, 1.0, 0.0), Zero3, Vec3(5.0, 1.0, 0.0));
  }

  /** On one axis the spring leaves `(p, v)` alone exactly when `p == t`
      and `v == 0`. */
  lemma AxisFixedPoint(p: real, v: real, t: real)
    ensures (p + AxisVel(p, v, t) == p && AxisVel(p, v, t) == v) <==> (p == t && v == 0.0)
  {
  }

  /** A sticker sitting still on its target stays there, and that is the
      only state the spring leaves unchanged. */
  lemma SpringFixedPoint(pos: Vec3, vel: Vec3, target: Vec3)
    ensures SpringStep(pos, vel, target) == Spring(pos, vel) <==> pos == target && vel == Zero3
  {
    SpringAxes(pos, vel, target);
    AxisFixedPoint(pos.x, vel.x, target.x);
    AxisFixedPoint(pos.y, vel.y, target.y);
    AxisFixedPoint(pos.z, vel.z, target.z);
  }

  /** Per-axis energy of offset `e` and velocity `v`; the quadratic form
      `6e^2 + 34ev + 120v^2` is positive definite and the spring scales it
      by exactly 0.75 every frame. */
  function AxisEnergy(e: real, v: real): real {
    6.0 * e * e + 34.0 * e * v + 120.0 * v * v
  }

  /** Energy of a spring state relative to its target, summed over the axes. */
  function Energy(s: Spring, target: Vec3): real {
    var e := Sub(s.pos, target);
    AxisEnergy(e.x, s.vel.x) + AxisEnergy(e.y, s.vel.y) + AxisEnergy(e.z, s.vel.z)
  }

  lemma AxisEnergyContracts(e: real, v: real)
    ensures AxisEnergy(0.9625 * e + 0.75 * v, 0.75 * v - 0.0375 * e) == 0.75 * AxisEnergy(e, v)
  {
  }

  /** The energy bounds three times the squared offset plus squared velocity. */
  lemma AxisEnergyBound(e: real, v: real)
    ensures AxisEnergy(e, v) >= 3.0 * (e * e + v * v)
  {
    var w := 3.0 * e + 17.0 * v;
    assert 3.0 * AxisEnergy(e, v) - 9.0 * (e * e + v * v) == w * w + 62.0 * v * v;
    assert 0.0 <= w * w;
    assert 0.0 <= v * v;
  }

  /** One spring frame multiplies the energy by 0.75: the spring is stable
      whatever the starting offset and velocity. */
  lemma SpringEnergyContracts(s: Spring, target: Vec3)
    ensures Energy(SpringStep(s.pos, s.vel, target), target) == 0.75 * Energy(s, target)
  {
    var e := Sub(s.pos, target);
    AxisEnergyContracts(e.x, s.vel.x);
    AxisEnergyContracts(e.y, s.vel.y);
    AxisEnergyContracts(e.z, s.vel.z);
  }

  lemma EnergyBound(s: Spring, target: Vec3)
    ensures Energy(s, target) >= 3.0 * (SqLen(Sub(s.pos, target)) + SqLen(s.vel))
  {
    var e := Sub(s.pos, target);
    AxisEnergyBound(e.x, s.vel.x);
    AxisEnergyBound(e.y, s.vel.y);
    AxisEnergyBound(e.z, s.vel.z);
  }

  /** `n` spring frames toward a fixed target. */
  function SpringSteps(s: Spring, target: Vec3, n: nat): Spring
    decreases n
  {
    if n == 0 then s else SpringSteps(SpringStep(s.pos, s.vel, target), target, n - 1)
  }

  /** The energy after `n` frames toward a held target is `0.75^n` times
      the starting energy. */
  lemma {:induction false} SpringStepsEnergy(s: Spring, target: Vec3, n: nat)
    ensures Energy(SpringSteps(s, target, n), target) == Pow(0.75, n) * Energy(s, target)
    decreases n
  {
    if n > 0 {
      SpringStepsEnergy(s, target, n - 1);
      TraceEnergyStep(s, target, n);
      PowShift(0.75, n);
    }
  }

  /** Along the frames toward a held target, each frame scales the energy by 0.75. */
  lemma TraceEnergyStep(s: Spring, target: Vec3, n: nat)
    requires n > 0
    ensures Energy(SpringSteps(s, target, n), target) == 0.75 * Energy(SpringSteps(s, target, n - 1), target)
  {
    var q := SpringSteps(s, target, n - 1);
    SpringStepsLast(s, target, n - 1);
    SpringEnergyContracts(q, target);
  }

  /** `n + 1` frames are `n` frames followed by one more. */
  lemma {:induction false} SpringStepsLast(s: Spring, target: Vec3, n: nat)
    ensures SpringSteps(s, target, n + 1)
            == SpringStep(SpringSteps(s, target, n).pos, SpringSteps(s, target, n).vel, target)
    decreases n
  {
    if n > 0 {
      SpringStepsLast(SpringStep(s.pos, s.vel, target), target, n - 1);
    }
  }

  /** `b^n == b^(n-1) * b`, the form the induction steps need. */
  lemma PowShift(b: real, n: nat)
    requires n > 0
    ensures Pow(b, n) == Pow(b, n - 1) * b
  {
  }

  /** With the target held still, the squared offset and the squared
      velocity after `n` frames are at most `0.75^n` times a third of the
      starting energy, so the sticker converges on the target and its
      velocity on zero. */
  lemma SpringConverges(s: Spring, target: Vec3, n: nat)
    ensures SqLen(Sub(SpringSteps(s, target, n).pos, target)) + SqLen(SpringSteps(s, target, n).vel)
            <= Pow(0.75, n) * Energy(s, target) / 3.0
  {
    SpringStepsEnergy(s, target, n);
    EnergyBound(SpringSteps(s, target, n), target);
  }

  // ---------------------------------------------------------------------
  // Rest properties

  /** A sticker already in its resting pose stays there, and no other pose
      is left unchanged by an idle frame. */
  lemma RestFixedPoint(p: Pose, position: Vec3, rotation: Vec3)
    ensures RestStep(p, position, rotation) == p
            <==> p.pos == RestAnchor(position) && p.rot == BasePose(rotation)
  {
  }

  /** `n` idle frames. */
  function RestSteps(p: Pose, position: Vec3, rotation: Vec3, n: nat): Pose
    decreases n
  {
    if n == 0 then p else RestSteps(RestStep(p, position, rotation), position, rotation, n - 1)
  }

  /** After `n` idle frames both offsets are `0.95^n` times the starting ones. */
  lemma {:induction false} RestStepsGeometric(p: Pose, position: Vec3, rotation: Vec3, n: nat)
    ensures Sub(RestSteps(p, position, rotation, n).pos, RestAnchor(position))
            == Scale(Sub(p.pos, RestAnchor(position)), Pow(0.95, n))
    ensures Sub(RestSteps(p, position, rotation, n).rot, BasePose(rotation))
            == Scale(Sub(p.rot, BasePose(rotation)), Pow(0.95, n))
    decreases n
  {
    if n > 0 {
      RestStepsGeometric(RestStep(p, position, rotation), position, rotation, n - 1);
      PowShift(0.95, n);
      ScaleTwice(Sub(p.pos, RestAnchor(position)), 0.95, Pow(0.95, n - 1));
      ScaleTwice(Sub(p.rot, BasePose(rotation)), 0.95, Pow(0.95, n - 1));
    }
  }

  lemma ScaleTwice(a: Vec3, j: real, k: real)
    ensures Scale(Scale(a, j), k) == Scale(a, k * j)
  {
    assert a.x * j * k == a.x * (k * j);
    assert a.y * j * k == a.y * (k * j);
    assert a.z * j * k == a.z * (k * j);
  }

  /** Every component of `u` is at most `eps` times the same component of `w`. */
  predicate Within(u: Vec3, w: Vec3, eps: real) {
    && Abs(u.x) <= eps * Abs(w.x)
    && Abs(u.y) <= eps * Abs(w.y)
    && Abs(u.z) <= eps * Abs(w.z)
  }

  lemma ScaledWithin(w: Vec3, k: real, eps: real)
    requires 0.0 <= k < eps
    ensures Within(Scale(w, k), w, eps)
  {
    ScaledAbs(w.x, k, eps);
    ScaledAbs(w.y, k, eps);
    ScaledAbs(w.z, k, eps);
  }

  /** Convergence of an idle sticker: after any `n` frames with
      `0.95^n < eps`, every component of the position and rotation offset
      is at most `eps` times its starting size. */
  lemma RestWithin(p: Pose, position: Vec3, rotation: Vec3, n: nat, eps: real)
    requires Pow(0.95, n) < eps
    ensures Within(Sub(RestSteps(p, position, rotation, n).pos, RestAnchor(position)),
                   Sub(p.pos, RestAnchor(position)), eps)
    ensures Within(Sub(RestSteps(p, position, rotation, n).rot, BasePose(rotation)),
                   Sub(p.rot, BasePose(rotation)), eps)
  {
    PowNonNegative(0.95, n);
    RestStepsGeometric(p, position, rotation, n);
    ScaledWithin(Sub(p.pos, RestAnchor(position)), Pow(0.95, n), eps);
    ScaledWithin(Sub(p.rot, BasePose(rotation)), Pow(0.95, n), eps);
  }

  /** Such an `n` exists for every positive `eps`: `n * eps >= 19` is
      enough, so an idle sticker converges on its resting pose. */
  lemma RestConverges(p: Pose, position: Vec3, rotation: Vec3, n: nat, eps: real)
    requires 0.0 < eps
    requires (n as real) * eps >= 19.0
    ensures Pow(0.95, n) < eps
    ensures Within(Sub(RestSteps(p, position, rotation, n).pos, RestAnchor(position)),
                   Sub(p.pos, RestAnchor(position)), eps)
    ensures Within(Sub(RestSteps(p, position, rotation, n).rot, BasePose(rotation)),
                   Sub(p.rot, BasePose(rotation)), eps)
  {
    assert (n as real) * eps * (1.0 - 0.95) >= 0.95;
    PowBelow(0.95, eps, n);
    RestWithin(p, position, rotation, n, eps);
  }

  function Abs(x: real): real {
    if x < 0.0 then -x else x
  }

  lemma ScaledAbs(d: real, k: real, eps: real)
    requires 0.0 <= k < eps
    ensures Abs(d * k) <= eps * Abs(d)
  {
    assert Abs(d * k) == k * Abs(d);
    MulMonotone(Abs(d), k, eps);
  }
}
