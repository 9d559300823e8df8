/** One integration step of a charged particle in the plane under the Lorentz force,
    F = q (E + v × B) with B perpendicular to the plane, by the Euler-Cromer
    (semi-implicit Euler) scheme. */
module Integrator {
  import opened Fields

  /** Charge, mass, position and velocity of the particle. */
  datatype ParticleState = ParticleState(q: real, m: real, x: real, y: real, vx: real, vy: real)

  datatype Vec3 = Vec3(x: real, y: real, z: real)

  function Add(a: Vec3, b: Vec3): Vec3 {
    Vec3(a.x + b.x, a.y + b.y, a.z + b.z)
  }

  function Scale(k: real, a: Vec3): Vec3 {
    Vec3(k * a.x, k * a.y, k * a.z)
  }

  function Cross(a: Vec3, b: Vec3): Vec3 {
    Vec3(a.y * b.z - a.z * b.y, a.z * b.x - a.x * b.z, a.x * b.y - a.y * b.x)
  }

  /** The Lorentz force q (E + v × B) in three dimensions, with the particle's velocity
      and the electric field in the plane and the magnetic field along z. */
  function LorentzForce(s: ParticleState, f: FieldVector): Vec3 {
    Scale(s.q, Add(Vec3(f.ex, f.ey, 0.0), Cross(Vec3(s.vx, s.vy, 0.0), Vec3(0.0, 0.0, f.bz))))
  }

  /** In-plane acceleration. */
  datatype Accel = Accel(ax: real, ay: real)

  /** The acceleration (q/m)(E + v × B) the Lorentz force gives the particle: mass
      times acceleration is q (Ex + vy·Bz, Ey − vx·Bz). */
  function Acceleration(s: ParticleState, f: FieldVector): (a: Accel)
    requires s.m != 0.0
    ensures s.m * a.ax == s.q * (f.ex + s.vy * f.bz)
    ensures s.m * a.ay == s.q * (f.ey - s.vx * f.bz)
  {
    var qm := s.q / s.m;
    assert s.m * qm == s.q;
    assert s.m * (qm * (f.ex + s.vy * f.bz)) == (s.m * qm) * (f.ex + s.vy * f.bz);
    assert s.m * (qm * (f.ey - s.vx * f.bz)) == (s.m * qm) * (f.ey - s.vx * f.bz);
    Accel(qm * (f.ex + s.vy * f.bz), qm * (f.ey - s.vx * f.bz))
  }

  /** Newton's second law for the step's acceleration: mass times acceleration is the
      Lorentz force, whose z part vanishes, so the motion stays in the plane. */
  lemma AccelerationIsLorentzForce(s: ParticleState, f: FieldVector)
    requires s.m != 0.0
    ensures var a, force := Acceleration(s, f), LorentzForce(s, f);
            s.m * a.ax == force.x && s.m * a.ay == force.y && force.z == 0.0
  {
  }

  /** With no electric field the acceleration is perpendicular to the velocity the
      particle had when it was computed: the magnetic force does no work. */
  lemma MagneticAccelerationIsPerpendicular(s: ParticleState, f: FieldVector)
    requires s.m != 0.0 && f.ex == 0.0 && f.ey == 0.0
    ensures var a := Acceleration(s, f);
            a.ax * s.vx + a.ay * s.vy == 0.0
  {
  }

  /** One Euler-Cromer step of size dt in the field f seen at the pre-step position.
      Charge and mass do not change; the velocity is kicked by a·dt with the
      acceleration a of the pre-step state, then the position drifts by the UPDATED
      velocity times dt. */
  function EulerCromer(s: ParticleState, f: FieldVector, dt: real): (t: ParticleState)
    requires s.m != 0.0
    ensures t.q == s.q && t.m == s.m
    ensures t.vx - s.vx == Acceleration(s, f).ax * dt && t.vy - s.vy == Acceleration(s, f).ay * dt
    ensures t.x - s.x == t.vx * dt && t.y - s.y == t.vy * dt
  {
    var a := Acceleration(s, f);
    var vx := s.vx + a.ax * dt;
    var vy := s.vy + a.ay * dt;
    ParticleState(s.q, s.m, s.x + vx * dt, s.y + vy * dt, vx, vy)
  }

  /** Reference: the explicit Euler step, which moves the position by the velocity
      held before the step. */
  function ExplicitEuler(s: ParticleState, f: FieldVector, dt: real): ParticleState
    requires s.m != 0.0
  {
    var a := Acceleration(s, f);
    ParticleState(s.q, s.m, s.x + s.vx * dt, s.y + s.vy * dt, s.vx + a.ax * dt, s.vy + a.ay * dt)
  }

  /** Euler-Cromer and explicit Euler agree on the new velocity, and Euler-Cromer's
      position is ahead of explicit Euler's by exactly a·dt²: the position uses the
      velocity after the kick, not before. */
  lemma EulerCromerVersusExplicitEuler(s: ParticleState, f: FieldVector, dt: real)
    requires s.m != 0.0
    ensures var t, e, a := EulerCromer(s, f, dt), ExplicitEuler(s, f, dt), Acceleration(s, f);
            && t.vx == e.vx && t.vy == e.vy
            && t.x == e.x + a.ax * dt * dt
            && t.y == e.y + a.ay * dt * dt
  {
  }

  function SpeedSquared(s: ParticleState): real {
    s.vx * s.vx + s.vy * s.vy
  }

  /** Angular momentum per unit mass about the origin, x·vy − y·vx. */
  function AngularMomentum(s: ParticleState): real {
    s.x * s.vy - s.y * s.vx
  }

  /** In a purely magnetic field one step multiplies the squared speed by 1 + c², where
      c = (q/m)·Bz·dt is the rotation the step applies: the velocity update is a
      rotation scaled up, not a pure rotation, so the speed is not conserved. */
  lemma MagneticStepScalesSpeed(s: ParticleState, f: FieldVector, dt: real, c: real)
    requires s.m != 0.0 && f.ex == 0.0 && f.ey == 0.0
    requires c == s.q / s.m * f.bz * dt
    ensures SpeedSquared(EulerCromer(s, f, dt)) == (1.0 + c * c) * SpeedSquared(s)
  {
    var t := EulerCromer(s, f, dt);
    assert t.vx == s.vx + c * s.vy;
    assert t.vy == s.vy - c * s.vx;
  }

  /** Consequently one step in a purely magnetic field never slows the particle down. */
  lemma MagneticStepNeverSlows(s: ParticleState, f: FieldVector, dt: real)
    requires s.m != 0.0 && f.ex == 0.0 && f.ey == 0.0
    ensures SpeedSquared(EulerCromer(s, f, dt)) >= SpeedSquared(s)
  {
    var c := s.q / s.m * f.bz * dt;
    MagneticStepScalesSpeed(s, f, dt, c);
    SquareSign(c);
    SquareSign(s.vx);
    SquareSign(s.vy);
    GrowthNotBelow(c * c, SpeedSquared(s));
  }

  /** Multiplying a non-negative quantity by 1 + g with g >= 0 never makes it smaller. */
  lemma GrowthNotBelow(g: real, y: real)
    requires g >= 0.0 && y >= 0.0
    ensures (1.0 + g) * y >= y
  {
    assert (1.0 + g) * y == y + g * y;
  }

  /** In a field with no magnetic part that is parallel to the position vector, one step
      keeps the angular momentum exactly: the kick is along the position vector and the
      drift is along the new velocity, and neither changes x·vy − y·vx. */
  lemma CentralStepKeepsAngularMomentum(s: ParticleState, f: FieldVector, dt: real)
    requires s.m != 0.0 && IsCentral(f, s.x, s.y)
    ensures AngularMomentum(EulerCromer(s, f, dt)) == AngularMomentum(s)
  {
    var t, qm := EulerCromer(s, f, dt), s.q / s.m;
    ElectricKick(s, f, dt, qm);
    KickThenDriftMoment(s.x, s.y, s.vx, s.vy, t.x, t.y, t.vx, t.vy, f.ex, f.ey, qm * dt, dt);
  }

  /** Without a magnetic part the kick is dt times the acceleration (q/m)·(Ex, Ey). */
  lemma ElectricKick(s: ParticleState, f: FieldVector, dt: real, qm: real)
    requires s.m != 0.0 && f.bz == 0.0 && qm == s.q / s.m
    ensures var t := EulerCromer(s, f, dt);
            && t.vx == s.vx + qm * f.ex * dt && t.vy == s.vy + qm * f.ey * dt
            && t.x == s.x + t.vx * dt && t.y == s.y + t.vy * dt
  {
    var a := Acceleration(s, f);
    assert a.ax == qm * f.ex && a.ay == qm * f.ey;
  }

  /** A kick by h·(ex, ey) parallel to (x, y), then a drift along the new velocity,
      leaves x·vy − y·vx unchanged. */
  lemma KickThenDriftMoment(x: real, y: real, vx: real, vy: real,
                            x1: real, y1: real, vx1: real, vy1: real,
                            ex: real, ey: real, h: real, dt: real)
    requires ex * y == ey * x
    requires vx1 == vx + h * ex && vy1 == vy + h * ey
    requires x1 == x + vx1 * dt && y1 == y + vy1 * dt
    ensures x1 * vy1 - y1 * vx1 == x * vy - y * vx
  {
    assert x1 * vy1 - y1 * vx1 == x * vy1 - y * vx1;
    assert x * vy1 - y * vx1 == x * vy - y * vx + h * (x * ey - y * ex);
  }
}
