/** What the stepping does to the motion over many steps, for each field type: the
    exact closed form in a uniform electric field (and free drift when there is no
    field), the growth of the speed by the factor 1 + c² per step in a uniform magnetic
    field, and the exact conservation of angular momentum in the radial field. */
module Dynamics {
  import opened Fields
  import opened Integrator
  import opened Control

  /** n Euler-Cromer steps in a field that does not depend on the position. */
  function Iterate(s: ParticleState, f: FieldVector, dt: real, n: nat): (t: ParticleState)
    requires s.m != 0.0
    ensures t.q == s.q && t.m == s.m
    decreases n
  {
    if n == 0 then s else EulerCromer(Iterate(s, f, dt, n - 1), f, dt)
  }

  /** The field every position sees when the field type is not the radial one. */
  function UniformField(config: FieldConfig): (f: FieldVector)
    requires config.kind != RADIAL_E
    ensures forall x: real, y: real, pow: ThreeHalvesPower :: GetFields(x, y, config, pow) == f
  {
    if config.kind == UNIFORM_E then FieldVector(config.ex, config.ey, 0.0)
    else if config.kind == UNIFORM_B then FieldVector(0.0, 0.0, config.bz)
    else ZERO_FIELD
  }

  /** Away from the radial field the simulator's steps are Euler-Cromer steps in one
      fixed field. */
  lemma {:induction false} StepsInUniformField(mo: Motion, config: FieldConfig, pow: ThreeHalvesPower,
                                               dt: real, maxTrail: int, n: nat)
    requires mo.particle.m != 0.0 && config.kind != RADIAL_E
    ensures Steps(mo, config, pow, dt, maxTrail, n).particle == Iterate(mo.particle, UniformField(config), dt, n)
    decreases n
  {
    if n > 0 {
      StepsInUniformField(mo, config, pow, dt, maxTrail, n - 1);
    }
  }

  // Uniform electric field, and no field at all.

  /** The state after n steps under the constant acceleration a = (q/m)(Ex, Ey):
      v_n = v_0 + n·a·dt and p_n = p_0 + n·v_0·dt + a·dt²·n(n+1)/2 per coordinate. The
      position term is n(n+1)/2 rather than the exact motion's n²/2 because each step
      moves with the velocity after its kick. */
  function ElectricAfter(s: ParticleState, f: FieldVector, dt: real, n: nat): ParticleState
    requires s.m != 0.0
  {
    var ax, ay, k := s.q / s.m * f.ex, s.q / s.m * f.ey, n as real;
    ParticleState(s.q, s.m,
                  s.x + k * s.vx * dt + ax * dt * dt * (k * (k + 1.0) / 2.0),
                  s.y + k * s.vy * dt + ay * dt * dt * (k * (k + 1.0) / 2.0),
                  s.vx + k * ax * dt,
                  s.vy + k * ay * dt)
  }

  /** One kick-then-drift along one coordinate under a constant acceleration takes the
      closed form from n to n + 1 steps. */
  lemma KickDriftClosedForm(p: real, v: real, a: real, dt: real, k: real, k1: real)
    requires k1 == k + 1.0
    ensures v + k * a * dt + a * dt == v + k1 * a * dt
    ensures p + k * v * dt + a * dt * dt * (k * (k + 1.0) / 2.0) + (v + k1 * a * dt) * dt
            == p + k1 * v * dt + a * dt * dt * (k1 * (k1 + 1.0) / 2.0)
  {
    assert k * (k + 1.0) / 2.0 + k1 == k1 * (k1 + 1.0) / 2.0;
  }

  lemma ElectricStep(s: ParticleState, f: FieldVector, dt: real, n: nat)
    requires s.m != 0.0 && f.bz == 0.0
    ensures EulerCromer(ElectricAfter(s, f, dt, n), f, dt) == ElectricAfter(s, f, dt, n + 1)
  {
    var p := ElectricAfter(s, f, dt, n);
    ElectricKick(p, f, dt, s.q / s.m);
    KickedAfter(s, f, dt, n, EulerCromer(p, f, dt));
  }

  /** A kick by (q/m)·E·dt from the closed form at n steps, then a drift with the kicked
      velocity, is the closed form at n + 1 steps. */
  lemma KickedAfter(s: ParticleState, f: FieldVector, dt: real, n: nat, t: ParticleState)
    requires s.m != 0.0
    requires var p, qm := ElectricAfter(s, f, dt, n), s.q / s.m;
             && t.q == s.q && t.m == s.m
             && t.vx == p.vx + qm * f.ex * dt && t.vy == p.vy + qm * f.ey * dt
             && t.x == p.x + t.vx * dt && t.y == p.y + t.vy * dt
    ensures t == ElectricAfter(s, f, dt, n + 1)
  {
    var qm := s.q / s.m;
    KickDriftClosedForm(s.x, s.vx, qm * f.ex, dt, n as real, (n + 1) as real);
    KickDriftClosedForm(s.y, s.vy, qm * f.ey, dt, n as real, (n + 1) as real);
  }

  /** n steps in a field without a magnetic part follow the closed form exactly. */
  lemma {:induction false} ElectricClosedForm(s: ParticleState, f: FieldVector, dt: real, n: nat)
    requires s.m != 0.0 && f.bz == 0.0
    ensures Iterate(s, f, dt, n) == ElectricAfter(s, f, dt, n)
    decreases n
  {
    if n > 0 {
      ElectricClosedForm(s, f, dt, n - 1);
      ElectricStep(s, f, dt, n - 1);
    }
  }

  /** In the uniform electric field the simulator's n steps land on the closed form. */
  lemma UniformElectricSteps(mo: Motion, config: FieldConfig, pow: ThreeHalvesPower,
                             dt: real, maxTrail: int, n: nat)
    requires mo.particle.m != 0.0 && config.kind == UNIFORM_E
    ensures Steps(mo, config, pow, dt, maxTrail, n).particle
            == ElectricAfter(mo.particle, FieldVector(config.ex, config.ey, 0.0), dt, n)
  {
    StepsInUniformField(mo, config, pow, dt, maxTrail, n);
    ElectricClosedForm(mo.particle, UniformField(config), dt, n);
  }

  /** With no field at all the closed form is a straight line at constant velocity,
      n·v·dt from the start. */
  lemma NoFieldNoAcceleration(s: ParticleState, dt: real, n: nat)
    requires s.m != 0.0
    ensures var k := n as real;
            ElectricAfter(s, ZERO_FIELD, dt, n) == ParticleState(s.q, s.m, s.x + k * s.vx * dt, s.y + k * s.vy * dt, s.vx, s.vy)
  {
    var t, a, k := ElectricAfter(s, ZERO_FIELD, dt, n), s.q / s.m * ZERO_FIELD.ex, n as real;
    assert a == 0.0;
    assert t.vx == s.vx + k * a * dt == s.vx;
    assert t.x == s.x + k * s.vx * dt + a * dt * dt * (k * (k + 1.0) / 2.0) == s.x + k * s.vx * dt;
    assert t.vy == s.vy && t.y == s.y + k * s.vy * dt;
  }

  /** With an unknown field type the simulator's n steps land on the closed form with
      no acceleration. */
  lemma UnknownFieldSteps(mo: Motion, config: FieldConfig, pow: ThreeHalvesPower,
                          dt: real, maxTrail: int, n: nat)
    requires mo.particle.m != 0.0 && !IsKnownKind(config.kind)
    ensures Steps(mo, config, pow, dt, maxTrail, n).particle == ElectricAfter(mo.particle, ZERO_FIELD, dt, n)
  {
    StepsInUniformField(mo, config, pow, dt, maxTrail, n);
    ElectricClosedForm(mo.particle, ZERO_FIELD, dt, n);
  }

  // Uniform magnetic field.

  /** The purely magnetic field (0, 0, Bz). */
  function MagneticField(bz: real): FieldVector {
    FieldVector(0.0, 0.0, bz)
  }

  /** In the uniform magnetic field the simulator's steps are Euler-Cromer steps in
      (0, 0, Bz). */
  lemma UniformMagneticField(mo: Motion, config: FieldConfig, pow: ThreeHalvesPower,
                             dt: real, maxTrail: int, n: nat)
    requires mo.particle.m != 0.0 && config.kind == UNIFORM_B
    ensures Steps(mo, config, pow, dt, maxTrail, n).particle
            == Iterate(mo.particle, MagneticField(config.bz), dt, n)
  {
    StepsInUniformField(mo, config, pow, dt, maxTrail, n);
  }

  /** Every step in the magnetic field (0, 0, Bz) multiplies the squared speed by
      1 + c², c = (q/m)·Bz·dt with the initial charge and mass, which never change. */
  lemma MagneticIterateStep(s: ParticleState, bz: real, dt: real, n: nat, c: real)
    requires s.m != 0.0 && n >= 1
    requires c == s.q / s.m * bz * dt
    ensures SpeedSquared(Iterate(s, MagneticField(bz), dt, n))
            == (1.0 + c * c) * SpeedSquared(Iterate(s, MagneticField(bz), dt, n - 1))
  {
    MagneticStepScalesSpeed(Iterate(s, MagneticField(bz), dt, n - 1), MagneticField(bz), dt, c);
  }

  /** So the speed in the magnetic field never drops below the initial speed, however
      many steps are taken. By MagneticIterateStep it grows at every step by the factor
      1 + c² > 1 when the particle is moving and c = (q/m)·Bz·dt != 0, instead of
      staying constant as in the exact circular motion; a particle at rest stays at
      rest. */
  lemma {:induction false} MagneticSpeedNeverDecreases(s: ParticleState, bz: real, dt: real, n: nat)
    requires s.m != 0.0
    ensures SpeedSquared(Iterate(s, MagneticField(bz), dt, n)) >= SpeedSquared(s)
    decreases n
  {
    if n > 0 {
      MagneticSpeedNeverDecreases(s, bz, dt, n - 1);
      MagneticStepNeverSlows(Iterate(s, MagneticField(bz), dt, n - 1), MagneticField(bz), dt);
    }
  }

  // Radial field.

  /** A simulator step moves the particle by one Euler-Cromer step in the field at its
      pre-step position. */
  lemma StepIsEulerCromer(mo: Motion, config: FieldConfig, pow: ThreeHalvesPower, dt: real, maxTrail: int)
    requires mo.particle.m != 0.0
    ensures Step(mo, config, pow, dt, maxTrail).particle
            == EulerCromer(mo.particle, GetFields(mo.particle.x, mo.particle.y, config, pow), dt)
  {
  }

  /** An Euler-Cromer step in the radial field keeps the angular momentum: the field at
      the pre-step position is central. */
  lemma RadialFieldKeepsAngularMomentum(s: ParticleState, config: FieldConfig, pow: ThreeHalvesPower, dt: real)
    requires s.m != 0.0 && config.kind == RADIAL_E
    ensures AngularMomentum(EulerCromer(s, GetFields(s.x, s.y, config, pow), dt)) == AngularMomentum(s)
  {
    RadialFieldIsCentral(s.x, s.y, config, pow);
    CentralStepKeepsAngularMomentum(s, GetFields(s.x, s.y, config, pow), dt);
  }

  lemma RadialStepKeepsAngularMomentum(mo: Motion, config: FieldConfig, pow: ThreeHalvesPower,
                                       dt: real, maxTrail: int)
    requires mo.particle.m != 0.0 && config.kind == RADIAL_E
    ensures AngularMomentum(Step(mo, config, pow, dt, maxTrail).particle) == AngularMomentum(mo.particle)
  {
    StepIsEulerCromer(mo, config, pow, dt, maxTrail);
    RadialFieldKeepsAngularMomentum(mo.particle, config, pow, dt);
  }

  /** Any number of steps in the radial field keep the angular momentum x·vy − y·vx
      exactly. */
  lemma {:induction false} RadialStepsKeepAngularMomentum(mo: Motion, config: FieldConfig, pow: ThreeHalvesPower,
                                                          dt: real, maxTrail: int, n: nat)
    requires mo.particle.m != 0.0 && config.kind == RADIAL_E
    ensures AngularMomentum(Steps(mo, config, pow, dt, maxTrail, n).particle) == AngularMomentum(mo.particle)
    decreases n
  {
    if n > 0 {
      RadialStepsKeepAngularMomentum(mo, config, pow, dt, maxTrail, n - 1);
      RadialStepKeepsAngularMomentum(Steps(mo, config, pow, dt, maxTrail, n - 1), config, pow, dt, maxTrail);
    }
  }
}
