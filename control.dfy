/** The simulator's state and what each operation does to it, as values: set-up from
    the form, one physics step, a frame of fixed steps, and the start / stop / reset
    controls. The Simulation module's class is proved to follow these functions. */
module Control {
  import opened Fields
  import opened Integrator
  import opened Trail

  /** Physics steps per animation frame. */
  const SIM_STEPS_PER_FRAME: nat := 10
  /** Fixed time step of the integrator. */
  const DT: real := 0.005

  /** The values of the form inputs read at set-up, already parsed. */
  datatype Inputs = Inputs(charge: real, mass: real, x0: real, y0: real, vx0: real, vy0: real,
                           fieldType: string, ex: real, ey: real, bz: real, kq: real)

  /** The moving part of the state: the particle and its trail. */
  datatype Motion = Motion(particle: ParticleState, history: seq<Point>)

  /** The simulator's state: particle and trail, the field configuration, whether an
      animation frame is requested (the animation handle is set) and the time stamp of
      the last frame. */
  datatype Machine = Machine(motion: Motion, config: FieldConfig, running: bool, lastTime: real)

  function Position(s: ParticleState): Point {
    Point(s.x, s.y)
  }

  function InitialParticle(form: Inputs): ParticleState {
    ParticleState(form.charge, form.mass, form.x0, form.y0, form.vx0, form.vy0)
  }

  function ConfigOf(form: Inputs): FieldConfig {
    FieldConfig(form.fieldType, form.ex, form.ey, form.bz, form.kq)
  }

  /** Set-up: a new particle and field configuration from the form, and a trail that
      holds exactly the particle's initial position. Nothing of the previous particle,
      trail or configuration survives; the run flag and time stamp are untouched. */
  function SetUp(mc: Machine, form: Inputs): (r: Machine)
    ensures r.motion.particle == InitialParticle(form) && r.config == ConfigOf(form)
    ensures r.motion.history == [Position(r.motion.particle)]
    ensures r.running == mc.running && r.lastTime == mc.lastTime
  {
    var p := InitialParticle(form);
    mc.(motion := Motion(p, [Point(p.x, p.y)]), config := ConfigOf(form))
  }

  /** Stop: the animation is no longer requested; nothing else changes. */
  function Stop(mc: Machine): (r: Machine)
    ensures !r.running
    ensures r.(running := mc.running) == mc
  {
    if mc.running then mc.(running := false) else mc
  }

  /** Reset: stop, then set up afresh from the form. */
  function Reset(mc: Machine, form: Inputs): (r: Machine)
    ensures !r.running && r.lastTime == mc.lastTime
    ensures r.motion.particle == InitialParticle(form) && r.config == ConfigOf(form)
    ensures r.motion.history == [Position(r.motion.particle)]
  {
    SetUp(Stop(mc), form)
  }

  /** Start: stop a running animation, always set up afresh from the form, record the
      start time and request frames. There is no resuming of a previous run. */
  function Start(mc: Machine, form: Inputs, now: real): (r: Machine)
    ensures r.running && r.lastTime == now
    ensures r.motion.particle == InitialParticle(form) && r.config == ConfigOf(form)
    ensures r.motion.history == [Position(r.motion.particle)]
  {
    var stopped := if mc.running then Stop(mc) else mc;
    SetUp(stopped, form).(lastTime := now, running := true)
  }

  /** One physics step: the particle takes an Euler-Cromer step in the field at its
      pre-step position, and the new position is pushed onto the bounded trail, which
      then holds min(|old| + 1, bound) entries and ends with it whenever the trail
      length is at least one. */
  function Step(mo: Motion, config: FieldConfig, pow: ThreeHalvesPower, dt: real, maxTrail: int): (r: Motion)
    requires mo.particle.m != 0.0
    ensures r.particle.q == mo.particle.q && r.particle.m == mo.particle.m
    ensures |r.history| == if |mo.history| + 1 <= TrailBound(maxTrail) then |mo.history| + 1 else TrailBound(maxTrail)
    ensures IsSuffix(r.history, mo.history + [Position(r.particle)])
    ensures maxTrail >= 1 ==> |r.history| >= 1 && r.history[|r.history| - 1] == Position(r.particle)
  {
    var p := EulerCromer(mo.particle, GetFields(mo.particle.x, mo.particle.y, config, pow), dt);
    Motion(p, Pushed(mo.history, Position(p), maxTrail))
  }

  /** n steps in a row; charge and mass never change. */
  function Steps(mo: Motion, config: FieldConfig, pow: ThreeHalvesPower, dt: real, maxTrail: int, n: nat): (r: Motion)
    requires mo.particle.m != 0.0
    ensures r.particle.q == mo.particle.q && r.particle.m == mo.particle.m
    decreases n
  {
    if n == 0 then mo else Step(Steps(mo, config, pow, dt, maxTrail, n - 1), config, pow, dt, maxTrail)
  }

  /** One animation frame: request the next frame, record the time stamp, then take
      SIM_STEPS_PER_FRAME steps of the fixed size DT. The time elapsed since the last
      frame plays no part in the motion. */
  function Frame(mc: Machine, pow: ThreeHalvesPower, maxTrail: int, timestamp: real): (r: Machine)
    requires mc.motion.particle.m != 0.0
    ensures r.running && r.lastTime == timestamp && r.config == mc.config
  {
    mc.(running := true, lastTime := timestamp,
        motion := Steps(mc.motion, mc.config, pow, DT, maxTrail, SIM_STEPS_PER_FRAME))
  }

  /** The positions the particle reaches in the first n steps, in order. */
  function Visited(mo: Motion, config: FieldConfig, pow: ThreeHalvesPower, dt: real, maxTrail: int, n: nat): (ps: seq<Point>)
    requires mo.particle.m != 0.0
    ensures |ps| == n
    decreases n
  {
    if n == 0 then []
    else Visited(mo, config, pow, dt, maxTrail, n - 1) + [Position(Steps(mo, config, pow, dt, maxTrail, n).particle)]
  }

  /** After one step or more the trail is exactly the old trail followed by every
      position visited, in order, with the oldest entries dropped down to the trail
      length. The old trail is trimmed as well, even when it was longer than the trail
      length to begin with. */
  lemma {:induction false} TrailAfterSteps(mo: Motion, config: FieldConfig, pow: ThreeHalvesPower,
                                           dt: real, maxTrail: int, n: nat)
    requires mo.particle.m != 0.0 && n >= 1
    ensures Steps(mo, config, pow, dt, maxTrail, n).history
            == Trimmed(mo.history + Visited(mo, config, pow, dt, maxTrail, n), TrailBound(maxTrail))
    decreases n
  {
    var prev, cur := Steps(mo, config, pow, dt, maxTrail, n - 1), Steps(mo, config, pow, dt, maxTrail, n);
    var before, bound := mo.history + Visited(mo, config, pow, dt, maxTrail, n - 1), TrailBound(maxTrail);
    StepPushes(prev, config, pow, dt, maxTrail);
    assert cur.history == Trimmed(prev.history + [Position(cur.particle)], bound);
    if n == 1 {
      assert prev.history == before;
    } else {
      TrailAfterSteps(mo, config, pow, dt, maxTrail, n - 1);
      TrimBeforePush(before, Position(cur.particle), bound);
    }
    assert cur.history == Trimmed(before + [Position(cur.particle)], bound);
    VisitedGrows(mo, config, pow, dt, maxTrail, n);
  }

  /** A step pushes the particle's new position onto the trail and trims it. */
  lemma StepPushes(mo: Motion, config: FieldConfig, pow: ThreeHalvesPower, dt: real, maxTrail: int)
    requires mo.particle.m != 0.0
    ensures var r := Step(mo, config, pow, dt, maxTrail);
            r.history == Trimmed(mo.history + [Position(r.particle)], TrailBound(maxTrail))
  {
  }

  lemma VisitedGrows(mo: Motion, config: FieldConfig, pow: ThreeHalvesPower, dt: real, maxTrail: int, n: nat)
    requires mo.particle.m != 0.0 && n >= 1
    ensures mo.history + Visited(mo, config, pow, dt, maxTrail, n - 1) + [Position(Steps(mo, config, pow, dt, maxTrail, n).particle)]
            == mo.history + Visited(mo, config, pow, dt, maxTrail, n)
  {
  }

  /** After a frame the trail is exactly the last entries, as many as the trail length
      allows, of the old trail followed by the frame's SIM_STEPS_PER_FRAME positions; so
      it is within the trail length and ends at the particle's position (for a trail
      length of at least one). */
  lemma TrailAfterFrame(mc: Machine, pow: ThreeHalvesPower, maxTrail: int, timestamp: real)
    requires mc.motion.particle.m != 0.0
    ensures var r := Frame(mc, pow, maxTrail, timestamp).motion;
            && r.history == Trimmed(mc.motion.history + Visited(mc.motion, mc.config, pow, DT, maxTrail, SIM_STEPS_PER_FRAME),
                                    TrailBound(maxTrail))
            && |r.history| <= TrailBound(maxTrail)
            && (maxTrail >= 1 ==> |r.history| >= 1 && r.history[|r.history| - 1] == Position(r.particle))
  {
    TrailAfterSteps(mc.motion, mc.config, pow, DT, maxTrail, SIM_STEPS_PER_FRAME);
  }

  /** The motion a frame produces does not depend on when the previous frame ran. */
  lemma FrameIgnoresElapsedTime(mc: Machine, pow: ThreeHalvesPower, maxTrail: int,
                                lastTime1: real, lastTime2: real, timestamp: real)
    requires mc.motion.particle.m != 0.0
    ensures Frame(mc.(lastTime := lastTime1), pow, maxTrail, timestamp)
            == Frame(mc.(lastTime := lastTime2), pow, maxTrail, timestamp)
  {
  }

  /** Stopping twice is stopping once. */
  lemma StopIsIdempotent(mc: Machine)
    ensures Stop(Stop(mc)) == Stop(mc)
  {
  }

  /** Starting forgets the previous run entirely: two states started with the same form
      at the same time are identical, so a reset before a start changes nothing and
      a restart replays the same trajectory. */
  lemma StartForgetsPreviousRun(mc1: Machine, mc2: Machine, form: Inputs, now: real)
    ensures Start(mc1, form, now) == Start(mc2, form, now)
    ensures Start(Reset(mc1, form), form, now) == Start(mc1, form, now)
  {
  }
}
