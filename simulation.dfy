/** The simulator as the page runs it: the particle record whose fields the integrator
    updates in place, and the globals (field configuration, trail, animation flag, time
    stamp) that the controls and the animation loop reassign. Every method is proved
    to do to the state exactly what the matching function of the Control module says. */
module Simulation {
  import opened Fields
  import opened Integrator
  import opened Trail
  import opened Control

  /** The particle record: charge, mass, position and velocity. */
  class Particle {
    var q: real
    var m: real
    var x: real
    var y: real
    var vx: real
    var vy: real

    /** The record the set-up builds from the form's parsed values. */
    constructor (q: real, m: real, x: real, y: real, vx: real, vy: real)
      ensures State() == ParticleState(q, m, x, y, vx, vy)
    {
      this.q, this.m, this.x, this.y, this.vx, this.vy := q, m, x, y, vx, vy;
    }

    function State(): ParticleState
      reads this
    {
      ParticleState(q, m, x, y, vx, vy)
    }

    /** Steps 2 to 4 of `updateParticle`: the Lorentz acceleration in the field f, the
        velocity update, then the position update with the new velocity, in place. */
    method Advance(f: FieldVector, dt: real)
      requires m != 0.0
      modifies this
      ensures State() == EulerCromer(old(State()), f, dt)
    {
      ghost var t := EulerCromer(State(), f, dt);
      var a := Acceleration(State(), f);
      vx := vx + a.ax * dt;
      vy := vy + a.ay * dt;
      assert vx == t.vx && vy == t.vy;
      x := x + vx * dt;
      y := y + vy * dt;
      assert x == t.x && y == t.y;
    }
  }

  class Simulator {
    /** `Math.pow(·, 1.5)`, fixed for the life of the page. */
    const pow: ThreeHalvesPower
    var particle: Particle
    var fieldConfig: FieldConfig
    var history: seq<Point>
    /** Whether an animation frame is requested (the animation handle is set). */
    var running: bool
    var lastTime: real

    /** The state as a value. */
    function Model(): Machine
      reads this, particle
    {
      Machine(Motion(particle.State(), history), fieldConfig, running, lastTime)
    }

    /** Page load: nothing runs, the last time stamp is 0, and the simulation is reset
        from the form. */
    constructor Load(pow: ThreeHalvesPower, form: Inputs)
      ensures this.pow == pow
      ensures !running && lastTime == 0.0
      ensures particle.State() == InitialParticle(form) && fieldConfig == ConfigOf(form)
      ensures history == [Position(particle.State())]
    {
      this.pow := pow;
      var p := new Particle(form.charge, form.mass, form.x0, form.y0, form.vx0, form.vy0);
      particle := p;
      history := [];
      running := false;
      lastTime := 0.0;
      new;
      Reset(form);
    }

    /** `setupParticleAndField`: a new particle record, a trail holding only its
        position, and a new field configuration. */
    method SetUp(form: Inputs)
      modifies this
      ensures fresh(particle)
      ensures Model() == Control.SetUp(old(Model()), form)
    {
      particle := new Particle(form.charge, form.mass, form.x0, form.y0, form.vx0, form.vy0);
      history := [Point(particle.x, particle.y)];
      fieldConfig := FieldConfig(form.fieldType, form.ex, form.ey, form.bz, form.kq);
    }

    /** `stopSimulation`. */
    method Stop()
      modifies this
      ensures particle == old(particle)
      ensures Model() == Control.Stop(old(Model()))
    {
      if running {
        running := false;
      }
    }

    /** `resetSimulation`. */
    method Reset(form: Inputs)
      modifies this
      ensures fresh(particle)
      ensures Model() == Control.Reset(old(Model()), form)
    {
      Stop();
      SetUp(form);
    }

    /** `startSimulation`, with `now` the clock reading taken when it runs. */
    method Start(form: Inputs, now: real)
      modifies this
      ensures fresh(particle)
      ensures Model() == Control.Start(old(Model()), form, now)
    {
      if running {
        Stop();
      }
      SetUp(form);
      lastTime := now;
      running := true;
    }

    /** `updateParticle`: the Euler-Cromer step on the particle's fields in place, then
        the new position pushed onto the bounded trail. */
    method UpdateParticle(dt: real, maxTrail: int)
      requires particle.m != 0.0
      modifies this, particle
      ensures particle == old(particle)
      ensures Model() == old(Model()).(motion := Step(old(Model()).motion, fieldConfig, pow, dt, maxTrail))
    {
      var f := GetFields(particle.x, particle.y, fieldConfig, pow);
      particle.Advance(f, dt);
      PushPosition(Point(particle.x, particle.y), maxTrail);
    }

    /** Step 5 of `updateParticle`: push the position, then shift the oldest entry off
        while the trail is longer than the trail length. A negative trail length is
        treated as zero, so that the loop ends (see TrailBound). */
    method PushPosition(p: Point, maxTrail: int)
      modifies this
      ensures history == Pushed(old(history), p, maxTrail)
      ensures particle == old(particle) && fieldConfig == old(fieldConfig)
      ensures running == old(running) && lastTime == old(lastTime)
    {
      history := history + [p];
      ghost var pushed := history;
      while |history| > TrailBound(maxTrail)
        invariant IsSuffix(history, pushed)
        invariant |history| < |pushed| ==> |history| >= TrailBound(maxTrail)
        invariant particle == old(particle) && fieldConfig == old(fieldConfig)
        invariant running == old(running) && lastTime == old(lastTime)
        decreases |history|
      {
        history := history[1..];
      }
    }

    /** One frame of `animate`: request the next frame, record the time stamp, then
        SIM_STEPS_PER_FRAME updates of the fixed size DT. The elapsed time is computed
        and not used. */
    method Animate(timestamp: real, maxTrail: int)
      requires particle.m != 0.0
      modifies this, particle
      ensures particle == old(particle)
      ensures Model() == Frame(old(Model()), pow, maxTrail, timestamp)
    {
      running := true;
      var elapsedTime := timestamp - lastTime;
      lastTime := timestamp;
      for i := 0 to SIM_STEPS_PER_FRAME
        invariant particle == old(particle)
        invariant Model() == old(Model()).(running := true, lastTime := timestamp,
                                           motion := Steps(old(Model()).motion, fieldConfig, pow, DT, maxTrail, i))
      {
        UpdateParticle(DT, maxTrail);
      }
    }
  }
}
