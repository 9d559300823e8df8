# Charged particle in electric and magnetic fields — verified model

This project models the physics and state of `scripts.js`, the whole logic of a
browser simulator. The simulator moves one charged particle in the plane under the
Lorentz force `F = q (E + v × B)`, with `B` perpendicular to the plane. The field is
one of three kinds, selected by a type name:

- `uniform-e`: a constant electric field `(Ex, Ey)`;
- `uniform-b`: a constant magnetic field `Bz`;
- `radial-e`: the softened Coulomb field `kQ·(x, y) / (x² + y² + EPSILON)^1.5` of a
  point charge at the origin, with `EPSILON = 0.1`.

Any other type name gives no field at all.

Each animation frame takes `SIM_STEPS_PER_FRAME = 10` Euler-Cromer steps of the fixed
size `DT = 0.005`. A step first kicks the velocity with the acceleration at the
pre-step position, then drifts the position with the new velocity. After each step the
new position is pushed onto a trail. The oldest entries are shifted off until the
trail is no longer than the trail length. The start, stop and reset controls run the
set-up again and turn the animation on or off.

The modules follow the program's parts:

- `Fields` (`fields.dfy`): `getFields`, the softened radius and the constants of the
  field model.
- `Trail` (`trail.dfy`): the bounded first-in first-out trail. It also holds the
  trimming loop exactly as written, for the finding below.
- `Integrator` (`integrator.dfy`): the Lorentz acceleration and one Euler-Cromer step.
  The explicit Euler step is there as a reference, and the per-step physics lemmas
  sit beside it.
- `Control` (`control.dfy`): the simulator's state as a value, and what set-up, a
  step, a frame, start, stop and reset do to it.
- `Dynamics` (`dynamics.dfy`): what many steps do in each kind of field.
- `Simulation` (`simulation.dfy`): the page itself. The `Particle` record has fields
  that are updated in place. The `Simulator` holds the globals: field configuration,
  trail, animation flag and time stamp. Its methods mirror `setupParticleAndField`,
  `startSimulation`, `stopSimulation`, `resetSimulation`, `updateParticle` and the
  step loop of `animate`. Each method is proved to change the state exactly as the
  matching `Control` function says.

`Math.pow(r², 1.5)` is a parameter of type `ThreeHalvesPower`: any function that is
positive on positive arguments. Every property holds for all such functions. The
parsed form values are parameters of type `Inputs`. So are the clock readings, `now`
for `startSimulation` and `timestamp` for `animate`, and the parsed trail length.
Arithmetic is over the reals.

Some consequences of how `scripts.js` is written:

- The field configuration is a record holding the type name and every numeric input,
  whichever type is selected.
- The particle does not store its acceleration. The acceleration is recomputed at
  every step.
- `startSimulation` always runs the set-up again, so a start never resumes an earlier
  run.
- There is no simulation time, no auto-pause and no diagnostics.
- In a uniform magnetic field a step multiplies the squared speed by exactly
  `1 + c²`, where `c = (q/m)·Bz·dt` (`Integrator.MagneticStepScalesSpeed`). So the
  speed is not conserved: it never decreases
  (`Dynamics.MagneticSpeedNeverDecreases`), and for a moving particle with `c ≠ 0` it
  grows at every step by that factor. The circle slowly spirals outwards. A particle
  at rest stays at rest.
- In the radial field the angular momentum `x·vy − y·vx` is conserved exactly, at
  every step (`Dynamics.RadialStepsKeepAngularMomentum`).

## Model

| member | source | states |
|---|---|---|
| Fields.SquaredRadius | scripts.js:281 | the softened squared radius `x² + y² + EPSILON` is at least `EPSILON = 0.1`, so the radial field never divides by zero |
| Fields.GetFields | scripts.js:268-290 | `uniform-e` gives exactly `(Ex, Ey, 0)`, `uniform-b` exactly `(0, 0, Bz)`, and any other unknown type name `(0, 0, 0)` |
| Fields.UniformFieldIgnoresPosition | scripts.js:269-276 | for every type name but `radial-e` the field is the same at any two positions |
| Fields.RadialFieldIsCoulomb | scripts.js:278-285 | the radial field is `(kQ·x / r³, kQ·y / r³, 0)` with `r³ = pow(x² + y² + EPSILON)` |
| Fields.RadialFieldIsCentral | scripts.js:278-285 | the radial field has no magnetic part and is parallel to the position vector: `Ex·y = Ey·x` |
| Fields.RadialFieldVanishesAtOrigin | scripts.js:281-285 | at the origin the softened radial field is finite and zero |
| Fields.RadialScale | scripts.js:280-284 | the factor `kQ / r³` is positive exactly when `kQ` is positive and negative exactly when `kQ` is negative: repulsion for `kQ > 0`, attraction for `kQ < 0` |
| Trail.Trimmed | scripts.js:260-262 | dropping the oldest entries leaves `min(length, bound)` entries that end the original history |
| Trail.Pushed | scripts.js:258-262 | after a push and trim, the trail holds exactly `min(length + 1, bound)` entries and is a suffix of the old trail followed by the new position. With room to spare it is exactly that sequence. For a trail length of at least one it ends with the new position |
| Trail.TrimLoop | scripts.js:260-262 | the `shift` loop as written, allowed a number of passes: whenever it stops, the trail is no longer than the trail length and is a suffix of the trail it started from |
| Trail.NegativeTrailLengthNeverStops | scripts.js:259-262 | the trimming loop as written never stops when the parsed trail length is negative |
| Trail.TrimLoopStops | scripts.js:260-262 | for a trail length of zero or more, the loop as written stops within `length` passes and leaves exactly `Trimmed` |
| Integrator.Acceleration | scripts.js:238-247 | mass times the acceleration is `q (Ex + vy·Bz, Ey − vx·Bz)` |
| Integrator.AccelerationIsLorentzForce | scripts.js:238-247 | mass times the step's acceleration is the in-plane Lorentz force `q (E + v × B)`, whose z part is zero |
| Integrator.MagneticAccelerationIsPerpendicular | scripts.js:246-247 | with no electric field the acceleration is perpendicular to the pre-step velocity: `ax·vx + ay·vy = 0` |
| Integrator.EulerCromer | scripts.js:237-255 | a step keeps charge and mass. It changes the velocity by `a·dt`, with the acceleration `a` taken at the pre-step state, then moves the position by the new velocity times `dt` |
| Integrator.EulerCromerVersusExplicitEuler | scripts.js:249-255 | the step gives the same velocity as explicit Euler, and a position ahead of explicit Euler's by exactly `a·dt²` |
| Integrator.MagneticStepScalesSpeed | scripts.js:246-251 | in a purely magnetic field a step multiplies the squared speed by `1 + c²`, `c = (q/m)·Bz·dt` |
| Integrator.MagneticStepNeverSlows | scripts.js:246-255 | in a purely magnetic field a step never lowers the speed |
| Integrator.ElectricKick | scripts.js:246-255 | with no magnetic part the kick is `(q/m)·E·dt`, and the drift uses the kicked velocity |
| Integrator.CentralStepKeepsAngularMomentum | scripts.js:246-255 | in a field with no magnetic part that is parallel to the position, a step keeps `x·vy − y·vx` |
| Control.SetUp | scripts.js:120-142 | the particle and field configuration come from the form, and the trail is exactly the initial position. The run flag and time stamp are untouched |
| Control.Stop | scripts.js:107-112 | afterwards nothing runs, and nothing else changes |
| Control.Reset | scripts.js:114-118 | afterwards nothing runs, and the particle, field configuration and one-entry trail are freshly set up from the form |
| Control.Start | scripts.js:94-105 | afterwards the animation runs from a fresh set-up, with the time stamp set to the clock reading |
| Control.Step | scripts.js:237-263 | a step keeps charge and mass. The trail holds exactly `min(old length + 1, bound)` entries and is a suffix of the old trail followed by the new position. For a trail length of at least one it ends with that position |
| Control.Steps | scripts.js:226-228 | any number of steps keep charge and mass |
| Control.Frame | scripts.js:216-231 | a frame leaves the animation running, records the frame's time stamp and keeps the field configuration |
| Control.TrailAfterSteps | scripts.js:226-228 | after n ≥ 1 steps the trail is exactly the old trail followed by the n visited positions in order, with the oldest entries dropped down to the trail length |
| Control.TrailAfterFrame | scripts.js:216-231 | after a frame the trail is exactly the last entries, as many as the trail length allows, of the old trail followed by the frame's 10 positions. So it is bounded and ends with the particle's position |
| Control.FrameIgnoresElapsedTime | scripts.js:219-228 | a frame's result does not depend on when the previous frame ran |
| Control.StopIsIdempotent | scripts.js:107-112 | stopping twice is stopping once |
| Control.StartForgetsPreviousRun | scripts.js:94-118 | two states started with the same form at the same time are identical, and a reset before a start changes nothing |
| Dynamics.UniformField | scripts.js:269-288 | for every type name but `radial-e`, one field is seen at every position |
| Dynamics.StepsInUniformField | scripts.js:237-255 | away from the radial field, n simulator steps are n Euler-Cromer steps in that one field |
| Dynamics.ElectricStep | scripts.js:246-255 | one step in a field with no magnetic part takes the closed form from n to n + 1 steps |
| Dynamics.ElectricClosedForm | scripts.js:246-255 | n steps in such a field give `v_n = v_0 + n·a·dt` and `p_n = p_0 + n·v_0·dt + a·dt²·n(n+1)/2` |
| Dynamics.UniformElectricSteps | scripts.js:270-272 | in `uniform-e`, n simulator steps land exactly on that closed form |
| Dynamics.NoFieldNoAcceleration | scripts.js:287-288 | with no field the closed form is straight-line motion at the initial velocity |
| Dynamics.UnknownFieldSteps | scripts.js:287-288 | with an unknown type name, n simulator steps are straight-line motion |
| Dynamics.UniformMagneticField | scripts.js:274-276 | in `uniform-b`, n simulator steps are n Euler-Cromer steps in `(0, 0, Bz)` |
| Dynamics.MagneticIterateStep | scripts.js:246-251 | each step in `(0, 0, Bz)` multiplies the squared speed by `1 + c²` |
| Dynamics.MagneticSpeedNeverDecreases | scripts.js:246-255 | after any number of steps in `(0, 0, Bz)` the speed is at least the initial speed |
| Dynamics.StepIsEulerCromer | scripts.js:237-255 | a simulator step is one Euler-Cromer step in the field at the pre-step position |
| Dynamics.RadialFieldKeepsAngularMomentum | scripts.js:278-285 | in the radial field one Euler-Cromer step keeps `x·vy − y·vx` |
| Dynamics.RadialStepKeepsAngularMomentum | scripts.js:237-255 | in `radial-e` one simulator step keeps the angular momentum |
| Dynamics.RadialStepsKeepAngularMomentum | scripts.js:226-228 | in `radial-e` any number of simulator steps keep the angular momentum exactly |
| Simulation.Particle.constructor | scripts.js:122-129 | the new record holds the given charge, mass, position and velocity |
| Simulation.Particle.Advance | scripts.js:238-255 | the in-place updates of `vx`, `vy`, then `x`, `y` leave the particle at one Euler-Cromer step from where it was |
| Simulation.Simulator.Load | scripts.js:3-7 | on page load nothing runs, the time stamp is 0, and the particle, configuration and trail are set up from the form |
| Simulation.Simulator.SetUp | scripts.js:120-142 | a new particle record, and the state `Control.SetUp` gives |
| Simulation.Simulator.Stop | scripts.js:107-112 | the state `Control.Stop` gives, with the same particle record |
| Simulation.Simulator.Reset | scripts.js:114-118 | the state `Control.Reset` gives |
| Simulation.Simulator.Start | scripts.js:94-105 | the state `Control.Start` gives for the clock reading `now` |
| Simulation.Simulator.UpdateParticle | scripts.js:237-263 | the particle record is updated in place, and the state becomes what `Control.Step` gives |
| Simulation.Simulator.PushPosition | scripts.js:258-262 | the push and the `shift` loop leave exactly `Trail.Pushed` of the old trail. The loop ends for every trail length |
| Simulation.Simulator.Animate | scripts.js:216-231 | the frame's state is `Control.Frame`: 10 steps of size `DT = 0.005` whatever the elapsed time |

## Left out

- Drawing (`draw`, `drawGrid`, `drawField`, `drawArrow`, `drawTrail`, `drawParticle`):
  canvas output with trigonometry and logarithms on floats. Its only effect is on the
  screen.
- DOM wiring, `resizeCanvas`, `updateFieldOptions`, `updatePresetOptions` and
  `applyPreset`. These are user-interface plumbing. `applyPreset` only writes literal
  values into the form and then resets, so it is covered by `Control.Reset` with
  those values as the form.
- `requestAnimationFrame`, `cancelAnimationFrame` and `performance.now`. The
  animation handle is a boolean, and the clock readings are parameters. When frames
  arrive is not modelled.
- `parseFloat` and `parseInt`: the form is taken already parsed. A `NaN` trail length
  disables trimming, because `length > NaN` is false in JavaScript. That is not
  modelled, since the trail length is an integer here.
- A mass of zero: the step divides by the mass, so the step functions and methods
  require `m ≠ 0`. In JavaScript the result would be infinities or `NaN`.
- Floating point: every quantity is a real number. The properties are exact algebra,
  not statements about IEEE rounding.
- The exact value of `Math.pow(r², 1.5)`. Only its positivity is used.
- Dynamics.MagneticSpeedNeverDecreases: states only that the speed never drops, not
  the exact factor `(1 + c²)ⁿ` after n steps. The exact factor is proved one step at
  a time (`Dynamics.MagneticIterateStep`).
- Simulation.Simulator.PushPosition: trims to `Trail.TrailBound`, the corrected bound.
  For a negative trail length it does not hang the way the loop as written does (see
  Findings).
- `Simulation.Simulator.Load` starts from a placeholder particle record before its
  reset. In the page the particle is undefined until the reset that runs on
  `DOMContentLoaded`.

## Findings

| source | as written | input that shows it | evidently intended | confidence | as-written member | corrected member |
|---|---|---|---|---|---|---|
| scripts.js:259-262 | `while (history.length > maxTrail) history.shift()` with `maxTrail` from `parseInt` of the trail-length input | a trail length of `-1`: once the history is empty, `shift()` leaves it empty and `0 > -1` stays true, so the frame never finishes. Whether the form allows negative numbers is set in index.html, which is not part of this model | a negative trail length keeps no entries, and the loop stops | not executed | Trail.NegativeTrailLengthNeverStops | Trail.Pushed |
