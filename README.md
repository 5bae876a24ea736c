# Stepper: a verified model of the Arduino Stepper library's sequencing engine

This project models the `Stepper` class of the Arduino Stepper library
(`src/Stepper.cpp`). A `Stepper` is built for a motor with a given number of
steps per revolution, wired to 2, 4 or 5 control pins. `setSpeedRpm` and
`setSpeedPps` turn a speed into a whole-microsecond `step_delay`. `step(n)`
arms a motion of |n| steps. Each call of the non-blocking `move()` takes at
most one step, and only once `step_delay` microseconds have passed since the
last step. A step moves `step_number` by one, wrapping around the revolution,
and `stepMotor` drives the pins to the matching row of a fixed truth table.

Files:

- `patterns.dfy` (module `Patterns`): the 2-, 4- and 5-wire truth tables, taken
  from the header comment of `src/Stepper.cpp`, and lemmas about their shape.
- `speed.dfy` (module `Speed`): the delay for a speed in rpm or in pps. Each
  delay is characterised as the largest whole number of microseconds that fits.
- `sequencer.dfy` (module `Sequencer`): the motion state as a value. `Tick`
  says what one `move()` does. `Run` applies it to a list of clock readings.
  Lemmas cover the invariants, round trips, paced polling and the row sequence.
- `stepper.dfy` (module `StepperDriver`): the class `Stepper` with the
  library's fields and its methods, written imperatively. Each method is
  proved against the pure model. `StepMotor` keeps the library's switch
  statements, one pin write per `digitalWrite`, and is proved to write exactly
  the rows of the header-comment tables.

Modelling decisions:

- Time is an integer in [0, 2^32) (`u32`), as `micros()` and the
  `unsigned long` fields are on the AVR target. The elapsed time is
  `(now - last_step_time) mod 2^32`, so a single timer rollover is handled.
- `micros()` becomes the `now` argument of `Move`. `digitalWrite(motor_pin_k, v)`
  becomes a write of `v` (HIGH = `true`) to slot `k - 1` of the array `levels`.
- The constructors require `number_of_steps > 0`. With 0, `setSpeedRpm` would
  divide by zero and the wrap in `move()` would be meaningless.
- The constructors leave `step_number`, `steps_left`, `direction`,
  `step_delay` and `last_step_time` uninitialised. A C++ object with static
  storage, which is how sketches declare a `Stepper`, gets them zeroed. The
  model starts them at 0 / `false` and keeps `0 <= stepNumber < numberOfSteps`
  as part of the object invariant `Valid()`. The pin levels start LOW.
- `step(0)` sets the direction to backward, as the `else` branch of
  `src/Stepper.cpp:198-205` does.
- `toPpsFrom` computes `number_of_steps * rpm / 60` in 32-bit signed `long`.
  The model requires the product to fit in that range, because signed
  overflow is undefined in C. The division truncates toward zero, so
  `ToPpsFrom` rounds negative values toward zero. Dafny's own division rounds
  down, so the model writes the truncation out.
- `version()` is the class function `Version`, which returns 5.
- The emitted row is `step_number % 10` for 5 pins and `% 4` otherwise.
  A forward step always emits the next row of the cycle if and only if
  `number_of_steps` is a multiple of the cycle length. `RowAfterStep` proves
  the "if" half for both directions. `PhaseSlipAtWrap` proves the "only if"
  half: otherwise the forward wrap from the last step number to 0 emits a
  row out of sequence. `PhaseSlipExample` is the smallest case: a 4-wire
  motor with 6 steps per revolution emits a backward row when it wraps from
  step 5 to step 0.
- `step_delay` is 0, and stepping is disabled, both for a speed <= 0 and for
  a speed so high that one step takes less than a microsecond.

## Model

| member | source | states |
|---|---|---|
| `Patterns.Row` | src/Stepper.cpp:256-381 | A row exists exactly for wirings 2, 4 and 5 and for an index inside that table's cycle (4, 4 or 10 rows), and it has one level per pin. Any other index writes no pin. |
| `Patterns.TableShape` | src/Stepper.cpp:42-71 | Each table has one row per position of the cycle that `move()` uses (4, 4, 10). Each row has one level per control wire. |
| `Patterns.TwoWireIsMiddleColumns` | src/Stepper.cpp:64-71 | The 2-wire table is columns C1 and C2 of the 4-wire table. |
| `Patterns.FourWireFromTwoWire` | src/Stepper.cpp:32-40 | In every 4-wire row, C0 = not C1 and C3 = not C2. So the 2 driven pins, with inverters, give the 4-wire sequence. |
| `Patterns.AdjacentRowsDiffer` | src/Stepper.cpp:42-71 | Cyclically adjacent rows differ in exactly one wire for the 2-wire and 5-phase tables. They differ in exactly two wires for the 4-wire table. |
| `Patterns.RowsDistinct` | src/Stepper.cpp:42-71 | No two rows of a table are equal. |
| `Speed.NestedDivision` | src/Stepper.cpp:168-169 | Two truncating divisions, by `number_of_steps` and then by `rpm`, give the largest q with q * (n * rpm) <= 60 000 000. |
| `Speed.RpmDelay` | src/Stepper.cpp:166-170 | The delay is 0 for rpm <= 0. Otherwise it is the largest d with d * steps * rpm <= 60 000 000 < (d + 1) * steps * rpm. It fits in an `unsigned long`. |
| `Speed.PpsDelay` | src/Stepper.cpp:175-179 | The delay is 0 for pps <= 0. Otherwise it is the largest d with d * pps <= 1 000 000 < (d + 1) * pps. |
| `Speed.RpmDelayAntitone` | src/Stepper.cpp:166-170 | A faster rpm never gives a longer delay. |
| `Speed.RpmDelayZero` | src/Stepper.cpp:166-170 | The rpm delay is 0 if and only if rpm <= 0 or n * rpm > 60 000 000. So a speed that is too high also disables stepping. |
| `Speed.PpsDelayZero` | src/Stepper.cpp:175-179 | The pps delay is 0 if and only if pps <= 0 or pps > 1 000 000. |
| `Speed.PpsDelayAntitone` | src/Stepper.cpp:175-179 | A faster pps never gives a longer delay. |
| `Sequencer.Elapsed` | src/Stepper.cpp:214-220 | The unsigned difference is now - last without a rollover and now + 2^32 - last across one. |
| `Sequencer.NextStep` | src/Stepper.cpp:226-239 | The library's branches equal stepping modulo the revolution. Forward: the next number, or 0 after the last. Backward: the previous number, or the last before 0. The result stays in [0, n). |
| `Sequencer.Tick` | src/Stepper.cpp:212-251 | One `move()`. The invariant is kept and direction and delay never change. On a due step, `step_number` becomes `NextStep` of the old one in the armed direction, `steps_left` drops by exactly one and `last_step_time = now`. Otherwise nothing changes. |
| `Sequencer.Run` | src/Stepper.cpp:212-251 | Any sequence of `move()` calls keeps `step_number` in [0, n) and direction and delay unchanged. It never raises `steps_left` and lowers it by at most one per call. |
| `Sequencer.StalledRunIsNoop` | src/Stepper.cpp:217 | With no steps left, or with step_delay 0, no sequence of calls changes any field. step_delay is 0 for a speed <= 0 and for a speed that is too high (see `Speed.RpmDelayZero`, `Speed.PpsDelayZero`). |
| `Sequencer.PacedRun` | src/Stepper.cpp:217-241 | Polling exactly every step_delay microseconds, rollover included, takes one step per call. After k calls, min(k, steps_left) steps are taken and the position is that many steps further. |
| `Sequencer.NextStepInverse` | src/Stepper.cpp:226-239 | A step in one direction followed by one in the other returns to the same step number. |
| `Sequencer.AdvanceReverse` | src/Stepper.cpp:226-239 | k steps one way followed by k steps the other way restore the step number. |
| `Sequencer.AdvanceModulo` | src/Stepper.cpp:226-239 | After k steps the step number is (s + k) mod n forward and (s - k) mod n backward. |
| `Sequencer.ForwardThenReverseRestores` | src/Stepper.cpp:193-241 | `step(k)` with k paced polls, then `step(-k)` with k paced polls, returns to the starting step number with no steps left. |
| `Sequencer.FullTurnRestores` | src/Stepper.cpp:193-241 | `step(±n)` followed by n paced polls is one full turn. It ends on the starting step number with no steps left. |
| `Sequencer.RowAfterStep` | src/Stepper.cpp:226-246 | If n is a multiple of the cycle length, every step moves the emitted row one place along the cycle in its own direction, across the wrap too. |
| `Sequencer.EachStepChangesPins` | src/Stepper.cpp:226-246 | If n is a multiple of the cycle length, consecutive steps change exactly one pin (2 and 5 wires) or one complementary pair (4 wires). |
| `Sequencer.PhaseSlipAtWrap` | src/Stepper.cpp:229-246 | If n is not a multiple of the cycle length, the forward wrap from step n - 1 to step 0 does not emit the next row of the cycle. With `RowAfterStep`, forward steps follow the cycle if and only if n is a multiple of the cycle length. |
| `Sequencer.PhaseSlipExample` | src/Stepper.cpp:229-246 | With 6 steps per revolution and 4 wires, the forward wrap from step 5 to step 0 emits row 0 after row 1. That is the row a backward step would emit. |
| `StepperDriver.Stepper.TwoPin` | src/Stepper.cpp:85-104 | Sets n and pin count 2. Pins 3 to 5 are 0. The motion fields start at zero and all levels are LOW. |
| `StepperDriver.Stepper.FourPin` | src/Stepper.cpp:111-133 | Sets n and pin count 4. Pin 5 is 0. The motion fields start at zero and all levels are LOW. |
| `StepperDriver.Stepper.FivePin` | src/Stepper.cpp:139-161 | Sets n, all five pins and pin count 5. The motion fields start at zero and all levels are LOW. |
| `StepperDriver.Stepper.SetSpeedRpm` | src/Stepper.cpp:166-170 | Only step_delay changes, and it becomes `RpmDelay(n, rpm)`. |
| `StepperDriver.Stepper.SetSpeedPps` | src/Stepper.cpp:175-179 | Only step_delay changes. It becomes `PpsDelay(pps)`, the same as one assignment would give. |
| `StepperDriver.Stepper.ToPpsFrom` | src/Stepper.cpp:184-187 | Without signed overflow, the result is n * rpm / 60 rounded toward zero. |
| `StepperDriver.Stepper.Step` | src/Stepper.cpp:193-206 | steps_left = abs(count) and direction is true exactly when count > 0. step_number, step_delay and last_step_time are untouched. |
| `StepperDriver.Stepper.Move` | src/Stepper.cpp:212-251 | The new state is `Tick` of the old one and the return value is the new steps_left. On a due step the pins show the row `step_number % 10` (5 pins) or `% 4` (otherwise) of the new step number. Otherwise no pin is written. |
| `StepperDriver.Stepper.Version` | src/Stepper.cpp:386-389 | The version tag is 5. |
| `StepperDriver.Stepper.StepMotor` | src/Stepper.cpp:256-381 | The library's pin writes for each case leave exactly the header-comment row in the first pin_count slots (case i is "Step i+1"). Other slots are kept. An index outside the table writes nothing. |
| `StepperDriver.PpsRouteNeverFaster` | src/Stepper.cpp:166-187 | For rpm > 0, when n * rpm fits in a `long` and toPpsFrom(rpm) > 0, `setSpeedPps(toPpsFrom(rpm))` gives a delay at least as long as `setSpeedRpm(rpm)`. When toPpsFrom(rpm) is 0 the pps route gives delay 0 instead (see `SlowRpmStallsPpsRoute`). |
| `StepperDriver.SlowRpmStallsPpsRoute` | src/Stepper.cpp:175-187 | Below one step per second, toPpsFrom gives 0. setSpeedPps then disables stepping, while setSpeedRpm at the same speed does not. |

## Left out

- `pinMode` in the constructors, and the real `micros()` and `digitalWrite`, are
  Arduino I/O. They are a `now` parameter and a pin-level array here.
- Pin aliasing is not modelled. If two motor pins name the same Arduino pin,
  the hardware sees both writes on one pin, but `levels` keeps one slot per
  motor pin.
- `setSpeed`, `load`, `unload`, `BCD`, `releaseMode` and `position` are
  declared in `src/Stepper.h` but have no definition in `src/Stepper.cpp`.
  There is no behaviour to model.
- 3-wire and PWM/microstepping wirings, a blocking step loop, an interrupt
  flag and a motor-off routine do not exist in this code.
- `int` fields and arguments (`number_of_steps`, `step_number`, `steps_left`,
  the argument of `step`) are unbounded integers. No arithmetic on them can
  overflow while the invariant holds, with one exception that is not modelled.
- StepperDriver.Stepper.Step: does not model the overflow of `abs` on the most
  negative `int`, whose magnitude is not representable.
