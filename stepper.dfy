/** The Stepper class of src/Stepper.cpp: configuration fixed by a
    constructor, motion state updated in place by setSpeedRpm, setSpeedPps,
    step and move, and pin levels written by stepMotor. The Arduino calls are
    abstracted: micros() is the `now` argument of Move, and digitalWrite on
    motor pin k + 1 is a write to levels[k]. */
module StepperDriver {
  import opened Patterns
  import opened Sequencer
  import Speed

  /** Values representable in the 32-bit signed `long` of the target. */
  predicate InLongRange(x: int) {
    -0x8000_0000 <= x < 0x8000_0000
  }

  class Stepper {
    /** Steps per revolution, set once by the constructor. */
    const numberOfSteps: int
    /** 2, 4 or 5: which constructor was used and which table stepMotor uses. */
    const pinCount: int
    /** motor_pin_1 .. motor_pin_5; the pins a constructor does not take are 0. */
    const motorPins: seq<int>
    /** The level last written to each of the five motor pins (HIGH is true). */
    const levels: array<bool>

    var direction: bool
    var stepDelay: u32
    var stepNumber: int
    var stepsLeft: nat
    var lastStepTime: u32

    ghost predicate Valid()
      reads this
    {
      numberOfSteps > 0 && SupportedPinCount(pinCount) && |motorPins| == 5
      && levels.Length == 5 && 0 <= stepNumber < numberOfSteps
    }

    /** The motion fields as a value. */
    function Snapshot(): Motion
      reads this
    {
      Motion(stepNumber, stepsLeft, direction, stepDelay, lastStepTime)
    }

    /** Two-wire constructor. */
    constructor TwoPin(numberOfSteps: int, pin1: int, pin2: int)
      requires numberOfSteps > 0
      ensures Valid() && fresh(levels)
      ensures this.numberOfSteps == numberOfSteps && pinCount == 2
      ensures motorPins == [pin1, pin2, 0, 0, 0]
      ensures Snapshot() == Motion(0, 0, false, 0, 0)
      ensures forall k :: 0 <= k < levels.Length ==> levels[k] == LOW
    {
      this.numberOfSteps := numberOfSteps;
      motorPins := [pin1, pin2, 0, 0, 0];
      pinCount := 2;
      levels := new bool[5](_ => LOW);
      direction, stepDelay, stepNumber, stepsLeft, lastStepTime := false, 0, 0, 0, 0;
    }

    /** Four-wire constructor. */
    constructor FourPin(numberOfSteps: int, pin1: int, pin2: int, pin3: int, pin4: int)
      requires numberOfSteps > 0
      ensures Valid() && fresh(levels)
      ensures this.numberOfSteps == numberOfSteps && pinCount == 4
      ensures motorPins == [pin1, pin2, pin3, pin4, 0]
      ensures Snapshot() == Motion(0, 0, false, 0, 0)
      ensures forall k :: 0 <= k < levels.Length ==> levels[k] == LOW
    {
      this.numberOfSteps := numberOfSteps;
      motorPins := [pin1, pin2, pin3, pin4, 0];
      pinCount := 4;
      levels := new bool[5](_ => LOW);
      direction, stepDelay, stepNumber, stepsLeft, lastStepTime := false, 0, 0, 0, 0;
    }

    /** Five-phase, five-wire constructor. */
    constructor FivePin(numberOfSteps: int, pin1: int, pin2: int, pin3: int, pin4: int, pin5: int)
      requires numberOfSteps > 0
      ensures Valid() && fresh(levels)
      ensures this.numberOfSteps == numberOfSteps && pinCount == 5
      ensures motorPins == [pin1, pin2, pin3, pin4, pin5]
      ensures Snapshot() == Motion(0, 0, false, 0, 0)
      ensures forall k :: 0 <= k < levels.Length ==> levels[k] == LOW
    {
      this.numberOfSteps := numberOfSteps;
      motorPins := [pin1, pin2, pin3, pin4, pin5];
      pinCount := 5;
      levels := new bool[5](_ => LOW);
      direction, stepDelay, stepNumber, stepsLeft, lastStepTime := false, 0, 0, 0, 0;
    }

    /** Sets the speed in revolutions per minute. */
    method SetSpeedRpm(rpm: int)
      requires Valid()
      modifies this`stepDelay
      ensures Valid()
      ensures stepDelay == Speed.RpmDelay(numberOfSteps, rpm)
    {
      var delay := if rpm <= 0 then 0 else 60 * 1000 * 1000 / numberOfSteps / rpm;
      assert delay == Speed.RpmDelay(numberOfSteps, rpm);
      stepDelay := delay;
    }

    /** Sets the speed in steps (pulses) per second. The library assigns
        step_delay twice in one statement; both assignments store the same
        value, so one is enough here. */
    method SetSpeedPps(pps: int)
      requires Valid()
      modifies this`stepDelay
      ensures Valid()
      ensures stepDelay == Speed.PpsDelay(pps)
    {
      stepDelay := if pps <= 0 then 0 else 1000 * 1000 / pps;
    }

    /** Converts revolutions per minute to steps per second in `long`
        arithmetic: the product numberOfSteps * rpm must not overflow (signed
        overflow is undefined in C), and the division truncates toward zero. */
    function ToPpsFrom(rpm: int): (pps: int)
      requires InLongRange(numberOfSteps * rpm)
      ensures 0 <= numberOfSteps * rpm ==> 0 <= pps * 60 <= numberOfSteps * rpm < pps * 60 + 60
      ensures numberOfSteps * rpm < 0 ==> pps * 60 - 60 < numberOfSteps * rpm <= pps * 60 <= 0
    {
      var product := numberOfSteps * rpm;
      if product >= 0 then product / 60 else -((-product) / 60)
    }

    /** Arms a motion of |stepsToMove| steps; the direction is forward exactly
        when stepsToMove is positive (zero selects backward). Nothing moves. */
    method Step(stepsToMove: int)
      requires Valid()
      modifies this`stepsLeft, this`direction
      ensures Valid()
      ensures stepsLeft == (if stepsToMove < 0 then -stepsToMove else stepsToMove)
      ensures direction <==> stepsToMove > 0
      ensures Snapshot() == Arm(old(Snapshot()), stepsToMove)
    {
      stepsLeft := Abs(stepsToMove);
      if stepsToMove > 0 {
        direction := true;
      } else {
        direction := false;
      }
    }

    /** One poll at clock reading `now`: takes one step if it is due, emits the
        table row of the new step number, and returns the steps left. */
    method Move(now: u32) returns (left: int)
      requires Valid()
      modifies this`lastStepTime, this`stepNumber, this`stepsLeft, levels
      ensures Valid()
      ensures Snapshot() == Tick(old(Snapshot()), numberOfSteps, now)
      ensures left == stepsLeft
      ensures levels[..] == if Due(old(Snapshot()), now)
        then Written(old(levels[..]), pinCount, stepNumber % CycleLength(pinCount))
        else old(levels[..])
    {
      if stepsLeft > 0 && stepDelay > 0 {
        // unsigned long subtraction
        if (now - lastStepTime) % TimerModulus >= stepDelay {
          lastStepTime := now;
          if direction {
            stepNumber := stepNumber + 1;
            if stepNumber == numberOfSteps {
              stepNumber := 0;
            }
          } else {
            if stepNumber == 0 {
              stepNumber := numberOfSteps;
            }
            stepNumber := stepNumber - 1;
          }
          stepsLeft := stepsLeft - 1;
          if pinCount == 5 {
            StepMotor(stepNumber % 10);
          } else {
            StepMotor(stepNumber % 4);
          }
        }
      }
      left := stepsLeft;
    }

    /** digitalWrite on motor pin slot + 1. */
    method DigitalWrite(slot: int, level: bool)
      requires 0 <= slot < levels.Length
      modifies levels
      ensures levels[..] == old(levels[..])[slot := level]
    {
      levels[slot] := level;
    }

    /** Writes the pins of row `thisStep` for the configured wiring, one
        digitalWrite per pin; an index outside the table writes nothing. */
    method StepMotor(thisStep: int)
      requires Valid()
      modifies levels
      ensures levels[..] == Written(old(levels[..]), pinCount, thisStep)
    {
      if pinCount == 2 {
        match thisStep {
          case 0 =>
            DigitalWrite(0, LOW); DigitalWrite(1, HIGH);
          case 1 =>
            DigitalWrite(0, HIGH); DigitalWrite(1, HIGH);
          case 2 =>
            DigitalWrite(0, HIGH); DigitalWrite(1, LOW);
          case 3 =>
            DigitalWrite(0, LOW); DigitalWrite(1, LOW);
          case _ =>
        }
      }
      if pinCount == 4 {
        match thisStep {
          case 0 =>
            DigitalWrite(0, HIGH); DigitalWrite(1, LOW); DigitalWrite(2, HIGH); DigitalWrite(3, LOW);
          case 1 =>
            DigitalWrite(0, LOW); DigitalWrite(1, HIGH); DigitalWrite(2, HIGH); DigitalWrite(3, LOW);
          case 2 =>
            DigitalWrite(0, LOW); DigitalWrite(1, HIGH); DigitalWrite(2, LOW); DigitalWrite(3, HIGH);
          case 3 =>
            DigitalWrite(0, HIGH); DigitalWrite(1, LOW); DigitalWrite(2, LOW); DigitalWrite(3, HIGH);
          case _ =>
        }
      }
      if pinCount == 5 {
        match thisStep {
          case 0 =>
            DigitalWrite(0, LOW); DigitalWrite(1, HIGH); DigitalWrite(2, HIGH); DigitalWrite(3, LOW); DigitalWrite(4, HIGH);
          case 1 =>
            DigitalWrite(0, LOW); DigitalWrite(1, HIGH); DigitalWrite(2, LOW); DigitalWrite(3, LOW); DigitalWrite(4, HIGH);
          case 2 =>
            DigitalWrite(0, LOW); DigitalWrite(1, HIGH); DigitalWrite(2, LOW); DigitalWrite(3, HIGH); DigitalWrite(4, HIGH);
          case 3 =>
            DigitalWrite(0, LOW); DigitalWrite(1, HIGH); DigitalWrite(2, LOW); DigitalWrite(3, HIGH); DigitalWrite(4, LOW);
          case 4 =>
            DigitalWrite(0, HIGH); DigitalWrite(1, HIGH); DigitalWrite(2, LOW); DigitalWrite(3, HIGH); DigitalWrite(4, LOW);
          case 5 =>
            DigitalWrite(0, HIGH); DigitalWrite(1, LOW); DigitalWrite(2, LOW); DigitalWrite(3, HIGH); DigitalWrite(4, LOW);
          case 6 =>
            DigitalWrite(0, HIGH); DigitalWrite(1, LOW); DigitalWrite(2, HIGH); DigitalWrite(3, HIGH); DigitalWrite(4, LOW);
          case 7 =>
            DigitalWrite(0, HIGH); DigitalWrite(1, LOW); DigitalWrite(2, HIGH); DigitalWrite(3, LOW); DigitalWrite(4, LOW);
          case 8 =>
            DigitalWrite(0, HIGH); DigitalWrite(1, LOW); DigitalWrite(2, HIGH); DigitalWrite(3, LOW); DigitalWrite(4, HIGH);
          case 9 =>
            DigitalWrite(0, LOW); DigitalWrite(1, LOW); DigitalWrite(2, HIGH); DigitalWrite(3, LOW); DigitalWrite(4, HIGH);
          case _ =>
        }
      }
    }

    /** The library version tag. */
    function Version(): (v: int)
      ensures v == 5
    {
      5
    }
  }

  /** Converting to steps per second first never gives a shorter delay than
      setting the same speed in revolutions per minute: toPpsFrom truncates
      the rate down. */
  lemma PpsRouteNeverFaster(stepper: Stepper, rpm: int)
    requires stepper.numberOfSteps > 0 && rpm > 0
    requires InLongRange(stepper.numberOfSteps * rpm)
    requires stepper.ToPpsFrom(rpm) > 0
    ensures Speed.PpsDelay(stepper.ToPpsFrom(rpm)) >= Speed.RpmDelay(stepper.numberOfSteps, rpm)
  {
    var n, pps := stepper.numberOfSteps, stepper.ToPpsFrom(rpm);
    var d, dp := Speed.RpmDelay(n, rpm), Speed.PpsDelay(pps);
    // d * pps * 60 <= d * n * rpm <= 60 000 000, so d * pps <= 1 000 000
    Speed.MulLeft(pps * 60, n * rpm, d);
    assert d * pps * 60 <= Speed.MicrosPerMinute by {
      assert (pps * 60) * d == d * pps * 60;
      assert (n * rpm) * d == d * (n * rpm);
    }
    if dp < d {
      Speed.MulLeft(dp + 1, d, pps);
      assert false;
    }
  }

  /** Below one step per second toPpsFrom truncates to 0, so setting the
      converted speed with setSpeedPps disables stepping, while the same
      speed given to setSpeedRpm yields a positive delay. */
  lemma SlowRpmStallsPpsRoute(stepper: Stepper, rpm: int)
    requires stepper.numberOfSteps > 0 && rpm > 0
    requires stepper.numberOfSteps * rpm < 60
    ensures stepper.ToPpsFrom(rpm) == 0
    ensures Speed.PpsDelay(stepper.ToPpsFrom(rpm)) == 0
    ensures Speed.RpmDelay(stepper.numberOfSteps, rpm) > 0
  {
  }
}
