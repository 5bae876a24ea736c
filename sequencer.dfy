/** The motion state of one Stepper and what one call of move() does to it,
    as values. The class in stepper.dfy is proved to follow Tick; the lemmas
    here are about sequences of calls. */
module Sequencer {
  import opened Patterns
  import Speed

  /** micros() and the unsigned long fields count modulo 2^32. */
  const TimerModulus: int := 0x1_0000_0000

  type u32 = x: int | 0 <= x < 0x1_0000_0000

  /** The fields of the Stepper class that move() and step() change or read.
      `forward` is the direction field (true for increasing step numbers). */
  datatype Motion = Motion(
    stepNumber: int,
    stepsLeft: nat,
    forward: bool,
    stepDelay: u32,
    lastStepTime: u32)

  /** The object invariant: the step number lies within one revolution of a
      motor with `stepsPerRevolution` > 0 steps. */
  predicate Valid(m: Motion, stepsPerRevolution: int) {
    stepsPerRevolution > 0 && 0 <= m.stepNumber < stepsPerRevolution
  }

  /** The unsigned difference now - since: the microseconds elapsed since
      `since`, also across one rollover of the 32-bit timer. */
  function Elapsed(now: u32, since: u32): (e: u32)
    ensures since <= now ==> e == now - since
    ensures now < since ==> e == now + TimerModulus - since
  {
    (now - since) % TimerModulus
  }

  /** A step is due when steps remain, a speed is set and at least one step
      delay has elapsed since the last step. */
  predicate Due(m: Motion, now: u32) {
    m.stepsLeft > 0 && m.stepDelay > 0 && Elapsed(now, m.lastStepTime) >= m.stepDelay
  }

  /** The step number one step further in the given direction, modulo the
      number of steps per revolution. */
  function NextStep(s: int, stepsPerRevolution: int, forward: bool): (r: int)
    requires 0 <= s < stepsPerRevolution
    ensures 0 <= r < stepsPerRevolution
    ensures forward ==> r == if s + 1 == stepsPerRevolution then 0 else s + 1
    ensures !forward ==> r == if s == 0 then stepsPerRevolution - 1 else s - 1
  {
    var n := stepsPerRevolution;
    if forward then
      ModUnique(s + 1, n, if s + 1 == n then 1 else 0, if s + 1 == n then 0 else s + 1);
      (s + 1) % n
    else
      ModUnique(s - 1 + n, n, if s == 0 then 0 else 1, if s == 0 then n - 1 else s - 1);
      (s - 1 + n) % n
  }

  /** One call of move() at clock reading `now`. */
  function Tick(m: Motion, stepsPerRevolution: int, now: u32): (r: Motion)
    requires Valid(m, stepsPerRevolution)
    ensures Valid(r, stepsPerRevolution)
    ensures r.forward == m.forward && r.stepDelay == m.stepDelay
    ensures Due(m, now) ==> r.stepsLeft + 1 == m.stepsLeft && r.lastStepTime == now
    ensures Due(m, now) ==> r.stepNumber == NextStep(m.stepNumber, stepsPerRevolution, m.forward)
    ensures !Due(m, now) ==> r == m
  {
    if Due(m, now) then
      m.(stepNumber := NextStep(m.stepNumber, stepsPerRevolution, m.forward),
         stepsLeft := m.stepsLeft - 1,
         lastStepTime := now)
    else m
  }

  /** The magnitude as Arduino's abs computes it. */
  function Abs(x: int): nat {
    if x > 0 then x else -x
  }

  /** step(count): arms a motion of |count| steps, forward iff count > 0. */
  function Arm(m: Motion, count: int): Motion {
    m.(stepsLeft := Abs(count), forward := count > 0)
  }

  /** Calls of move() at the clock readings `times`, in order. */
  function Run(m: Motion, stepsPerRevolution: int, times: seq<u32>): (r: Motion)
    requires Valid(m, stepsPerRevolution)
    ensures Valid(r, stepsPerRevolution)
    ensures r.forward == m.forward && r.stepDelay == m.stepDelay
    ensures r.stepsLeft <= m.stepsLeft
    ensures r.stepsLeft + |times| >= m.stepsLeft
    decreases |times|
  {
    if times == [] then m
    else Run(Tick(m, stepsPerRevolution, times[0]), stepsPerRevolution, times[1..])
  }

  /** The step number after k steps in one direction. */
  function Advance(s: int, stepsPerRevolution: int, forward: bool, k: nat): (r: int)
    requires 0 <= s < stepsPerRevolution
    ensures 0 <= r < stepsPerRevolution
    decreases k
  {
    if k == 0 then s
    else Advance(NextStep(s, stepsPerRevolution, forward), stepsPerRevolution, forward, k - 1)
  }

  /** The clock readings of a caller that polls exactly once per step delay:
      start + interval, start + 2 * interval, ... (k readings, modulo 2^32). */
  function PacedTimes(start: u32, interval: u32, k: nat): (times: seq<u32>)
    ensures |times| == k
    decreases k
  {
    if k == 0 then []
    else
      var next := (start + interval) % TimerModulus;
      [next] + PacedTimes(next, interval, k - 1)
  }

  /** With no steps left or no speed set, no sequence of calls changes
      anything. */
  lemma {:induction false} StalledRunIsNoop(m: Motion, stepsPerRevolution: int, times: seq<u32>)
    requires Valid(m, stepsPerRevolution)
    requires m.stepsLeft == 0 || m.stepDelay == 0
    ensures Run(m, stepsPerRevolution, times) == m
    decreases |times|
  {
    if times != [] {
      StalledRunIsNoop(m, stepsPerRevolution, times[1..]);
    }
  }

  /** Polling once per step delay executes one step per call until no steps
      are left: after k calls min(k, stepsLeft) steps have been taken. */
  lemma {:induction false} PacedRun(m: Motion, stepsPerRevolution: int, k: nat)
    requires Valid(m, stepsPerRevolution) && m.stepDelay > 0
    ensures var r := Run(m, stepsPerRevolution, PacedTimes(m.lastStepTime, m.stepDelay, k));
      && r.stepsLeft == (if k <= m.stepsLeft then m.stepsLeft - k else 0)
      && r.stepNumber == Advance(m.stepNumber, stepsPerRevolution, m.forward,
                                 if k <= m.stepsLeft then k else m.stepsLeft)
    decreases k
  {
    if k > 0 {
      var times := PacedTimes(m.lastStepTime, m.stepDelay, k);
      var next := (m.lastStepTime + m.stepDelay) % TimerModulus;
      assert times[0] == next && times[1..] == PacedTimes(next, m.stepDelay, k - 1);
      assert Elapsed(next, m.lastStepTime) == m.stepDelay;
      var m' := Tick(m, stepsPerRevolution, next);
      if m.stepsLeft == 0 {
        StalledRunIsNoop(m, stepsPerRevolution, times[1..]);
      } else {
        assert m'.lastStepTime == next && m'.stepDelay == m.stepDelay;
        PacedRun(m', stepsPerRevolution, k - 1);
      }
    }
  }

  /** A step back undoes a step forward and vice versa. */
  lemma NextStepInverse(s: int, stepsPerRevolution: int, forward: bool)
    requires 0 <= s < stepsPerRevolution
    ensures NextStep(NextStep(s, stepsPerRevolution, forward), stepsPerRevolution, !forward) == s
  {
  }

  /** k + 1 steps are k steps followed by one more. */
  lemma {:induction false} AdvanceLast(s: int, stepsPerRevolution: int, forward: bool, k: nat)
    requires 0 <= s < stepsPerRevolution
    ensures Advance(s, stepsPerRevolution, forward, k + 1)
      == NextStep(Advance(s, stepsPerRevolution, forward, k), stepsPerRevolution, forward)
    decreases k
  {
    if k > 0 {
      AdvanceLast(NextStep(s, stepsPerRevolution, forward), stepsPerRevolution, forward, k - 1);
    }
  }

  /** k steps in one direction followed by k steps in the other return to
      the starting step number. */
  lemma {:induction false} AdvanceReverse(s: int, stepsPerRevolution: int, forward: bool, k: nat)
    requires 0 <= s < stepsPerRevolution
    ensures Advance(Advance(s, stepsPerRevolution, forward, k), stepsPerRevolution, !forward, k) == s
  {
    if k > 0 {
      var mid := Advance(s, stepsPerRevolution, forward, k - 1);
      AdvanceLast(s, stepsPerRevolution, forward, k - 1);
      NextStepInverse(mid, stepsPerRevolution, forward);
      AdvanceReverse(s, stepsPerRevolution, forward, k - 1);
    }
  }

  /** k steps from s land on s + k (forward) or s - k (backward) modulo the
      steps per revolution. */
  lemma {:induction false} AdvanceModulo(s: int, stepsPerRevolution: int, forward: bool, k: nat)
    requires 0 <= s < stepsPerRevolution
    ensures Advance(s, stepsPerRevolution, forward, k)
      == (if forward then s + k else s - k) % stepsPerRevolution
    decreases k
  {
    var n := stepsPerRevolution;
    if k == 0 {
      ModUnique(s, n, 0, s);
    } else {
      var prev := Advance(s, n, forward, k - 1);
      AdvanceModulo(s, n, forward, k - 1);
      AdvanceLast(s, n, forward, k - 1);
      assert Advance(s, n, forward, k) == NextStep(prev, n, forward);
      if forward {
        assert prev == (s + (k - 1)) % n;
        assert NextStep(prev, n, forward) == (prev + 1) % n;
        ModSuccessor(s + (k - 1), n);
        assert s + (k - 1) + 1 == s + k;
      } else {
        assert prev == (s - (k - 1)) % n;
        assert NextStep(prev, n, forward) == (prev - 1 + n) % n;
        ModPredecessor(s - (k - 1), n);
        assert s - (k - 1) - 1 == s - k;
      }
    }
  }

  lemma ModSuccessor(x: int, n: int)
    requires 0 < n
    ensures (x % n + 1) % n == (x + 1) % n
  {
    var q, r := x / n, x % n;
    ModUnique(x, n, q, r);
    if r + 1 < n {
      ModUnique(x + 1, n, q, r + 1);
      ModUnique(r + 1, n, 0, r + 1);
    } else {
      ModUnique(x + 1, n, q + 1, 0);
      ModUnique(r + 1, n, 1, 0);
    }
  }

  lemma ModPredecessor(x: int, n: int)
    requires 0 < n
    ensures (x % n - 1 + n) % n == (x - 1) % n
  {
    var q, r := x / n, x % n;
    ModUnique(x, n, q, r);
    if r == 0 {
      ModUnique(x - 1, n, q - 1, n - 1);
      ModUnique(n - 1, n, 0, n - 1);
    } else {
      ModUnique(x - 1, n, q, r - 1);
      ModUnique(r - 1 + n, n, 1, r - 1);
    }
  }

  /** step(n) for a motor with n steps per revolution, followed by n paced
      calls of move(): one full turn, ending on the starting step number. */
  lemma FullTurnRestores(m: Motion, stepsPerRevolution: int, forward: bool)
    requires Valid(m, stepsPerRevolution) && m.stepDelay > 0
    ensures var count := if forward then stepsPerRevolution else -stepsPerRevolution;
      var r := Run(Arm(m, count), stepsPerRevolution,
                   PacedTimes(m.lastStepTime, m.stepDelay, stepsPerRevolution));
      r.stepNumber == m.stepNumber && r.stepsLeft == 0
  {
    var n := stepsPerRevolution;
    var count := if forward then n else -n;
    PacedRun(Arm(m, count), n, n);
    AdvanceModulo(m.stepNumber, n, forward, n);
    if forward {
      ModUnique(m.stepNumber + n, n, 1, m.stepNumber);
    } else {
      ModUnique(m.stepNumber - n, n, -1, m.stepNumber);
    }
  }

  /** step(k), k paced calls of move(), then step(-k) and k more paced calls:
      the motor turns k steps forward and comes back to its starting step
      number with nothing left to do. */
  lemma ForwardThenReverseRestores(m: Motion, stepsPerRevolution: int, k: nat)
    requires Valid(m, stepsPerRevolution) && m.stepDelay > 0
    ensures var there := Run(Arm(m, k), stepsPerRevolution, PacedTimes(m.lastStepTime, m.stepDelay, k));
      var back := Run(Arm(there, -(k as int)), stepsPerRevolution, PacedTimes(there.lastStepTime, m.stepDelay, k));
      && there.stepNumber == Advance(m.stepNumber, stepsPerRevolution, true, k)
      && back.stepNumber == m.stepNumber
      && back.stepsLeft == 0
  {
    var a := Arm(m, k);
    PacedRun(a, stepsPerRevolution, k);
    var there := Run(a, stepsPerRevolution, PacedTimes(m.lastStepTime, m.stepDelay, k));
    var b := Arm(there, -(k as int));
    PacedRun(b, stepsPerRevolution, k);
    if k > 0 {
      AdvanceReverse(m.stepNumber, stepsPerRevolution, true, k);
    }
  }

  /** When the steps per revolution are a multiple of the cycle length, every
      step moves the emitted table row one place along the cycle, in the
      direction of the step, also across the wrap from the last step number
      to 0 and back. */
  lemma RowAfterStep(s: int, stepsPerRevolution: int, forward: bool, pinCount: int)
    requires 0 <= s < stepsPerRevolution && SupportedPinCount(pinCount)
    requires stepsPerRevolution % CycleLength(pinCount) == 0
    ensures var c := CycleLength(pinCount);
      NextStep(s, stepsPerRevolution, forward) % c
        == if forward then (s % c + 1) % c else (s % c + c - 1) % c
  {
    var c := CycleLength(pinCount);
    if forward {
      StepModForward(s, stepsPerRevolution, c);
    } else {
      StepModBackward(s, stepsPerRevolution, c);
    }
  }

  lemma StepModForward(s: int, n: int, c: int)
    requires 0 <= s < n && 0 < c && n % c == 0
    ensures (if s + 1 == n then 0 else s + 1) % c == (s % c + 1) % c
  {
    var q, r := s / c, s % c;
    ModUnique(s, c, q, r);
    ModUnique(c, c, 1, 0);
    ModUnique(0, c, 0, 0);
    if s + 1 == n {
      ModUnique(n, c, n / c, 0);
      ModUnique(s, c, n / c - 1, c - 1);
    } else if r + 1 < c {
      ModUnique(s + 1, c, q, r + 1);
      ModUnique(r + 1, c, 0, r + 1);
    } else {
      ModUnique(s + 1, c, q + 1, 0);
    }
  }

  lemma StepModBackward(s: int, n: int, c: int)
    requires 0 <= s < n && 0 < c && n % c == 0
    ensures (if s == 0 then n - 1 else s - 1) % c == (s % c + c - 1) % c
  {
    var q, r := s / c, s % c;
    ModUnique(s, c, q, r);
    ModUnique(c - 1, c, 0, c - 1);
    if s == 0 {
      ModUnique(0, c, 0, 0);
      ModUnique(n, c, n / c, 0);
      ModUnique(n - 1, c, n / c - 1, c - 1);
    } else if r == 0 {
      ModUnique(s - 1, c, q - 1, c - 1);
    } else {
      ModUnique(s - 1, c, q, r - 1);
      ModUnique(r + c - 1, c, 1, r - 1);
    }
  }

  /** The remainder of x modulo c is the r of any decomposition x == q * c + r
      with 0 <= r < c. */
  lemma ModUnique(x: int, c: int, q: int, r: int)
    requires 0 < c && 0 <= r < c && x == q * c + r
    ensures x % c == r && x / c == q
  {
    var d := q - x / c;
    assert d * c == x % c - r by {
      assert x == (x / c) * c + x % c;
      assert d * c == q * c - (x / c) * c;
    }
    if d >= 1 {
      Speed.MulLeft(1, d, c);
    } else if d <= -1 {
      Speed.MulLeft(d, -1, c);
    }
  }

  /** Hence every step changes exactly one pin of a two-wire or five-phase
      motor and exactly one complementary pair of a four-wire motor. */
  lemma EachStepChangesPins(s: int, stepsPerRevolution: int, forward: bool, pinCount: int)
    requires 0 <= s < stepsPerRevolution && SupportedPinCount(pinCount)
    requires stepsPerRevolution % CycleLength(pinCount) == 0
    ensures var c, t := CycleLength(pinCount), Table(pinCount);
      Differences(t[s % c], t[NextStep(s, stepsPerRevolution, forward) % c])
        == if pinCount == 4 then 2 else 1
  {
    var c := CycleLength(pinCount);
    var i, j := s % c, NextStep(s, stepsPerRevolution, forward) % c;
    RowAfterStep(s, stepsPerRevolution, forward, pinCount);
    if forward {
      assert j == (i + 1) % c;
      AdjacentRowsDiffer(pinCount, i);
    } else {
      assert (j + 1) % c == i by {
        assert j == (i + c - 1) % c;
        if i == 0 { assert j == c - 1; } else { assert j == i - 1; }
      }
      AdjacentRowsDiffer(pinCount, j);
      DifferencesSymmetric(Table(pinCount)[j], Table(pinCount)[i]);
    }
  }

  /** Without that condition the row sequence slips at the wrap: when the
      steps per revolution are not a multiple of the cycle length, the forward
      step from the last step number to 0 does not emit the next row of the
      cycle. With RowAfterStep, a forward step always emits the next row if
      and only if the steps per revolution are a multiple of the cycle length. */
  lemma PhaseSlipAtWrap(stepsPerRevolution: int, pinCount: int)
    requires stepsPerRevolution > 0 && SupportedPinCount(pinCount)
    requires stepsPerRevolution % CycleLength(pinCount) != 0
    ensures var c, last := CycleLength(pinCount), stepsPerRevolution - 1;
      NextStep(last, stepsPerRevolution, true) % c != (last % c + 1) % c
  {
    var c, n := CycleLength(pinCount), stepsPerRevolution;
    var q, r := (n - 1) / c, (n - 1) % c;
    ModUnique(n - 1, c, q, r);
    ModUnique(0, c, 0, 0);
    if r + 1 == c {
      ModUnique(n, c, q + 1, 0);
      assert false;
    } else {
      ModUnique(r + 1, c, 0, r + 1);
    }
  }

  /** The smallest instance: a four-wire motor with 6 steps per revolution,
      stepping forward from step 5 to step 0, emits row 0 after row 1, which
      is the row a backward step would emit. */
  lemma PhaseSlipExample()
    ensures 6 % CycleLength(4) != 0
    ensures 5 % 4 == 1 && NextStep(5, 6, true) % 4 == 0
    ensures NextStep(5, 6, true) % 4 == (5 % 4 + 4 - 1) % 4
  {
  }
}
