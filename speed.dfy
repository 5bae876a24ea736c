/** Conversion of a requested speed into the whole-microsecond delay between
    two steps (the step_delay field of the Stepper class). */
module Speed {

  /** Microseconds in one minute and in one second. */
  const MicrosPerMinute: int := 60 * 1000 * 1000
  const MicrosPerSecond: int := 1000 * 1000

  /** If a <= b then a * c <= b * c for c >= 0. */
  lemma MulLeft(a: int, b: int, c: int)
    requires a <= b && 0 <= c
    ensures a * c <= b * c
  {
    assert b * c - a * c == (b - a) * c;
  }

  /** The delay for `rpm` revolutions per minute on a motor with
      `stepsPerRevolution` steps: 0 (no stepping) for a non-positive speed,
      otherwise the largest whole number of microseconds d such that
      stepsPerRevolution * rpm steps of d microseconds fit into one minute.
      It is computed as in the library, by two truncating divisions. */
  function RpmDelay(stepsPerRevolution: int, rpm: int): (d: nat)
    requires stepsPerRevolution > 0
    ensures rpm <= 0 ==> d == 0
    ensures rpm > 0 ==> d * (stepsPerRevolution * rpm) <= MicrosPerMinute
    ensures rpm > 0 ==> MicrosPerMinute < (d + 1) * (stepsPerRevolution * rpm)
    ensures d <= MicrosPerMinute
  {
    if rpm <= 0 then 0
    else
      NestedDivision(MicrosPerMinute, stepsPerRevolution, rpm);
      MicrosPerMinute / stepsPerRevolution / rpm
  }

  /** Dividing by b and then by c truncates like one division by b * c:
      the quotient q is the largest with q * (b * c) <= a. */
  lemma NestedDivision(a: int, b: int, c: int)
    requires 0 <= a && 0 < b && 0 < c
    ensures var q := a / b / c; 0 <= q <= a && q * (b * c) <= a < (q + 1) * (b * c)
  {
    var p := a / b;
    var q := p / c;
    DivBounds(a, b);
    DivBounds(p, c);
    MulLeft(q * c, p, b);
    MulLeft(p + 1, (q + 1) * c, b);
    Regroup(q, b, c);
    Regroup(q + 1, b, c);
  }

  /** The quotient of a truncating division by a positive divisor. */
  lemma DivBounds(a: int, b: int)
    requires 0 <= a && 0 < b
    ensures 0 <= a / b <= a
    ensures (a / b) * b <= a < (a / b + 1) * b
  {
    assert a == (a / b) * b + a % b;
    assert (a / b + 1) * b == (a / b) * b + b;
    MulLeft(1, b, a / b);
  }

  lemma Regroup(q: int, b: int, c: int)
    ensures q * (b * c) == q * c * b
  {
  }

  /** The delay for `pps` steps per second: 0 for a non-positive speed,
      otherwise the largest whole number of microseconds d such that pps steps
      of d microseconds fit into one second. */
  function PpsDelay(pps: int): (d: nat)
    ensures pps <= 0 ==> d == 0
    ensures pps > 0 ==> d * pps <= MicrosPerSecond < (d + 1) * pps
    ensures d <= MicrosPerSecond
  {
    if pps <= 0 then 0 else MicrosPerSecond / pps
  }

  /** A faster speed never gives a longer delay. */
  lemma RpmDelayAntitone(stepsPerRevolution: int, slow: int, fast: int)
    requires stepsPerRevolution > 0 && 0 < slow <= fast
    ensures RpmDelay(stepsPerRevolution, fast) <= RpmDelay(stepsPerRevolution, slow)
  {
    var dSlow, dFast := RpmDelay(stepsPerRevolution, slow), RpmDelay(stepsPerRevolution, fast);
    MulLeft(slow, fast, stepsPerRevolution * dFast);
    assert dFast * (stepsPerRevolution * slow) <= MicrosPerMinute by {
      assert dFast * (stepsPerRevolution * slow) == slow * (stepsPerRevolution * dFast);
      assert dFast * (stepsPerRevolution * fast) == fast * (stepsPerRevolution * dFast);
    }
    if dFast > dSlow {
      MulLeft(dSlow + 1, dFast, stepsPerRevolution * slow);
      assert false;
    }
  }

  /** The same for a speed given in steps per second. */
  lemma PpsDelayAntitone(slow: int, fast: int)
    requires 0 < slow <= fast
    ensures PpsDelay(fast) <= PpsDelay(slow)
  {
    var dSlow, dFast := PpsDelay(slow), PpsDelay(fast);
    MulLeft(slow, fast, dFast);
    if dFast > dSlow {
      MulLeft(dSlow + 1, dFast, slow);
      assert false;
    }
  }

  /** setSpeedRpm disables stepping exactly when the speed is not positive or
      so high that one step takes less than a whole microsecond. */
  lemma RpmDelayZero(stepsPerRevolution: int, rpm: int)
    requires stepsPerRevolution > 0
    ensures RpmDelay(stepsPerRevolution, rpm) == 0
      <==> rpm <= 0 || stepsPerRevolution * rpm > MicrosPerMinute
  {
    var d := RpmDelay(stepsPerRevolution, rpm);
    if rpm > 0 && d >= 1 {
      MulLeft(1, d, stepsPerRevolution * rpm);
    }
  }

  /** setSpeedPps disables stepping exactly when the speed is not positive or
      above one step per microsecond. */
  lemma PpsDelayZero(pps: int)
    ensures PpsDelay(pps) == 0 <==> pps <= 0 || pps > MicrosPerSecond
  {
    var d := PpsDelay(pps);
    if pps > 0 && d >= 1 {
      MulLeft(1, d, pps);
    }
  }
}
