/**
 * Step-size control of the stepper: the largest time constant capped at one
 * second, the smallest time constant used as step size, the step budget
 * derived from their ratio, and the halving schedule of the fixed-step
 * relaxation scheme.
 *
 * The time constants of the growth rates are 1/rate in IEEE arithmetic, so a
 * zero rate gives +infinity: it never wins a minimum and always wins a maximum.
 */
module StepControl {
  import opened Beam

  const MaxSteps: int := 10000
  const MaxTauCeiling: real := 1.0

  /** A time constant in IEEE arithmetic: finite, or +infinity. */
  datatype Extended = Finite(value: real) | Infinite

  /** 1.0 / rate: +infinity for a zero rate. */
  function Inverse(rate: real): (r: Extended)
    ensures r.Infinite? <==> rate == 0.0
    ensures r.Finite? ==> r.value * rate == 1.0
  {
    if rate == 0.0 then Infinite else Finite(1.0 / rate)
  }

  /** std::max of an extended value and an extended value. */
  function MaxExt(a: Extended, b: Extended): Extended {
    if a.Infinite? || b.Infinite? then Infinite
    else if a.value < b.value then b else a
  }

  /** std::min of a finite value and an extended value: always finite. */
  function MinExt(a: real, b: Extended): real {
    if b.Finite? && b.value < a then b.value else a
  }

  /** std::min(x, c) for a finite ceiling c. */
  function Cap(x: Extended, c: real): real {
    if x.Finite? && x.value < c then x.value else c
  }

  function Max(a: real, b: real): real { if a < b then b else a }
  function Min(a: real, b: real): real { if b < a then b else a }

  /** A candidate `v` is one of the growth-rate time constants. */
  predicate IsRateTime(ibs: Rates, v: real) {
    (ibs.s != 0.0 && v == 1.0 / ibs.s) ||
    (ibs.x != 0.0 && v == 1.0 / ibs.x) ||
    (ibs.y != 0.0 && v == 1.0 / ibs.y)
  }

  /** The largest of the damping times and the growth-rate time constants,
      capped at one second. */
  function MaxTau(eq: Equilibrium, ibs: Rates): (taum: real)
    ensures taum <= MaxTauCeiling
    ensures Min(eq.tauX, 1.0) <= taum && Min(eq.tauY, 1.0) <= taum && Min(eq.tauS, 1.0) <= taum
    ensures ibs.s != 0.0 ==> Min(1.0 / ibs.s, 1.0) <= taum
    ensures ibs.x != 0.0 ==> Min(1.0 / ibs.x, 1.0) <= taum
    ensures ibs.y != 0.0 ==> Min(1.0 / ibs.y, 1.0) <= taum
    ensures (ibs.s == 0.0 || ibs.x == 0.0 || ibs.y == 0.0) ==> taum == MaxTauCeiling
    ensures taum == MaxTauCeiling || taum == eq.tauX || taum == eq.tauY || taum == eq.tauS || IsRateTime(ibs, taum)
    ensures taum == MaxTauCeiling ==>
      ibs.s == 0.0 || ibs.x == 0.0 || ibs.y == 0.0 ||
      1.0 <= eq.tauX || 1.0 <= eq.tauY || 1.0 <= eq.tauS ||
      (ibs.s != 0.0 && 1.0 <= 1.0 / ibs.s) || (ibs.x != 0.0 && 1.0 <= 1.0 / ibs.x) ||
      (ibs.y != 0.0 && 1.0 <= 1.0 / ibs.y)
  {
    var m := Max(Max(eq.tauX, eq.tauY), eq.tauS);
    var m' := MaxExt(MaxExt(MaxExt(Finite(m), Inverse(ibs.s)), Inverse(ibs.x)), Inverse(ibs.y));
    Cap(m', 1.0)
  }

  /** The smallest of the damping times and the finite growth-rate time constants. */
  function MinTau(eq: Equilibrium, ibs: Rates): (ddt: real)
    ensures ddt <= eq.tauX && ddt <= eq.tauY && ddt <= eq.tauS
    ensures ibs.s != 0.0 ==> ddt <= 1.0 / ibs.s
    ensures ibs.x != 0.0 ==> ddt <= 1.0 / ibs.x
    ensures ibs.y != 0.0 ==> ddt <= 1.0 / ibs.y
    ensures ddt == eq.tauX || ddt == eq.tauY || ddt == eq.tauS || IsRateTime(ibs, ddt)
  {
    var m := Min(Min(eq.tauX, eq.tauY), eq.tauS);
    MinExt(MinExt(MinExt(m, Inverse(ibs.s)), Inverse(ibs.x)), Inverse(ibs.y))
  }

  predicate PositiveDampingTimes(eq: Equilibrium) {
    eq.tauX > 0.0 && eq.tauY > 0.0 && eq.tauS > 0.0
  }

  predicate NonNegativeRates(ibs: Rates) {
    ibs.s >= 0.0 && ibs.x >= 0.0 && ibs.y >= 0.0
  }

  /** The step size is positive exactly when every damping time is positive
      and no growth rate is negative. */
  lemma MinTauPositiveIff(eq: Equilibrium, ibs: Rates)
    ensures MinTau(eq, ibs) > 0.0 <==> PositiveDampingTimes(eq) && NonNegativeRates(ibs)
  {
    var ddt := MinTau(eq, ibs);
    if PositiveDampingTimes(eq) && NonNegativeRates(ibs) {
      if ibs.s != 0.0 { assert 1.0 / ibs.s > 0.0; }
      if ibs.x != 0.0 { assert 1.0 / ibs.x > 0.0; }
      if ibs.y != 0.0 { assert 1.0 / ibs.y > 0.0; }
    }
    if ibs.s < 0.0 { assert 1.0 / ibs.s < 0.0; }
    if ibs.x < 0.0 { assert 1.0 / ibs.x < 0.0; }
    if ibs.y < 0.0 { assert 1.0 / ibs.y < 0.0; }
  }

  /** With non-zero damping times the step size is never zero, so the step
      budget can always be computed. */
  lemma MinTauNonZero(eq: Equilibrium, ibs: Rates)
    requires eq.tauX != 0.0 && eq.tauY != 0.0 && eq.tauS != 0.0
    ensures MinTau(eq, ibs) != 0.0
  {
    if ibs.s != 0.0 { InverseNonZero(ibs.s); }
    if ibs.x != 0.0 { InverseNonZero(ibs.x); }
    if ibs.y != 0.0 { InverseNonZero(ibs.y); }
  }

  lemma InverseNonZero(r: real)
    requires r != 0.0
    ensures 1.0 / r != 0.0
  {
    assert (1.0 / r) * r == 1.0;
  }

  /** C++'s conversion of a double to int: truncation toward zero
      (values outside the int range are not modelled). */
  function TruncateToInt(x: real): (n: int)
    ensures x >= 0.0 ==> n as real <= x < n as real + 1.0
    ensures x <= 0.0 ==> n as real - 1.0 < x <= n as real
  {
    if x >= 0.0 then x.Floor else -((-x).Floor)
  }

  /** The step budget: ten maximum time constants in steps of ddt, at most MaxSteps. */
  function StepBudget(taum: real, ddt: real): (ms: int)
    requires ddt != 0.0
    ensures ms <= MaxSteps
    ensures ms <= TruncateToInt(10.0 * taum / ddt)
    ensures ms == MaxSteps || ms == TruncateToInt(10.0 * taum / ddt)
  {
    var n := TruncateToInt(10.0 * taum / ddt);
    if MaxSteps < n then MaxSteps else n
  }

  /** With a positive step size no larger than one second, the budget is at least ten steps. */
  lemma StepBudgetAtLeastTen(eq: Equilibrium, ibs: Rates)
    requires 0.0 < MinTau(eq, ibs) <= 1.0
    ensures 10 <= StepBudget(MaxTau(eq, ibs), MinTau(eq, ibs)) <= MaxSteps
  {
    var taum, ddt := MaxTau(eq, ibs), MinTau(eq, ibs);
    assert ddt <= taum by {
      assert ddt <= eq.tauX;
      assert Min(eq.tauX, 1.0) <= taum;
    }
    QuotientAtLeast(10.0 * taum, ddt, 10.0);
  }

  /** a / b >= c for b > 0 and a >= c * b. */
  lemma QuotientAtLeast(a: real, b: real, c: real)
    requires b > 0.0 && a >= c * b
    ensures a / b >= c
  {
    var q := a / b;
    assert q * b == a;
    if q < c {
      assert q * b < c * b;
    }
  }

  /** A step-size schedule that starts from `start` and, at each step, either
      keeps the previous size or halves it: `halve[j]` says which. */
  predicate HalvingSchedule(start: real, halve: seq<bool>, dts: seq<real>) {
    |dts| == |halve| &&
    forall j :: 0 <= j < |dts| ==> ScheduleStep(start, halve, dts, j)
  }

  /** Step j of the schedule: halve the previous size or keep it. */
  predicate ScheduleStep(start: real, halve: seq<bool>, dts: seq<real>, j: nat)
    requires j < |dts| && j < |halve|
  {
    dts[j] == if halve[j] then Previous(start, dts, j) / 2.0 else Previous(start, dts, j)
  }

  /** The step size in force before step j. */
  function Previous(start: real, dts: seq<real>, j: nat): real
    requires j <= |dts|
  {
    if j == 0 then start else dts[j - 1]
  }

  /** The number of halvings among the first n steps. */
  function Halvings(halve: seq<bool>, n: nat): (h: nat)
    requires n <= |halve|
    ensures h <= n
  {
    if n == 0 then 0 else Halvings(halve, n - 1) + (if halve[n - 1] then 1 else 0)
  }

  function Pow2(n: nat): (p: real)
    ensures p >= 1.0
  {
    if n == 0 then 1.0 else 2.0 * Pow2(n - 1)
  }

  /** Step j of a halving schedule is the start size divided by two to the
      number of halvings so far. */
  lemma {:induction false} HalvingScheduleClosedForm(start: real, halve: seq<bool>, dts: seq<real>, j: nat)
    requires HalvingSchedule(start, halve, dts) && j < |dts|
    ensures dts[j] == start / Pow2(Halvings(halve, j + 1))
  {
    var prev := Previous(start, dts, j);
    assert ScheduleStep(start, halve, dts, j);
    if j > 0 {
      HalvingScheduleClosedForm(start, halve, dts, j - 1);
    }
    assert prev == start / Pow2(Halvings(halve, j));
    if halve[j] {
      calc {
        dts[j];
        prev / 2.0;
        start / Pow2(Halvings(halve, j)) / 2.0;
        start / (2.0 * Pow2(Halvings(halve, j)));
      }
    }
  }

  /** A positive start size stays positive, never grows, and never exceeds the start. */
  lemma {:induction false} HalvingSchedulePositive(start: real, halve: seq<bool>, dts: seq<real>, j: nat)
    requires HalvingSchedule(start, halve, dts) && start > 0.0 && j < |dts|
    ensures 0.0 < dts[j] <= start
    ensures dts[j] <= Previous(start, dts, j)
  {
    assert ScheduleStep(start, halve, dts, j);
    if j > 0 {
      HalvingSchedulePositive(start, halve, dts, j - 1);
    }
  }

  /** Without halvings the schedule is constant. */
  lemma {:induction false} HalvingScheduleConstant(start: real, halve: seq<bool>, dts: seq<real>, j: nat)
    requires HalvingSchedule(start, halve, dts) && j < |dts|
    requires forall k :: 0 <= k <= j ==> !halve[k]
    ensures dts[j] == start
  {
    assert ScheduleStep(start, halve, dts, j);
    if j > 0 {
      HalvingScheduleConstant(start, halve, dts, j - 1);
    }
  }
}
