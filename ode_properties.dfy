/**
 * Properties of whole runs of the stepper, stated over the trajectories the
 * two overloads of ODE return (their postconditions are the hypotheses):
 * time advances, the fixed-step sizes only shrink, the energy-spread vector
 * lines up with the others only when it arrives empty, and a beam seeded at
 * the radiation equilibrium with no IBS stays there.
 */
module OdeProperties {
  import opened Beam
  import opened Settings
  import opened StepControl
  import opened UpdateRules
  import opened Ode

  /** With positive damping times, and growth rates that are not negative at
      the states the step sizes are taken from, every step of the convergence
      loop advances time. */
  lemma ConvergenceTimeIncreasing(scheme: string, k: RunConstants, co: Collaborators, model: int,
                                  tr: Trajectory, m: nat, n: nat)
    requires Shaped(tr, m, n) && SchemeReady(scheme, k.eq)
    requires forall j :: 0 <= j < n ==> ConvergenceStep(scheme, k, co, model, tr, m, j)
    requires PositiveDampingTimes(k.eq)
    requires forall j :: 0 <= j < n ==> NonNegativeRates(co.bank(model, StateAt(tr, RatesIndex(j))))
    ensures forall j :: 0 <= j < n ==> tr.t[j] < tr.t[j + 1]
  {
    forall j | 0 <= j < n
      ensures tr.t[j] < tr.t[j + 1]
    {
      assert ConvergenceStep(scheme, k, co, model, tr, m, j);
      var ibsPrev := co.bank(model, StateAt(tr, RatesIndex(j)));
      assert NonNegativeRates(ibsPrev);
      MinTauPositiveIff(k.eq, ibsPrev);
    }
  }

  /** From a positive initial step size, the fixed-step sizes stay positive,
      never exceed the initial one and never grow from one step to the next,
      so time advances at every step. */
  lemma FixedStepSizesShrink(scheme: string, k: RunConstants, co: Collaborators, model: int,
                             stepsize: real, tr: Trajectory, m: nat, dts: seq<real>)
    requires Grown(tr, m) && |dts| + 1 == |tr.t| && SchemeReady(scheme, k.eq)
    requires forall j :: 0 <= j < |dts| ==> FixedStep(scheme, k, co, model, stepsize, tr, m, dts, j)
    requires stepsize > 0.0
    ensures forall j :: 0 <= j < |dts| ==> 0.0 < dts[j] <= stepsize
    ensures forall j :: 0 < j < |dts| ==> dts[j] <= dts[j - 1]
    ensures forall j :: 0 <= j < |dts| ==> tr.t[j] < tr.t[j + 1]
  {
    FixedSchedule(scheme, k, co, model, stepsize, tr, m, dts);
    var flags := HalvingFlags(scheme, k.eq, co.bank, model, tr, |dts|);
    forall j | 0 <= j < |dts|
      ensures 0.0 < dts[j] <= stepsize && dts[j] <= Previous(stepsize, dts, j)
      ensures tr.t[j] < tr.t[j + 1]
    {
      HalvingSchedulePositive(stepsize, flags, dts, j);
      assert FixedStep(scheme, k, co, model, stepsize, tr, m, dts, j);
    }
  }

  /** The derivative scheme never halves: every fixed step uses the initial step size. */
  lemma FixedDerivativeStepConstant(scheme: string, k: RunConstants, co: Collaborators, model: int,
                                    stepsize: real, tr: Trajectory, m: nat, dts: seq<real>)
    requires Grown(tr, m) && |dts| + 1 == |tr.t| && SchemeReady(scheme, k.eq)
    requires forall j :: 0 <= j < |dts| ==> FixedStep(scheme, k, co, model, stepsize, tr, m, dts, j)
    requires scheme != Relaxation
    ensures forall j :: 0 <= j < |dts| ==> dts[j] == stepsize
  {
    FixedSchedule(scheme, k, co, model, stepsize, tr, m, dts);
    var flags := HalvingFlags(scheme, k.eq, co.bank, model, tr, |dts|);
    forall j | 0 <= j < |dts|
      ensures dts[j] == stepsize
    {
      HalvingScheduleConstant(stepsize, flags, dts, j);
    }
  }

  /** With an empty energy-spread vector on entry, the state the growth rates
      are evaluated at after step j is the one step j computed, its bunch
      length derived from its energy spread, and the vectors stay aligned. */
  lemma AlignedWhenEmpty(tr: Trajectory, n: nat, j: nat, q: Point, sigsFromSige: real -> real)
    requires Shaped(tr, 0, n) && j < n && Appended(tr, 0, j, q, sigsFromSige)
    ensures |tr.sige| == |tr.t|
    ensures StateAt(tr, j + 1) == BeamState(q.ex, q.ey, sigsFromSige(q.sige), q.sige)
    ensures PointAt(tr, j + 1) == q
  {
  }

  /** With m energy spreads on entry, the first states read the stale
      entries: the seed sits at index m, and up to index m the energy spread
      and the bunch length do not come from the step just taken. */
  lemma MisalignedWhenNonEmpty(tr: Trajectory, sigeIn: seq<real>, sige0: real, n: nat, j: nat,
                               q: Point, sigsFromSige: real -> real)
    requires Shaped(tr, |sigeIn|, n) && tr.sige[..|sigeIn| + 1] == sigeIn + [sige0]
    requires j < n && Appended(tr, |sigeIn|, j, q, sigsFromSige)
    requires 1 <= |sigeIn|
    ensures StateAt(tr, 0).sige == sigeIn[0] && tr.sige[|sigeIn|] == sige0
    ensures |tr.sige| == |tr.t| + |sigeIn|
    ensures tr.sige[|sigeIn| + 1 + j] == q.sige
    ensures j + 1 < |sigeIn| ==>
      StateAt(tr, j + 1).sige == sigeIn[j + 1] && tr.sigs[j + 1] == sigsFromSige(sigeIn[j + 1])
    ensures j + 1 == |sigeIn| ==>
      StateAt(tr, j + 1).sige == sige0 && tr.sigs[j + 1] == sigsFromSige(sige0)
  {
    assert tr.sige[0] == (sigeIn + [sige0])[0];
    assert tr.sige[|sigeIn|] == (sigeIn + [sige0])[|sigeIn|];
    if j + 1 <= |sigeIn| {
      assert tr.sige[j + 1] == (sigeIn + [sige0])[j + 1];
    }
  }

  /** The seed is at the radiation equilibrium of the run. */
  predicate AtEquilibrium(k: RunConstants, tr: Trajectory)
    requires HasStates(tr, 1)
  {
    tr.ex[0] == k.eq.exEq && tr.ey[0] == k.eyTarget && tr.sige[0] == k.sigeTarget
  }

  /** No IBS: the selected model gives zero growth rates at every state. */
  ghost predicate NoIbs(co: Collaborators, model: int) {
    forall s: BeamState :: co.bank(model, s) == Rates(0.0, 0.0, 0.0)
  }

  /** The seed state repeated: ex, ey and sige at index j are those at index 0. */
  predicate Held(tr: Trajectory, j: nat)
    requires HasStates(tr, j + 1)
  {
    tr.ex[j] == tr.ex[0] && tr.ey[j] == tr.ey[0] && tr.sige[j] == tr.sige[0]
  }

  /** A convergence run seeded at the equilibrium without IBS stays at the
      seed, in either scheme, when the energy spread arrived empty. */
  lemma {:induction false} ConvergenceEquilibriumHeld(scheme: string, k: RunConstants, co: Collaborators,
                                                      model: int, tr: Trajectory, n: nat, j: nat)
    requires Shaped(tr, 0, n) && SchemeReady(scheme, k.eq)
    requires forall i :: 0 <= i < n ==> ConvergenceStep(scheme, k, co, model, tr, 0, i)
    requires NoIbs(co, model) && AtEquilibrium(k, tr)
    requires j <= n
    ensures Held(tr, j)
  {
    if j > 0 {
      ConvergenceEquilibriumHeld(scheme, k, co, model, tr, n, j - 1);
      assert ConvergenceStep(scheme, k, co, model, tr, 0, j - 1);
      var ibsPrev := co.bank(model, StateAt(tr, RatesIndex(j - 1)));
      EquilibriumIsFixedPoint(k, ConvergenceDt(scheme, k.eq, ibsPrev), PointAt(tr, j - 1));
    }
  }

  /** The same for a fixed-step run. */
  lemma {:induction false} FixedEquilibriumHeld(scheme: string, k: RunConstants, co: Collaborators,
                                                model: int, stepsize: real, tr: Trajectory,
                                                dts: seq<real>, j: nat)
    requires Grown(tr, 0) && |dts| + 1 == |tr.t| && SchemeReady(scheme, k.eq)
    requires forall i :: 0 <= i < |dts| ==> FixedStep(scheme, k, co, model, stepsize, tr, 0, dts, i)
    requires NoIbs(co, model) && AtEquilibrium(k, tr)
    requires j <= |dts|
    ensures Held(tr, j)
  {
    if j > 0 {
      FixedEquilibriumHeld(scheme, k, co, model, stepsize, tr, dts, j - 1);
      assert FixedStep(scheme, k, co, model, stepsize, tr, 0, dts, j - 1);
      EquilibriumIsFixedPoint(k, dts[j - 1], PointAt(tr, j - 1));
    }
  }

  /** A value that did not change never exceeds a non-negative threshold. */
  lemma UnchangedNeverExceeds(v: real, threshold: real)
    requires threshold >= 0.0
    ensures !Exceeds(v, v, threshold)
  {
    if v != 0.0 {
      assert (v - v) / v == 0.0;
    }
  }

  /** Seeded at the equilibrium without IBS, a convergence run finds no
      change at its second iteration: ex, ey and sige are held, and sigs is
      derived from the same energy spread at indices 1 and 2. */
  lemma ConvergenceAtEquilibriumUnchanged(scheme: string, k: RunConstants, co: Collaborators,
                                          model: int, tr: Trajectory, n: nat, threshold: real)
    requires Shaped(tr, 0, n) && SchemeReady(scheme, k.eq)
    requires forall i :: 0 <= i < n ==> ConvergenceStep(scheme, k, co, model, tr, 0, i)
    requires NoIbs(co, model) && AtEquilibrium(k, tr)
    requires threshold >= 0.0 && 2 <= n
    ensures !AnyExceeds(tr.ex, tr.ey, tr.sigs, 2, threshold)
  {
    ConvergenceEquilibriumHeld(scheme, k, co, model, tr, n, 1);
    ConvergenceEquilibriumHeld(scheme, k, co, model, tr, n, 2);
    assert ConvergenceStep(scheme, k, co, model, tr, 0, 0);
    assert ConvergenceStep(scheme, k, co, model, tr, 0, 1);
    assert tr.sigs[2] == tr.sigs[1];
    UnchangedNeverExceeds(tr.ex[1], threshold);
    UnchangedNeverExceeds(tr.ey[1], threshold);
    UnchangedNeverExceeds(tr.sigs[1], threshold);
  }

  /** Hence the convergence loop, which only goes on while something changes,
      stops after at most two iterations. */
  lemma ConvergenceAtEquilibriumStopsEarly(scheme: string, k: RunConstants, co: Collaborators,
                                           model: int, tr: Trajectory, n: nat, threshold: real)
    requires Shaped(tr, 0, n) && SchemeReady(scheme, k.eq)
    requires forall i :: 0 <= i < n ==> ConvergenceStep(scheme, k, co, model, tr, 0, i)
    requires NoIbs(co, model) && AtEquilibrium(k, tr)
    requires forall i :: 1 <= i < n ==> AnyExceeds(tr.ex, tr.ey, tr.sigs, i, threshold)
    requires threshold >= 0.0
    ensures n <= 2
  {
    if n > 2 {
      ConvergenceAtEquilibriumUnchanged(scheme, k, co, model, tr, n, threshold);
      assert false;
    }
  }

  /** Once the convergence loop stops before its budget, each of ex, ey and
      sigs changed by at most the threshold relative to its previous value
      (and a zero previous value stayed zero). */
  lemma ConvergedWithinThreshold(ex: seq<real>, ey: seq<real>, sigs: seq<real>, i: nat, threshold: real)
    requires 1 <= i < |ex| && i < |ey| && i < |sigs|
    requires !AnyExceeds(ex, ey, sigs, i, threshold)
    ensures ex[i - 1] != 0.0 ==> Abs((ex[i] - ex[i - 1]) / ex[i - 1]) <= threshold
    ensures ey[i - 1] != 0.0 ==> Abs((ey[i] - ey[i - 1]) / ey[i - 1]) <= threshold
    ensures sigs[i - 1] != 0.0 ==> Abs((sigs[i] - sigs[i - 1]) / sigs[i - 1]) <= threshold
    ensures ex[i - 1] == 0.0 ==> ex[i] == 0.0
    ensures ey[i - 1] == 0.0 ==> ey[i] == 0.0
    ensures sigs[i - 1] == 0.0 ==> sigs[i] == 0.0
  {
  }
}
