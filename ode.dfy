/**
 * The equilibrium stepper: the two overloads of ODE. Both sanitise their
 * configuration, seed the energy spread from the RF bucket, and then run a
 * do-while loop that evaluates the selected IBS model at the current state,
 * advances the state with the chosen scheme and appends one sample to each
 * of the vectors t, ex, ey, sige, sige2 and sigs.
 *
 * - OdeUntilConverged derives its step size from the fastest time constant
 *   and stops at the step budget or once ex, ey and sigs all change by at
 *   most the threshold;
 * - OdeFixedSteps runs a caller-given number of steps with a caller-given
 *   step size, halved in the relaxation scheme whenever a ratio reaches 1.
 *
 * The energy-spread vector is a value parameter in the source: the caller
 * never sees what is appended to it, so it is returned here only as a ghost.
 */
module Ode {
  import opened Beam
  import opened Settings
  import opened StepControl
  import opened UpdateRules

  /** The six parallel vectors the stepper grows. */
  datatype Trajectory = Trajectory(
    t: seq<real>, ex: seq<real>, ey: seq<real>, sigs: seq<real>,
    sige: seq<real>, sige2: seq<real>)

  /** Indices below n can be read as beam states. */
  predicate HasStates(tr: Trajectory, n: nat) {
    n <= |tr.t| && n <= |tr.ex| && n <= |tr.ey| && n <= |tr.sigs| && n <= |tr.sige|
  }

  /** The beam state at index j, as the growth-rate models are called with it. */
  function StateAt(tr: Trajectory, j: nat): BeamState
    requires HasStates(tr, j + 1)
  {
    BeamState(tr.ex[j], tr.ey[j], tr.sigs[j], tr.sige[j])
  }

  /** The sample at index j, as the update rules read it. */
  function PointAt(tr: Trajectory, j: nat): Point
    requires HasStates(tr, j + 1)
  {
    Point(tr.t[j], tr.ex[j], tr.ey[j], tr.sige[j])
  }

  /** A trajectory of some number of steps. */
  predicate Grown(tr: Trajectory, m: nat) {
    |tr.t| >= 1 && Shaped(tr, m, |tr.t| - 1)
  }

  /** After n steps: n + 1 entries in every vector but sige, which also
      keeps the m entries it arrived with. */
  predicate Shaped(tr: Trajectory, m: nat, n: nat) {
    |tr.t| == n + 1 && |tr.ex| == n + 1 && |tr.ey| == n + 1 && |tr.sigs| == n + 1 &&
    |tr.sige2| == n + 1 && |tr.sige| == m + 1 + n
  }

  /** What the chosen scheme needs to be defined: the derivative scheme
      divides by the damping times. */
  predicate SchemeReady(scheme: string, eq: Equilibrium) {
    scheme != Relaxation ==> NonZeroDampingTimes(eq)
  }

  /** The update rule of the chosen scheme. */
  function Update(scheme: string, k: RunConstants, ibs: Rates, ddt: real, p: Point): (q: Point)
    requires scheme != Relaxation ==> NonZeroDampingTimes(k.eq)
    ensures q.t == p.t + ddt
  {
    if scheme == Relaxation then RelaxUpdate(k, ibs, ddt, p) else DerivativeUpdate(k, ibs, ddt, p)
  }

  /** Step j appended q: t, ex and ey got q at index j + 1, sige got q.sige at
      its end, and sige2 and sigs got values derived from sige at index j + 1,
      which is the new energy spread only when sige arrived empty (m == 0). */
  predicate Appended(tr: Trajectory, m: nat, j: nat, q: Point, sigsFromSige: real -> real)
    requires Grown(tr, m) && j + 1 < |tr.t|
  {
    tr.t[j + 1] == q.t && tr.ex[j + 1] == q.ex && tr.ey[j + 1] == q.ey &&
    tr.sige[m + 1 + j] == q.sige &&
    tr.sige2[j + 1] == Square(tr.sige[j + 1]) &&
    tr.sigs[j + 1] == sigsFromSige(tr.sige[j + 1])
  }

  /** The step size of iteration j of the convergence loop, from the growth
      rates of the previous iteration: half the smallest time constant, and
      twice the smallest time constant in the relaxation scheme. */
  function ConvergenceDt(scheme: string, eq: Equilibrium, ibsPrev: Rates): (ddt: real)
    ensures scheme != Relaxation ==> ddt * 2.0 == MinTau(eq, ibsPrev)
    ensures scheme == Relaxation ==> ddt == 2.0 * MinTau(eq, ibsPrev)
  {
    var ddt := MinTau(eq, ibsPrev) / 2.0;
    if scheme == Relaxation then ddt * 4.0 else ddt
  }

  /** The index whose growth rates set the step size of iteration j of the
      convergence loop: the one before it, or the seed for the first. */
  function RatesIndex(j: nat): (r: nat)
    ensures r <= j && (j > 0 ==> r + 1 == j)
  {
    if j == 0 then 0 else j - 1
  }

  /** Iteration j of the convergence loop: growth rates at state j, step size
      from the rates of the iteration before (for j == 0, the rates at the seed). */
  predicate ConvergenceStep(scheme: string, k: RunConstants, co: Collaborators, model: int,
                            tr: Trajectory, m: nat, j: nat)
    requires Grown(tr, m) && j + 1 < |tr.t|
    requires SchemeReady(scheme, k.eq)
  {
    var ibsPrev := co.bank(model, StateAt(tr, RatesIndex(j)));
    var ibs := co.bank(model, StateAt(tr, j));
    Appended(tr, m, j, Update(scheme, k, ibs, ConvergenceDt(scheme, k.eq, ibsPrev), PointAt(tr, j)),
             co.sigsFromSige)
  }

  /** Iteration j of the fixed-step loop: its step size dts[j] is the one in
      force before it, halved when the relaxation scheme meets a ratio of at
      least one at state j, and the update with that step size is appended. */
  predicate FixedStep(scheme: string, k: RunConstants, co: Collaborators, model: int, stepsize: real,
                      tr: Trajectory, m: nat, dts: seq<real>, j: nat)
    requires Grown(tr, m) && j + 1 < |tr.t| && j < |dts|
    requires SchemeReady(scheme, k.eq)
  {
    var ibs := co.bank(model, StateAt(tr, j));
    var prev := Previous(stepsize, dts, j);
    dts[j] == (if HalvesAt(scheme, k.eq, co.bank, model, tr, j) then prev / 2.0 else prev) &&
    Appended(tr, m, j, Update(scheme, k, ibs, dts[j], PointAt(tr, j)), co.sigsFromSige)
  }

  /** Whether iteration j of the fixed-step loop halves the step size. */
  predicate HalvesAt(scheme: string, eq: Equilibrium, bank: (int, BeamState) -> Rates, model: int,
                     tr: Trajectory, j: nat): (b: bool)
    requires HasStates(tr, j + 1)
    ensures b <==> scheme == Relaxation && !PositiveFactors(eq, bank(model, StateAt(tr, j)))
  {
    scheme == Relaxation && AnyRatioAtLeastOne(eq, bank(model, StateAt(tr, j)))
  }

  /** The halving decisions of the first n iterations. */
  function HalvingFlags(scheme: string, eq: Equilibrium, bank: (int, BeamState) -> Rates, model: int,
                        tr: Trajectory, n: nat): (flags: seq<bool>)
    requires HasStates(tr, n)
    ensures |flags| == n
    ensures forall j :: 0 <= j < n ==> flags[j] == HalvesAt(scheme, eq, bank, model, tr, j)
  {
    seq(n, j requires 0 <= j < n => HalvesAt(scheme, eq, bank, model, tr, j))
  }

  function Square(x: real): real { x * x }

  function Abs(x: real): real { if x < 0.0 then -x else x }

  /** fabs((cur - prev) / prev) > threshold in IEEE arithmetic: a zero
      previous value gives an infinite change when the current one is not
      zero, and NaN, which compares false, when it is. */
  predicate Exceeds(prev: real, cur: real, threshold: real): (b: bool)
    ensures b <==> !WithinThreshold(prev, cur, threshold)
  {
    RelativeChangeBound(prev, cur, threshold);
    if prev == 0.0 then cur != 0.0 else Abs((cur - prev) / prev) > threshold
  }

  /** The converged reading of one quantity, free of division: the change is
      at most the threshold times the previous magnitude, and a zero previous
      value admits no change at all. */
  predicate WithinThreshold(prev: real, cur: real, threshold: real) {
    if prev == 0.0 then cur == 0.0 else Abs(cur - prev) <= threshold * Abs(prev)
  }

  /** |d / p| <= t exactly when |d| <= t * |p|, for p != 0. */
  lemma RelativeChangeBound(prev: real, cur: real, threshold: real)
    ensures prev != 0.0 ==>
      (Abs((cur - prev) / prev) <= threshold <==> Abs(cur - prev) <= threshold * Abs(prev))
  {
    if prev == 0.0 { return; }
    var d := cur - prev;
    var r := d / prev;
    assert r * prev == d;
    assert Abs(r) * Abs(prev) == Abs(d) by {
      if r < 0.0 { assert Abs(r) == -r; }
      if prev < 0.0 { assert Abs(prev) == -prev; }
    }
    ProductBound(Abs(r), Abs(prev), threshold);
  }

  /** For b > 0: a <= t exactly when a * b <= t * b. */
  lemma ProductBound(a: real, b: real, t: real)
    requires b > 0.0
    ensures a <= t <==> a * b <= t * b
  {
    if a <= t {
      assert (t - a) * b >= 0.0;
    } else {
      assert (a - t) * b > 0.0;
    }
  }

  /** The continuation test of the convergence loop at index i: some of ex, ey
      and sigs changed by more than the threshold. */
  predicate AnyExceeds(ex: seq<real>, ey: seq<real>, sigs: seq<real>, i: nat, threshold: real): (b: bool)
    requires 1 <= i < |ex| && i < |ey| && i < |sigs|
    ensures !b <==> (WithinThreshold(ex[i - 1], ex[i], threshold) &&
                     WithinThreshold(ey[i - 1], ey[i], threshold) &&
                     WithinThreshold(sigs[i - 1], sigs[i], threshold))
  {
    Exceeds(ex[i - 1], ex[i], threshold) ||
    Exceeds(ey[i - 1], ey[i], threshold) ||
    Exceeds(sigs[i - 1], sigs[i], threshold)
  }

  function Max1(n: int): (r: int)
    ensures r >= 1 && r >= n
    ensures r == 1 || r == n
  {
    if n < 1 then 1 else n
  }

  /** The state the initial growth rates are evaluated at. */
  function SeedState(ex0: seq<real>, ey0: seq<real>, sigs0: seq<real>, sigeIn: seq<real>, sige0: real): BeamState
    requires |ex0| >= 1 && |ey0| >= 1 && |sigs0| >= 1
  {
    BeamState(ex0[0], ey0[0], sigs0[0], (sigeIn + [sige0])[0])
  }

  /** The step budget of the convergence loop, from the growth rates at the seed. */
  function RunBudget(eq: Equilibrium, ibs0: Rates): (ms: int)
    requires NonZeroDampingTimes(eq)
    ensures ms <= MaxSteps
  {
    MinTauNonZero(eq, ibs0);
    StepBudget(MaxTau(eq, ibs0), MinTau(eq, ibs0))
  }

  /** `after` is `before` with q pushed the way the loops push it. */
  predicate Pushed(before: Trajectory, after: Trajectory, q: Point, sigsFromSige: real -> real) {
    && after.t == before.t + [q.t]
    && after.ex == before.ex + [q.ex]
    && after.ey == before.ey + [q.ey]
    && after.sige == before.sige + [q.sige]
    && |before.t| < |after.sige|
    && after.sige2 == before.sige2 + [Square(after.sige[|before.t|])]
    && after.sigs == before.sigs + [sigsFromSige(after.sige[|before.t|])]
  }

  /** The six push_backs of one iteration: t, ex, ey and sige get the new
      sample, then sige2 and sigs get values derived from sige[i], where i is
      the loop counter after its increment (the number of entries t had). */
  function Push(tr: Trajectory, q: Point, sigsFromSige: real -> real): (r: Trajectory)
    requires |tr.t| <= |tr.sige|
    ensures Pushed(tr, r, q, sigsFromSige)
  {
    var i := |tr.t|;
    var sige := tr.sige + [q.sige];
    Trajectory(tr.t + [q.t], tr.ex + [q.ex], tr.ey + [q.ey],
               tr.sigs + [sigsFromSige(sige[i])], sige, tr.sige2 + [Square(sige[i])])
  }

  /** Pushing one sample grows every vector by one, keeps what was there,
      and records the step. */
  lemma PushAppends(before: Trajectory, after: Trajectory, m: nat, n: nat, q: Point, sigsFromSige: real -> real)
    requires Shaped(before, m, n) && Pushed(before, after, q, sigsFromSige)
    ensures Shaped(after, m, n + 1) && Grown(after, m)
    ensures Appended(after, m, n, q, sigsFromSige)
    ensures forall j :: 0 <= j <= n ==> StateAt(after, j) == StateAt(before, j) && PointAt(after, j) == PointAt(before, j)
  {
  }

  /** Pushing the update of the convergence loop extends its record of steps by one. */
  lemma ConvergencePush(scheme: string, k: RunConstants, co: Collaborators, model: int,
                        before: Trajectory, after: Trajectory, m: nat, n: nat, q: Point)
    requires Shaped(before, m, n) && Pushed(before, after, q, co.sigsFromSige)
    requires SchemeReady(scheme, k.eq)
    requires forall j :: 0 <= j < n ==> ConvergenceStep(scheme, k, co, model, before, m, j)
    requires q == Update(scheme, k, co.bank(model, StateAt(before, n)),
                         ConvergenceDt(scheme, k.eq, co.bank(model, StateAt(before, RatesIndex(n)))),
                         PointAt(before, n))
    ensures Shaped(after, m, n + 1)
    ensures forall j :: 0 <= j < n + 1 ==> ConvergenceStep(scheme, k, co, model, after, m, j)
  {
    forall j | 0 <= j < n + 1
      ensures ConvergenceStep(scheme, k, co, model, after, m, j)
    {
      if j < n {
        ConvergenceStepKept(scheme, k, co, model, before, after, m, n, q, j);
      } else {
        ConvergenceStepNew(scheme, k, co, model, before, after, m, n, q);
      }
    }
  }

  lemma ConvergenceStepKept(scheme: string, k: RunConstants, co: Collaborators, model: int,
                            before: Trajectory, after: Trajectory, m: nat, n: nat, q: Point, j: nat)
    requires Shaped(before, m, n) && Pushed(before, after, q, co.sigsFromSige)
    requires SchemeReady(scheme, k.eq)
    requires j < n && ConvergenceStep(scheme, k, co, model, before, m, j)
    ensures Grown(after, m) && ConvergenceStep(scheme, k, co, model, after, m, j)
  {
    PushAppends(before, after, m, n, q, co.sigsFromSige);
    var jp := RatesIndex(j);
    assert StateAt(after, jp) == StateAt(before, jp);
    assert StateAt(after, j) == StateAt(before, j);
    assert PointAt(after, j) == PointAt(before, j);
    var q' := Update(scheme, k, co.bank(model, StateAt(before, j)),
                     ConvergenceDt(scheme, k.eq, co.bank(model, StateAt(before, jp))), PointAt(before, j));
    assert Appended(before, m, j, q', co.sigsFromSige);
  }

  lemma ConvergenceStepNew(scheme: string, k: RunConstants, co: Collaborators, model: int,
                           before: Trajectory, after: Trajectory, m: nat, n: nat, q: Point)
    requires Shaped(before, m, n) && Pushed(before, after, q, co.sigsFromSige)
    requires SchemeReady(scheme, k.eq)
    requires q == Update(scheme, k, co.bank(model, StateAt(before, n)),
                         ConvergenceDt(scheme, k.eq, co.bank(model, StateAt(before, RatesIndex(n)))),
                         PointAt(before, n))
    ensures Grown(after, m) && ConvergenceStep(scheme, k, co, model, after, m, n)
  {
    PushAppends(before, after, m, n, q, co.sigsFromSige);
    var np := RatesIndex(n);
    assert StateAt(after, np) == StateAt(before, np);
    assert StateAt(after, n) == StateAt(before, n);
    assert PointAt(after, n) == PointAt(before, n);
  }

  /** Pushing the update of the fixed-step loop, made with step size d,
      extends its record of iterations by one. */
  lemma FixedPush(scheme: string, k: RunConstants, co: Collaborators, model: int, stepsize: real,
                  before: Trajectory, after: Trajectory, m: nat, n: nat, q: Point,
                  dts: seq<real>, d: real)
    requires Shaped(before, m, n) && Pushed(before, after, q, co.sigsFromSige)
    requires SchemeReady(scheme, k.eq)
    requires |dts| == n
    requires forall j :: 0 <= j < n ==> FixedStep(scheme, k, co, model, stepsize, before, m, dts, j)
    requires d == if HalvesAt(scheme, k.eq, co.bank, model, before, n)
                  then Previous(stepsize, dts, n) / 2.0 else Previous(stepsize, dts, n)
    requires q == Update(scheme, k, co.bank(model, StateAt(before, n)), d, PointAt(before, n))
    ensures Shaped(after, m, n + 1)
    ensures forall j :: 0 <= j < n + 1 ==> FixedStep(scheme, k, co, model, stepsize, after, m, dts + [d], j)
  {
    PushAppends(before, after, m, n, q, co.sigsFromSige);
    var dts' := dts + [d];
    forall j | 0 <= j < n + 1
      ensures FixedStep(scheme, k, co, model, stepsize, after, m, dts', j)
    {
      assert StateAt(after, j) == StateAt(before, j);
      assert Previous(stepsize, dts', j) == Previous(stepsize, dts, j);
      if j < n {
        assert dts'[j] == dts[j];
        assert FixedStep(scheme, k, co, model, stepsize, before, m, dts, j);
      }
    }
  }

  /** The step sizes of a fixed-step run follow the halving schedule of its
      halving decisions. */
  lemma FixedSchedule(scheme: string, k: RunConstants, co: Collaborators, model: int, stepsize: real,
                      tr: Trajectory, m: nat, dts: seq<real>)
    requires Grown(tr, m) && |dts| + 1 == |tr.t|
    requires SchemeReady(scheme, k.eq)
    requires forall j :: 0 <= j < |dts| ==> FixedStep(scheme, k, co, model, stepsize, tr, m, dts, j)
    ensures HalvingSchedule(stepsize, HalvingFlags(scheme, k.eq, co.bank, model, tr, |dts|), dts)
  {
    var flags := HalvingFlags(scheme, k.eq, co.bank, model, tr, |dts|);
    forall j | 0 <= j < |dts|
      ensures ScheduleStep(stepsize, flags, dts, j)
    {
      assert FixedStep(scheme, k, co, model, stepsize, tr, m, dts, j);
    }
  }

  /** Pushing a sample leaves the continuation tests of earlier iterations as they were. */
  lemma PushKeepsTests(before: Trajectory, after: Trajectory, m: nat, n: nat, q: Point,
                       sigsFromSige: real -> real, threshold: real, j: nat)
    requires Shaped(before, m, n) && Pushed(before, after, q, sigsFromSige)
    requires 1 <= j <= n
    ensures AnyExceeds(after.ex, after.ey, after.sigs, j, threshold)
        == AnyExceeds(before.ex, before.ey, before.sigs, j, threshold)
  {
  }

  /** After one more iteration, every continuation test so far, including the
      one that admitted this iteration, still reads as it did. */
  lemma PushKeepsAllTests(before: Trajectory, after: Trajectory, m: nat, n: nat, q: Point,
                          sigsFromSige: real -> real, threshold: real, ms: int)
    requires Shaped(before, m, n) && Pushed(before, after, q, sigsFromSige)
    requires forall j :: 1 <= j < n ==> j < ms && AnyExceeds(before.ex, before.ey, before.sigs, j, threshold)
    requires n == 0 || (n < ms && AnyExceeds(before.ex, before.ey, before.sigs, n, threshold))
    ensures forall j :: 1 <= j < n + 1 ==> j < ms && AnyExceeds(after.ex, after.ey, after.sigs, j, threshold)
  {
    forall j | 1 <= j < n + 1
      ensures j < ms && AnyExceeds(after.ex, after.ey, after.sigs, j, threshold)
    {
      PushKeepsTests(before, after, m, n, q, sigsFromSige, threshold, j);
    }
  }

  /** One iteration of the convergence loop keeps everything its loop
      promises: the record of iterations and of admitting tests grows by one,
      and the seed and the earlier states are untouched. */
  lemma ConvergenceIteration(scheme: string, k: RunConstants, co: Collaborators, model: int,
                             before: Trajectory, after: Trajectory, m: nat, n: nat, q: Point,
                             thr: real, ms: int)
    requires Shaped(before, m, n) && Pushed(before, after, q, co.sigsFromSige)
    requires SchemeReady(scheme, k.eq)
    requires forall j :: 0 <= j < n ==> ConvergenceStep(scheme, k, co, model, before, m, j)
    requires q == Update(scheme, k, co.bank(model, StateAt(before, n)),
                         ConvergenceDt(scheme, k.eq, co.bank(model, StateAt(before, RatesIndex(n)))),
                         PointAt(before, n))
    requires forall j :: 1 <= j < n ==> j < ms && AnyExceeds(before.ex, before.ey, before.sigs, j, thr)
    requires n == 0 || (n < ms && AnyExceeds(before.ex, before.ey, before.sigs, n, thr))
    ensures Shaped(after, m, n + 1)
    ensures after.t[0] == before.t[0] && after.ex[0] == before.ex[0] && after.ey[0] == before.ey[0]
    ensures after.sigs[0] == before.sigs[0] && after.sige2[0] == before.sige2[0]
    ensures after.sige[..m + 1] == before.sige[..m + 1]
    ensures StateAt(after, n) == StateAt(before, n)
    ensures forall j :: 0 <= j < n + 1 ==> ConvergenceStep(scheme, k, co, model, after, m, j)
    ensures forall j :: 1 <= j < n + 1 ==> j < ms && AnyExceeds(after.ex, after.ey, after.sigs, j, thr)
  {
    ConvergencePush(scheme, k, co, model, before, after, m, n, q);
    PushAppends(before, after, m, n, q, co.sigsFromSige);
    PushKeepsAllTests(before, after, m, n, q, co.sigsFromSige, thr, ms);
  }

  /** The convergence-driven overload of ODE. */
  method OdeUntilConverged(co: Collaborators, eq: Equilibrium, model: int,
                           t0: seq<real>, ex0: seq<real>, ey0: seq<real>, sigs0: seq<real>,
                           sigeIn: seq<real>, couplingPercentage: int, threshold: real, scheme: string)
    returns (t: seq<real>, ex: seq<real>, ey: seq<real>, sigs: seq<real>,
             ghost sige: seq<real>, ghost sige2: seq<real>, ghost steps: nat)
    requires KnownModel(model)
    requires |t0| == 1 && |ex0| == 1 && |ey0| == 1 && |sigs0| == 1
    requires NonZeroDampingTimes(eq)
    requires SchemeReady(SanitizeScheme(scheme), eq)
    ensures 1 <= steps <= Max1(RunBudget(eq, co.bank(model, SeedState(ex0, ey0, sigs0, sigeIn, co.sigeFromSigs(eq.sigsEq)))))
    ensures steps <= MaxSteps
    ensures Shaped(Trajectory(t, ex, ey, sigs, sige, sige2), |sigeIn|, steps)
    ensures t[0] == t0[0] && ex[0] == ex0[0] && ey[0] == ey0[0] && sigs[0] == sigs0[0]
    ensures sige[..|sigeIn| + 1] == sigeIn + [co.sigeFromSigs(eq.sigsEq)]
    ensures sige2[0] == Square(sige[0])
    ensures forall j :: 0 <= j < steps ==>
      ConvergenceStep(SanitizeScheme(scheme), Constants(eq, couplingPercentage, co.sqrt), co, model,
                      Trajectory(t, ex, ey, sigs, sige, sige2), |sigeIn|, j)
    ensures forall j :: 1 <= j < steps ==>
      j < RunBudget(eq, co.bank(model, SeedState(ex0, ey0, sigs0, sigeIn, co.sigeFromSigs(eq.sigsEq)))) &&
      AnyExceeds(ex, ey, sigs, j, SanitizeThreshold(threshold))
    ensures steps < RunBudget(eq, co.bank(model, SeedState(ex0, ey0, sigs0, sigeIn, co.sigeFromSigs(eq.sigsEq)))) ==>
      !AnyExceeds(ex, ey, sigs, steps, SanitizeThreshold(threshold))
  {
    var sch := SanitizeScheme(scheme);
    var thr := SanitizeThreshold(threshold);
    var k := Constants(eq, couplingPercentage, co.sqrt);
    var m := |sigeIn|;

    var sige0 := co.sigeFromSigs(eq.sigsEq);
    var sigeCopy := sigeIn + [sige0];
    var seed := Trajectory(t0, ex0, ey0, sigs0, sigeCopy, [Square(sigeCopy[0])]);

    var ibs := co.bank(model, StateAt(seed, 0));
    assert ibs == co.bank(model, SeedState(ex0, ey0, sigs0, sigeIn, sige0));
    var taum := MaxTau(eq, ibs);
    MinTauNonZero(eq, ibs);
    var ddt := MinTau(eq, ibs);
    var ms := StepBudget(taum, ddt);
    assert ms == RunBudget(eq, co.bank(model, SeedState(ex0, ey0, sigs0, sigeIn, sige0)));

    var tr, i := ConvergenceLoop(sch, k, co, model, thr, ms, seed, m, ibs);
    t, ex, ey, sigs, sige, sige2, steps := tr.t, tr.ex, tr.ey, tr.sigs, tr.sige, tr.sige2, i;
  }

  /** The do-while loop of the convergence-driven overload, from the seeded
      vectors and the growth rates at the seed on, with the run constants,
      threshold and step budget fixed before it. */
  method ConvergenceLoop(sch: string, k: RunConstants, co: Collaborators, model: int,
                         thr: real, ms: int, seed: Trajectory, m: nat, ibs0: Rates)
    returns (tr: Trajectory, steps: nat)
    requires Shaped(seed, m, 0) && SchemeReady(sch, k.eq)
    requires ibs0 == co.bank(model, StateAt(seed, 0))
    ensures 1 <= steps <= Max1(ms)
    ensures Shaped(tr, m, steps)
    ensures tr.t[0] == seed.t[0] && tr.ex[0] == seed.ex[0] && tr.ey[0] == seed.ey[0] && tr.sigs[0] == seed.sigs[0]
    ensures tr.sige[..m + 1] == seed.sige && tr.sige2[0] == seed.sige2[0]
    ensures forall j :: 0 <= j < steps ==> ConvergenceStep(sch, k, co, model, tr, m, j)
    ensures forall j :: 1 <= j < steps ==> j < ms && AnyExceeds(tr.ex, tr.ey, tr.sigs, j, thr)
    ensures steps < ms ==> !AnyExceeds(tr.ex, tr.ey, tr.sigs, steps, thr)
  {
    tr := seed;
    var ibs := ibs0;
    var ddt: real;
    var i: nat := 0;
    while i == 0 || (i < ms && AnyExceeds(tr.ex, tr.ey, tr.sigs, i, thr))
      invariant 0 <= i <= Max1(ms)
      invariant Shaped(tr, m, i)
      invariant tr.t[0] == seed.t[0] && tr.ex[0] == seed.ex[0] && tr.ey[0] == seed.ey[0] && tr.sigs[0] == seed.sigs[0]
      invariant tr.sige[..m + 1] == seed.sige && tr.sige2[0] == seed.sige2[0]
      invariant ibs == co.bank(model, StateAt(tr, RatesIndex(i)))
      invariant forall j :: 0 <= j < i ==> ConvergenceStep(sch, k, co, model, tr, m, j)
      invariant forall j :: 1 <= j < i ==> j < ms && AnyExceeds(tr.ex, tr.ey, tr.sigs, j, thr)
      decreases Max1(ms) - i
    {
      ghost var before := tr;
      ghost var ibsPrev := ibs;
      ghost var n := i;
      ddt := MinTau(k.eq, ibs) / 2.0;
      ibs := co.bank(model, StateAt(tr, i));
      i := i + 1;
      if sch == Relaxation {
        ddt := ddt * 4.0;
      }
      var q := Update(sch, k, ibs, ddt, PointAt(tr, i - 1));
      tr := Push(tr, q, co.sigsFromSige);

      assert ddt == ConvergenceDt(sch, k.eq, ibsPrev);
      ConvergenceIteration(sch, k, co, model, before, tr, m, n, q, thr, ms);
    }
    steps := i;
  }

  /** One iteration of the fixed-step loop keeps everything its loop
      promises: the record of iterations grows by one, and the seed is untouched. */
  lemma FixedIteration(scheme: string, k: RunConstants, co: Collaborators, model: int, stepsize: real,
                       before: Trajectory, after: Trajectory, m: nat, n: nat, q: Point,
                       dts: seq<real>, d: real)
    requires Shaped(before, m, n) && Pushed(before, after, q, co.sigsFromSige)
    requires SchemeReady(scheme, k.eq)
    requires |dts| == n
    requires forall j :: 0 <= j < n ==> FixedStep(scheme, k, co, model, stepsize, before, m, dts, j)
    requires d == if HalvesAt(scheme, k.eq, co.bank, model, before, n)
                  then Previous(stepsize, dts, n) / 2.0 else Previous(stepsize, dts, n)
    requires q == Update(scheme, k, co.bank(model, StateAt(before, n)), d, PointAt(before, n))
    ensures Shaped(after, m, n + 1)
    ensures after.t[0] == before.t[0] && after.ex[0] == before.ex[0] && after.ey[0] == before.ey[0]
    ensures after.sigs[0] == before.sigs[0] && after.sige2[0] == before.sige2[0]
    ensures after.sige[..m + 1] == before.sige[..m + 1]
    ensures d == Previous(stepsize, dts + [d], n + 1)
    ensures forall j :: 0 <= j < n + 1 ==> FixedStep(scheme, k, co, model, stepsize, after, m, dts + [d], j)
  {
    FixedPush(scheme, k, co, model, stepsize, before, after, m, n, q, dts, d);
    PushAppends(before, after, m, n, q, co.sigsFromSige);
  }

  /** The fixed-step overload of ODE. */
  method OdeFixedSteps(co: Collaborators, eq: Equilibrium, model: int,
                       t0: seq<real>, ex0: seq<real>, ey0: seq<real>, sigs0: seq<real>,
                       sigeIn: seq<real>, nsteps: int, stepsize: real, couplingPercentage: int, scheme: string)
    returns (t: seq<real>, ex: seq<real>, ey: seq<real>, sigs: seq<real>,
             ghost sige: seq<real>, ghost sige2: seq<real>, ghost dts: seq<real>)
    requires KnownModel(model)
    requires |t0| == 1 && |ex0| == 1 && |ey0| == 1 && |sigs0| == 1
    requires SchemeReady(SanitizeScheme(scheme), eq)
    ensures |dts| == Max1(nsteps)
    ensures Shaped(Trajectory(t, ex, ey, sigs, sige, sige2), |sigeIn|, Max1(nsteps))
    ensures t[0] == t0[0] && ex[0] == ex0[0] && ey[0] == ey0[0] && sigs[0] == sigs0[0]
    ensures sige[..|sigeIn| + 1] == sigeIn + [co.sigeFromSigs(sigs0[0])]
    ensures sige2[0] == Square(sige[0])
    ensures HalvingSchedule(stepsize,
      HalvingFlags(SanitizeScheme(scheme), eq, co.bank, model, Trajectory(t, ex, ey, sigs, sige, sige2), |dts|), dts)
    ensures forall j :: 0 <= j < |dts| ==>
      FixedStep(SanitizeScheme(scheme), Constants(eq, couplingPercentage, co.sqrt), co, model, stepsize,
                Trajectory(t, ex, ey, sigs, sige, sige2), |sigeIn|, dts, j)
  {
    var sch := SanitizeScheme(scheme);
    var k := Constants(eq, couplingPercentage, co.sqrt);
    var m := |sigeIn|;
    var ddt := stepsize;

    var sige0 := co.sigeFromSigs(sigs0[0]);
    var sigeCopy := sigeIn + [sige0];
    var tr := Trajectory(t0, ex0, ey0, sigs0, sigeCopy, [Square(sigeCopy[0])]);
    dts := [];

    var i: nat := 0;
    while i == 0 || i < nsteps
      invariant 0 <= i <= Max1(nsteps)
      invariant Shaped(tr, m, i)
      invariant |dts| == i && ddt == Previous(stepsize, dts, i)
      invariant tr.t[0] == t0[0] && tr.ex[0] == ex0[0] && tr.ey[0] == ey0[0] && tr.sigs[0] == sigs0[0]
      invariant tr.sige[..m + 1] == sigeIn + [sige0]
      invariant tr.sige2[0] == Square(tr.sige[0])
      invariant forall j :: 0 <= j < i ==> FixedStep(sch, k, co, model, stepsize, tr, m, dts, j)
      decreases Max1(nsteps) - i
    {
      ghost var before := tr;
      var ibs := co.bank(model, StateAt(tr, i));
      i := i + 1;
      if sch == Relaxation && AnyRatioAtLeastOne(eq, ibs) {
        ddt := ddt / 2.0;
      }
      var q := Update(sch, k, ibs, ddt, PointAt(tr, i - 1));
      tr := Push(tr, q, co.sigsFromSige);

      FixedIteration(sch, k, co, model, stepsize, before, tr, m, i - 1, q, dts, ddt);
      dts := dts + [ddt];
    }
    FixedSchedule(sch, k, co, model, stepsize, tr, m, dts);
    t, ex, ey, sigs, sige, sige2 := tr.t, tr.ex, tr.ey, tr.sigs, tr.sige, tr.sige2;
  }
}
