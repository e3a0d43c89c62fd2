/**
 * The two update rules of the stepper. Both advance time by the step size,
 * emittances and energy spread by one step; the bunch length is not
 * integrated but derived from the new energy spread by the caller.
 *
 * - the relaxation scheme moves each quantity towards its equilibrium scaled
 *   by 1 / (1 - tau * rate);
 * - the derivative scheme takes one forward-Euler step of the damped, driven
 *   rate equations.
 */
module UpdateRules {
  import opened Beam

  predicate NonZeroDampingTimes(eq: Equilibrium) {
    eq.tauX != 0.0 && eq.tauY != 0.0 && eq.tauS != 0.0
  }

  /** The ratio of damping time to growth time of one plane. */
  function Ratio(tau: real, rate: real): real {
    tau * rate
  }

  /** No ratio is exactly 1, so every relaxation factor is finite. */
  predicate NonDegenerate(eq: Equilibrium, ibs: Rates) {
    Ratio(eq.tauX, ibs.x) != 1.0 && Ratio(eq.tauY, ibs.y) != 1.0 && Ratio(eq.tauS, ibs.s) != 1.0
  }

  /** The relaxation factor 1 / (1 - ratio). At a ratio of exactly 1 IEEE
      arithmetic gives +inf, which a real cannot hold; the model puts 0 there
      as a stand-in; no property lemma covers a step taken with it. */
  function Factor(ratio: real): (f: real)
    ensures ratio != 1.0 ==> f * (1.0 - ratio) == 1.0
    ensures ratio == 1.0 ==> f == 0.0
  {
    if ratio == 1.0 then 0.0 else 1.0 / (1.0 - ratio)
  }

  /** The relaxation factors of the three planes. */
  function XFactor(eq: Equilibrium, ibs: Rates): real {
    Factor(Ratio(eq.tauX, ibs.x))
  }

  function YFactor(eq: Equilibrium, ibs: Rates): real {
    Factor(Ratio(eq.tauY, ibs.y))
  }

  function SFactor(eq: Equilibrium, ibs: Rates): real {
    Factor(Ratio(eq.tauS, ibs.s))
  }

  /** Every relaxation factor is finite and positive: every relaxation
      target has the sign of its equilibrium. */
  predicate PositiveFactors(eq: Equilibrium, ibs: Rates) {
    NonDegenerate(eq, ibs) &&
    XFactor(eq, ibs) > 0.0 && YFactor(eq, ibs) > 0.0 && SFactor(eq, ibs) > 0.0
  }

  /** 1 / (1 - ratio) is positive exactly for a ratio below 1. */
  lemma FactorPositiveIff(ratio: real)
    ensures ratio != 1.0 ==> (Factor(ratio) > 0.0 <==> ratio < 1.0)
  {
    if ratio != 1.0 {
      var f := Factor(ratio);
      if ratio < 1.0 && f <= 0.0 {
        NonPositiveTimesPositive(f, 1.0 - ratio);
      }
      if ratio > 1.0 && f > 0.0 {
        NonPositiveTimesPositive(1.0 - ratio, f);
      }
    }
  }

  lemma NonPositiveTimesPositive(a: real, b: real)
    requires a <= 0.0 && b > 0.0
    ensures a * b <= 0.0
  {
  }

  /** Some ratio is at least 1: the relaxation is non-physical on that plane,
      which happens exactly when some relaxation factor is infinite or not positive. */
  predicate AnyRatioAtLeastOne(eq: Equilibrium, ibs: Rates): (b: bool)
    ensures b <==> !PositiveFactors(eq, ibs)
  {
    FactorPositiveIff(Ratio(eq.tauX, ibs.x));
    FactorPositiveIff(Ratio(eq.tauY, ibs.y));
    FactorPositiveIff(Ratio(eq.tauS, ibs.s));
    Ratio(eq.tauX, ibs.x) >= 1.0 || Ratio(eq.tauY, ibs.y) >= 1.0 || Ratio(eq.tauS, ibs.s) >= 1.0
  }

  function RelaxUpdate(k: RunConstants, ibs: Rates, ddt: real, p: Point): (q: Point)
    ensures q.t == p.t + ddt
  {
    var xfactor := XFactor(k.eq, ibs);
    var yfactor := YFactor(k.eq, ibs);
    var sfactor := SFactor(k.eq, ibs);
    Point(p.t + ddt,
          Relax(p.ex, xfactor * k.eq.exEq, ddt),
          Relax(p.ey, ((1.0 - k.coupling) * yfactor + k.coupling * xfactor) * k.eyTarget, ddt),
          Relax(p.sige, sfactor * k.sigeTarget, ddt))
  }

  /** One relaxation step of v towards target. */
  function Relax(v: real, target: real, ddt: real): real {
    v + ddt * (target - v)
  }

  function DerivativeUpdate(k: RunConstants, ibs: Rates, ddt: real, p: Point): (q: Point)
    requires NonZeroDampingTimes(k.eq)
    ensures q.t == p.t + ddt
  {
    Point(p.t + ddt,
          TransverseEuler(p.ex, k.eq.exEq, k.eq.tauX, ibs.x, ddt),
          TransverseEuler(p.ey, k.eyTarget, k.eq.tauY, ibs.y, ddt),
          LongitudinalEuler(p.sige, k.sigeTarget, k.eq.tauS, ibs.s, ddt))
  }

  /** One Euler step of a transverse emittance v, damped towards target with
      time constant tau and grown by IBS at rate; emittances carry a factor 2. */
  function TransverseEuler(v: real, target: real, tau: real, rate: real, ddt: real): real
    requires tau != 0.0
  {
    v + ddt * (-(v - target) * 2.0 / tau + v * 2.0 * rate)
  }

  /** One Euler step of the energy spread, whose rate equation has no factor 2. */
  function LongitudinalEuler(v: real, target: real, tau: real, rate: real, ddt: real): real
    requires tau != 0.0
  {
    v + ddt * (-(v - target) / tau + v * rate)
  }

  /** The relaxation target of the vertical plane: the coupled mix of the
      vertical and horizontal factors applied to the coupled target. */
  function RelaxEyTarget(k: RunConstants, ibs: Rates): real {
    ((1.0 - k.coupling) * YFactor(k.eq, ibs) + k.coupling * XFactor(k.eq, ibs)) * k.eyTarget
  }

  /** A step leaves the beam at the radiation equilibrium when no IBS acts,
      in either scheme: emittances and energy spread are unchanged and only
      time advances. */
  lemma EquilibriumIsFixedPoint(k: RunConstants, ddt: real, p: Point)
    requires p.ex == k.eq.exEq && p.ey == k.eyTarget && p.sige == k.sigeTarget
    ensures var q := RelaxUpdate(k, Rates(0.0, 0.0, 0.0), ddt, p);
      q.ex == p.ex && q.ey == p.ey && q.sige == p.sige && q.t == p.t + ddt
    ensures NonZeroDampingTimes(k.eq) ==>
      var q := DerivativeUpdate(k, Rates(0.0, 0.0, 0.0), ddt, p);
      q.ex == p.ex && q.ey == p.ey && q.sige == p.sige && q.t == p.t + ddt
  {
    assert Factor(0.0) == 1.0;
    assert XFactor(k.eq, Rates(0.0, 0.0, 0.0)) == 1.0;
    assert YFactor(k.eq, Rates(0.0, 0.0, 0.0)) == 1.0;
    assert SFactor(k.eq, Rates(0.0, 0.0, 0.0)) == 1.0;
  }

  /** v + ddt * d == v exactly when d == 0, for a non-zero step. */
  lemma StationaryIff(v: real, ddt: real, d: real)
    requires ddt != 0.0
    ensures v + ddt * d == v <==> d == 0.0
  {
    if v + ddt * d == v {
      assert ddt * d == 0.0;
    }
  }

  /** With a step size of at most 1, a relaxation step keeps a positive
      value positive when its target is positive; a larger step can overshoot. */
  lemma RelaxKeepsPositive(v: real, target: real, ddt: real)
    requires v > 0.0 && target > 0.0 && 0.0 <= ddt <= 1.0
    ensures Relax(v, target, ddt) > 0.0
  {
    RelaxAsMix(v, target, ddt);
    if ddt < 1.0 {
      PositiveTimesPositive(1.0 - ddt, v);
      NonNegativeTimesPositive(ddt, target);
    }
  }

  /** A relaxation step is the mix (1 - ddt) * v + ddt * target. */
  lemma RelaxAsMix(v: real, target: real, ddt: real)
    ensures Relax(v, target, ddt) == (1.0 - ddt) * v + ddt * target
  {
  }

  lemma PositiveTimesPositive(a: real, b: real)
    requires a > 0.0 && b > 0.0
    ensures a * b > 0.0
  {
  }

  lemma NonNegativeTimesPositive(a: real, b: real)
    requires a >= 0.0 && b > 0.0
    ensures a * b >= 0.0
  {
  }

  /** A relaxation step with a non-zero step size is stationary exactly at its target. */
  lemma RelaxStationaryIff(v: real, target: real, ddt: real)
    requires ddt != 0.0
    ensures Relax(v, target, ddt) == v <==> v == target
  {
    StationaryIff(v, ddt, target - v);
  }

  /** The damped, driven rate -(v - target) * c / tau + v * c * rate vanishes
      exactly at v == Factor(tau * rate) * target. */
  lemma RateRoot(v: real, target: real, c: real, tau: real, rate: real)
    requires c != 0.0 && tau != 0.0 && Ratio(tau, rate) != 1.0
    ensures -(v - target) * c / tau + v * c * rate == 0.0 <==> v == Factor(Ratio(tau, rate)) * target
  {
    var d := -(v - target) * c / tau + v * c * rate;
    var f := Factor(Ratio(tau, rate));
    assert d * tau == c * (target - v * (1.0 - tau * rate)) by {
      assert (-(v - target) * c / tau) * tau == -(v - target) * c;
      assert (v * c * rate) * tau == c * (v * tau * rate);
    }
    assert d == 0.0 <==> d * tau == 0.0;
    assert c * (target - v * (1.0 - tau * rate)) == 0.0 <==> target == v * (1.0 - tau * rate);
    assert target == v * (1.0 - tau * rate) <==> v == f * target by {
      assert f * (1.0 - tau * rate) == 1.0;
      if target == v * (1.0 - tau * rate) {
        assert f * target == v * (f * (1.0 - tau * rate));
      }
      if v == f * target {
        assert v * (1.0 - tau * rate) == target * (f * (1.0 - tau * rate));
      }
    }
  }

  /** One forward-Euler step of a transverse plane is stationary exactly at
      the equilibrium scaled by its relaxation factor. */
  lemma TransverseEulerStationaryIff(v: real, target: real, tau: real, rate: real, ddt: real)
    requires ddt != 0.0 && tau != 0.0 && Ratio(tau, rate) != 1.0
    ensures TransverseEuler(v, target, tau, rate, ddt) == v <==> v == Factor(Ratio(tau, rate)) * target
  {
    StationaryIff(v, ddt, -(v - target) * 2.0 / tau + v * 2.0 * rate);
    RateRoot(v, target, 2.0, tau, rate);
  }

  /** The same for the energy spread, whose rate equation has no factor 2. */
  lemma LongitudinalEulerStationaryIff(v: real, target: real, tau: real, rate: real, ddt: real)
    requires ddt != 0.0 && tau != 0.0 && Ratio(tau, rate) != 1.0
    ensures LongitudinalEuler(v, target, tau, rate, ddt) == v <==> v == Factor(Ratio(tau, rate)) * target
  {
    StationaryIff(v, ddt, -(v - target) / tau + v * rate);
    RateRoot(v, target, 1.0, tau, rate);
    assert -(v - target) / tau + v * rate == -(v - target) * 1.0 / tau + v * 1.0 * rate;
  }

  /** The derivative scheme leaves a quantity unchanged exactly at the
      equilibrium scaled by its relaxation factor. */
  lemma DerivativeFixedPointIff(k: RunConstants, ibs: Rates, ddt: real, p: Point)
    requires ddt != 0.0 && NonZeroDampingTimes(k.eq) && NonDegenerate(k.eq, ibs)
    ensures var q := DerivativeUpdate(k, ibs, ddt, p);
      && (q.ex == p.ex <==> p.ex == XFactor(k.eq, ibs) * k.eq.exEq)
      && (q.ey == p.ey <==> p.ey == YFactor(k.eq, ibs) * k.eyTarget)
      && (q.sige == p.sige <==> p.sige == SFactor(k.eq, ibs) * k.sigeTarget)
  {
    DerivativeFixedPointX(k, ibs, ddt, p);
    DerivativeFixedPointY(k, ibs, ddt, p);
    DerivativeFixedPointS(k, ibs, ddt, p);
  }

  lemma DerivativeFixedPointX(k: RunConstants, ibs: Rates, ddt: real, p: Point)
    requires ddt != 0.0 && NonZeroDampingTimes(k.eq) && NonDegenerate(k.eq, ibs)
    ensures DerivativeUpdate(k, ibs, ddt, p).ex == p.ex <==> p.ex == XFactor(k.eq, ibs) * k.eq.exEq
  {
    var eq := k.eq;
    TransverseEulerStationaryIff(p.ex, eq.exEq, eq.tauX, ibs.x, ddt);
  }

  lemma DerivativeFixedPointY(k: RunConstants, ibs: Rates, ddt: real, p: Point)
    requires ddt != 0.0 && NonZeroDampingTimes(k.eq) && NonDegenerate(k.eq, ibs)
    ensures DerivativeUpdate(k, ibs, ddt, p).ey == p.ey <==> p.ey == YFactor(k.eq, ibs) * k.eyTarget
  {
    var eq := k.eq;
    TransverseEulerStationaryIff(p.ey, k.eyTarget, eq.tauY, ibs.y, ddt);
  }

  lemma DerivativeFixedPointS(k: RunConstants, ibs: Rates, ddt: real, p: Point)
    requires ddt != 0.0 && NonZeroDampingTimes(k.eq) && NonDegenerate(k.eq, ibs)
    ensures DerivativeUpdate(k, ibs, ddt, p).sige == p.sige <==> p.sige == SFactor(k.eq, ibs) * k.sigeTarget
  {
    var eq := k.eq;
    LongitudinalEulerStationaryIff(p.sige, k.sigeTarget, eq.tauS, ibs.s, ddt);
  }

  /** The relaxation scheme leaves a quantity unchanged exactly at its relaxation target. */
  lemma RelaxFixedPointIff(k: RunConstants, ibs: Rates, ddt: real, p: Point)
    requires ddt != 0.0 && NonDegenerate(k.eq, ibs)
    ensures var q := RelaxUpdate(k, ibs, ddt, p);
      && (q.ex == p.ex <==> p.ex == XFactor(k.eq, ibs) * k.eq.exEq)
      && (q.ey == p.ey <==> p.ey == RelaxEyTarget(k, ibs))
      && (q.sige == p.sige <==> p.sige == SFactor(k.eq, ibs) * k.sigeTarget)
  {
    var xfactor := XFactor(k.eq, ibs);
    var sfactor := SFactor(k.eq, ibs);
    RelaxStationaryIff(p.ex, xfactor * k.eq.exEq, ddt);
    RelaxStationaryIff(p.ey, RelaxEyTarget(k, ibs), ddt);
    RelaxStationaryIff(p.sige, sfactor * k.sigeTarget, ddt);
  }

  /** Both schemes have the same stationary horizontal emittance and energy
      spread; without coupling they also share the stationary vertical emittance. */
  lemma SchemesShareFixedPoints(k: RunConstants, ibs: Rates, ddt: real, p: Point)
    requires ddt != 0.0 && NonZeroDampingTimes(k.eq) && NonDegenerate(k.eq, ibs)
    ensures var r := RelaxUpdate(k, ibs, ddt, p);
      var d := DerivativeUpdate(k, ibs, ddt, p);
      && (r.ex == p.ex <==> d.ex == p.ex)
      && (r.sige == p.sige <==> d.sige == p.sige)
      && (k.coupling == 0.0 ==> (r.ey == p.ey <==> d.ey == p.ey))
  {
    DerivativeFixedPointIff(k, ibs, ddt, p);
    RelaxFixedPointIff(k, ibs, ddt, p);
  }
}
