# Equilibrium stepper of the IBS emittance evolution

This project models the stepper that tracks a beam's emittances towards equilibrium under intra-beam scattering (IBS) and radiation damping, and proves properties of that model. In the C++ source it is the two overloads of `ODE` in `cpp/src/OrdDiffEq.cpp`:

- the **convergence-driven** overload sanitises its configuration and derives the maximum time constant `taum`, the step size `ddt` and the step budget `ms` from the damping times and the growth rates at the seed. It then runs a `do … while` loop. Each iteration re-derives `ddt` from the previous iteration's growth rates, evaluates the selected IBS model at the current state, and advances the state with the `rlx` (relaxation) or `der` (derivative, forward Euler) rule. It then appends one sample to each of `t`, `ex`, `ey`, `sige`, `sige2` and `sigs`. The loop stops at the budget, or once `ex`, `ey` and `sigs` all change by at most the threshold.
- the **fixed-step** overload runs `max(nsteps, 1)` iterations with a caller-given step size. In the relaxation scheme it halves the step size, for good, whenever some ratio of damping time to growth time reaches 1.

Modules:

- `Beam` (`beam.dfy`): the beam state, growth rates, radiation equilibrium and run constants. It also holds the collaborators, which are taken as parameters: the IBS model bank, the RF mappings between bunch length and energy spread, and `sqrt`.
- `Settings` (`settings.dfy`): sanitising of the scheme, the threshold and the coupling percentage, and the coupled vertical target.
- `StepControl` (`step_control.dfy`): `taum`, `ddt`, the step budget (with C++ truncation toward zero), and the halving schedule of the fixed-step loop. The time constants `1.0 / rate` follow IEEE arithmetic for a zero rate: `+inf`, which never wins a `std::min` and always wins a `std::max`.
- `UpdateRules` (`update_rules.dfy`): the two update rules and their fixed points.
- `Ode` (`ode.dfy`): the two overloads. They are methods with `while` loops over the six vectors, written as `while i == 0 || cond` to keep the do-while's first unconditional iteration. Each is proved against per-iteration specification predicates (`ConvergenceStep`, `FixedStep`).
- `OdeProperties` (`ode_properties.dfy`): properties of whole runs, stated over what the methods ensure.

`sige` is a by-value parameter in the source (cpp/src/OrdDiffEq.cpp:144, :540). The caller never sees what is appended to it, so the methods return it only as a ghost. The seed energy spread is appended to `sige` (cpp/src/OrdDiffEq.cpp:252, :644), so `sige` lines up with the other vectors only when it arrives empty. The model keeps an arbitrary incoming `sige` and states both cases (`OdeProperties.AlignedWhenEmpty`, `OdeProperties.MisalignedWhenNonEmpty`). The documented call passes `sige` holding a single initial value (cpp/src/OrdDiffEq.cpp:109-111), which is the misaligned case; the equilibrium lemmas of `OdeProperties` cover only the aligned case of an empty `sige`.

Three behaviours of the source worth knowing:
- A coupling percentage of 150 is reset to 0, not clamped to 100 (cpp/src/OrdDiffEq.cpp:165-167).
- `taum` is the maximum of the damping times and the inverse growth rates, capped at 1. The value 1.0 is not itself one of the candidates of the maximum (cpp/src/OrdDiffEq.cpp:318-323).
- In the relaxation scheme the convergence loop multiplies the halved step by 4, so the step is twice the smallest time constant (cpp/src/OrdDiffEq.cpp:380, :480).

## Model

| member | source | states |
|---|---|---|
| Settings.SanitizeScheme | cpp/src/OrdDiffEq.cpp:151-153 | the result is `rlx` or `der`; a valid scheme is kept; anything else becomes `der` |
| Settings.SanitizeSchemeIdempotent | cpp/src/OrdDiffEq.cpp:548-549 | sanitising a sanitised scheme changes nothing |
| Settings.SanitizeThreshold | cpp/src/OrdDiffEq.cpp:161-163 | the result lies in [1e-6, 1]; an in-range threshold is kept; an out-of-range one becomes exactly 1e-4 |
| Settings.SanitizeThresholdIdempotent | cpp/src/OrdDiffEq.cpp:161-163 | sanitising a sanitised threshold changes nothing |
| Settings.SanitizeCouplingPercentage | cpp/src/OrdDiffEq.cpp:165-167 | the result lies in [0, 100]; an in-range percentage is kept; an out-of-range one becomes 0 |
| Settings.Coupling | cpp/src/OrdDiffEq.cpp:165-170 | the coupling fraction lies in [0, 1]; it is the percentage over 100 when in range and 0 otherwise |
| Settings.CouplingOutOfRangeIsZero | cpp/src/OrdDiffEq.cpp:544-558 | an out-of-range percentage, on either side, gives coupling 0, different from the coupling of 100 % |
| Settings.EyTarget | cpp/src/OrdDiffEq.cpp:216 | the coupled vertical target is at least `coupling * exEq` and at least `eyEq`, and equals one of them |
| Settings.Constants | cpp/src/OrdDiffEq.cpp:165-216 | the run constants keep the equilibrium; the coupling lies in [0, 1], is the percentage over 100 when the percentage is in [0, 100] and 0 otherwise; the vertical target is at least both `coupling * equi[3]` and `equi[4]` and equals one of them; the energy-spread target is `sqrt(equi[5])` |
| StepControl.Inverse | cpp/src/OrdDiffEq.cpp:320-322 | `1.0 / rate` is +infinity exactly for a zero rate, and otherwise a finite value whose product with the rate is 1 |
| StepControl.MaxTau | cpp/src/OrdDiffEq.cpp:318-323 | `taum <= 1`; `taum` is at least `min(c, 1)` for every damping time and finite inverse rate `c`; a zero rate forces `taum == 1`; `taum` is 1 or one of the candidates; and `taum` reaches 1 only when a zero rate or a candidate of at least 1 forces it, so below the cap it is the maximum of the candidates |
| StepControl.MinTau | cpp/src/OrdDiffEq.cpp:326-330 | `ddt` is at most every damping time and every finite inverse rate, and is one of them |
| StepControl.MinTauPositiveIff | cpp/src/OrdDiffEq.cpp:375-379 | the step size is positive if and only if all damping times are positive and no growth rate is negative |
| StepControl.MinTauNonZero | cpp/src/OrdDiffEq.cpp:326-336 | with non-zero damping times the step size is non-zero, so `10 * taum / ddt` is defined |
| StepControl.TruncateToInt | cpp/src/OrdDiffEq.cpp:336 | the `(int)` cast truncates toward zero: the floor for non-negative values, the ceiling for non-positive ones |
| StepControl.StepBudget | cpp/src/OrdDiffEq.cpp:336-337 | `ms <= 10000`; `ms` is at most the truncated `10 * taum / ddt` and equals it or 10000 |
| StepControl.StepBudgetAtLeastTen | cpp/src/OrdDiffEq.cpp:318-337 | with `0 < ddt <= 1` the budget is between 10 and 10000 steps |
| StepControl.HalvingScheduleClosedForm | cpp/src/OrdDiffEq.cpp:839-841 | the step size after j steps is the initial one divided by 2 to the number of halvings so far, since a halving persists |
| StepControl.HalvingSchedulePositive | cpp/src/OrdDiffEq.cpp:839-841 | from a positive start, every step size is positive, at most the start, and at most the one before |
| StepControl.HalvingScheduleConstant | cpp/src/OrdDiffEq.cpp:839-841 | without halvings, every step size is the initial one |
| UpdateRules.Factor | cpp/src/OrdDiffEq.cpp:485-487 | for a ratio other than 1, the relaxation factor `f` satisfies `f * (1 - ratio) == 1`; at a ratio of exactly 1, where the source has +inf, the model puts 0 |
| UpdateRules.FactorPositiveIff | cpp/src/OrdDiffEq.cpp:838-845 | the relaxation factor `1 / (1 - ratio)` is positive exactly for a ratio below 1 |
| UpdateRules.AnyRatioAtLeastOne | cpp/src/OrdDiffEq.cpp:834-839 | true when `ratio_x`, `ratio_y` or `ratio_s` is at least 1, which is exactly when some relaxation factor is infinite or not positive |
| UpdateRules.RelaxKeepsPositive | cpp/src/OrdDiffEq.cpp:489-496 | a relaxation step with step size in [0, 1] keeps a positive value positive when its target is positive; the convergence loop's relaxation step (line 480) can exceed 1, and then positive factors do not prevent a negative result |
| UpdateRules.RelaxStationaryIff | cpp/src/OrdDiffEq.cpp:847-854 | one relaxation step with a non-zero step size leaves a quantity unchanged exactly at its target |
| UpdateRules.RelaxUpdate | cpp/src/OrdDiffEq.cpp:479-498 | the relaxation rule advances time by exactly `ddt` (its fixed points are in `RelaxFixedPointIff`) |
| UpdateRules.DerivativeUpdate | cpp/src/OrdDiffEq.cpp:500-510 | the derivative rule advances time by exactly `ddt` (its fixed points are in `DerivativeFixedPointIff`) |
| UpdateRules.EquilibriumIsFixedPoint | cpp/src/OrdDiffEq.cpp:485-510 | with zero growth rates, a state at (`equi[3]`, `ey0_coupled`, `sqrt(equi[5])`) is left unchanged by both rules, and time advances by `ddt` |
| UpdateRules.RateRoot | cpp/src/OrdDiffEq.cpp:500-505 | the damped, driven rate `-(v - target) c / tau + v c rate` vanishes if and only if `v` is the target times `1 / (1 - tau rate)` |
| UpdateRules.TransverseEulerStationaryIff | cpp/src/OrdDiffEq.cpp:500-503 | an Euler step of an emittance leaves it unchanged if and only if it sits at its equilibrium times its relaxation factor |
| UpdateRules.LongitudinalEulerStationaryIff | cpp/src/OrdDiffEq.cpp:504-510 | the same for the energy spread, whose rate equation has no factor 2 |
| UpdateRules.DerivativeFixedPointIff | cpp/src/OrdDiffEq.cpp:858-868 | for `ddt != 0`, the derivative rule keeps ex, ey or sige unchanged if and only if it equals its equilibrium times its relaxation factor |
| UpdateRules.DerivativeFixedPointX | cpp/src/OrdDiffEq.cpp:500-501 | the horizontal half of `DerivativeFixedPointIff` |
| UpdateRules.DerivativeFixedPointY | cpp/src/OrdDiffEq.cpp:502-503 | the vertical half of `DerivativeFixedPointIff` |
| UpdateRules.DerivativeFixedPointS | cpp/src/OrdDiffEq.cpp:504-505 | the energy-spread half of `DerivativeFixedPointIff` |
| UpdateRules.RelaxFixedPointIff | cpp/src/OrdDiffEq.cpp:843-854 | for `ddt != 0`, the relaxation rule keeps ex, ey or sige unchanged if and only if it equals its relaxation target |
| UpdateRules.SchemesShareFixedPoints | cpp/src/OrdDiffEq.cpp:479-512 | both rules keep ex and sige unchanged for exactly the same states; without coupling, also ey |
| Ode.Update | cpp/src/OrdDiffEq.cpp:479-512 | the selected rule advances time by exactly `ddt` |
| Ode.ConvergenceDt | cpp/src/OrdDiffEq.cpp:375-380 | the convergence step is half the smallest time constant, and twice it in the relaxation scheme (line 480) |
| Ode.HalvesAt | cpp/src/OrdDiffEq.cpp:833-841 | iteration j halves the step size exactly in the relaxation scheme when some relaxation factor at state j is infinite or not positive (some ratio is at least 1) |
| Ode.Exceeds | cpp/src/OrdDiffEq.cpp:516-518 | the relative-change test of one quantity is true exactly when the change is not within the threshold: for a non-zero previous value, `abs(cur - prev) > threshold * abs(prev)`; for a zero previous value, when the current one is non-zero (IEEE inf), and false when it is zero (NaN compares false) |
| Ode.RelativeChangeBound | cpp/src/OrdDiffEq.cpp:516 | for a non-zero previous value, `abs((cur - prev) / prev) <= threshold` exactly when `abs(cur - prev) <= threshold * abs(prev)` |
| Ode.AnyExceeds | cpp/src/OrdDiffEq.cpp:516-518 | the continuation test at index i is false exactly when ex, ey and sigs all changed by at most the threshold relative to their previous values (a zero previous value staying zero) |
| Ode.RunBudget | cpp/src/OrdDiffEq.cpp:317-337 | the budget computed from the growth rates at the seed is at most 10000 |
| Ode.Push | cpp/src/OrdDiffEq.cpp:489-498 | one iteration appends one element to each vector; sige2 and sigs get values derived from `sige[i]` |
| Ode.PushAppends | cpp/src/OrdDiffEq.cpp:507-512 | after a push, every vector has one more element, earlier elements are unchanged, and the new ones record the update |
| Ode.ConvergencePush | cpp/src/OrdDiffEq.cpp:374-512 | a push extends the record of convergence iterations by one and keeps the earlier ones |
| Ode.FixedPush | cpp/src/OrdDiffEq.cpp:831-870 | a push extends the record of fixed-step iterations by one, halving decision included, and keeps the earlier ones |
| Ode.FixedSchedule | cpp/src/OrdDiffEq.cpp:839-841 | the step sizes of a fixed-step run follow the halving schedule of its halving decisions |
| Ode.PushKeepsTests | cpp/src/OrdDiffEq.cpp:516-518 | appending a sample does not change the continuation test at any earlier index |
| Ode.PushKeepsAllTests | cpp/src/OrdDiffEq.cpp:516-518 | after one more iteration, every continuation test so far still holds |
| Ode.OdeUntilConverged | cpp/src/OrdDiffEq.cpp:141-535 | the loop runs at least once and at most `max(ms, 1)` (and 10000) times. Each vector has one element per iteration plus the seed, and sige keeps its incoming entries. Every iteration is the selected update at the current state with the step size from the previous rates. Every iteration after the first was admitted by the test. A stop before the budget means no relative change exceeds the threshold |
| Ode.ConvergenceIteration | cpp/src/OrdDiffEq.cpp:374-518 | one iteration of the convergence loop extends the record of iterations and of admitting tests by one and leaves the seed and earlier states untouched |
| Ode.ConvergenceLoop | cpp/src/OrdDiffEq.cpp:359-518 | the do-while loop runs between 1 and `max(ms, 1)` iterations. Each iteration is the selected update with the step size from the previous rates. Each iteration after the first was admitted by the test. A stop before the budget means the test failed |
| Ode.FixedIteration | cpp/src/OrdDiffEq.cpp:831-870 | one iteration of the fixed-step loop extends the record of iterations, halving decision included, by one and leaves the seed untouched |
| Ode.OdeFixedSteps | cpp/src/OrdDiffEq.cpp:537-891 | exactly `max(nsteps, 1)` iterations, with no convergence test. Each vector has one element per iteration plus the seed (sige seeded from `sigs[0]`, line 639). Every iteration is the selected update with a step size that follows the halving schedule |
| OdeProperties.ConvergenceTimeIncreasing | cpp/src/OrdDiffEq.cpp:374-380 | with positive damping times, and non-negative growth rates at the states the step sizes are taken from, t is strictly increasing in a convergence run (line 489 adds the step) |
| OdeProperties.FixedStepSizesShrink | cpp/src/OrdDiffEq.cpp:839-847 | from a positive step size, the fixed-step sizes stay positive, never exceed it and never grow, and t is strictly increasing |
| OdeProperties.FixedDerivativeStepConstant | cpp/src/OrdDiffEq.cpp:857-865 | in the derivative scheme, every fixed step uses the caller's step size |
| OdeProperties.AlignedWhenEmpty | cpp/src/OrdDiffEq.cpp:251-253 | with sige empty on entry, sige is as long as t, and the state after step j is the one step j computed, its bunch length derived from its energy spread |
| OdeProperties.MisalignedWhenNonEmpty | cpp/src/OrdDiffEq.cpp:252 | with m entries in sige on entry, the first step reads `sigeIn[0]`, the seed sits at index m, the state up to index m reads stale energy spreads, and the new values land at index m + 1 + j |
| OdeProperties.ConvergenceEquilibriumHeld | cpp/src/OrdDiffEq.cpp:489-512 | seeded at the equilibrium with no IBS, a convergence run keeps ex, ey and sige at the seed at every index |
| OdeProperties.FixedEquilibriumHeld | cpp/src/OrdDiffEq.cpp:847-870 | the same for a fixed-step run |
| OdeProperties.UnchangedNeverExceeds | cpp/src/OrdDiffEq.cpp:516-518 | a value that did not change never fails a non-negative threshold |
| OdeProperties.ConvergenceAtEquilibriumUnchanged | cpp/src/OrdDiffEq.cpp:516-518 | seeded at the equilibrium with no IBS, the continuation test at index 2 fails |
| OdeProperties.ConvergenceAtEquilibriumStopsEarly | cpp/src/OrdDiffEq.cpp:359-518 | hence such a convergence run stops after at most two iterations |
| OdeProperties.ConvergedWithinThreshold | cpp/src/OrdDiffEq.cpp:516-518 | when the test fails, each of ex, ey and sigs changed by at most the threshold relative to its previous value, and a zero previous value stayed zero |

## Left out

- Diagnostic output, console colours, `printline`, `printouts` and the progress bars: terminal side effects only.
- `WriteToFile`: file I/O, which is not part of this model.
- The 13 IBS models, the radiation integrals, the equilibrium routine, the longitudinal parameters (`U0`, `phis`, `qs`), `sigsfromsige`, `SigeFromRFAndSigs` and `sqrt`. Their bodies are not part of this model, so they are the abstract functions of `Collaborators` and the abstract `Equilibrium` record.
- The value of `sigefromsigs` (lines 217, 625) and the first `SigeFromRFAndSigs` call of the fixed-step overload (line 631). Both are used only in diagnostic output (lines 237, 628, 635), then overwritten.
- The initial growth-rate evaluation of the fixed-step overload (lines 655-707): it is only printed.
- IEEE rounding, NaN and infinity propagation (other than `1.0 / 0.0` in `taum` and `ddt`, and the relative-change test with a zero previous value, which are modelled), and negative zero. Scalars are reals.
- UpdateRules.RelaxUpdate: at a visited state where some ratio is exactly 1 the source computes an infinite relaxation factor and propagates +inf or NaN. The model puts the stand-in factor 0 there (`UpdateRules.Factor`). The method contracts then describe the stand-in value, not the source's; no property lemma covers such a step (the fixed-point lemmas assume no ratio of 1).
- Ode.OdeFixedSteps: the `SchemeReady` precondition requires non-zero damping times in the derivative scheme, because lines 859-863 divide by them. The relaxation scheme has no precondition.
- Ode.OdeUntilConverged: requires non-zero damping times, so that the budget `10 * taum / ddt` is a real number. The source would divide by zero.
- StepControl.TruncateToInt: the C++ `int` overflow of the cast at line 336 is not modelled; values outside the `int` range are truncated as mathematical integers.
- Ode.OdeUntilConverged: the model id outside 1..13, where the `switch` leaves `ibs` uninitialised or stale, is excluded by the `KnownModel` precondition.
- Ode.OdeUntilConverged: the seeds `t`, `ex`, `ey` and `sigs` must hold exactly one element, the single-sample seeds the overloads are designed for. `sige` may hold any number.
- Ode.OdeFixedSteps: the same one-element seeds.
