/**
 * Sanitising of the stepper's configuration inputs: the integration scheme,
 * the convergence threshold and the coupling percentage, and the coupled
 * vertical emittance target derived from the coupling.
 */
module Settings {
  import opened Beam

  const Relaxation: string := "rlx"
  const Derivative: string := "der"

  const MinThreshold: real := 0.000001
  const MaxThreshold: real := 1.0
  const DefaultThreshold: real := 0.0001

  predicate ValidScheme(m: string) {
    m == Relaxation || m == Derivative
  }

  /** Any scheme other than the two known ones becomes the derivative scheme. */
  function SanitizeScheme(m: string): (r: string)
    ensures ValidScheme(r)
    ensures ValidScheme(m) ==> r == m
    ensures !ValidScheme(m) ==> r == Derivative
  {
    if !(m == Relaxation || m == Derivative) then Derivative else m
  }

  /** A threshold outside [1e-6, 1] becomes exactly 1e-4; one inside is kept. */
  function SanitizeThreshold(threshold: real): (r: real)
    ensures MinThreshold <= r <= MaxThreshold
    ensures MinThreshold <= threshold <= MaxThreshold ==> r == threshold
    ensures !(MinThreshold <= threshold <= MaxThreshold) ==> r == DefaultThreshold
  {
    if threshold > 1.0 || threshold < 0.000001 then 0.0001 else threshold
  }

  /** A coupling percentage outside [0, 100] becomes 0; one inside is kept. */
  function SanitizeCouplingPercentage(p: int): (r: int)
    ensures 0 <= r <= 100
    ensures 0 <= p <= 100 ==> r == p
    ensures !(0 <= p <= 100) ==> r == 0
  {
    if p > 100 || p < 0 then 0 else p
  }

  /** The coupling fraction used by the update rules. */
  function Coupling(p: int): (c: real)
    ensures 0.0 <= c <= 1.0
    ensures 0 <= p <= 100 ==> c * 100.0 == p as real
    ensures !(0 <= p <= 100) ==> c == 0.0
  {
    SanitizeCouplingPercentage(p) as real / 100.0
  }

  /** The coupled vertical target max(coupling * exEq, eyEq). */
  function EyTarget(coupling: real, eq: Equilibrium): (r: real)
    ensures r >= coupling * eq.exEq && r >= eq.eyEq
    ensures r == coupling * eq.exEq || r == eq.eyEq
  {
    if coupling * eq.exEq < eq.eyEq then eq.eyEq else coupling * eq.exEq
  }

  /** The run constants every step reads, derived once before the loop. */
  function Constants(eq: Equilibrium, couplingPercentage: int, sqrt: real -> real): (k: RunConstants)
    ensures k.eq == eq && 0.0 <= k.coupling <= 1.0
    ensures 0 <= couplingPercentage <= 100 ==> k.coupling * 100.0 == couplingPercentage as real
    ensures !(0 <= couplingPercentage <= 100) ==> k.coupling == 0.0
    ensures k.eyTarget >= k.coupling * eq.exEq && k.eyTarget >= eq.eyEq
    ensures k.eyTarget == k.coupling * eq.exEq || k.eyTarget == eq.eyEq
    ensures k.sigeTarget == sqrt(eq.sigE2Eq)
  {
    var c := Coupling(couplingPercentage);
    RunConstants(eq, c, EyTarget(c, eq), sqrt(eq.sigE2Eq))
  }

  lemma SanitizeSchemeIdempotent(m: string)
    ensures SanitizeScheme(SanitizeScheme(m)) == SanitizeScheme(m)
  {
  }

  lemma SanitizeThresholdIdempotent(threshold: real)
    ensures SanitizeThreshold(SanitizeThreshold(threshold)) == SanitizeThreshold(threshold)
  {
  }

  /** Out-of-range coupling is always reset to zero, whichever side it is on:
      150 % is treated as 0 %, not as 100 %. */
  lemma CouplingOutOfRangeIsZero(p: int)
    requires p < 0 || p > 100
    ensures Coupling(p) == Coupling(0) == 0.0
    ensures Coupling(p) != Coupling(100)
  {
  }
}
