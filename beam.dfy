/**
 * Values exchanged between the equilibrium stepper and its collaborators:
 * the beam state fed to the growth-rate models, the growth-rate triple the
 * models return, the radiation-damping equilibria, and the constants the
 * stepper derives once per run.
 */
module Beam {

  /** The current beam: horizontal and vertical emittance, bunch length and energy spread. */
  datatype BeamState = BeamState(ex: real, ey: real, sigs: real, sige: real)

  /** One sample of the IBS growth-rate bank, in the order the models return it:
      longitudinal, horizontal, vertical (inverse seconds; may be negative). */
  datatype Rates = Rates(s: real, x: real, y: real)

  /** The seven values of the radiation-damping equilibrium routine:
      damping times, radiation-only equilibrium emittances, equilibrium
      energy spread squared and equilibrium bunch length. */
  datatype Equilibrium = Equilibrium(
    tauX: real, tauY: real, tauS: real,
    exEq: real, eyEq: real, sigE2Eq: real, sigsEq: real)

  /** What the update rules read besides the current sample: the equilibrium,
      the coupling fraction, the coupled vertical target and the square root
      of the equilibrium energy spread squared. */
  datatype RunConstants = RunConstants(eq: Equilibrium, coupling: real, eyTarget: real, sigeTarget: real)

  /** The part of a trajectory sample the update rules advance. */
  datatype Point = Point(t: real, ex: real, ey: real, sige: real)

  /** The collaborators whose bodies are not part of this model:
      the bank of thirteen IBS models indexed by model id (with particle
      number and lattice already applied), the RF-bucket maps between energy
      spread and bunch length, and the square root of the maths library. */
  datatype Collaborators = Collaborators(
    bank: (int, BeamState) -> Rates,
    sigsFromSige: real -> real,
    sigeFromSigs: real -> real,
    sqrt: real -> real)

  /** The model ids the source's switch handles. */
  predicate KnownModel(model: int) {
    1 <= model <= 13
  }
}
