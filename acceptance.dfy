/**
 * The demon-energy acceptance rule and the energy-ceiling schedule.
 * Losses and energies are exact reals; the only arithmetic is comparison,
 * subtraction and an integer power.
 */
module Acceptance {
  import opened Evaluation

  /** Chance of accepting a move the demon cannot pay for. */
  const RandomAcceptanceChance: real := 0.01

  /** `r ** k` for a natural exponent. */
  function Pow(r: real, k: nat): real
  {
    if k == 0 then 1.0 else r * Pow(r, k - 1)
  }

  lemma {:induction false} PowNonNegative(r: real, k: nat)
    requires 0.0 <= r
    ensures 0.0 <= Pow(r, k)
  {
    if k > 0 {
      PowNonNegative(r, k - 1);
    }
  }

  /** A factor in [0, 1] raised to a larger power gives a smaller value. */
  lemma {:induction false} PowAntitone(r: real, j: nat, k: nat)
    requires 0.0 <= r <= 1.0
    requires j <= k
    ensures Pow(r, k) <= Pow(r, j)
    decreases k - j
  {
    if j < k {
      PowAntitone(r, j, k - 1);
      PowNonNegative(r, k - 1);
      assert Pow(r, k) == r * Pow(r, k - 1) <= Pow(r, k - 1);
    }
  }

  /** Proposed loss minus current loss: non-positive exactly for a move that does not worsen the loss. */
  function DeltaEnergy(curr: EvalResult, prop: EvalResult): (d: real)
    ensures d <= 0.0 <==> prop.loss <= curr.loss
  {
    prop.loss - curr.loss
  }

  datatype Decision = Decision(accept: bool, demonEnergy: real)

  /**
   * The acceptance decision and the demon's new energy, for a move of energy
   * change `delta` whose proposed and current violation counts are given;
   * `u` is the uniform draw in [0, 1] consulted only by the random fallback.
   */
  function Decide(delta: real, demon: real, propViol: int, currViol: int, u: real): (d: Decision)
    // hard constraints dominate, whatever the energies
    ensures propViol > currViol ==> !d.accept && d.demonEnergy == demon
    ensures propViol < currViol ==> d.accept && d.demonEnergy == demon
    // an affordable or non-worsening move is taken and paid for exactly
    ensures propViol == currViol && (demon >= delta || delta <= 0.0) ==>
              d.accept && d.demonEnergy == demon - delta
    // otherwise only the random fallback accepts, and the demon is untouched
    ensures propViol == currViol && demon < delta && delta > 0.0 ==>
              d.accept == (u < RandomAcceptanceChance) && d.demonEnergy == demon
  {
    var violDiff := propViol - currViol;
    if violDiff > 0 then Decision(false, demon)
    else if violDiff < 0 then Decision(true, demon)
    else if demon >= delta || delta <= 0.0 then Decision(true, demon - delta)
    else if u < RandomAcceptanceChance then Decision(true, demon)
    else Decision(false, demon)
  }

  /**
   * Microcanonical energy conservation: on an accepted equal-violation move
   * paid by the demon, demon energy plus current loss is the same before and
   * after.
   */
  lemma DemonPathConservesEnergy(curr: EvalResult, prop: EvalResult, demon: real, u: real)
    requires prop.viol == curr.viol
    requires demon >= DeltaEnergy(curr, prop) || DeltaEnergy(curr, prop) <= 0.0
    ensures Decide(DeltaEnergy(curr, prop), demon, prop.viol, curr.viol, u).accept
    ensures Decide(DeltaEnergy(curr, prop), demon, prop.viol, curr.viol, u).demonEnergy + prop.loss
            == demon + curr.loss
  {
  }

  /** The demon never goes into debt: a non-negative energy stays non-negative. */
  lemma DecideKeepsEnergyNonNegative(delta: real, demon: real, propViol: int, currViol: int, u: real)
    requires 0.0 <= demon
    ensures 0.0 <= Decide(delta, demon, propViol, currViol, u).demonEnergy
  {
  }

  /**
   * The acceptance rule itself does not clamp: a downhill move taken with the
   * demon at its ceiling leaves it above the ceiling (until the schedule
   * clamps it at the end of the step).
   */
  lemma DownhillCanExceedCeiling(delta: real, demonMax: real, viol: int, u: real)
    requires delta < 0.0
    ensures Decide(delta, demonMax, viol, viol, u).demonEnergy > demonMax
  {
  }

  lemma MulNonNegative(a: real, b: real)
    requires 0.0 <= a && 0.0 <= b
    ensures 0.0 <= a * b
  {
  }

  /** A non-negative start decayed by a non-negative factor stays non-negative. */
  lemma DecayedNonNegative(initialMax: real, reductionFactor: real, it: nat)
    ensures 0.0 <= initialMax && 0.0 <= reductionFactor ==> 0.0 <= initialMax * Pow(reductionFactor, it)
  {
    if 0.0 <= initialMax && 0.0 <= reductionFactor {
      PowNonNegative(reductionFactor, it);
      MulNonNegative(initialMax, Pow(reductionFactor, it));
    }
  }

  /** The ceiling after iteration `it`: the initial ceiling decayed geometrically. */
  function Ceiling(initialMax: real, reductionFactor: real, it: nat): (c: real)
    ensures it == 0 ==> c == initialMax
    ensures 0.0 <= initialMax && 0.0 <= reductionFactor ==> 0.0 <= c
  {
    DecayedNonNegative(initialMax, reductionFactor, it);
    initialMax * Pow(reductionFactor, it)
  }

  /** The demon energy brought down to the ceiling when above it. */
  function Clamp(demon: real, ceiling: real): (e: real)
    ensures e <= ceiling && e <= demon
    ensures e == demon || e == ceiling
  {
    if demon > ceiling then ceiling else demon
  }

  /** With a factor in [0, 1] and a non-negative start, the ceiling never rises. */
  lemma CeilingNonIncreasing(initialMax: real, reductionFactor: real, j: nat, k: nat)
    requires 0.0 <= initialMax
    requires 0.0 <= reductionFactor <= 1.0
    requires j <= k
    ensures 0.0 <= Ceiling(initialMax, reductionFactor, k) <= Ceiling(initialMax, reductionFactor, j)
  {
    PowAntitone(reductionFactor, j, k);
    PowNonNegative(reductionFactor, k);
  }

  // Scenarios with the default energies 100 and 200 and factor 0.85.

  /** Loss 10 to 9 at equal violations: accepted, the demon gains the difference. */
  lemma ScenarioDownhill(viol: int, u: real)
    ensures Decide(DeltaEnergy(EvalResult(10.0, viol), EvalResult(9.0, viol)), 100.0, viol, viol, u)
            == Decision(true, 101.0)
  {
  }

  /** Loss 10 to 150 with energy 100 and a draw of at least 0.01: rejected, energy kept. */
  lemma ScenarioUphillRejected(viol: int, u: real)
    requires u >= 0.01
    ensures Decide(DeltaEnergy(EvalResult(10.0, viol), EvalResult(150.0, viol)), 100.0, viol, viol, u)
            == Decision(false, 100.0)
  {
  }

  /** Violations 2 to 1: accepted whatever the losses. */
  lemma ScenarioFewerViolations(currLoss: real, propLoss: real, demon: real, u: real)
    ensures Decide(propLoss - currLoss, demon, 1, 2, u).accept
  {
  }

  /** The first three ceilings with the defaults. */
  lemma ScenarioCeilings()
    ensures Ceiling(200.0, 0.85, 0) == 200.0
    ensures Ceiling(200.0, 0.85, 1) == 170.0
    ensures Ceiling(200.0, 0.85, 2) == 144.5
  {
  }
}
