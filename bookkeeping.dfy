/**
 * The solver's scalar state, the statistics it records, and what one step and
 * a reset do to them, as functions. The solver class is proved to follow
 * these; the lemmas here state what holds over single steps and whole runs.
 */
module Bookkeeping {
  import opened Wrappers
  import opened Evaluation
  import opened Scene
  import opened Acceptance
  import opened Retry

  /** Settings fixed at construction. */
  datatype Config = Config(
    maxInvalidCandidates: int,
    printReportFreq: int,
    initialDemonEnergy: real,
    initialDemonEnergyMax: real,
    reductionFactor: real,
    doLazyEval: bool,
    validateLazyEval: bool)

  /** The record the acceptance rule returns (all zero when there was no proposal). */
  datatype AcceptRecord = AcceptRecord(accept: Option<bool>, deltaEnergy: real, demonEnergy: real, demonEnergyMax: real)

  /** One statistics row (timings left out). */
  datatype StatsRecord = StatsRecord(
    currIteration: nat,
    loss: real,
    viol: int,
    bestLoss: Option<real>,
    demonEnergy: real,
    demonEnergyMax: real,
    reductionFactor: real,
    initialDemonEnergy: real,
    initialDemonEnergyMax: real,
    accept: Option<bool>,
    moveGen: string,
    moveType: Option<string>,
    moveTarget: Option<string>,
    retry: Option<nat>)

  /** The solver fields a step and a reset change (the memo is kept apart). */
  datatype SolverState = SolverState(
    currIteration: nat,
    maxIterations: int,
    currResult: Option<EvalResult>,
    bestLoss: Option<real>,
    demonEnergy: real,
    demonEnergyMax: real,
    stats: seq<StatsRecord>,
    lastEvalResult: Option<EvalResult>)

  /** Whether the step at iteration `it` appends a statistics row. */
  predicate IsLogStep(freq: int, it: nat)
    // logging off at frequency zero; otherwise the first iteration is always logged
    ensures IsLogStep(freq, it) ==> freq != 0
    ensures it == 0 ==> (IsLogStep(freq, it) <==> freq != 0)
  {
    freq != 0 && it % freq == 0
  }

  /** The current result, seeded by evaluating the scene on the first step. */
  function Seeded(s: SolverState, seed: EvalResult): EvalResult
  {
    if s.currResult.Some? then s.currResult.value else seed
  }

  /** The acceptance part of a step: its record, the demon energy after it, the current result after it. */
  datatype Phase = Phase(record: AcceptRecord, demonEnergy: real, current: EvalResult)

  function AcceptPhase(s: SolverState, cur: EvalResult, a: Attempt, u: real): (ph: Phase)
    // without a proposal nothing is decided and nothing changes
    ensures a.result.None? ==> ph.record.accept.None? && ph.demonEnergy == s.demonEnergy && ph.current == cur
    // with one, a decision is always made, and only an accept replaces the current result
    ensures a.result.Some? ==> ph.record.accept.Some?
    ensures ph.current == (if ph.record.accept == Some(true) then a.result.value else cur)
  {
    if a.result.None? then Phase(AcceptRecord(None, 0.0, 0.0, 0.0), s.demonEnergy, cur)
    else
      var delta := DeltaEnergy(cur, a.result.value);
      var d := Decide(delta, s.demonEnergy, a.result.value.viol, cur.viol, u);
      Phase(AcceptRecord(Some(d.accept), delta, s.demonEnergy, s.demonEnergyMax),
            d.demonEnergy,
            if d.accept then a.result.value else cur)
  }

  /** Whether the step accepts its proposal. */
  predicate StepAccepts(s: SolverState, seed: EvalResult, a: Attempt, u: real)
  {
    AcceptPhase(s, Seeded(s, seed), a, u).record.accept == Some(true)
  }

  function MoveType(m: Option<Move>): Option<string>
  {
    if m.Some? then Some(m.value.kind) else None
  }

  function MoveTarget(m: Option<Move>): Option<string>
  {
    if m.Some? && m.value.name.Some? then Some(m.value.name.value) else None
  }

  /**
   * The end of a step, after the acceptance phase `ph`: clamp the demon to the
   * ceiling of this iteration, append a statistics row on a log step, advance
   * the iteration, remember the proposal's result.
   */
  function CloseStep(cfg: Config, s: SolverState, ph: Phase, a: Attempt, moveGen: string): (t: SolverState)
    ensures t.currIteration == s.currIteration + 1
    ensures t.demonEnergy <= t.demonEnergyMax
    ensures t.currResult == Some(ph.current)
  {
    var ceiling := Ceiling(cfg.initialDemonEnergyMax, cfg.reductionFactor, s.currIteration);
    var energy := Clamp(ph.demonEnergy, ceiling);
    var row := StatsRecord(
      s.currIteration, ph.current.loss, ph.current.viol, s.bestLoss, energy, ceiling,
      cfg.reductionFactor, cfg.initialDemonEnergy, cfg.initialDemonEnergyMax,
      ph.record.accept, moveGen, MoveType(a.move), MoveTarget(a.move), a.retry);
    SolverState(
      s.currIteration + 1,
      s.maxIterations,
      Some(ph.current),
      s.bestLoss,
      energy,
      ceiling,
      if IsLogStep(cfg.printReportFreq, s.currIteration) then s.stats + [row] else s.stats,
      if a.result.Some? then a.result else s.lastEvalResult)
  }

  /**
   * One step: seed the current result, decide on the proposal, then close the
   * step as above.
   */
  function StepSpec(cfg: Config, s: SolverState, seed: EvalResult, a: Attempt, u: real, moveGen: string): (t: SolverState)
    ensures t.currIteration == s.currIteration + 1
    ensures t.currResult.Some?
  {
    CloseStep(cfg, s, AcceptPhase(s, Seeded(s, seed), a, u), a, moveGen)
  }

  /** A reset: iteration zero, no current result or best loss, both energies restored. */
  function ResetSpec(cfg: Config, s: SolverState, maxIters: int): (t: SolverState)
    ensures t.currIteration == 0 && t.currResult.None? && t.bestLoss.None?
    ensures t.maxIterations == maxIters
    ensures t.demonEnergy == cfg.initialDemonEnergy && t.demonEnergyMax == cfg.initialDemonEnergyMax
    ensures t.stats == s.stats && t.lastEvalResult == s.lastEvalResult
  {
    SolverState(0, maxIters, None, None, cfg.initialDemonEnergy, cfg.initialDemonEnergyMax,
                s.stats, s.lastEvalResult)
  }

  /** The bookkeeping of one step. */
  lemma StepBookkeeping(cfg: Config, s: SolverState, seed: EvalResult, a: Attempt, u: real, moveGen: string)
    ensures var t := StepSpec(cfg, s, seed, a, u, moveGen);
      && t.currIteration == s.currIteration + 1
      && t.maxIterations == s.maxIterations
      && t.bestLoss == s.bestLoss
      // the current result changes only on an accepted proposal, and then becomes it
      && t.currResult == (if StepAccepts(s, seed, a, u) then a.result else Some(Seeded(s, seed)))
      && (StepAccepts(s, seed, a, u) ==> a.result.Some?)
      // one row is appended exactly on a log step, recording the iteration it was taken at
      && (IsLogStep(cfg.printReportFreq, s.currIteration) ==>
            |t.stats| == |s.stats| + 1 && t.stats[..|s.stats|] == s.stats &&
            t.stats[|s.stats|].currIteration == s.currIteration)
      && (!IsLogStep(cfg.printReportFreq, s.currIteration) ==> t.stats == s.stats)
  {
    var t := StepSpec(cfg, s, seed, a, u, moveGen);
    if IsLogStep(cfg.printReportFreq, s.currIteration) {
      assert t.stats[..|s.stats|] == s.stats;
    }
  }

  /**
   * The energy schedule of one step: the ceiling is the initial one decayed by
   * the iteration count, and the demon ends at or below it, unchanged if its
   * energy after the decision was already within it.
   */
  lemma StepEnergy(cfg: Config, s: SolverState, seed: EvalResult, a: Attempt, u: real, moveGen: string)
    ensures var t := StepSpec(cfg, s, seed, a, u, moveGen);
      && t.demonEnergyMax == cfg.initialDemonEnergyMax * Pow(cfg.reductionFactor, s.currIteration)
      && t.demonEnergy <= t.demonEnergyMax
      && (AcceptPhase(s, Seeded(s, seed), a, u).demonEnergy <= t.demonEnergyMax ==>
            t.demonEnergy == AcceptPhase(s, Seeded(s, seed), a, u).demonEnergy)
  {
  }

  /** With a non-negative initial ceiling and factor, the demon never goes negative. */
  lemma StepKeepsEnergyNonNegative(cfg: Config, s: SolverState, seed: EvalResult, a: Attempt, u: real, moveGen: string)
    requires 0.0 <= cfg.initialDemonEnergyMax && 0.0 <= cfg.reductionFactor
    requires 0.0 <= s.demonEnergy
    ensures 0.0 <= StepSpec(cfg, s, seed, a, u, moveGen).demonEnergy
  {
    var ceiling := Ceiling(cfg.initialDemonEnergyMax, cfg.reductionFactor, s.currIteration);
    assert 0.0 <= ceiling;
    var ph := AcceptPhase(s, Seeded(s, seed), a, u);
    if a.result.Some? {
      var cur := Seeded(s, seed);
      DecideKeepsEnergyNonNegative(DeltaEnergy(cur, a.result.value), s.demonEnergy, a.result.value.viol, cur.viol, u);
    }
    assert 0.0 <= ph.demonEnergy;
    assert StepSpec(cfg, s, seed, a, u, moveGen).demonEnergy == Clamp(ph.demonEnergy, ceiling);
  }

  /** The inputs of one step that do not come from the solver's own state. */
  datatype StepInput = StepInput(seed: EvalResult, attempt: Attempt, u: real, moveGen: string)

  /** The solver state after a sequence of steps. */
  function Run(cfg: Config, s: SolverState, steps: seq<StepInput>): SolverState
  {
    if |steps| == 0 then s
    else
      var i := steps[|steps| - 1];
      StepSpec(cfg, Run(cfg, s, steps[..|steps| - 1]), i.seed, i.attempt, i.u, i.moveGen)
  }

  /** The iterations among the first `k` that are log steps, in order. */
  function LogIterations(freq: int, k: nat): (r: seq<nat>)
    ensures forall j :: 0 <= j < |r| ==> r[j] < k && IsLogStep(freq, r[j])
    ensures forall j :: 0 <= j < k && IsLogStep(freq, j) ==> j in r
    ensures forall a, b :: 0 <= a < b < |r| ==> r[a] < r[b]
  {
    if k == 0 then []
    else LogIterations(freq, k - 1) + (if IsLogStep(freq, k - 1) then [k - 1] else [])
  }

  function StatIterations(rows: seq<StatsRecord>): seq<nat>
  {
    if |rows| == 0 then [] else StatIterations(rows[..|rows| - 1]) + [rows[|rows| - 1].currIteration]
  }

  lemma {:induction false} StatIterationsAppend(rows: seq<StatsRecord>, row: StatsRecord)
    ensures StatIterations(rows + [row]) == StatIterations(rows) + [row.currIteration]
  {
    assert (rows + [row])[..|rows + [row]| - 1] == rows;
  }

  /**
   * A run of `k` steps after a reset: the iteration count is `k`, and the rows
   * appended to the statistics are exactly one per log step, in iteration
   * order.
   */
  lemma {:induction false} RunAfterReset(cfg: Config, s0: SolverState, n: int, steps: seq<StepInput>)
    ensures Run(cfg, ResetSpec(cfg, s0, n), steps).currIteration == |steps|
    ensures StatIterations(Run(cfg, ResetSpec(cfg, s0, n), steps).stats)
            == StatIterations(s0.stats) + LogIterations(cfg.printReportFreq, |steps|)
  {
    if |steps| > 0 {
      var prefix := steps[..|steps| - 1];
      var i := steps[|steps| - 1];
      RunAfterReset(cfg, s0, n, prefix);
      var s := Run(cfg, ResetSpec(cfg, s0, n), prefix);
      StepBookkeeping(cfg, s, i.seed, i.attempt, i.u, i.moveGen);
      var t := StepSpec(cfg, s, i.seed, i.attempt, i.u, i.moveGen);
      if IsLogStep(cfg.printReportFreq, s.currIteration) {
        assert t.stats == s.stats + [t.stats[|s.stats|]];
        StatIterationsAppend(s.stats, t.stats[|s.stats|]);
      }
    }
  }

  /**
   * Over a run after a reset, from the first step on: the ceiling is the
   * initial one decayed by the last iteration index, the demon is within it,
   * and (factor in [0, 1], non-negative initial values) the demon stays
   * non-negative and the ceiling never rises from one step to the next.
   */
  lemma {:induction false} RunEnergy(cfg: Config, s0: SolverState, n: int, steps: seq<StepInput>)
    requires 0 < |steps|
    ensures var t := Run(cfg, ResetSpec(cfg, s0, n), steps);
      t.demonEnergyMax == Ceiling(cfg.initialDemonEnergyMax, cfg.reductionFactor, |steps| - 1) &&
      t.demonEnergy <= t.demonEnergyMax
    ensures 0.0 <= cfg.initialDemonEnergy && 0.0 <= cfg.initialDemonEnergyMax &&
            0.0 <= cfg.reductionFactor <= 1.0 ==>
              0.0 <= Run(cfg, ResetSpec(cfg, s0, n), steps).demonEnergy &&
              (1 < |steps| ==>
                 Run(cfg, ResetSpec(cfg, s0, n), steps).demonEnergyMax <=
                 Run(cfg, ResetSpec(cfg, s0, n), steps[..|steps| - 1]).demonEnergyMax)
  {
    var prefix := steps[..|steps| - 1];
    var i := steps[|steps| - 1];
    var s := Run(cfg, ResetSpec(cfg, s0, n), prefix);
    RunAfterReset(cfg, s0, n, prefix);
    StepEnergy(cfg, s, i.seed, i.attempt, i.u, i.moveGen);
    if 0.0 <= cfg.initialDemonEnergy && 0.0 <= cfg.initialDemonEnergyMax && 0.0 <= cfg.reductionFactor <= 1.0 {
      if 1 < |steps| {
        RunEnergy(cfg, s0, n, prefix);
        CeilingNonIncreasing(cfg.initialDemonEnergyMax, cfg.reductionFactor, |steps| - 2, |steps| - 1);
      }
      StepKeepsEnergyNonNegative(cfg, s, i.seed, i.attempt, i.u, i.moveGen);
    }
  }
}
