/**
 * The simulated-annealing solver with the demon-energy acceptance rule: a
 * stateful, single-threaded driver that, once per step, pulls candidate
 * moves from a proposal generator, evaluates the first one that applies
 * through the memo, accepts or rejects it, and updates its energy schedule
 * and statistics.
 */
module Annealing {
  import opened Wrappers
  import opened Evaluation
  import opened Scene
  import opened Acceptance
  import opened Retry
  import opened Bookkeeping

  /** Raised by the constructor for a configuration it does not support. */
  datatype ConfigError = CheckpointBestNotImplemented

  /** The protocol call that settles the step's proposal: accept it, revert it, or nothing. */
  function SettleEvents(accepted: bool, a: Attempt): (t: seq<Event>)
    // at most one call, never an apply, and only on the step's own move
    ensures |t| <= 1 && (|t| == 1 <==> a.result.Some? && a.move.Some?)
    ensures forall e :: e in t ==> !e.Applied? && a.move == Some(e.move)
  {
    if a.result.Some? && a.move.Some? then
      (if accepted then [Accepted(a.move.value)] else [Reverted(a.move.value)])
    else []
  }

  class SimulatedAnnealingSolver {
    const cfg: Config

    var currIteration: nat
    var maxIterations: int
    var currResult: Option<EvalResult>
    var bestLoss: Option<real>
    var demonEnergy: real
    var demonEnergyMax: real
    var stats: seq<StatsRecord>
    var lastEvalResult: Option<EvalResult>
    var evalMemo: Memo

    /** Whether `Reset` has run; the iteration fields exist only from then on. */
    ghost var ready: bool

    function View(): SolverState
      reads this
    {
      SolverState(currIteration, maxIterations, currResult, bestLoss, demonEnergy, demonEnergyMax,
                  stats, lastEvalResult)
    }

    /** Construction with a supported configuration (no checkpointing of the best state). */
    constructor (cfg: Config)
      ensures this.cfg == cfg && !ready
      ensures demonEnergy == cfg.initialDemonEnergy && demonEnergyMax == cfg.initialDemonEnergyMax
      ensures evalMemo == map[] && stats == [] && lastEvalResult.None?
    {
      this.cfg := cfg;
      currIteration := 0;
      maxIterations := 0;
      currResult := None;
      bestLoss := None;
      demonEnergy := cfg.initialDemonEnergy;
      demonEnergyMax := cfg.initialDemonEnergyMax;
      stats := [];
      lastEvalResult := None;
      evalMemo := map[];
      ready := false;
    }

    /** The constructor as the caller sees it: checkpointing the best state is refused. */
    static method Create(maxInvalidCandidates: int, checkpointBest: bool, printReportFreq: int,
                         initialDemonEnergy: real, initialDemonEnergyMax: real, reductionFactor: real,
                         doLazyEval: bool, validateLazyEval: bool)
      returns (r: Result<SimulatedAnnealingSolver, ConfigError>)
      ensures r.Failure? <==> checkpointBest
      ensures r.Failure? ==> r.error == CheckpointBestNotImplemented
      ensures r.Success? ==>
                fresh(r.value) && !r.value.ready &&
                r.value.cfg == Config(maxInvalidCandidates, printReportFreq, initialDemonEnergy,
                                      initialDemonEnergyMax, reductionFactor, doLazyEval, validateLazyEval) &&
                r.value.demonEnergy == initialDemonEnergy && r.value.demonEnergyMax == initialDemonEnergyMax &&
                r.value.evalMemo == map[] && r.value.stats == [] && r.value.lastEvalResult.None?
    {
      if checkpointBest {
        return Failure(CheckpointBestNotImplemented);
      }
      var s := new SimulatedAnnealingSolver(
        Config(maxInvalidCandidates, printReportFreq, initialDemonEnergy, initialDemonEnergyMax,
               reductionFactor, doLazyEval, validateLazyEval));
      return Success(s);
    }

    /** Start a run: iteration zero, no current result, empty memo, energies restored. */
    method Reset(maxIters: int)
      modifies this
      ensures ready
      ensures View() == ResetSpec(cfg, old(View()), maxIters)
      ensures evalMemo == map[]
    {
      currIteration := 0;
      currResult := None;
      bestLoss := None;
      evalMemo := map[];
      maxIterations := maxIters;
      demonEnergy := cfg.initialDemonEnergy;
      demonEnergyMax := cfg.initialDemonEnergyMax;
      ready := true;
    }

    /** The demon-energy acceptance rule; `u` is the uniform draw of the random fallback. */
    method AcceptMove(deltaEnergy: real, prop: EvalResult, u: real) returns (rec: AcceptRecord)
      requires currResult.Some?
      modifies this`demonEnergy
      ensures var d := Decide(deltaEnergy, old(demonEnergy), prop.viol, currResult.value.viol, u);
              rec == AcceptRecord(Some(d.accept), deltaEnergy, old(demonEnergy), demonEnergyMax) &&
              demonEnergy == d.demonEnergy
    {
      var violDiff := prop.viol - currResult.value.viol;
      rec := AcceptRecord(None, deltaEnergy, demonEnergy, demonEnergyMax);
      if violDiff > 0 {
        rec := rec.(accept := Some(false));
      } else if violDiff < 0 {
        rec := rec.(accept := Some(true));
      } else if demonEnergy >= deltaEnergy || deltaEnergy <= 0.0 {
        demonEnergy := demonEnergy - deltaEnergy;
        rec := rec.(accept := Some(true));
      } else if u < RandomAcceptanceChance {
        rec := rec.(accept := Some(true));
      } else {
        rec := rec.(accept := Some(false));
      }
    }

    /** Decay the ceiling with the iteration count and clamp the demon to it. */
    method UpdateDemonEnergyMax()
      modifies this`demonEnergy, this`demonEnergyMax
      ensures demonEnergyMax == Ceiling(cfg.initialDemonEnergyMax, cfg.reductionFactor, currIteration)
      ensures demonEnergyMax == cfg.initialDemonEnergyMax * Pow(cfg.reductionFactor, currIteration)
      ensures demonEnergy <= demonEnergyMax
      ensures old(demonEnergy) <= demonEnergyMax ==> demonEnergy == old(demonEnergy)
      ensures demonEnergy == Clamp(old(demonEnergy), demonEnergyMax)
    {
      demonEnergyMax := cfg.initialDemonEnergyMax * Pow(cfg.reductionFactor, currIteration);
      if demonEnergy > demonEnergyMax {
        demonEnergy := demonEnergyMax;
      }
    }

    /**
     * Evaluate the scene after `m` was applied: through the memo (evicted for
     * `m` first) or with an empty memo, then, in validation mode, cross-check
     * the loss against an evaluation with an empty memo.
     */
    method EvalMove(p: Problem, scene: SceneState, m: Move) returns (r: Result<EvalResult, Mismatch>)
      modifies this`evalMemo
      ensures cfg.doLazyEval ==>
                evalMemo == LazyEval(p, scene.objs, EvictForMove(p, old(evalMemo), m.target)).memo
      ensures cfg.doLazyEval && r.Success? ==>
                r.value == LazyEval(p, scene.objs, EvictForMove(p, old(evalMemo), m.target)).result
      ensures !cfg.doLazyEval ==> evalMemo == old(evalMemo) && r == Success(FreshEval(p, scene.objs))
      ensures r.Failure? ==>
                cfg.doLazyEval && cfg.validateLazyEval &&
                r.error.fullLoss == FreshEval(p, scene.objs).loss &&
                r.error.fullLoss != r.error.incrementalLoss
      ensures KeysUnique(p) && old(MemoValid(p, scene.objs, evalMemo)) ==>
                r == Success(FullEval(p, scene.objs)) && MemoValid(p, scene.objs, evalMemo)
    {
      var prop: EvalResult;
      if cfg.doLazyEval {
        ghost var valid := KeysUnique(p) && MemoValid(p, scene.objs, evalMemo);
        if valid {
          EvictSound(p, scene.objs, scene.objs, evalMemo, m.target);
        }
        evalMemo := EvictForMove(p, evalMemo, m.target);
        if valid {
          LazyEvalAgrees(p, scene.objs, evalMemo);
        }
        var lazy := LazyEval(p, scene.objs, evalMemo);
        evalMemo := lazy.memo;
        prop := lazy.result;
      } else {
        prop := FreshEval(p, scene.objs);
      }
      if cfg.validateLazyEval {
        var check := ValidateLazyEval(p, scene.objs, prop);
        if check.Fail? {
          return Failure(check.error);
        }
      }
      return Success(prop);
    }

    /** The failure branch of the retry loop: evict the memo for the move, then revert it. */
    method DiscardFailed(p: Problem, scene: SceneState, m: Move)
      modifies this`evalMemo, scene
      ensures evalMemo == EvictForMove(p, old(evalMemo), m.target)
      ensures scene.objs == old(scene.undo) && scene.undo == old(scene.undo)
      ensures scene.trace == old(scene.trace) + [Reverted(m)]
      ensures KeysUnique(p) && old(MemoValid(p, scene.undo, evalMemo)) ==> MemoValid(p, scene.objs, evalMemo)
    {
      if KeysUnique(p) && MemoValid(p, scene.undo, evalMemo) {
        EvictSound(p, scene.undo, scene.undo, evalMemo, m.target);
      }
      evalMemo := EvictForMove(p, evalMemo, m.target);
      scene.Revert(m);
    }

    /** The success branch of the retry loop: evict the memo for the applied move, then evaluate. */
    method EvaluateApplied(p: Problem, scene: SceneState, m: Move, ghost before: Objs)
      returns (r: Result<EvalResult, Mismatch>)
      requires AgreeExcept(before, scene.objs, m.target)
      modifies this`evalMemo
      ensures cfg.doLazyEval ==>
                evalMemo == LazyEval(p, scene.objs, EvictForMove(p, EvictForMove(p, old(evalMemo), m.target), m.target)).memo
      ensures !cfg.doLazyEval ==> evalMemo == EvictForMove(p, old(evalMemo), m.target)
      ensures r.Failure? ==>
                cfg.doLazyEval && cfg.validateLazyEval &&
                r.error.fullLoss == FreshEval(p, scene.objs).loss &&
                r.error.fullLoss != r.error.incrementalLoss
      ensures !cfg.doLazyEval ==> r == Success(FreshEval(p, scene.objs))
      ensures KeysUnique(p) && old(MemoValid(p, before, evalMemo)) ==>
                r == Success(FullEval(p, scene.objs)) && MemoValid(p, scene.objs, evalMemo)
    {
      if KeysUnique(p) && MemoValid(p, before, evalMemo) {
        EvictSound(p, before, scene.objs, evalMemo, m.target);
      }
      evalMemo := EvictForMove(p, evalMemo, m.target);
      r := EvalMove(p, scene, m);
    }

    /**
     * One pass of the retry loop on candidate `m`: apply it; if it applies,
     * evict the memo for it and evaluate; otherwise evict the memo for it and
     * revert it.
     */
    method TryCandidate(p: Problem, scene: SceneState, m: Move) returns (res: Option<Result<EvalResult, Mismatch>>)
      modifies this`evalMemo, scene
      ensures res.Some? == m.realizable
      ensures m.realizable ==>
                scene.objs == Place(old(scene.objs), m) && scene.undo == old(scene.objs) &&
                scene.trace == old(scene.trace) + [Applied(m, true)]
      ensures !m.realizable ==>
                scene.objs == old(scene.objs) && evalMemo == EvictForMove(p, old(evalMemo), m.target) &&
                scene.trace == old(scene.trace) + [Applied(m, false), Reverted(m)]
      ensures res.Some? && res.value.Failure? ==>
                cfg.doLazyEval && cfg.validateLazyEval &&
                res.value.error.fullLoss == FreshEval(p, scene.objs).loss &&
                res.value.error.fullLoss != res.value.error.incrementalLoss
      ensures res.Some? && !cfg.doLazyEval ==> res.value == Success(FreshEval(p, scene.objs))
      ensures KeysUnique(p) && old(MemoValid(p, scene.objs, evalMemo)) ==>
                MemoValid(p, scene.objs, evalMemo) && (res.Some? ==> res.value == Success(FullEval(p, scene.objs)))
    {
      ghost var objs0 := scene.objs;
      var succeeded := scene.Apply(m);
      if succeeded {
        var result := EvaluateApplied(p, scene, m, objs0);
        return Some(result);
      }
      DiscardFailed(p, scene, m);
      return None;
    }

    /**
     * The loop of the retry: walk the candidates in order, stop at index
     * `max_invalid_candidates` without applying, apply each earlier one,
     * evaluate and stop at the first that applies, revert one that fails.
     * Returns the last pulled candidate and its index (the loop variables),
     * the evaluation when a candidate applied, and the index the loop ended at.
     */
    method ScanCandidates(p: Problem, scene: SceneState, ps: seq<Move>)
      returns (move: Option<Move>, retry: Option<nat>, res: Option<Result<EvalResult, Mismatch>>, ghost i: nat)
      modifies this`evalMemo, scene
      ensures i < |ps| ==> move == Some(ps[i]) && retry == Some(i)
      ensures i == |ps| ==> move == (if i == 0 then None else Some(ps[i - 1])) &&
                            retry == (if i == 0 then None else Some(i - 1))
      ensures i <= Window(|ps|, cfg.maxInvalidCandidates)
      ensures forall j :: 0 <= j < i ==> !ps[j].realizable
      ensures res.Some? ==>
                i < |ps| && i != cfg.maxInvalidCandidates && ps[i].realizable &&
                scene.objs == Place(old(scene.objs), ps[i]) && scene.undo == old(scene.objs) &&
                scene.trace == old(scene.trace) + Tried(ps, i) + [Applied(ps[i], true)]
      ensures res.None? ==>
                (i == |ps| || (i < |ps| && i == cfg.maxInvalidCandidates)) &&
                scene.objs == old(scene.objs) && scene.trace == old(scene.trace) + Tried(ps, i)
      ensures res.Some? && res.value.Failure? ==>
                cfg.doLazyEval && cfg.validateLazyEval &&
                res.value.error.fullLoss == FreshEval(p, scene.objs).loss &&
                res.value.error.fullLoss != res.value.error.incrementalLoss
      ensures res.Some? && !cfg.doLazyEval ==> res.value == Success(FreshEval(p, scene.objs))
      ensures KeysUnique(p) && old(MemoValid(p, scene.objs, evalMemo)) ==>
                MemoValid(p, scene.objs, evalMemo) && (res.Some? ==> res.value == Success(FullEval(p, scene.objs)))
    {
      ghost var objs0 := scene.objs;
      ghost var trace0 := scene.trace;
      ghost var valid0 := KeysUnique(p) && MemoValid(p, scene.objs, evalMemo);
      move, retry, res := None, None, None;
      var k := 0;
      while k < |ps|
        invariant k <= Window(|ps|, cfg.maxInvalidCandidates)
        invariant forall j :: 0 <= j < k ==> !ps[j].realizable
        invariant scene.objs == objs0
        invariant scene.trace == trace0 + Tried(ps, k)
        invariant move == (if k == 0 then None else Some(ps[k - 1]))
        invariant retry == (if k == 0 then None else Some(k - 1))
        invariant res.None?
        invariant valid0 ==> MemoValid(p, objs0, evalMemo)
      {
        move, retry := Some(ps[k]), Some(k);
        if k == cfg.maxInvalidCandidates {
          return move, retry, None, k;
        }
        res := TryCandidate(p, scene, ps[k]);
        if res.Some? {
          return move, retry, res, k;
        }
        TriedExtends(trace0, ps, k);
        k := k + 1;
      }
      i := k;
    }

    /**
     * Pull candidates from the generator built for the current scene and the
     * control value, and run the loop above over them. The result carries the
     * last pulled candidate and its index (none for an empty generator) and,
     * when a candidate applied, its evaluation.
     */
    method RetryAttemptProposals(propose: (Objs, real) -> seq<Move>, p: Problem, scene: SceneState, control: real)
      returns (r: Result<Attempt, Mismatch>)
      modifies this`evalMemo, scene
      ensures var ps := propose(old(scene.objs), control);
              r.Success? ==> AttemptFits(ps, cfg.maxInvalidCandidates, r.value)
      ensures var ps := propose(old(scene.objs), control);
              scene.trace == old(scene.trace) + RetryTrace(ps, cfg.maxInvalidCandidates)
      ensures var ps := propose(old(scene.objs), control);
              FirstRealizable(ps, Window(|ps|, cfg.maxInvalidCandidates)).None? ==> r.Success?
      ensures r.Success? && r.value.result.Some? ==>
                r.value.move.Some? && scene.objs == Place(old(scene.objs), r.value.move.value) &&
                scene.undo == old(scene.objs)
      ensures r.Success? && r.value.result.None? ==> scene.objs == old(scene.objs)
      ensures r.Failure? ==>
                cfg.doLazyEval && cfg.validateLazyEval &&
                r.error.fullLoss == FreshEval(p, scene.objs).loss &&
                r.error.fullLoss != r.error.incrementalLoss
      ensures !cfg.doLazyEval ==>
                r.Success? && (r.value.result.Some? ==> r.value.result.value == FreshEval(p, scene.objs))
      ensures KeysUnique(p) && old(MemoValid(p, scene.objs, evalMemo)) ==>
                r.Success? && MemoValid(p, scene.objs, evalMemo) &&
                (r.value.result.Some? ==> r.value.result.value == FullEval(p, scene.objs))
    {
      var ps := propose(scene.objs, control);
      var move, retry, res, i := ScanCandidates(p, scene, ps);
      if res.Some? {
        SucceedsAt(ps, cfg.maxInvalidCandidates, i);
        if res.value.Failure? {
          return Failure(res.value.error);
        }
        return Success(Attempt(move, Some(res.value.value), retry));
      }
      StopsAt(ps, cfg.maxInvalidCandidates, i);
      return Success(Attempt(move, None, retry));
    }

    /**
     * The decision part of a step: with a proposal, ask the acceptance rule;
     * on accept keep the proposal as the current result and accept the move,
     * on reject evict the memo for the move and revert it.
     */
    method ResolveProposal(p: Problem, scene: SceneState, a: Attempt, u: real) returns (rec: AcceptRecord)
      requires currResult.Some?
      requires a.result.Some? ==> a.move.Some?
      modifies this`demonEnergy, this`currResult, this`evalMemo, scene
      ensures var ph := AcceptPhase(old(View()), old(currResult.value), a, u);
              rec == ph.record && demonEnergy == ph.demonEnergy && currResult == Some(ph.current)
      ensures var accepted := rec.accept == Some(true);
              scene.trace == old(scene.trace) + SettleEvents(accepted, a) &&
              scene.objs == (if a.result.Some? && !accepted then old(scene.undo) else old(scene.objs)) &&
              evalMemo == (if a.result.Some? && !accepted then EvictForMove(p, old(evalMemo), a.move.value.target)
                           else old(evalMemo))
    {
      rec := AcceptRecord(None, 0.0, 0.0, 0.0);
      if a.result.Some? {
        var prop := a.result.value;
        rec := AcceptMove(DeltaEnergy(currResult.value, prop), prop, u);
        if rec.accept == Some(true) {
          currResult := a.result;
          scene.Accept(a.move.value);
        } else {
          evalMemo := EvictForMove(p, evalMemo, a.move.value.target);
          scene.Revert(a.move.value);
        }
      }
    }

    /** The end of a step: update the ceiling, record statistics on a log step, advance. */
    method CloseIteration(rec: AcceptRecord, a: Attempt, moveGen: string, isLogStep: bool)
      requires currResult.Some?
      requires isLogStep == IsLogStep(cfg.printReportFreq, currIteration)
      modifies this`demonEnergy, this`demonEnergyMax, this`stats, this`currIteration, this`lastEvalResult
      ensures View() == CloseStep(cfg, old(View()), Phase(rec, old(demonEnergy), old(currResult.value)), a, moveGen)
    {
      UpdateDemonEnergyMax();
      if isLogStep {
        stats := stats + [StatsRecord(
          currIteration, currResult.value.loss, currResult.value.viol, bestLoss,
          demonEnergy, demonEnergyMax, cfg.reductionFactor, cfg.initialDemonEnergy, cfg.initialDemonEnergyMax,
          rec.accept, moveGen, MoveType(a.move), MoveTarget(a.move), a.retry)];
      }
      currIteration := currIteration + 1;
      if a.result.Some? {
        lastEvalResult := a.result;
      }
    }

    /** The second half of a step: settle the proposal, then close the iteration. */
    method SettleStep(p: Problem, scene: SceneState, a: Attempt, u: real, moveGen: string, isLogStep: bool)
      requires currResult.Some?
      requires a.result.Some? ==> a.move.Some?
      requires isLogStep == IsLogStep(cfg.printReportFreq, currIteration)
      modifies this`demonEnergy, this`demonEnergyMax, this`stats, this`currIteration, this`lastEvalResult,
               this`currResult, this`evalMemo, scene
      ensures View() == CloseStep(cfg, old(View()), AcceptPhase(old(View()), old(currResult.value), a, u), a, moveGen)
      ensures var accepted := AcceptPhase(old(View()), old(currResult.value), a, u).record.accept == Some(true);
              scene.trace == old(scene.trace) + SettleEvents(accepted, a) &&
              scene.objs == (if a.result.Some? && !accepted then old(scene.undo) else old(scene.objs)) &&
              evalMemo == (if a.result.Some? && !accepted then EvictForMove(p, old(evalMemo), a.move.value.target)
                           else old(evalMemo))
    {
      ghost var ph := AcceptPhase(View(), currResult.value, a, u);
      var rec := ResolveProposal(p, scene, a, u);
      assert Phase(rec, demonEnergy, currResult.value) == ph;
      CloseIteration(rec, a, moveGen, isLogStep);
    }

    /**
     * A step once the current result is seeded: try proposals with the demon
     * energy as control value, accept (keeping the move and its result) or
     * reject (evicting and reverting it), update the ceiling, record
     * statistics on a log step, and advance. Raises only in validation mode.
     */
    method Iterate(p: Problem, scene: SceneState, propose: (Objs, real) -> seq<Move>, moveGen: string, u: real,
                   isLogStep: bool)
      returns (out: Outcome<Mismatch>, ghost attempt: Attempt)
      requires currResult.Some?
      requires isLogStep == IsLogStep(cfg.printReportFreq, currIteration)
      modifies this`demonEnergy, this`demonEnergyMax, this`stats, this`currIteration, this`lastEvalResult,
               this`currResult, this`evalMemo, scene
      ensures var ps := propose(old(scene.objs), old(demonEnergy));
              out.Pass? ==> AttemptFits(ps, cfg.maxInvalidCandidates, attempt)
      ensures out.Pass? ==>
                View() == CloseStep(cfg, old(View()), AcceptPhase(old(View()), old(currResult.value), attempt, u),
                                    attempt, moveGen)
      ensures var ps := propose(old(scene.objs), old(demonEnergy));
              var accepted := AcceptPhase(old(View()), old(currResult.value), attempt, u).record.accept == Some(true);
              out.Pass? ==>
                scene.objs == (if accepted && attempt.move.Some? then Place(old(scene.objs), attempt.move.value)
                               else old(scene.objs)) &&
                scene.trace == old(scene.trace) + RetryTrace(ps, cfg.maxInvalidCandidates) + SettleEvents(accepted, attempt)
      ensures out.Fail? ==>
                cfg.doLazyEval && cfg.validateLazyEval && out.error.fullLoss != out.error.incrementalLoss &&
                View() == old(View())
      ensures KeysUnique(p) && old(MemoValid(p, scene.objs, evalMemo)) &&
              old(currResult) == Some(FullEval(p, old(scene.objs))) ==>
                out.Pass? && MemoValid(p, scene.objs, evalMemo) && currResult == Some(FullEval(p, scene.objs))
    {
      ghost var objs0 := scene.objs;
      ghost var valid0 := KeysUnique(p) && MemoValid(p, scene.objs, evalMemo) &&
                          currResult == Some(FullEval(p, scene.objs));
      var r := RetryAttemptProposals(propose, p, scene, demonEnergy);
      if r.Failure? {
        out, attempt := Fail(r.error), Attempt(None, None, None);
        return;
      }
      var a := r.value;
      attempt := a;
      ghost var accepted := AcceptPhase(old(View()), old(currResult.value), a, u).record.accept == Some(true);
      ghost var objs1 := scene.objs;
      ghost var memo1 := evalMemo;
      SettleStep(p, scene, a, u, moveGen, isLogStep);
      if valid0 && a.result.Some? && !accepted {
        EvictSound(p, objs1, objs0, memo1, a.move.value.target);
      }
      out := Pass;
    }

    /**
     * One iteration: seed the current result with a from-scratch evaluation
     * when there is none yet, then run the rest of the step.
     */
    method Step(p: Problem, scene: SceneState, propose: (Objs, real) -> seq<Move>, moveGen: string, u: real)
      returns (out: Outcome<Mismatch>, ghost attempt: Attempt)
      requires ready
      modifies this`demonEnergy, this`demonEnergyMax, this`stats, this`currIteration, this`lastEvalResult,
               this`currResult, this`evalMemo, scene
      ensures ready
      ensures var ps := propose(old(scene.objs), old(demonEnergy));
              out.Pass? ==> AttemptFits(ps, cfg.maxInvalidCandidates, attempt)
      ensures out.Pass? ==>
                View() == StepSpec(cfg, old(View()), FreshEval(p, old(scene.objs)), attempt, u, moveGen)
      ensures var accepted := StepAccepts(old(View()), FreshEval(p, old(scene.objs)), attempt, u);
              out.Pass? ==>
                scene.objs == (if accepted && attempt.move.Some? then Place(old(scene.objs), attempt.move.value)
                               else old(scene.objs))
      ensures var ps := propose(old(scene.objs), old(demonEnergy));
              var accepted := StepAccepts(old(View()), FreshEval(p, old(scene.objs)), attempt, u);
              out.Pass? ==>
                scene.trace == old(scene.trace) + RetryTrace(ps, cfg.maxInvalidCandidates) + SettleEvents(accepted, attempt)
      ensures out.Fail? ==>
                cfg.doLazyEval && cfg.validateLazyEval && out.error.fullLoss != out.error.incrementalLoss &&
                View() == old(View()).(currResult := Some(Seeded(old(View()), FreshEval(p, old(scene.objs)))))
      ensures KeysUnique(p) && old(MemoValid(p, scene.objs, evalMemo)) &&
              old(currResult.None? || currResult == Some(FullEval(p, scene.objs))) ==>
                out.Pass? && MemoValid(p, scene.objs, evalMemo) && currResult == Some(FullEval(p, scene.objs))
    {
      ghost var s0 := View();
      ghost var seed := FreshEval(p, scene.objs);
      if currResult.None? {
        currResult := Some(FreshEval(p, scene.objs));
      }
      ghost var s1 := View();
      assert s1 == s0.(currResult := Some(Seeded(s0, seed)));
      var isLogStep := IsLogStep(cfg.printReportFreq, currIteration);
      out, attempt := Iterate(p, scene, propose, moveGen, u, isLogStep);
      if out.Pass? {
        ghost var ph := AcceptPhase(s0, Seeded(s0, seed), attempt, u);
        assert AcceptPhase(s1, Seeded(s0, seed), attempt, u) == ph;
        assert CloseStep(cfg, s1, ph, attempt, moveGen) == CloseStep(cfg, s0, ph, attempt, moveGen);
      }
    }
  }
}
