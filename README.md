# Demon-energy simulated annealing solver, modelled in Dafny

This project models the search loop of infinigen's constraint solver: the class
`SimulatedAnnealingSolver` in
`infinigen/core/constraints/example_solver/annealing_testOptiP.py`. The model covers:

- The **acceptance rule** (`accept_move`, `calculate_delta_energy`). Violation
  counts decide first. With equal counts, a move the demon can pay for (or a
  downhill one) is accepted, and the demon is debited by the energy change.
  Any other move is accepted only when a uniform draw falls below 0.01.
- The **energy ceiling** (`update_demon_energy_max`). The ceiling is the initial
  ceiling times `reduction_factor ** curr_iteration`. The demon energy is
  clamped to it.
- The **bounded retry loop** (`retry_attempt_proposals`, `_move`). Candidates
  are pulled in order, and the one at index `max_invalid_candidates` is pulled
  but not applied. Each earlier candidate is applied. The first one that
  applies is evaluated through the memo, after the memo is evicted for it. A
  candidate whose apply fails has the memo evicted for it and is reverted.
- The **step** (`step`). It seeds the current result, runs the retry loop with
  the demon energy as control value, and accepts or rejects the proposal. It
  then updates the ceiling, appends a statistics row on a log step, and
  advances the iteration counter.
- The **lifecycle** (`__init__`, `reset`) and the lazy-evaluation
  cross-check (`validate_lazy_eval`, loss comparison only).

## Modules

| file | module | contents |
|---|---|---|
| `wrappers.dfy` | `Wrappers` | `Option`, `Result`, and `Outcome` (pass or fail with an error) |
| `evaluation.dfy` | `Evaluation` | constraint nodes, evaluation from scratch and through the memo, memo eviction, the validation check |
| `scene.dfy` | `Scene` | `Move` values and the mutable `SceneState`, with its apply / revert / accept protocol and a ghost trace of protocol calls |
| `acceptance.dfy` | `Acceptance` | the acceptance rule `Decide`, `Pow`, the ceiling and the clamp |
| `retry.dfy` | `Retry` | what the retry loop does, as functions of the candidate sequence and the bound |
| `bookkeeping.dfy` | `Bookkeeping` | the solver's scalar state, one step and a reset as functions, and properties over steps and whole runs |
| `solver.dfy` | `Annealing` | the class `SimulatedAnnealingSolver` with its fields and methods, each proved against the functions above |

The collaborators `evaluate_problem`, `evict_memo_for_move` and the `Move`
classes are defined in files that are not part of this model. They are given a
concrete model with the properties the solver relies on:

- A problem is the sequence of its constraint nodes.
- Each node has a memo key, the set of entities it reads, and a cost computed
  from the scene restricted to those entities.
- Lazy evaluation reuses a cached node value verbatim and computes and caches
  any other node.
- Eviction for a move removes exactly the entries of nodes that read the
  entity the move touches.
- A move names the entity it touches, the placement it gives that entity (or
  removal), and whether its apply succeeds. A failed apply changes nothing.
  Revert restores the scene saved at apply time.

The random draw at line 319 is the parameter `u`. The proposal generator is a
function from the scene and the control value to a finite sequence of moves.
`_move` is gin-configurable, so its `do_lazy_eval` and `validate_lazy_eval`
flags are part of the solver's `Config`.

Points of the code's behaviour that the model keeps as written:

- When no candidate applies, the retry loop returns the last pulled move and
  its index; it returns `None, None, None` only for an empty generator. For
  three unrealizable candidates and a bound of 5 it gives the third move, no
  result and index 2 (`Retry.ScenarioThreeFailures`).
- `reset` does not clear `stats` or `last_eval_result`.
- `step` never updates `best_loss`, so every statistics row records the value
  `reset` left there.
- The clamp inside `accept_move` is commented out. Within a step, a downhill
  move can raise the demon above the ceiling until `update_demon_energy_max`
  runs (`Acceptance.DownhillCanExceedCeiling`).

The first call of `step` evaluates the scene without passing a memo. The model
takes this to be an evaluation with a fresh empty memo (`FreshEval`), which is
also what `_move` without lazy evaluation and `validate_lazy_eval` use.

## Model

| member | source | states |
|---|---|---|
| Acceptance.DeltaEnergy | infinigen/core/constraints/example_solver/annealing_testOptiP.py:281-283 | The energy change is non-positive exactly when the proposal does not worsen the loss; `Acceptance.DemonPathConservesEnergy` proves that paying it from the demon conserves demon energy plus loss. |
| Acceptance.Decide | infinigen/core/constraints/example_solver/annealing_testOptiP.py:285-325 | The acceptance rule, case by case. A proposal with more violations is rejected and one with fewer is accepted; in both cases the demon energy is unchanged. With equal violations, an affordable (`demon >= delta`) or non-worsening (`delta <= 0`) move is accepted and the demon becomes exactly `demon - delta`. Otherwise the move is accepted iff `u < 0.01`, and the demon is unchanged. |
| Acceptance.DemonPathConservesEnergy | infinigen/core/constraints/example_solver/annealing_testOptiP.py:281-317 | On the demon path, with `delta` = proposed loss minus current loss, the move is accepted and demon energy plus current loss is conserved. |
| Acceptance.DecideKeepsEnergyNonNegative | infinigen/core/constraints/example_solver/annealing_testOptiP.py:307-325 | The demon never goes into debt: a non-negative demon energy stays non-negative after any decision. |
| Acceptance.DownhillCanExceedCeiling | infinigen/core/constraints/example_solver/annealing_testOptiP.py:307-317 | Without the commented-out clamp, a downhill move taken with the demon at the ceiling leaves the demon strictly above the ceiling. |
| Acceptance.ScenarioDownhill | infinigen/core/constraints/example_solver/annealing_testOptiP.py:307-317 | With the default energy 100, loss 10 to 9 at equal violations is accepted and the demon becomes 101. |
| Acceptance.ScenarioUphillRejected | infinigen/core/constraints/example_solver/annealing_testOptiP.py:318-325 | Loss 10 to 150 with energy 100 and a draw of at least 0.01 is rejected, and the energy stays 100. |
| Acceptance.ScenarioFewerViolations | infinigen/core/constraints/example_solver/annealing_testOptiP.py:302-304 | Going from 2 to 1 violations is accepted whatever the losses and the demon energy. |
| Acceptance.Ceiling | infinigen/core/constraints/example_solver/annealing_testOptiP.py:329-331 | The ceiling at iteration 0 is the initial ceiling, and it is non-negative whenever the initial ceiling and the factor are; `Acceptance.CeilingNonIncreasing` proves it never rises. |
| Acceptance.Clamp | infinigen/core/constraints/example_solver/annealing_testOptiP.py:333-335 | The clamped energy is at most the ceiling and at most the input, and it is one of the two. |
| Acceptance.PowAntitone | infinigen/core/constraints/example_solver/annealing_testOptiP.py:329-331 | For a factor in [0, 1], a larger power is never larger. |
| Acceptance.CeilingNonIncreasing | infinigen/core/constraints/example_solver/annealing_testOptiP.py:327-331 | With a non-negative initial ceiling and a factor in [0, 1], the ceiling is non-negative and never rises as the iteration grows. |
| Acceptance.ScenarioCeilings | infinigen/core/constraints/example_solver/annealing_testOptiP.py:49-51 | With the default ceiling 200 and factor 0.85, the ceilings at iterations 0, 1 and 2 are 200, 170 and 144.5. |
| Evaluation.LazyEval | infinigen/core/constraints/example_solver/annealing_testOptiP.py:196-200 | Lazy evaluation only adds memo entries: every key already cached stays, with the same value. |
| Evaluation.EvictForMove | infinigen/core/constraints/example_solver/annealing_testOptiP.py:237 | Eviction returns a sub-map with unchanged values. A cached key survives iff no node with that key reads the touched entity. |
| Evaluation.FreshEval | infinigen/core/constraints/example_solver/annealing_testOptiP.py:201-204 | With unique node keys, evaluating with an empty memo gives the from-scratch result. |
| Evaluation.ValidateLazyEval | infinigen/core/constraints/example_solver/annealing_testOptiP.py:156-184 | The check passes iff the from-scratch loss equals the incremental loss. On failure it reports the two losses, which differ, and the second is the incremental one. |
| Evaluation.LazyEvalAgrees | infinigen/core/constraints/example_solver/annealing_testOptiP.py:196-200 | Memo equivalence: with unique keys and a memo valid for the scene, the incremental result equals the from-scratch result, and the memo left behind is still valid. |
| Evaluation.EvictSound | infinigen/core/constraints/example_solver/annealing_testOptiP.py:241-243 | If the memo was valid for one scene and another scene differs from it only at the touched entity, the evicted memo is valid for the other scene. This covers both apply and revert. |
| Evaluation.LazyEvalPassesValidation | infinigen/core/constraints/example_solver/annealing_testOptiP.py:206-207 | With unique keys and a valid memo, the validation check never raises. |
| Scene.Place | infinigen/core/constraints/example_solver/annealing_testOptiP.py:235 | A successful apply changes only the target entity, setting it to the move's placement or removing it. |
| Scene.SceneState.Apply | infinigen/core/constraints/example_solver/annealing_testOptiP.py:235 | Apply succeeds iff the move is realizable. It places the move on success, leaves the scene alone on failure, saves the prior scene for revert, and records the call. |
| Scene.SceneState.Revert | infinigen/core/constraints/example_solver/annealing_testOptiP.py:243 | Revert restores the scene saved by the last apply and records the call. |
| Scene.SceneState.Accept | infinigen/core/constraints/example_solver/annealing_testOptiP.py:385 | Accept keeps the scene as it is and records the call. |
| Scene.ApplyThenRevert | infinigen/core/constraints/example_solver/annealing_testOptiP.py:235-243 | Apply followed by revert gives back the original scene, whether or not the apply succeeded. |
| Retry.Window | infinigen/core/constraints/example_solver/annealing_testOptiP.py:228-233 | The number of candidates that may be applied is at most the number yielded, at most the bound when the bound is non-negative, and equal to the bound whenever candidates remain beyond it. |
| Retry.FirstRealizable | infinigen/core/constraints/example_solver/annealing_testOptiP.py:228-239 | Returns the first realizable index within the window, with every earlier candidate unrealizable, or none when no candidate in the window is realizable. |
| Retry.LastPulled | infinigen/core/constraints/example_solver/annealing_testOptiP.py:226-248 | The last pulled index is none iff the generator is empty; otherwise it is a valid index no greater than the window. |
| Retry.Tried | infinigen/core/constraints/example_solver/annealing_testOptiP.py:235-243 | For `k` failed candidates, the protocol calls are a failed apply and a revert per candidate, in order. |
| Retry.SucceedsAt | infinigen/core/constraints/example_solver/annealing_testOptiP.py:235-239 | If candidate `i` is within the bound, realizable, and every earlier one is not, then the loop returns at `i`: with that move, its index and a result, after the calls for the earlier failures and one successful apply. |
| Retry.StopsAt | infinigen/core/constraints/example_solver/annealing_testOptiP.py:228-248 | If the loop reaches the bound or the end of the generator with no success, it returns the last pulled move and index with no result, after one apply and revert per failure. |
| Retry.AppliesTried | infinigen/core/constraints/example_solver/annealing_testOptiP.py:235-243 | The calls for `k` failed candidates contain exactly `k` applies. |
| Retry.RetryApplyBound | infinigen/core/constraints/example_solver/annealing_testOptiP.py:226-248 | Apply is called on at most `max_invalid_candidates` candidates (when that bound is non-negative) and never on more than the generator yields. |
| Retry.TriedRevertsEachFailure | infinigen/core/constraints/example_solver/annealing_testOptiP.py:241-243 | In the calls for failed candidates, every apply failed and is immediately followed by the revert of the same move. |
| Retry.RetryRevertsFailures | infinigen/core/constraints/example_solver/annealing_testOptiP.py:235-243 | Every candidate whose apply failed is reverted before the next is tried, and a successful apply is the loop's last call. |
| Retry.AttemptDetermined | infinigen/core/constraints/example_solver/annealing_testOptiP.py:234-239 | The returned move, index and presence of a result are determined by the candidates and the bound. A result comes back only for the first realizable candidate, with its own index. |
| Retry.NoSuccessResults | infinigen/core/constraints/example_solver/annealing_testOptiP.py:226-248 | With no realizable candidate: an empty generator gives `None, None, None`; a break at the bound gives the candidate at the bound and its index; an exhausted generator gives its last candidate and index. |
| Retry.ScenarioThreeFailures | infinigen/core/constraints/example_solver/annealing_testOptiP.py:226-248 | Three unrealizable candidates with bound 5 give the third move, no result and index 2, after exactly three applies. |
| Bookkeeping.IsLogStep | infinigen/core/constraints/example_solver/annealing_testOptiP.py:347-350 | A frequency of zero turns logging off; with any other frequency the first iteration is a log step. |
| Bookkeeping.AcceptPhase | infinigen/core/constraints/example_solver/annealing_testOptiP.py:365-388 | Without a proposal nothing is decided and the demon and current result are unchanged; with one a decision is always made, and only an accept replaces the current result by the proposal. |
| Bookkeeping.CloseStep | infinigen/core/constraints/example_solver/annealing_testOptiP.py:390-506 | Closing a step advances the iteration by one, leaves the demon within the new ceiling, and makes the phase's result current. |
| Bookkeeping.StepSpec | infinigen/core/constraints/example_solver/annealing_testOptiP.py:339-506 | One step advances the iteration by one and always leaves a current result; `Bookkeeping.StepBookkeeping`, `Bookkeeping.StepEnergy` and `Bookkeeping.StepKeepsEnergyNonNegative` state the rest. |
| Bookkeeping.ResetSpec | infinigen/core/constraints/example_solver/annealing_testOptiP.py:109-131 | A reset sets the iteration to 0, clears the current result and the best loss, records the iteration budget, restores both energies, and keeps the statistics and the last result. |
| Bookkeeping.StepBookkeeping | infinigen/core/constraints/example_solver/annealing_testOptiP.py:339-506 | One step advances the iteration by exactly 1. It keeps the budget and the best loss. The current result changes only when a proposal exists and is accepted, and then it becomes that proposal. A row recording the pre-step iteration is appended exactly on a log step, and otherwise the statistics are unchanged. |
| Bookkeeping.StepEnergy | infinigen/core/constraints/example_solver/annealing_testOptiP.py:390 | After a step, the ceiling is the initial ceiling decayed by the pre-step iteration. The demon is within the ceiling, and it is unchanged from its post-decision value if that value was already within. |
| Bookkeeping.StepKeepsEnergyNonNegative | infinigen/core/constraints/example_solver/annealing_testOptiP.py:307-335 | With a non-negative initial ceiling and factor, a step keeps a non-negative demon non-negative. |
| Bookkeeping.LogIterations | infinigen/core/constraints/example_solver/annealing_testOptiP.py:347-350 | Lists exactly the log steps among the first `k` iterations: every listed value is a log step below `k`, every such log step is listed, and the list strictly increases. |
| Bookkeeping.RunAfterReset | infinigen/core/constraints/example_solver/annealing_testOptiP.py:439-506 | After a reset and `k` steps, the iteration count is `k`. The rows appended to the statistics are exactly one per log step, in iteration order. |
| Bookkeeping.RunEnergy | infinigen/core/constraints/example_solver/annealing_testOptiP.py:327-335 | Over a run after a reset, the ceiling is the initial one decayed by the last iteration index, and the demon is within it. With non-negative settings and a factor in [0, 1], the demon stays non-negative and the ceiling never rises from one step to the next. |
| Annealing.SimulatedAnnealingSolver.constructor | infinigen/core/constraints/example_solver/annealing_testOptiP.py:37-82 | A new solver has both energies at their initial values, an empty memo, no statistics and no last result, and is not yet reset. |
| Annealing.SimulatedAnnealingSolver.Create | infinigen/core/constraints/example_solver/annealing_testOptiP.py:61-63 | Construction fails, with the not-implemented error, iff checkpointing the best state is requested. Otherwise it builds a solver with the given settings. |
| Annealing.SimulatedAnnealingSolver.Reset | infinigen/core/constraints/example_solver/annealing_testOptiP.py:109-131 | The solver's state becomes the reset state of the old one, and the memo is empty. |
| Annealing.SimulatedAnnealingSolver.AcceptMove | infinigen/core/constraints/example_solver/annealing_testOptiP.py:285-325 | The record and the new demon energy are those of the acceptance rule, and the record carries the energies from before the decision. |
| Annealing.SimulatedAnnealingSolver.UpdateDemonEnergyMax | infinigen/core/constraints/example_solver/annealing_testOptiP.py:327-335 | The ceiling is `initial_demon_energy_max * reduction_factor ^ curr_iteration`. The demon ends at or below it, and is unchanged if it was already within. |
| Annealing.SimulatedAnnealingSolver.EvalMove | infinigen/core/constraints/example_solver/annealing_testOptiP.py:187-209 | Lazy mode evicts for the move and evaluates through the memo; otherwise the scene is evaluated with an empty memo. Validation mode raises only on a loss mismatch. With a valid memo, the result is the from-scratch evaluation and the memo stays valid. |
| Annealing.SimulatedAnnealingSolver.EvaluateApplied | infinigen/core/constraints/example_solver/annealing_testOptiP.py:236-238 | The success branch: the memo is evicted for the move and then the move is evaluated. A memo valid before the apply yields the from-scratch result and a memo valid after it. |
| Annealing.SimulatedAnnealingSolver.DiscardFailed | infinigen/core/constraints/example_solver/annealing_testOptiP.py:241-243 | The failure branch: the memo is evicted for the move, the scene is restored from the apply's snapshot, and memo validity is kept. |
| Annealing.SimulatedAnnealingSolver.TryCandidate | infinigen/core/constraints/example_solver/annealing_testOptiP.py:235-243 | One candidate: a result comes back iff the move is realizable. The scene is placed on success and unchanged otherwise, with the apply and revert recorded, and memo validity is kept. |
| Annealing.SimulatedAnnealingSolver.ScanCandidates | infinigen/core/constraints/example_solver/annealing_testOptiP.py:226-248 | The loop stops within the bound and every earlier candidate failed. A result means a realizable candidate before the bound, placed in the scene. No result means a break at the bound or an exhausted generator, with the scene unchanged. The loop variables hold the last pulled move and its index. |
| Annealing.SimulatedAnnealingSolver.RetryAttemptProposals | infinigen/core/constraints/example_solver/annealing_testOptiP.py:212-248 | The returned move, result and index are the ones the loop specification fixes. The protocol calls are exactly the retry trace, and the scene holds the applied candidate iff a result came back. Failure is only a validation mismatch. With a valid memo, the result is the from-scratch evaluation and the memo stays valid. |
| Annealing.SimulatedAnnealingSolver.ResolveProposal | infinigen/core/constraints/example_solver/annealing_testOptiP.py:379-388 | Record, demon and current result follow the acceptance phase. An accept keeps the move and the scene; a reject evicts for the move and restores the pre-apply scene. |
| Annealing.SimulatedAnnealingSolver.CloseIteration | infinigen/core/constraints/example_solver/annealing_testOptiP.py:390-506 | The new state is the end of a step: ceiling and clamp, a statistics row on a log step, the iteration advanced, and the last result updated when a proposal exists. |
| Annealing.SimulatedAnnealingSolver.SettleStep | infinigen/core/constraints/example_solver/annealing_testOptiP.py:379-506 | Settling and closing the step yields the state of the step specification, with the scene and memo effects of accept or reject. |
| Annealing.SimulatedAnnealingSolver.Iterate | infinigen/core/constraints/example_solver/annealing_testOptiP.py:361-506 | After seeding, the step runs the retry and then settles. The new state, scene and protocol calls are fixed by the step and retry specifications. A memo valid for the scene, with the current result equal to the from-scratch evaluation, stays so. |
| Annealing.SimulatedAnnealingSolver.Step | infinigen/core/constraints/example_solver/annealing_testOptiP.py:339-506 | The solver's new state is the step specification of the old one. On accept the scene holds the accepted move; otherwise it is unchanged. The protocol calls are the retry's followed by accept or revert. A validation mismatch is the only failure. Memo validity, and the current result equalling the from-scratch evaluation, are preserved from step to step. |

## Left out

- Statistics and logging: the timing fields `move_dur` and `elapsed`, every `logger`/`print` call, and the per-node dataframe diff on report steps are left out. Statistics rows record everything else.
- `save_stats`, `checkpoint`, and the render and visualisation helpers are left out. They are file and Blender I/O.
- The multiprocessing progress `queue.put` and the `iter` argument it reports are left out. They only send data to another process.
- Garbage collection every 20 steps and the clutter report every 50 steps are left out. They are host-runtime calls with no effect on solver state.
- The temperature path is left out: `curr_temp`, `metrop_hastings_with_viol`, `initial_temp`, `final_temp`, `finetune_pct` and `cooling_rate`. `step` does not call it, and it relies on floating-point `log` and `exp`.
- `print_breakdown_freq` and `is_report_step` are left out. They only drive printing.
- The `filter_domain` argument and `DISABLE_BVH_CACHE` are left out. Evaluation is over the whole problem.
- Floating point is not modelled: losses, energies and the reduction factor are exact reals. Rounding in `reduction_factor ** curr_iteration` and in `demon_energy - delta` is therefore not modelled.
- The concrete `evaluate_problem`, `evict_memo_for_move`, `memo_key` and `Move` classes are not part of this model. They are replaced by the node, eviction and move model described above, with eviction by exact dependency footprint.
- The proposal generator is a finite sequence computed from the scene when the loop starts. Laziness is not modelled: a generator whose later candidates depend on the scene at pull time, or an infinite generator under a negative bound, is outside the model. Failed candidates leave the scene unchanged, so pull time does not matter within the model.
- The uniform draw is the parameter `u`, not a random source.
- The fields that exist only after `reset` are modelled by a ghost `ready` flag that `Step` requires.
- `Annealing.SimulatedAnnealingSolver.EvalMove` does not model the printout of out-of-sync memo entries on a validation failure. Only the raised mismatch and its two losses are modelled.
