# Viterbi HMM annotator

A Dafny model of the hidden-Markov-model annotator of sktime
(`sktime/annotation/hmm.py`). It labels each observation of a univariate
series with a hidden state. It is given:

- emission functions, one per state;
- a square transition-probability matrix;
- optional initial probabilities (uniform when absent).

The labels come from the Viterbi algorithm. A left-to-right pass fills a score
matrix and a backpointer matrix, both indexed [state, observation]. A backward
pass then follows the backpointers from the best final state.

The model has four modules:

- `Scores` (`scores.dfy`): log-probabilities. A score is `NegInf` (log 0) or a
  finite real. This module holds their addition and order, and numpy's
  `argmax`, which returns the first maximiser.
- `Viterbi` (`viterbi.dfy`): the recursion as pure functions of a log-domain
  model, using the code's orientation (`emit[s][t]`, `trans[i][j]` from i to j):
  - `Best(t, j)` is trellis entry (j, t).
  - `BackPtr(t, j)` is the first best predecessor of that entry.
  - `Trace` and `Decode` give the backtraced path, and `PathScore` the score of
    any state path.

  The module proves that the decoded path is a most likely path. It also proves
  that following the backpointers from the first best final state yields
  exactly that path.
- `Trellis` (`trellis.dfy`): the two array passes, as methods on `array2` with
  loop invariants. Each is proved against the `Viterbi` functions.
- `Hmm` (`hmm.dfy`): the estimator:
  - construction-time validation;
  - the uniform default for the initial probabilities;
  - the construction of the log-domain model;
  - a class `HMM` whose `Predict` assigns the fields the source assigns and
    returns the decoded labels. `Fit` does nothing.

Floating point is replaced by exact reals, and `np.log` is a parameter
`log: real -> Score`. Nothing depends on properties of the logarithm: the
structural facts hold for any scores.

## Model

| member | source | states |
|---|---|---|
| Scores.AddMonotone | sktime/annotation/hmm.py:251-260 | adding the same log-score to both sides preserves the order of scores, on either side of the sum |
| Scores.ArgMax | sktime/annotation/hmm.py:262 | numpy argmax: the result is a valid index, no element exceeds the chosen one, and every element before it is strictly smaller (first maximiser) |
| Scores.ArgMaxIsFirstMaximiser | sktime/annotation/hmm.py:348 | an index holding a maximum with only strictly smaller elements before it is exactly what argmax returns |
| Viterbi.ArgPrefix | sktime/annotation/hmm.py:251-262 | argmax over the candidate scores of the first k predecessors: in range, maximal, and the lowest maximiser |
| Viterbi.BackPtr | sktime/annotation/hmm.py:262 | every backpointer is a state index in [0, num_states) |
| Viterbi.BestIsMaxCandidate | sktime/annotation/hmm.py:251-263 | the recurrence: entry (j, t) for t >= 1 is the maximum over all predecessors i of log T[i, j] + entry (i, t-1) + log E[j, t], attained at the backpointer, with every lower predecessor strictly worse |
| Viterbi.FinalArgPrefix | sktime/annotation/hmm.py:348 | argmax over the first k entries of the last trellis column: maximal and lowest |
| Viterbi.FinalState | sktime/annotation/hmm.py:348 | the state the backtrace starts from is a state index |
| Viterbi.Trace | sktime/annotation/hmm.py:350-352 | following backpointers from state j at observation t gives a state path of length t + 1 ending in j |
| Viterbi.Decode | sktime/annotation/hmm.py:345-353 | the decoded path has one valid state per observation and ends in the argmax of the last column |
| Viterbi.StepMonotone | sktime/annotation/hmm.py:251-260 | a better previous score gives a better candidate score |
| Viterbi.PathScoreBounded | sktime/annotation/hmm.py:47-58 | no state path ending in state j at observation t scores above trellis entry (j, t) |
| Viterbi.TraceAttains | sktime/annotation/hmm.py:47-58 | the backtraced path from (j, t) scores exactly trellis entry (j, t) |
| Viterbi.DecodeOptimal | sktime/annotation/hmm.py:27-33 | optimality: the decoded path scores the maximum of the final column, and no state path over all observations scores higher |
| Viterbi.PrefixIsTrace | sktime/annotation/hmm.py:350-352 | labels that follow the backpointers agree, on every prefix, with the backtrace from their own last element |
| Viterbi.BacktraceIsDecode | sktime/annotation/hmm.py:348-352 | labels that start at the first best final state and follow the backpointers are exactly the decoded path |
| Viterbi.FinalStateIsArgMax | sktime/annotation/hmm.py:348 | numpy argmax of the last trellis column is the state the decoded path ends in |
| Trellis.BestPredecessor | sktime/annotation/hmm.py:253-263 | the max and argmax over the candidate column of state j at observation t are the trellis entry and the backpointer |
| Trellis.FillColumn | sktime/annotation/hmm.py:251-263 | one loop iteration fills column t of both matrices with the recurrence and leaves every other column unchanged |
| Trellis.CalculateTransMats | sktime/annotation/hmm.py:198-271 | fresh num_states x num_obs matrices; column 0 holds log initial + log emission; every score entry is the trellis entry; backpointers are 0 in column 0 and the first best predecessor elsewhere, all in [0, num_states); the warning flag is set iff some entry of the last column is log 0 |
| Trellis.HmmViterbiLabel | sktime/annotation/hmm.py:317-353 | num_obs labels, each the label in `states` of a state index; the last index is the argmax of the last column (`ColumnOf` reads that column out of the score matrix); each earlier index is the backpointer of its successor |
| Trellis.BacktraceOfFilledIsDecode | sktime/annotation/hmm.py:390-402 | the backtrace over matrices filled by the recurrence visits exactly the decoded path |
| Trellis.FillAndBacktrace | sktime/annotation/hmm.py:390-402 | filling then backtracing yields matrices holding the trellis and, for each observation, the label of the decoded state; the warning flag of the fill is passed on unchanged |
| Hmm.ValidateInit | sktime/annotation/hmm.py:150-195 | a 0-d matrix fails on its first dimension; a non-2-D or non-square matrix is rejected with its shape; a square matrix whose size, emission count and initial length (a missing initial vector counting as the emission count) disagree is rejected with a mismatch reporting those three lengths; with the counts agreeing, a row whose sum is not close to 1 is rejected next, and then given initial probabilities whose sum is not 1; construction passes iff the matrix is square, all three counts agree, every row sums to 1 within tolerance and given initial probabilities sum to 1 |
| Hmm.Uniform | sktime/annotation/hmm.py:388-389 | the generated vector has one entry per state |
| Hmm.UniformSumsToOne | sktime/annotation/hmm.py:388-389 | the generated uniform vector sums to 1 |
| Hmm.UniformDefaultValidates | sktime/annotation/hmm.py:170-195 | (over exact reals) whenever leaving the initial probabilities out is accepted, passing the uniform vector explicitly is accepted too |
| Hmm.GivenInitialImpliesStates | sktime/annotation/hmm.py:193-195 | accepted initial probabilities imply at least one state |
| Hmm.InitialProbsOrUniform | sktime/annotation/hmm.py:387-389 | predict uses the given initial probabilities, or 1/num_states for every state when none are given |
| Hmm.LogParams | sktime/annotation/hmm.py:244 | with at least one state and one observation, the log-domain model is well shaped with num_states states and num_obs observations; it is built from `LogVector` of the initial probabilities (line 244), `LogMatrix` of the transition matrix (line 253, entry [i][j] from matrix entry [i, j]) and `LogEmissions` (lines 304-313, entry [s][t] from emission function s at observation t) |
| Hmm.HMM.constructor | sktime/annotation/hmm.py:138-148 | stores the three parameters; only parameters that pass validation build an estimator |
| Hmm.HMM.Create | sktime/annotation/hmm.py:138-148 | construction fails exactly when validation fails, with its error; otherwise a fresh valid estimator holding the parameters |
| Hmm.HMM.Fit | sktime/annotation/hmm.py:355-368 | fit changes nothing and returns the estimator itself |
| Hmm.HMM.Predict | sktime/annotation/hmm.py:370-402 | sets num_states, states (`Range`, the labels 0 .. num_states-1 of line 384) and num_obs; fails with division by zero when there are no states and with an index error when there are no observations, keeping the matrices; otherwise stores fresh matrices holding the trellis and backpointers and returns the decoded labels |

## Left out

- `_make_emission_probs` (sktime/annotation/hmm.py:274-314) calls arbitrary user callables, either bare or as (callable, kwargs) pairs. The model takes each state's emission function as an opaque `real -> real`, so a kwargs pair is its closure. `LogEmissions` states only the resulting matrix.
- `np.log` is a parameter `log: real -> Score`. The model does not state that it is monotone or that log 0 is `NegInf`.
- Floating point is modelled as exact reals. `np.isclose` uses its formula |1 - s| <= 1e-8 + 0.05 |s| over exact sums. The exact test `sum(initial_probs) != 1` is done over exact reals. Rounding is not modelled, so float sums that miss 1 (ten entries of 0.1, say) are accepted here, while the source rejects them.
- Scores are -infinity or finite. NaN and +infinity are not modelled.
- Hmm.HMM.Predict: the warning of the fill is computed by `Trellis.FillAndBacktrace` but not returned by predict, which in the source only emits it through `warnings.warn` and returns the labels alone.
- Trellis.CalculateTransMats: the warning at lines 265-269 is a boolean result, not a `warnings.warn` side effect. It follows the code, which fires when any entry of the last column is infinite, not only when all of them are.
- `trans_id` is an int32 array in the source. The model uses unbounded integers, which agree because every entry is below num_states.
- Trellis.HmmViterbiLabel requires the matrix width to equal `num_obs` and every backpointer to be a state index, which predict always guarantees. Its labels are integers, whereas the source writes them into a float array.
- The backtrace and the trellis assume at least one state and one observation. Predict reaches the trellis only in that case; the other cases are its error results.
- The framework base class, `_tags` and `get_test_params` (lines 404-433) are not modelled. Neither are `sktime/annotation/__init__.py` and `sktime/annotation/adapters/__init__.py`, which only re-export names.
