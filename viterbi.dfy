/**
 The Viterbi recursion of the HMM annotator, stated as functions of a model in
 the log domain, with the optimality of the decoded path proved about them.

 Orientation follows the code: every matrix is indexed [state, observation]
 (`emit[s][t]`), and `trans[i][j]` is the log-probability of moving from state
 i to state j.
 */
module Viterbi {
  import opened Scores

  /** Log initial probabilities, log transition matrix, log emission matrix. */
  datatype LogModel = LogModel(init: seq<Score>, trans: seq<seq<Score>>, emit: seq<seq<Score>>)

  /** At least one state, at least one observation, and every matrix of the right size. */
  predicate Shaped(lm: LogModel) {
    && |lm.init| >= 1
    && |lm.trans| == |lm.init|
    && (forall i :: 0 <= i < |lm.trans| ==> |lm.trans[i]| == |lm.init|)
    && |lm.emit| == |lm.init|
    && |lm.emit[0]| >= 1
    && (forall s :: 0 <= s < |lm.emit| ==> |lm.emit[s]| == |lm.emit[0]|)
  }

  function NumStates(lm: LogModel): nat {
    |lm.init|
  }

  function NumObs(lm: LogModel): nat
    requires Shaped(lm)
  {
    |lm.emit[0]|
  }

  /** Score of starting in state j and emitting the first observation. */
  function Start(lm: LogModel, j: nat): Score
    requires Shaped(lm) && j < NumStates(lm)
  {
    Add(lm.init[j], lm.emit[j][0])
  }

  /**
   Score of arriving in state j at observation t from state i whose score at
   t - 1 was `prev`: log T[i, j] + prev + log E[j, t], summed in that order.
   */
  function Step(lm: LogModel, prev: Score, i: nat, j: nat, t: nat): Score
    requires Shaped(lm) && i < NumStates(lm) && j < NumStates(lm) && t < NumObs(lm)
  {
    Add(Add(lm.trans[i][j], prev), lm.emit[j][t])
  }

  /**
   Trellis entry (j, t): the best score of a path over observations 0..t that
   ends in state j. Column 0 is the start score; a later entry is the candidate
   of its backpointer.
   */
  function Best(lm: LogModel, t: nat, j: nat): Score
    requires Shaped(lm) && t < NumObs(lm) && j < NumStates(lm)
    decreases t, NumStates(lm) + 2
  {
    if t == 0 then Start(lm, j) else Cand(lm, t, j, BackPtr(lm, t, j))
  }

  /** The candidate score of state j at observation t >= 1 through predecessor i. */
  function Cand(lm: LogModel, t: nat, j: nat, i: nat): Score
    requires Shaped(lm) && 1 <= t < NumObs(lm) && j < NumStates(lm) && i < NumStates(lm)
    decreases t, 0
  {
    Step(lm, Best(lm, t - 1, i), i, j, t)
  }

  /**
   numpy's argmax over the candidates of the first k predecessors: the
   lowest-index predecessor among them whose candidate is maximal. It is the
   same first-maximiser scan as `ArgMax`, written pointwise rather than over a
   sequence because `Best`, `Cand` and `BackPtr` are mutually recursive with
   it: a sequence of candidates would have to be built inside that recursion.
   `Trellis.BestPredecessor` computes it with a loop.
   */
  function ArgPrefix(lm: LogModel, t: nat, j: nat, k: nat): (a: nat)
    requires Shaped(lm) && 1 <= t < NumObs(lm) && j < NumStates(lm) && 1 <= k <= NumStates(lm)
    ensures a < k
    ensures forall i :: 0 <= i < k ==> Le(Cand(lm, t, j, i), Cand(lm, t, j, a))
    ensures forall i :: 0 <= i < a ==> Lt(Cand(lm, t, j, i), Cand(lm, t, j, a))
    decreases t, k
  {
    if k == 1 then 0
    else
      var a := ArgPrefix(lm, t, j, k - 1);
      if Lt(Cand(lm, t, j, a), Cand(lm, t, j, k - 1)) then k - 1 else a
  }

  /** The backpointer of state j at observation t >= 1: the first best predecessor. */
  function BackPtr(lm: LogModel, t: nat, j: nat): (i: nat)
    requires Shaped(lm) && 1 <= t < NumObs(lm) && j < NumStates(lm)
    ensures i < NumStates(lm)
    decreases t, NumStates(lm) + 1
  {
    ArgPrefix(lm, t, j, NumStates(lm))
  }

  /**
   The trellis recurrence: for t >= 1 the entry of state j is the maximum over
   all predecessors i of the candidate score, and the backpointer is the lowest
   predecessor reaching it.
   */
  lemma BestIsMaxCandidate(lm: LogModel, t: nat, j: nat)
    requires Shaped(lm) && 1 <= t < NumObs(lm) && j < NumStates(lm)
    ensures Best(lm, t, j) == Cand(lm, t, j, BackPtr(lm, t, j))
    ensures forall i :: 0 <= i < NumStates(lm) ==> Le(Cand(lm, t, j, i), Best(lm, t, j))
    ensures forall i :: 0 <= i < BackPtr(lm, t, j) ==> Lt(Cand(lm, t, j, i), Best(lm, t, j))
  {
  }

  /** The index of the last observation. */
  function LastObs(lm: LogModel): nat
    requires Shaped(lm)
  {
    NumObs(lm) - 1
  }

  /**
   The final argmax over the first k states of the last trellis column, the
   same scan as `ArgMax`; `FinalStateIsArgMax` proves that `ArgMax` of the
   column vector gives the same state.
   */
  function FinalArgPrefix(lm: LogModel, k: nat): (a: nat)
    requires Shaped(lm) && 1 <= k <= NumStates(lm)
    ensures a < k
    ensures forall i :: 0 <= i < k ==> Le(Best(lm, LastObs(lm), i), Best(lm, LastObs(lm), a))
    ensures forall i :: 0 <= i < a ==> Lt(Best(lm, LastObs(lm), i), Best(lm, LastObs(lm), a))
    decreases k
  {
    if k == 1 then 0
    else
      var a := FinalArgPrefix(lm, k - 1);
      if Lt(Best(lm, LastObs(lm), a), Best(lm, LastObs(lm), k - 1)) then k - 1 else a
  }

  /** The state the backtrace starts from: numpy's argmax of the last trellis column. */
  function FinalState(lm: LogModel): (j: nat)
    requires Shaped(lm)
    ensures j < NumStates(lm)
  {
    FinalArgPrefix(lm, NumStates(lm))
  }

  /** A state path: one state per observation, for a prefix of the observations. */
  predicate IsPath(lm: LogModel, p: seq<nat>) {
    && Shaped(lm)
    && 1 <= |p| <= NumObs(lm)
    && forall k :: 0 <= k < |p| ==> p[k] < NumStates(lm)
  }

  /** The log-probability of a state path together with the observations it covers. */
  function PathScore(lm: LogModel, p: seq<nat>): Score
    requires IsPath(lm, p)
    decreases |p|
  {
    if |p| == 1 then Start(lm, p[0])
    else
      var t := |p| - 1;
      Step(lm, PathScore(lm, p[..t]), p[t - 1], p[t], t)
  }

  /** The path obtained by following backpointers from state j at observation t. */
  function Trace(lm: LogModel, t: nat, j: nat): (p: seq<nat>)
    requires Shaped(lm) && t < NumObs(lm) && j < NumStates(lm)
    ensures |p| == t + 1 && p[t] == j
    ensures IsPath(lm, p)
    decreases t
  {
    if t == 0 then [j] else Trace(lm, t - 1, BackPtr(lm, t, j)) + [j]
  }

  /** The labels the decoder returns: backtrace from the first best final state. */
  function Decode(lm: LogModel): (p: seq<nat>)
    requires Shaped(lm)
    ensures |p| == NumObs(lm) && IsPath(lm, p)
    ensures p[LastObs(lm)] == FinalState(lm)
  {
    Trace(lm, LastObs(lm), FinalState(lm))
  }

  lemma StepMonotone(lm: LogModel, a: Score, b: Score, i: nat, j: nat, t: nat)
    requires Shaped(lm) && i < NumStates(lm) && j < NumStates(lm) && t < NumObs(lm)
    requires Le(a, b)
    ensures Le(Step(lm, a, i, j, t), Step(lm, b, i, j, t))
  {
    AddMonotone(a, b, lm.trans[i][j]);
    AddMonotone(Add(lm.trans[i][j], a), Add(lm.trans[i][j], b), lm.emit[j][t]);
  }

  /** No path ending in state j at observation t scores above the trellis entry (j, t). */
  lemma {:induction false} PathScoreBounded(lm: LogModel, p: seq<nat>)
    requires IsPath(lm, p)
    ensures Le(PathScore(lm, p), Best(lm, |p| - 1, p[|p| - 1]))
    decreases |p|
  {
    if |p| > 1 {
      var t := |p| - 1;
      var q := p[..t];
      assert IsPath(lm, q);
      PathScoreBounded(lm, q);
      var i, j := p[t - 1], p[t];
      assert q[t - 1] == i;
      StepMonotone(lm, PathScore(lm, q), Best(lm, t - 1, i), i, j, t);
      assert PathScore(lm, p) == Step(lm, PathScore(lm, q), i, j, t);
      BestIsMaxCandidate(lm, t, j);
      assert Le(Cand(lm, t, j, i), Best(lm, t, j));
    }
  }

  /** The backtraced path reaches the trellis entry exactly. */
  lemma {:induction false} TraceAttains(lm: LogModel, t: nat, j: nat)
    requires Shaped(lm) && t < NumObs(lm) && j < NumStates(lm)
    ensures PathScore(lm, Trace(lm, t, j)) == Best(lm, t, j)
    decreases t
  {
    if t > 0 {
      var b := BackPtr(lm, t, j);
      TraceAttains(lm, t - 1, b);
      var p := Trace(lm, t, j);
      assert p[..t] == Trace(lm, t - 1, b);
    }
  }

  /**
   Optimality: the decoded labels score the maximum of the final trellis
   column, and no state path over all the observations scores higher.
   */
  lemma DecodeOptimal(lm: LogModel)
    requires Shaped(lm)
    ensures PathScore(lm, Decode(lm)) == Best(lm, LastObs(lm), FinalState(lm))
    ensures forall j :: 0 <= j < NumStates(lm) ==> Le(Best(lm, LastObs(lm), j), PathScore(lm, Decode(lm)))
    ensures forall p :: IsPath(lm, p) && |p| == NumObs(lm) ==> Le(PathScore(lm, p), PathScore(lm, Decode(lm)))
  {
    TraceAttains(lm, LastObs(lm), FinalState(lm));
    forall p | IsPath(lm, p) && |p| == NumObs(lm)
      ensures Le(PathScore(lm, p), PathScore(lm, Decode(lm)))
    {
      PathScoreBounded(lm, p);
    }
  }

  /** Labels in which each one is the backpointer of its successor. */
  predicate FollowsBackPtrs(lm: LogModel, inds: seq<nat>) {
    && Shaped(lm)
    && |inds| == NumObs(lm)
    && (forall t :: 0 <= t < |inds| ==> inds[t] < NumStates(lm))
    && forall t :: 1 <= t < |inds| ==> inds[t - 1] == BackPtr(lm, t, inds[t])
  }

  lemma {:induction false} PrefixIsTrace(lm: LogModel, inds: seq<nat>, k: nat)
    requires FollowsBackPtrs(lm, inds) && k < |inds|
    ensures inds[..k + 1] == Trace(lm, k, inds[k])
    decreases k
  {
    if k > 0 {
      PrefixIsTrace(lm, inds, k - 1);
      assert inds[..k + 1] == inds[..k] + [inds[k]];
    }
  }

  /**
   Backtrace consistency: labels that start from the first best final state
   and then follow the backpointers are exactly the decoded labels.
   */
  lemma BacktraceIsDecode(lm: LogModel, inds: seq<nat>)
    requires FollowsBackPtrs(lm, inds)
    requires inds[LastObs(lm)] == FinalState(lm)
    ensures inds == Decode(lm)
  {
    PrefixIsTrace(lm, inds, LastObs(lm));
    assert inds[..NumObs(lm)] == inds;
  }

  /** numpy's argmax of a vector holding the last trellis column is the state the backtrace starts from. */
  lemma FinalStateIsArgMax(lm: LogModel, col: seq<Score>)
    requires Shaped(lm) && |col| == NumStates(lm)
    requires forall i :: 0 <= i < |col| ==> col[i] == Best(lm, LastObs(lm), i)
    ensures ArgMax(col) == FinalState(lm)
  {
    ArgMaxIsFirstMaximiser(col, FinalState(lm));
  }
}
