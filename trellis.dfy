/**
 The two array passes of the decoder: the left-to-right fill of the score and
 backpointer matrices (both of shape [num_states, num_obs]) and the backward
 walk that turns them into one label per observation. Each is proved against
 the recursion in module Viterbi.
 */
module Trellis {
  import opened Scores
  import opened Viterbi

  /**
   numpy's max and argmax over the candidates of state j at observation t,
   read off the filled column t - 1 of the score matrix.
   */
  method BestPredecessor(lm: LogModel, transProb: array2<Score>, prev: nat, t: nat, j: nat)
    returns (best: Score, arg: nat)
    requires Shaped(lm) && t == prev + 1 && t < NumObs(lm) && j < NumStates(lm)
    requires transProb.Length0 == NumStates(lm) && transProb.Length1 == NumObs(lm)
    requires forall i :: 0 <= i < NumStates(lm) ==> transProb[i, prev] == Best(lm, prev, i)
    ensures arg == BackPtr(lm, t, j)
    ensures best == Best(lm, t, j)
  {
    best := Add(Add(lm.trans[0][j], transProb[0, prev]), lm.emit[j][t]);
    arg := 0;
    var i := 1;
    while i < NumStates(lm)
      invariant 1 <= i <= NumStates(lm)
      invariant arg == ArgPrefix(lm, t, j, i)
      invariant best == Cand(lm, t, j, arg)
    {
      var path := Add(Add(lm.trans[i][j], transProb[i, prev]), lm.emit[j][t]);
      assert path == Cand(lm, t, j, i);
      if Lt(best, path) {
        best, arg := path, i;
      }
      i := i + 1;
    }
  }

  /** Fills column t >= 1 of both matrices from column t - 1; no other column changes. */
  method FillColumn(lm: LogModel, transProb: array2<Score>, transId: array2<int>, prev: nat, t: nat)
    requires Shaped(lm) && t == prev + 1 && t < NumObs(lm)
    requires transProb.Length0 == NumStates(lm) && transProb.Length1 == NumObs(lm)
    requires transId.Length0 == NumStates(lm) && transId.Length1 == NumObs(lm)
    requires forall i :: 0 <= i < NumStates(lm) ==> transProb[i, prev] == Best(lm, prev, i)
    modifies transProb, transId
    ensures forall j :: 0 <= j < NumStates(lm) ==> transProb[j, t] == Best(lm, t, j)
    ensures forall j :: 0 <= j < NumStates(lm) ==> transId[j, t] == BackPtr(lm, t, j)
    ensures forall j, u :: 0 <= j < NumStates(lm) && 0 <= u < NumObs(lm) && u != t ==>
      transProb[j, u] == old(transProb[j, u]) && transId[j, u] == old(transId[j, u])
  {
    var j := 0;
    while j < NumStates(lm)
      invariant 0 <= j <= NumStates(lm)
      invariant forall i :: 0 <= i < NumStates(lm) ==> transProb[i, prev] == Best(lm, prev, i)
      invariant forall k :: 0 <= k < j ==> transProb[k, t] == Best(lm, t, k) && transId[k, t] == BackPtr(lm, t, k)
      invariant forall k, u :: 0 <= k < NumStates(lm) && 0 <= u < NumObs(lm) && u != t ==>
        transProb[k, u] == old(transProb[k, u]) && transId[k, u] == old(transId[k, u])
    {
      var best, arg := BestPredecessor(lm, transProb, prev, t, j);
      transId[j, t] := arg;
      transProb[j, t] := best;
      j := j + 1;
    }
  }

  /**
   The trellis fill. Column 0 holds the start scores and backpointers 0;
   every later column follows the Viterbi recurrence. `degenerate` is the
   condition under which the source warns: some entry of the last column is
   log 0.
   */
  method CalculateTransMats(lm: LogModel, numObs: nat, numStates: nat)
    returns (transProb: array2<Score>, transId: array2<int>, degenerate: bool)
    requires Shaped(lm) && numObs == NumObs(lm) && numStates == NumStates(lm)
    ensures fresh(transProb) && fresh(transId)
    ensures transProb.Length0 == numStates && transProb.Length1 == numObs
    ensures transId.Length0 == numStates && transId.Length1 == numObs
    ensures forall j, t :: 0 <= j < numStates && 0 <= t < numObs ==> transProb[j, t] == Best(lm, t, j)
    ensures forall j :: 0 <= j < numStates ==> transId[j, 0] == 0
    ensures forall j, t :: 0 <= j < numStates && 1 <= t < numObs ==> transId[j, t] == BackPtr(lm, t, j)
    ensures forall j, t :: 0 <= j < numStates && 0 <= t < numObs ==> 0 <= transId[j, t] < numStates
    ensures degenerate <==> exists j :: 0 <= j < numStates && Best(lm, LastObs(lm), j).NegInf?
  {
    transProb := new Score[numStates, numObs]((_, _) => Fin(0.0));
    var n := 0;
    while n < numStates
      invariant 0 <= n <= numStates
      invariant forall k :: 0 <= k < n ==> transProb[k, 0] == Best(lm, 0, k)
    {
      transProb[n, 0] := Add(lm.init[n], lm.emit[n][0]);
      n := n + 1;
    }
    transId := new int[numStates, numObs]((_, _) => 0);
    var t := 1;
    while t < numObs
      invariant 1 <= t <= numObs
      invariant forall k, u :: 0 <= k < numStates && 0 <= u < t ==> transProb[k, u] == Best(lm, u, k)
      invariant forall k :: 0 <= k < numStates ==> transId[k, 0] == 0
      invariant forall k, u :: 0 <= k < numStates && 1 <= u < t ==> transId[k, u] == BackPtr(lm, u, k)
    {
      FillColumn(lm, transProb, transId, t - 1, t);
      t := t + 1;
    }
    var last := numObs - 1;
    assert last == LastObs(lm);
    assert forall j :: 0 <= j < numStates ==> transProb[j, last] == Best(lm, last, j);
    degenerate := exists j :: 0 <= j < numStates && transProb[j, last].NegInf?;
  }

  /** Column t of a score matrix, as a vector. */
  function ColumnOf(a: array2<Score>, t: nat): (col: seq<Score>)
    requires t < a.Length1
    reads a
    ensures |col| == a.Length0
    ensures forall j :: 0 <= j < a.Length0 ==> col[j] == a[j, t]
  {
    seq(a.Length0, j requires 0 <= j < a.Length0 reads a => a[j, t])
  }

  /**
   The backtrace: start from the argmax of the last column of the score
   matrix, then step back one observation at a time through the backpointers,
   mapping each state index to its label in `states`. `maxInds` are the state
   indices visited.
   */
  method HmmViterbiLabel(numObs: nat, states: seq<int>, transProb: array2<Score>, transId: array2<int>)
    returns (hmmFit: seq<int>, ghost maxInds: seq<nat>)
    requires numObs >= 1
    requires 1 <= transProb.Length0 <= |states| && transProb.Length1 == numObs
    requires transId.Length0 == transProb.Length0 && transId.Length1 == numObs
    requires forall j, t :: 0 <= j < transId.Length0 && 0 <= t < numObs ==> 0 <= transId[j, t] < transId.Length0
    ensures |hmmFit| == numObs && |maxInds| == numObs
    ensures forall t :: 0 <= t < numObs ==> maxInds[t] < transProb.Length0 && hmmFit[t] == states[maxInds[t]]
    ensures maxInds[numObs - 1] == ArgMax(ColumnOf(transProb, numObs - 1))
    ensures forall t :: 1 <= t < numObs ==> maxInds[t - 1] == transId[maxInds[t], t]
  {
    var fit := new int[numObs];
    var inds := new nat[numObs];
    var start := ArgMax(ColumnOf(transProb, numObs - 1));
    inds[numObs - 1] := start;
    fit[numObs - 1] := states[start];
    var index := numObs - 1;
    while index > 0
      invariant 0 <= index <= numObs - 1
      invariant inds[numObs - 1] == start
      invariant forall t :: index <= t < numObs ==> inds[t] < transProb.Length0 && fit[t] == states[inds[t]]
      invariant forall t :: index < t < numObs ==> inds[t - 1] == transId[inds[t], t]
    {
      inds[index - 1] := transId[inds[index], index];
      fit[index - 1] := states[inds[index - 1]];
      index := index - 1;
    }
    hmmFit := fit[..];
    maxInds := inds[..];
  }

  /**
   The two passes compose: a backtrace over matrices filled by the recurrence
   visits exactly the decoded states.
   */
  lemma BacktraceOfFilledIsDecode(lm: LogModel, numObs: nat, numStates: nat,
                                  transProb: array2<Score>, transId: array2<int>, maxInds: seq<nat>)
    requires Shaped(lm) && numObs == NumObs(lm) && numStates == NumStates(lm)
    requires transProb.Length0 == numStates && transProb.Length1 == numObs
    requires transId.Length0 == numStates && transId.Length1 == numObs
    requires forall j, t :: 0 <= j < numStates && 0 <= t < numObs ==> transProb[j, t] == Best(lm, t, j)
    requires forall j, t :: 0 <= j < numStates && 1 <= t < numObs ==> transId[j, t] == BackPtr(lm, t, j)
    requires |maxInds| == numObs
    requires forall t :: 0 <= t < numObs ==> maxInds[t] < transProb.Length0
    requires maxInds[numObs - 1] == ArgMax(ColumnOf(transProb, numObs - 1))
    requires forall t :: 1 <= t < numObs ==> maxInds[t - 1] == transId[maxInds[t], t]
    ensures maxInds == Decode(lm)
  {
    var last := LastObs(lm);
    assert last == numObs - 1;
    var col := ColumnOf(transProb, last);
    FinalStateIsArgMax(lm, col);
    assert FollowsBackPtrs(lm, maxInds);
    BacktraceIsDecode(lm, maxInds);
  }

  /**
   The decoding step of predict: fill both matrices, then backtrace them. The
   labels are the labels of the decoded states; `degenerate` is the warning
   condition of the fill.
   */
  method FillAndBacktrace(lm: LogModel, numObs: nat, numStates: nat, states: seq<int>)
    returns (transProb: array2<Score>, transId: array2<int>, labels: seq<int>, degenerate: bool)
    requires Shaped(lm) && numObs == NumObs(lm) && numStates == NumStates(lm) && numStates <= |states|
    ensures fresh(transProb) && fresh(transId)
    ensures transProb.Length0 == numStates && transProb.Length1 == numObs
    ensures transId.Length0 == numStates && transId.Length1 == numObs
    ensures forall j, t :: 0 <= j < numStates && 0 <= t < numObs ==> transProb[j, t] == Best(lm, t, j)
    ensures forall j, t :: 0 <= j < numStates && 1 <= t < numObs ==> transId[j, t] == BackPtr(lm, t, j)
    ensures |labels| == numObs
    ensures forall t :: 0 <= t < numObs ==> labels[t] == states[Decode(lm)[t]]
    ensures degenerate <==> exists j :: 0 <= j < numStates && Best(lm, LastObs(lm), j).NegInf?
  {
    transProb, transId, degenerate := CalculateTransMats(lm, numObs, numStates);
    ghost var inds;
    labels, inds := HmmViterbiLabel(numObs, states, transProb, transId);
    BacktraceOfFilledIsDecode(lm, numObs, numStates, transProb, transId, inds);
  }
}
