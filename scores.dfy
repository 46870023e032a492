/**
 The log-probabilities the Viterbi decoder works with. Every probability enters
 the decoder through a logarithm, so a score is either log 0 = -infinity or a
 finite real. Addition and comparison follow the floating-point rules for these
 values; max and argmax follow numpy (argmax returns the FIRST maximiser).
 */
module Scores {

  /** A log-probability: `NegInf` is the logarithm of probability 0. */
  datatype Score = NegInf | Fin(r: real)

  /** Addition of log-scores: -infinity absorbs every finite value. */
  function Add(a: Score, b: Score): Score {
    if a.NegInf? || b.NegInf? then NegInf else Fin(a.r + b.r)
  }

  /** The order of the scores: -infinity lies below every finite value. */
  predicate Le(a: Score, b: Score) {
    a.NegInf? || (b.Fin? && a.r <= b.r)
  }

  predicate Lt(a: Score, b: Score) {
    !Le(b, a)
  }

  lemma AddMonotone(a: Score, b: Score, c: Score)
    requires Le(a, b)
    ensures Le(Add(a, c), Add(b, c))
    ensures Le(Add(c, a), Add(c, b))
  {
  }

  /**
   numpy's argmax over a non-empty vector: an index holding a maximum, and
   of all such indices the lowest one.
   */
  function ArgMax(s: seq<Score>): (k: nat)
    requires |s| > 0
    ensures k < |s|
    ensures forall i :: 0 <= i < |s| ==> Le(s[i], s[k])
    ensures forall i :: 0 <= i < k ==> Lt(s[i], s[k])
    decreases |s|
  {
    if |s| == 1 then 0
    else
      var k := ArgMax(s[..|s| - 1]);
      if Lt(s[k], s[|s| - 1]) then |s| - 1 else k
  }

  /** The lowest-index maximiser is unique, so ArgMax is exactly the index numpy returns. */
  lemma ArgMaxIsFirstMaximiser(s: seq<Score>, k: nat)
    requires k < |s|
    requires forall i :: 0 <= i < |s| ==> Le(s[i], s[k])
    requires forall i :: 0 <= i < k ==> Lt(s[i], s[k])
    ensures ArgMax(s) == k
  {
  }
}
