/**
 The HMM annotator: construction-time validation of the transition matrix and
 the initial probabilities, the no-op fit, and predict, which builds the
 log-domain model, fills the trellis and backtraces it.
 */
module Hmm {
  import opened Scores
  import opened Viterbi
  import opened Trellis

  datatype Option<+T> = None | Some(value: T)

  datatype Result<+T, +E> = Success(value: T) | Failure(error: E)

  datatype Outcome<+E> = Pass | Fail(error: E)

  /** A numpy array of floats: its shape and its entries in row-major order. */
  datatype Tensor = Tensor(shape: seq<nat>, data: seq<real>)

  function Product(shape: seq<nat>): nat {
    if |shape| == 0 then 1 else shape[0] * Product(shape[1..])
  }

  predicate WellFormed(a: Tensor) {
    |a.data| == Product(a.shape)
  }

  predicate IsSquare(a: Tensor) {
    |a.shape| == 2 && a.shape[0] == a.shape[1]
  }

  lemma {:induction false} MulMonotone(a: nat, b: nat, c: nat)
    requires a <= b
    ensures a * c <= b * c
    decreases b - a
  {
    if a < b {
      MulMonotone(a + 1, b, c);
      assert (a + 1) * c == a * c + c;
    }
  }

  lemma EntryInRange(a: Tensor, i: nat, j: nat)
    requires WellFormed(a) && |a.shape| == 2 && i < a.shape[0] && j < a.shape[1]
    ensures i * a.shape[1] + j < |a.data|
  {
    var r, c := a.shape[0], a.shape[1];
    assert a.shape[1..] == [c];
    assert Product([c]) == c;
    assert Product(a.shape) == r * c;
    MulMonotone(i + 1, r, c);
    assert (i + 1) * c == i * c + c;
  }

  /** Entry [i, j] of a two-dimensional array. */
  function Entry(a: Tensor, i: nat, j: nat): real
    requires WellFormed(a) && |a.shape| == 2 && i < a.shape[0] && j < a.shape[1]
  {
    EntryInRange(a, i, j);
    a.data[i * a.shape[1] + j]
  }

  /** Python's left-to-right `sum`, over exact reals. */
  function Sum(s: seq<real>): real {
    if |s| == 0 then 0.0 else Sum(s[..|s| - 1]) + s[|s| - 1]
  }

  function Abs(x: real): real {
    if x < 0.0 then -x else x
  }

  /** The relative tolerance of the row-sum check. */
  const RowSumRelTol: real := 0.05

  /** numpy's default absolute tolerance of `isclose`. */
  const IsCloseAbsTol: real := 0.00000001

  /** numpy's `isclose(a, b)`: |a - b| is within the absolute tolerance plus the relative tolerance of |b|. */
  predicate IsClose(a: real, b: real) {
    Abs(a - b) <= IsCloseAbsTol + RowSumRelTol * Abs(b)
  }

  /** The sum of the first k entries of row i, left to right. */
  function RowSum(a: Tensor, i: nat, k: nat): real
    requires WellFormed(a) && |a.shape| == 2 && i < a.shape[0] && k <= a.shape[1]
  {
    if k == 0 then 0.0 else RowSum(a, i, k - 1) + Entry(a, i, k - 1)
  }

  /** Every row of the transition matrix sums to 1 within tolerance. */
  predicate RowsNormalised(a: Tensor)
    requires WellFormed(a) && |a.shape| == 2
  {
    forall i :: 0 <= i < a.shape[0] ==> IsClose(1.0, RowSum(a, i, a.shape[1]))
  }

  /** The length of the initial probabilities, or of the vector that would be generated for them. */
  function InitialLength(initialProbs: Option<seq<real>>, numEmissionFuncs: nat): nat {
    if initialProbs.Some? then |initialProbs.value| else numEmissionFuncs
  }

  datatype InitError =
    | ShapeIndexError
    | NotSquare(shape: seq<nat>)
    | StateCountMismatch(emissionLen: nat, transitionLen: nat, initialLen: nat)
    | RowsNotNormalised
    | InitialNotNormalised

  /**
   The construction-time checks, in the order the source performs them. Asking
   for the first dimension of a zero-dimensional array fails before the
   dimension check itself.
   */
  function ValidateInit(transitionProbMat: Tensor, numEmissionFuncs: nat, initialProbs: Option<seq<real>>)
    : (r: Outcome<InitError>)
    requires WellFormed(transitionProbMat)
    ensures |transitionProbMat.shape| == 0 ==> r == Fail(ShapeIndexError)
    ensures |transitionProbMat.shape| > 0 && !IsSquare(transitionProbMat) ==> r == Fail(NotSquare(transitionProbMat.shape))
    ensures r.Fail? && r.error.StateCountMismatch? ==>
      r.error == StateCountMismatch(numEmissionFuncs, transitionProbMat.shape[0], InitialLength(initialProbs, numEmissionFuncs))
    ensures (IsSquare(transitionProbMat)
             && !(transitionProbMat.shape[0] == numEmissionFuncs == InitialLength(initialProbs, numEmissionFuncs))) ==>
      r == Fail(StateCountMismatch(numEmissionFuncs, transitionProbMat.shape[0], InitialLength(initialProbs, numEmissionFuncs)))
    ensures (IsSquare(transitionProbMat)
             && transitionProbMat.shape[0] == numEmissionFuncs == InitialLength(initialProbs, numEmissionFuncs)
             && !RowsNormalised(transitionProbMat)) ==>
      r == Fail(RowsNotNormalised)
    ensures (IsSquare(transitionProbMat)
             && transitionProbMat.shape[0] == numEmissionFuncs == InitialLength(initialProbs, numEmissionFuncs)
             && RowsNormalised(transitionProbMat)
             && initialProbs.Some? && Sum(initialProbs.value) != 1.0) ==>
      r == Fail(InitialNotNormalised)
    ensures r.Pass? <==>
      && IsSquare(transitionProbMat)
      && transitionProbMat.shape[0] == numEmissionFuncs
      && InitialLength(initialProbs, numEmissionFuncs) == numEmissionFuncs
      && RowsNormalised(transitionProbMat)
      && (initialProbs.Some? ==> Sum(initialProbs.value) == 1.0)
  {
    var shape := transitionProbMat.shape;
    if |shape| == 0 then Fail(ShapeIndexError)
    else if |shape| != 2 || shape[0] != shape[1] then Fail(NotSquare(shape))
    else
      var tranMatLen := shape[0];
      var initProbLen := InitialLength(initialProbs, numEmissionFuncs);
      if !(tranMatLen == numEmissionFuncs && numEmissionFuncs == initProbLen) then
        Fail(StateCountMismatch(numEmissionFuncs, tranMatLen, initProbLen))
      else if !RowsNormalised(transitionProbMat) then Fail(RowsNotNormalised)
      else if initialProbs.Some? && Sum(initialProbs.value) != 1.0 then Fail(InitialNotNormalised)
      else Pass
  }

  /** The initial probabilities generated when none are given: 1/n for each of the n states. */
  function Uniform(n: nat): (u: seq<real>)
    requires n >= 1
    ensures |u| == n
  {
    seq(n, _ => 1.0 / (n as real))
  }

  lemma {:induction false} SumConstant(k: nat, c: real)
    ensures Sum(seq(k, _ => c)) == (k as real) * c
  {
    if k > 0 {
      var s := seq(k, _ => c);
      assert s[..k - 1] == seq(k - 1, _ => c);
      SumConstant(k - 1, c);
    }
  }

  /** The generated uniform vector sums to 1, as validation demands of given initial probabilities. */
  lemma UniformSumsToOne(n: nat)
    requires n >= 1
    ensures Sum(Uniform(n)) == 1.0
  {
    SumConstant(n, 1.0 / (n as real));
  }

  /**
   Passing the uniform vector explicitly is accepted whenever leaving the
   initial probabilities out is (and there is at least one state).
   */
  lemma UniformDefaultValidates(transitionProbMat: Tensor, numEmissionFuncs: nat)
    requires WellFormed(transitionProbMat) && numEmissionFuncs >= 1
    requires ValidateInit(transitionProbMat, numEmissionFuncs, None).Pass?
    ensures ValidateInit(transitionProbMat, numEmissionFuncs, Some(Uniform(numEmissionFuncs))).Pass?
  {
    UniformSumsToOne(numEmissionFuncs);
  }

  /** The initial probabilities predict uses: the given ones, or the uniform default. */
  function InitialProbsOrUniform(initialProbs: Option<seq<real>>, n: nat): (p: seq<real>)
    requires initialProbs.Some? || n >= 1
    ensures initialProbs.None? ==> p == Uniform(n) && Sum(p) == 1.0
    ensures initialProbs.Some? ==> p == initialProbs.value
  {
    if initialProbs.None? then
      UniformSumsToOne(n);
      Uniform(n)
    else initialProbs.value
  }

  /** `list(range(n))`: the labels of the hidden states. */
  function Range(n: nat): (r: seq<int>)
    ensures |r| == n
    ensures forall i :: 0 <= i < n ==> r[i] == i
  {
    seq(n, i => i)
  }

  /** Elementwise logarithm of a vector. */
  function LogVector(p: seq<real>, log: real -> Score): (v: seq<Score>)
    ensures |v| == |p|
    ensures forall i :: 0 <= i < |p| ==> v[i] == log(p[i])
  {
    seq(|p|, i requires 0 <= i < |p| => log(p[i]))
  }

  /** Elementwise logarithm of a square matrix: entry [i][j] is the log-probability of moving from i to j. */
  function LogMatrix(a: Tensor, log: real -> Score): (m: seq<seq<Score>>)
    requires WellFormed(a) && IsSquare(a)
    ensures |m| == a.shape[0]
    ensures forall i :: 0 <= i < |m| ==> |m[i]| == a.shape[0]
    ensures forall i, j :: 0 <= i < a.shape[0] && 0 <= j < a.shape[0] ==> m[i][j] == log(Entry(a, i, j))
  {
    var n := a.shape[0];
    seq(n, i requires 0 <= i < n => seq(n, j requires 0 <= j < n => log(Entry(a, i, j))))
  }

  /**
   The log emission matrix, indexed [state, observation]: entry [s][t] is the
   logarithm of emission function s applied to observation t.
   */
  function LogEmissions(emissionFuncs: seq<real -> real>, X: seq<real>, log: real -> Score): (m: seq<seq<Score>>)
    ensures |m| == |emissionFuncs|
    ensures forall s :: 0 <= s < |m| ==> |m[s]| == |X|
    ensures forall s, t :: 0 <= s < |m| && 0 <= t < |X| ==> m[s][t] == log(emissionFuncs[s](X[t]))
  {
    seq(|emissionFuncs|, s requires 0 <= s < |emissionFuncs| =>
      seq(|X|, t requires 0 <= t < |X| => log(emissionFuncs[s](X[t]))))
  }

  /**
   The log-domain model predict decodes with: the logarithms of the initial
   probabilities, of the transition matrix and of the emission matrix.
   */
  function LogParams(emissionFuncs: seq<real -> real>, transitionProbMat: Tensor, initProbs: seq<real>,
                     X: seq<real>, log: real -> Score): (lm: LogModel)
    requires WellFormed(transitionProbMat) && IsSquare(transitionProbMat)
    requires transitionProbMat.shape[0] == |emissionFuncs| == |initProbs|
    ensures |emissionFuncs| >= 1 && |X| >= 1 ==>
      Shaped(lm) && NumStates(lm) == |emissionFuncs| && NumObs(lm) == |X|
  {
    LogModel(LogVector(initProbs, log), LogMatrix(transitionProbMat, log), LogEmissions(emissionFuncs, X, log))
  }

  /** Accepted initial probabilities sum to 1, so they cannot be empty: there is at least one state. */
  lemma GivenInitialImpliesStates(transitionProbMat: Tensor, numEmissionFuncs: nat, initialProbs: seq<real>)
    requires WellFormed(transitionProbMat)
    requires ValidateInit(transitionProbMat, numEmissionFuncs, Some(initialProbs)).Pass?
    ensures numEmissionFuncs >= 1
  {
  }

  datatype PredictError = DivisionByZero | EmptyObservations

  class HMM {
    const emissionFuncs: seq<real -> real>
    const transitionProbMat: Tensor
    const initialProbs: Option<seq<real>>

    var numStates: nat
    var states: seq<int>
    var numObs: nat
    var transProb: array2?<Score>
    var transId: array2?<int>

    /** The parameters passed the construction-time checks. */
    predicate Valid() {
      WellFormed(transitionProbMat) && ValidateInit(transitionProbMat, |emissionFuncs|, initialProbs).Pass?
    }

    constructor (emissionFuncs: seq<real -> real>, transitionProbMat: Tensor, initialProbs: Option<seq<real>>)
      requires WellFormed(transitionProbMat)
      requires ValidateInit(transitionProbMat, |emissionFuncs|, initialProbs).Pass?
      ensures Valid()
      ensures this.emissionFuncs == emissionFuncs && this.transitionProbMat == transitionProbMat
      ensures this.initialProbs == initialProbs
      ensures transProb == null && transId == null
    {
      this.emissionFuncs := emissionFuncs;
      this.transitionProbMat := transitionProbMat;
      this.initialProbs := initialProbs;
      numStates, states, numObs := 0, [], 0;
      transProb, transId := null, null;
    }

    /** Construction: store the parameters, then reject them with the first failing check. */
    static method Create(emissionFuncs: seq<real -> real>, transitionProbMat: Tensor, initialProbs: Option<seq<real>>)
      returns (r: Result<HMM, InitError>)
      requires WellFormed(transitionProbMat)
      ensures r.Failure? <==> ValidateInit(transitionProbMat, |emissionFuncs|, initialProbs).Fail?
      ensures r.Failure? ==> r.error == ValidateInit(transitionProbMat, |emissionFuncs|, initialProbs).error
      ensures r.Success? ==> fresh(r.value) && r.value.Valid() && r.value.transProb == null
      ensures r.Success? ==> r.value.emissionFuncs == emissionFuncs && r.value.transitionProbMat == transitionProbMat
      ensures r.Success? ==> r.value.initialProbs == initialProbs
    {
      var check := ValidateInit(transitionProbMat, |emissionFuncs|, initialProbs);
      if check.Fail? {
        return Failure(check.error);
      }
      var h := new HMM(emissionFuncs, transitionProbMat, initialProbs);
      return Success(h);
    }

    /** Fitting learns nothing: the parameters are supplied, so the estimator is returned as it is. */
    method Fit(X: seq<real>) returns (self: HMM)
      ensures self == this
    {
      self := this;
    }

    /**
     Predict: record the state count, the labels and the observation count,
     default the initial probabilities, fill the trellis and backtrace it. The
     result is the decoded path of the log-domain model; with no states the
     uniform default divides by zero, and with no observations the first
     trellis column does not exist.
     */
    method Predict(X: seq<real>, log: real -> Score) returns (r: Result<seq<int>, PredictError>)
      requires Valid()
      modifies this
      ensures numStates == |emissionFuncs| && states == Range(numStates) && numObs == |X|
      ensures numStates == 0 ==> r == Failure(DivisionByZero)
      ensures numStates >= 1 && numObs == 0 ==> r == Failure(EmptyObservations)
      ensures r.Failure? ==> transProb == old(transProb) && transId == old(transId)
      ensures numStates >= 1 && numObs >= 1 ==>
        var lm := LogParams(emissionFuncs, transitionProbMat, InitialProbsOrUniform(initialProbs, numStates), X, log);
        && Shaped(lm)
        && r == Success(Decode(lm))
        && transProb != null && transId != null && fresh(transProb) && fresh(transId)
        && transProb.Length0 == numStates && transProb.Length1 == numObs
        && transId.Length0 == numStates && transId.Length1 == numObs
        && (forall j, t :: 0 <= j < numStates && 0 <= t < numObs ==> transProb[j, t] == Best(lm, t, j))
        && (forall j, t :: 0 <= j < numStates && 1 <= t < numObs ==> transId[j, t] == BackPtr(lm, t, j))
    {
      var n, m := |emissionFuncs|, |X|;
      numStates, states, numObs := n, Range(n), m;
      if initialProbs.None? && n == 0 {
        return Failure(DivisionByZero);
      }
      if initialProbs.Some? {
        GivenInitialImpliesStates(transitionProbMat, n, initialProbs.value);
      }
      var initProbs := InitialProbsOrUniform(initialProbs, n);
      if m == 0 {
        return Failure(EmptyObservations);
      }
      var lm := LogParams(emissionFuncs, transitionProbMat, initProbs, X, log);
      var tp, ti, labels, _ := FillAndBacktrace(lm, m, n, Range(n));
      assert labels == Decode(lm);
      transProb, transId := tp, ti;
      r := Success(labels);
    }
  }
}
