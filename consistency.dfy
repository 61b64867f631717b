/** Saaty's consistency check, as `calculate_consistency` performs it:
    lambda_max from the weighted row sums, the consistency index and the
    consistency ratio against the table of random indices. */
module Consistency {
  import opened RealSums
  import opened Matrices

  /** Average consistency index of random matrices, by matrix size 0..10. */
  const RandomIndex: seq<real> := [0.0, 0.0, 0.0, 0.58, 0.90, 1.12, 1.24, 1.32, 1.41, 1.45, 1.49]

  /** The advisory verdict printed as "CR is OK" or "CR is BAD". */
  datatype Verdict = Consistent | Inconsistent

  function Classify(ratio: real): Verdict
  {
    if ratio < 0.10 then Consistent else Inconsistent
  }

  /** Row `i` of the judgments weighted by the criteria weights, summed. */
  function WeightedSums(a: Matrix, w: seq<real>): (ws: seq<real>)
    requires IsRect(a, |w|)
    ensures |ws| == |a|
    ensures forall i :: 0 <= i < |a| ==> ws[i] == Sum(Products(a[i], w))
  {
    seq(|a|, i requires 0 <= i < |a| => Sum(Products(a[i], w)))
  }

  /** Each weighted row sum divided by the weight of its row. */
  function Ratios(a: Matrix, w: seq<real>): (q: seq<real>)
    requires IsSquare(a, |w|) && NonZero(w)
    ensures |q| == |w|
    ensures forall i :: 0 <= i < |w| ==> q[i] == WeightedSums(a, w)[i] / w[i]
  {
    var ws := WeightedSums(a, w);
    seq(|w|, i requires 0 <= i < |w| => ws[i] / w[i])
  }

  /** The mean of a non-empty sequence. */
  function Mean(q: seq<real>): real
    requires |q| > 0
  {
    Sum(q) / |q| as real
  }

  /** The estimate of the principal eigenvalue: the mean of the ratios. */
  function LambdaMax(a: Matrix, w: seq<real>): real
    requires IsSquare(a, |w|) && NonZero(w) && |w| > 0
  {
    Mean(Ratios(a, w))
  }

  /** CI = (lambda_max - n) / (n - 1). */
  function IndexOf(lambda: real, n: nat): real
    requires n >= 2
  {
    (lambda - n as real) / (n - 1) as real
  }

  function ConsistencyIndex(a: Matrix, w: seq<real>): real
    requires IsSquare(a, |w|) && NonZero(w) && |w| >= 2
  {
    IndexOf(LambdaMax(a, w), |w|)
  }

  /** The table has a non-zero entry exactly for the sizes 3 to 10. */
  lemma {:induction false} RandomIndexDefined(n: nat)
    ensures n < |RandomIndex| && RandomIndex[n] != 0.0 <==> 3 <= n <= 10
  {
    if n < |RandomIndex| {
      assert RandomIndex[n] in RandomIndex;
    }
  }

  /** CR = CI / RI[n]. */
  function RatioOf(ci: real, n: nat): real
    requires 3 <= n <= 10
  {
    RandomIndexDefined(n);
    ci / RandomIndex[n]
  }

  function ConsistencyRatio(a: Matrix, w: seq<real>): real
    requires IsSquare(a, |w|) && NonZero(w) && 3 <= |w| <= 10
  {
    RatioOf(ConsistencyIndex(a, w), |w|)
  }

  /** An eigenvalue estimate equal to the size gives a zero index, and a zero
      index a zero ratio and an acceptable verdict. */
  lemma {:induction false} ExactIndex(n: nat)
    ensures n >= 2 ==> IndexOf(n as real, n) == 0.0
    ensures 3 <= n <= 10 ==> RatioOf(0.0, n) == 0.0 && Classify(RatioOf(0.0, n)) == Consistent
  {
    if 3 <= n <= 10 {
      RandomIndexDefined(n);
    }
  }

  /** A consistent judgment times the scaled score of its column is the
      scaled score of its row. */
  lemma {:induction false} ProductCancel(aij: real, wi: real, wj: real, vi: real, vj: real, s: real)
    requires vj != 0.0 && s != 0.0
    requires aij == vi / vj && wi == vi / s && wj == vj / s
    ensures aij * wj == wi
  {
  }

  /** `n` copies of `x` divided by `x` is `n`. */
  lemma {:induction false} MultipleOver(total: real, x: real, n: nat)
    requires x != 0.0 && total == n as real * x
    ensures total / x == n as real
  {
  }

  /** The mean of `n` copies of `n` is `n`. */
  lemma {:induction false} MeanOfCopies(q: seq<real>, n: nat)
    requires |q| == n > 0
    requires forall i :: 0 <= i < n ==> q[i] == n as real
    ensures Mean(q) == n as real
  {
    SumConstant(q, n as real);
    AverageOfCopies(Sum(q), n as real, n);
  }

  /** The hidden scores of consistent judgments, once scaled, are non-zero. */
  lemma {:induction false} SharesNonZero(v: seq<real>)
    requires |v| > 0 && forall i :: 0 <= i < |v| ==> v[i] > 0.0
    ensures Sum(v) > 0.0 && NonZero(Shares(v))
  {
    SumPositive(v);
    forall j | 0 <= j < |v|
      ensures Shares(v)[j] != 0.0
    {
      QuotientPositive(v[j], Sum(v));
    }
  }

  /** A consistent judgment times the scaled hidden score of its column is
      the scaled hidden score of its row. */
  lemma {:induction false} ConsistentEntryProduct(a: Matrix, v: seq<real>, i: nat, j: nat)
    requires IsConsistentWith(a, v) && Sum(v) > 0.0 && i < |v| && j < |v|
    ensures a[i][j] * Shares(v)[j] == Shares(v)[i]
  {
    ProductCancel(a[i][j], Shares(v)[i], Shares(v)[j], v[i], v[j], Sum(v));
  }

  /** Row `i` of consistent judgments, weighted by the scaled hidden scores,
      reproduces the weight of the row. */
  lemma {:induction false} ConsistentRowProducts(a: Matrix, v: seq<real>, i: nat)
    requires IsConsistentWith(a, v) && Sum(v) > 0.0 && i < |v|
    ensures forall j {:trigger a[i][j]} :: 0 <= j < |v| ==> a[i][j] * Shares(v)[j] == Shares(v)[i]
  {
    forall j | 0 <= j < |v|
      ensures a[i][j] * Shares(v)[j] == Shares(v)[i]
    {
      ConsistentEntryProduct(a, v, i, j);
    }
  }

  /** `w` is an exact eigenvector of `a` in the entry-wise sense: every
      judgment times the weight of its column gives the weight of its row. */
  predicate Reproduces(a: Matrix, w: seq<real>)
  {
    && IsSquare(a, |w|)
    && forall i, j {:trigger a[i][j]} :: 0 <= i < |w| && 0 <= j < |w| ==> a[i][j] * w[j] == w[i]
  }

  /** The same for every row. */
  lemma {:induction false} ConsistentProducts(a: Matrix, v: seq<real>)
    requires IsConsistentWith(a, v) && Sum(v) > 0.0
    ensures Reproduces(a, Shares(v))
  {
    forall i | 0 <= i < |v|
      ensures forall j {:trigger a[i][j]} :: 0 <= j < |v| ==> a[i][j] * Shares(v)[j] == Shares(v)[i]
    {
      ConsistentRowProducts(a, v, i);
    }
  }

  /** When every judgment times the weight of its column gives back the
      weight of its row, every ratio of the consistency check is `n`. */
  lemma {:induction false} ExactRatios(a: Matrix, w: seq<real>)
    requires Reproduces(a, w) && NonZero(w)
    ensures forall i :: 0 <= i < |w| ==> Ratios(a, w)[i] == |w| as real
  {
    var ws := WeightedSums(a, w);
    forall i | 0 <= i < |w|
      ensures Ratios(a, w)[i] == |w| as real
    {
      var p := Products(a[i], w);
      assert forall j :: 0 <= j < |w| ==> p[j] == w[i];
      SumConstant(p, w[i]);
      MultipleOver(ws[i], w[i], |w|);
    }
  }

  /** Weights that the judgments reproduce give a consistency index of zero. */
  lemma {:induction false} ExactWeightsHaveZeroIndex(a: Matrix, w: seq<real>)
    requires Reproduces(a, w) && NonZero(w) && |w| > 0
    ensures LambdaMax(a, w) == |w| as real
    ensures |w| >= 2 ==> ConsistencyIndex(a, w) == 0.0
    ensures 3 <= |w| <= 10 ==> ConsistencyRatio(a, w) == 0.0
    ensures 3 <= |w| <= 10 ==> Classify(ConsistencyRatio(a, w)) == Consistent
  {
    ExactRatios(a, w);
    MeanOfCopies(Ratios(a, w), |w|);
    ExactIndex(|w|);
  }

  /** Perfectly consistent judgments have lambda_max equal to the matrix size,
      hence a consistency index of zero and, for the sizes the table covers,
      a consistency ratio of zero and an acceptable verdict. */
  lemma {:induction false} ConsistentJudgmentsHaveZeroIndex(a: Matrix, v: seq<real>)
    requires IsConsistentWith(a, v) && |v| > 0
    ensures NonZeroColumns(a, |v|)
    ensures NonZero(PriorityVector(a, |v|))
    ensures 3 <= |v| <= 10 ==>
      var ratio := ConsistencyRatio(a, PriorityVector(a, |v|)); ratio == 0.0 && Classify(ratio) == Consistent
    ensures LambdaMax(a, PriorityVector(a, |v|)) == |v| as real
    ensures |v| >= 2 ==> ConsistencyIndex(a, PriorityVector(a, |v|)) == 0.0
  {
    ConsistentPriorityVector(a, v);
    SharesNonZero(v);
    ConsistentProducts(a, v);
    var w := Shares(v);
    assert PriorityVector(a, |v|) == w && |w| == |v|;
    ExactWeightsHaveZeroIndex(a, w);
  }

  /** A matrix of all-ones judgments gives every criterion the weight 1/n. */
  lemma {:induction false} UniformWeights(a: Matrix, n: nat)
    requires IsSquare(a, n) && n > 0
    requires forall r, c :: 0 <= r < n && 0 <= c < n ==> a[r][c] == 1.0
    ensures NonZeroColumns(a, n)
    ensures forall r :: 0 <= r < n ==> PriorityVector(a, n)[r] == 1.0 / n as real
  {
    var ones := seq(n, i requires 0 <= i < n => 1.0);
    assert IsConsistentWith(a, ones);
    SumOnes(ones);
    ConsistentPriorityVector(a, ones);
    var w := Shares(ones);
    forall r | 0 <= r < n
      ensures w[r] == 1.0 / n as real
    {
      assert w[r] == ones[r] / Sum(ones);
    }
  }

  /** All-ones judgments are perfectly consistent: lambda_max = n, a
      consistency index of zero and, for the sizes the table covers, a
      consistency ratio of zero and an acceptable verdict. */
  lemma {:induction false} UniformJudgments(a: Matrix, n: nat)
    requires IsSquare(a, n) && n > 0
    requires forall r, c :: 0 <= r < n && 0 <= c < n ==> a[r][c] == 1.0
    ensures NonZeroColumns(a, n)
    ensures NonZero(PriorityVector(a, n))
    ensures 3 <= n <= 10 ==>
      var ratio := ConsistencyRatio(a, PriorityVector(a, n)); ratio == 0.0 && Classify(ratio) == Consistent
    ensures LambdaMax(a, PriorityVector(a, n)) == n as real
    ensures n >= 2 ==> ConsistencyIndex(a, PriorityVector(a, n)) == 0.0
  {
    var ones := OnesReproduceAllOnes(a, n);
    ConsistentJudgmentsHaveZeroIndex(a, ones);
  }

  /** All-ones judgments are consistent with equal scores of one. */
  lemma {:induction false} OnesReproduceAllOnes(a: Matrix, n: nat) returns (ones: seq<real>)
    requires IsSquare(a, n)
    requires forall r, c :: 0 <= r < n && 0 <= c < n ==> a[r][c] == 1.0
    ensures |ones| == n && IsConsistentWith(a, ones)
  {
    ones := seq(n, i requires 0 <= i < n => 1.0);
  }
}
