/** The sub-criteria scoring of src/AHP.py (Strategy B): a rank-ratio
    comparison matrix whose priority vector scores an ordinal rating 1..4,
    and the weighted sum of those scores per alternative. */
module SubCriteria {
  import opened RealSums
  import opened Matrices
  import opened Results
  import opened Ranking

  /** The rank-ratio judgments: rank `r` against rank `c` is `(c + 1) / (r + 1)`. */
  function RankMatrix(n: nat): (m: Matrix)
    ensures IsSquare(m, n)
  {
    seq(n, r requires 0 <= r < n => seq(n, c requires 0 <= c < n => (c + 1) as real / (r + 1) as real))
  }

  /** The hidden score of rank `k` is `1 / (k + 1)`. */
  function Reciprocals(n: nat): (v: seq<real>)
    ensures |v| == n
    ensures forall k :: 0 <= k < n ==> v[k] > 0.0
  {
    seq(n, k requires 0 <= k < n => 1.0 / (k + 1) as real)
  }

  /** The closed form of the sub-criteria priority vector:
      `(1 / (r + 1)) / (1 + 1/2 + ... + 1/n)`. */
  function RankWeights(n: nat): (w: seq<real>)
    ensures |w| == n
  {
    if n == 0 then []
    else
      SumPositive(Reciprocals(n));
      Shares(Reciprocals(n))
  }

  /** `b / a` written as a ratio of reciprocals. */
  lemma {:induction false} RatioOfReciprocals(a: real, b: real)
    requires a > 0.0 && b > 0.0
    ensures b / a == (1.0 / a) / (1.0 / b)
  {
  }

  /** The rank-ratio matrix is perfectly consistent with the reciprocal scores. */
  lemma {:induction false} RankMatrixConsistent(n: nat)
    ensures IsConsistentWith(RankMatrix(n), Reciprocals(n))
  {
    var m, v := RankMatrix(n), Reciprocals(n);
    forall i, j | 0 <= i < n && 0 <= j < n
      ensures m[i][j] == v[i] / v[j]
    {
      RatioOfReciprocals((i + 1) as real, (j + 1) as real);
    }
  }

  /** The priority vector of the rank-ratio matrix is the closed form. */
  lemma {:induction false} RankWeightsClosedForm(n: nat)
    ensures NonZeroColumns(RankMatrix(n), n)
    ensures PriorityVector(RankMatrix(n), n) == RankWeights(n)
  {
    if n > 0 {
      RankMatrixConsistent(n);
      ConsistentPriorityVector(RankMatrix(n), Reciprocals(n));
    }
  }

  /** The rank weights are positive and sum to 1. */
  lemma {:induction false} RankWeightsDistribution(n: nat)
    requires n > 0
    ensures Sum(RankWeights(n)) == 1.0
    ensures forall r :: 0 <= r < n ==> RankWeights(n)[r] > 0.0
  {
    SumPositive(Reciprocals(n));
    SharesSumToOne(Reciprocals(n));
    forall r | 0 <= r < n
      ensures RankWeights(n)[r] > 0.0
    {
      QuotientPositive(Reciprocals(n)[r], Sum(Reciprocals(n)));
    }
  }

  /** Dividing by a positive number keeps a strict order. */
  lemma {:induction false} QuotientStrictlyMonotone(a: real, b: real, s: real)
    requires a > b && s > 0.0
    ensures a / s > b / s
  {
  }

  /** Reciprocals of positive numbers reverse their order. */
  lemma {:induction false} ReciprocalDecreasing(a: real, b: real)
    requires 0.0 < a < b
    ensures 1.0 / a > 1.0 / b
  {
  }

  /** A better (lower) rank always weighs strictly more. */
  lemma {:induction false} RankWeightsDecreasing(n: nat)
    ensures forall i, j :: 0 <= i < j < n ==> RankWeights(n)[i] > RankWeights(n)[j]
  {
    if n > 0 {
      var v := Reciprocals(n);
      SumPositive(v);
      forall i, j | 0 <= i < j < n
        ensures RankWeights(n)[i] > RankWeights(n)[j]
      {
        ReciprocalDecreasing((i + 1) as real, (j + 1) as real);
        QuotientStrictlyMonotone(v[i], v[j], Sum(v));
      }
    }
  }

  /** For four ranks: 1 + 1/2 + 1/3 + 1/4 = 25/12, so the weights are
      12/25, 6/25, 4/25 and 3/25. */
  lemma {:induction false} RankWeightsOfFour()
    ensures RankWeights(4) == FourRankWeights
  {
    var v := Reciprocals(4);
    assert v == [1.0, 1.0 / 2.0, 1.0 / 3.0, 1.0 / 4.0];
    assert v[..1][..0] == [];
    assert Sum(v[..1]) == 1.0;
    assert v[..2][..1] == v[..1];
    assert Sum(v[..2]) == 3.0 / 2.0;
    assert v[..3][..2] == v[..2];
    assert Sum(v[..3]) == 11.0 / 6.0;
    assert v[..3] == v[..|v| - 1];
    assert Sum(v) == 25.0 / 12.0;
    var w := RankWeights(4);
    assert w[0] == 1.0 / (25.0 / 12.0) && w[1] == (1.0 / 2.0) / (25.0 / 12.0);
    assert w[2] == (1.0 / 3.0) / (25.0 / 12.0) && w[3] == (1.0 / 4.0) / (25.0 / 12.0);
  }

  /** The priority vector of four ranks, as `RankWeightsOfFour` computes it. */
  const FourRankWeights: seq<real> := [12.0 / 25.0, 6.0 / 25.0, 4.0 / 25.0, 3.0 / 25.0]

  /** The five sub-criteria vectors used by the recommendation, one per
      criterion, each the priority vector of four ranks. */
  function SubVectors(): (sub: seq<seq<real>>)
    ensures |sub| == 5 && forall i :: 0 <= i < 5 ==> sub[i] == FourRankWeights
  {
    seq(5, _ => FourRankWeights)
  }

  /** `i` is a valid Python list index for a list of `len` items; negative
      indices count from the end. */
  predicate IndexInRange(i: int, len: nat)
  {
    -(len as int) <= i < len
  }

  /** Python's `v[i]`. */
  function Pick(v: seq<real>, i: int): (x: real)
    requires IndexInRange(i, |v|)
    ensures x in v
    ensures i >= 0 ==> x == v[i]
    ensures i < 0 ==> x == v[|v| + i]
  {
    if i >= 0 then v[i] else v[|v| + i]
  }

  /** The rating of alternative `row` on criterion `col` exists and names an
      entry of the sub-criteria vector of `col` (the index is rating - 1). */
  predicate Rated(decision: seq<seq<int>>, sub: seq<seq<real>>, row: nat, col: nat)
  {
    && row < |decision| && col < |decision[row]| && col < |sub|
    && IndexInRange(decision[row][col] - 1, |sub[col]|)
  }

  predicate AllRated(decision: seq<seq<int>>, sub: seq<seq<real>>, alternatives: nat, criteria: nat)
  {
    forall row, col :: 0 <= row < alternatives && 0 <= col < criteria ==> Rated(decision, sub, row, col)
  }

  /** The weighted sub-criteria score of alternative `row` on criterion `col`:
      the entry its rating selects, times the weight of the criterion. */
  function Term(decision: seq<seq<int>>, sub: seq<seq<real>>, weights: seq<real>, row: nat, col: nat): real
    requires Rated(decision, sub, row, col) && col < |weights|
  {
    Pick(sub[col], decision[row][col] - 1) * weights[col]
  }

  /** The weighted sub-criteria scores of alternative `row` on every criterion. */
  function Terms(decision: seq<seq<int>>, sub: seq<seq<real>>, weights: seq<real>, row: nat): (t: seq<real>)
    requires forall col :: 0 <= col < |weights| ==> Rated(decision, sub, row, col)
    ensures |t| == |weights|
    ensures forall col :: 0 <= col < |weights| ==> t[col] == Term(decision, sub, weights, row, col)
  {
    seq(|weights|, col requires 0 <= col < |weights| => Term(decision, sub, weights, row, col))
  }

  /** The score of each of the first `alternatives` rows of the decision
      matrix: the sum of its weighted sub-criteria scores. A missing rating,
      a criterion without a sub-criteria vector, or a rating outside the
      indices of that vector is an index error. */
  function AlternativeScores(decision: seq<seq<int>>, sub: seq<seq<real>>, weights: seq<real>, alternatives: nat): (r: Result<seq<real>>)
    ensures r.Ok? <==> AllRated(decision, sub, alternatives, |weights|)
    ensures r.Err? ==> r.error == IndexOutOfRange
    ensures r.Ok? ==> |r.value| == alternatives
  {
    if AllRated(decision, sub, alternatives, |weights|) then
      Ok(seq(alternatives, row requires 0 <= row < alternatives => Sum(Terms(decision, sub, weights, row))))
    else Err(IndexOutOfRange)
  }

  /** The alternatives paired with their scores, ranked. */
  function SubCriteriaRanking(alternatives: seq<string>, decision: seq<seq<int>>, weights: seq<real>): (r: Result<seq<Entry>>)
    ensures r.Ok? <==> AllRated(decision, SubVectors(), |alternatives|, |weights|)
    ensures r.Err? ==> r.error == IndexOutOfRange
    ensures r.Ok? ==> IsStableRanking(r.value, Zip(alternatives, AlternativeScores(decision, SubVectors(), weights, |alternatives|).value))
  {
    match AlternativeScores(decision, SubVectors(), weights, |alternatives|)
    case Err(e) => Err(e)
    case Ok(s) =>
      SortIsStableRanking(Zip(alternatives, s));
      Ok(SortDescending(Zip(alternatives, s)))
  }

  /** Every entry picked from a sub-criteria vector lies in [3/25, 12/25]. */
  lemma {:induction false} PickBounds(i: int)
    requires IndexInRange(i, 4)
    ensures 3.0 / 25.0 <= Pick(FourRankWeights, i) <= 12.0 / 25.0
  {
  }

  /** Bounds on one weighted term. */
  lemma {:induction false} TermBounds(x: real, w: real)
    requires 3.0 / 25.0 <= x <= 12.0 / 25.0 && w >= 0.0
    ensures 3.0 / 25.0 * w <= x * w <= 12.0 / 25.0 * w
  {
  }

  /** One weighted term lies between 3/25 and 12/25 of its weight. */
  lemma {:induction false} TermBounded(decision: seq<seq<int>>, weights: seq<real>, row: nat, c: nat)
    requires c < |weights| && weights[c] >= 0.0
    requires Rated(decision, SubVectors(), row, c)
    ensures 3.0 / 25.0 * weights[c] <= Term(decision, SubVectors(), weights, row, c) <= 12.0 / 25.0 * weights[c]
  {
    var x := Pick(FourRankWeights, decision[row][c] - 1);
    PickBounds(decision[row][c] - 1);
    TermBounds(x, weights[c]);
  }

  /** With non-negative criteria weights summing to 1, the score of one
      alternative lies between 3/25 and 12/25. */
  lemma {:induction false} RowScoreBounded(decision: seq<seq<int>>, weights: seq<real>, row: nat)
    requires forall c :: 0 <= c < |weights| ==> weights[c] >= 0.0
    requires Sum(weights) == 1.0
    requires forall c :: 0 <= c < |weights| ==> Rated(decision, SubVectors(), row, c)
    ensures 3.0 / 25.0 <= Sum(Terms(decision, SubVectors(), weights, row)) <= 12.0 / 25.0
  {
    var t := Terms(decision, SubVectors(), weights, row);
    forall c | 0 <= c < |weights|
      ensures 3.0 / 25.0 * weights[c] <= t[c] <= 12.0 / 25.0 * weights[c]
    {
      TermBounded(decision, weights, row, c);
    }
    SumBetween(t, weights, 3.0 / 25.0, 12.0 / 25.0);
  }

  /** With non-negative criteria weights summing to 1, every score lies
      between the weight of the worst rank, 3/25, and that of the best, 12/25. */
  lemma {:induction false} ScoresBounded(decision: seq<seq<int>>, weights: seq<real>, alternatives: nat)
    requires forall c :: 0 <= c < |weights| ==> weights[c] >= 0.0
    requires Sum(weights) == 1.0
    requires AlternativeScores(decision, SubVectors(), weights, alternatives).Ok?
    ensures forall row :: 0 <= row < alternatives ==>
      3.0 / 25.0 <= AlternativeScores(decision, SubVectors(), weights, alternatives).value[row] <= 12.0 / 25.0
  {
    forall row | 0 <= row < alternatives
      ensures 3.0 / 25.0 <= Sum(Terms(decision, SubVectors(), weights, row)) <= 12.0 / 25.0
    {
      RowScoreBounded(decision, weights, row);
    }
  }

  /** The decision matrix with the rating of `row` on `col` replaced. */
  function Rerate(decision: seq<seq<int>>, row: nat, col: nat, rating: int): (d: seq<seq<int>>)
    requires row < |decision| && col < |decision[row]|
    ensures |d| == |decision| && |d[row]| == |decision[row]|
    ensures forall i :: 0 <= i < |d| && i != row ==> d[i] == decision[i]
    ensures forall c :: 0 <= c < |d[row]| && c != col ==> d[row][c] == decision[row][c]
    ensures d[row][col] == rating
  {
    decision[row := decision[row][col := rating]]
  }

  /** A better (lower) rating on a criterion of positive weight strictly
      raises the score of the alternative. */
  lemma {:induction false} BetterRatingRaisesScore(decision: seq<seq<int>>, weights: seq<real>, alternatives: nat,
                                                   row: nat, col: nat, rating: int)
    requires AlternativeScores(decision, SubVectors(), weights, alternatives).Ok?
    requires row < alternatives && col < |weights| && weights[col] > 0.0
    requires row < |decision| && col < |decision[row]| && 1 <= rating < decision[row][col] <= 4
    ensures AlternativeScores(Rerate(decision, row, col, rating), SubVectors(), weights, alternatives).Ok?
    ensures AlternativeScores(Rerate(decision, row, col, rating), SubVectors(), weights, alternatives).value[row]
      > AlternativeScores(decision, SubVectors(), weights, alternatives).value[row]
  {
    var sub := SubVectors();
    assert Rated(decision, sub, row, col);
    var d := Rerate(decision, row, col, rating);
    forall i, c | 0 <= i < alternatives && 0 <= c < |weights|
      ensures Rated(d, sub, i, c)
    {
      assert Rated(decision, sub, i, c);
    }
    var t, t' := Terms(decision, sub, weights, row), Terms(d, sub, weights, row);
    forall c | 0 <= c < |weights|
      ensures t[c] <= t'[c]
    {
      assert Rated(decision, sub, row, c);
    }
    assert t[col] < t'[col];
    SumStrictlyMonotone(t, t', col);
  }

  /** Cell by cell, a rating of 0 and a rating of 4 in place (`row`, `col`)
      are rated alike and score alike when every sub-criteria vector has
      four entries. */
  lemma {:induction false} ZeroRatingCell(decision: seq<seq<int>>, sub: seq<seq<real>>, weights: seq<real>,
                                          row: nat, col: nat, i: nat, c: nat)
    requires row < |decision| && col < |decision[row]|
    requires forall k :: 0 <= k < |sub| ==> |sub[k]| == 4
    ensures Rated(Rerate(decision, row, col, 0), sub, i, c) <==> Rated(Rerate(decision, row, col, 4), sub, i, c)
    ensures Rated(Rerate(decision, row, col, 0), sub, i, c) && c < |weights| ==>
      Term(Rerate(decision, row, col, 0), sub, weights, i, c) == Term(Rerate(decision, row, col, 4), sub, weights, i, c)
  {
    var d0, d4 := Rerate(decision, row, col, 0), Rerate(decision, row, col, 4);
    if i == row && c == col {
      assert d0[i][c] - 1 == -1 && d4[i][c] - 1 == 3;
      if c < |sub| {
        assert |sub[c]| == 4;
        assert Pick(sub[c], -1) == Pick(sub[c], 3);
      }
    } else if i == row && c < |d0[row]| {
      assert d0[i][c] == d4[i][c];
    } else if i != row && i < |d0| {
      assert d0[i] == d4[i];
    }
  }

  /** A rating of 0 is not rejected: its index -1 wraps to the last entry,
      so it scores exactly as the worst rating, 4. */
  lemma {:induction false} ZeroRatingScoresAsFour(decision: seq<seq<int>>, weights: seq<real>, alternatives: nat,
                                                  row: nat, col: nat)
    requires row < |decision| && col < |decision[row]|
    ensures AlternativeScores(Rerate(decision, row, col, 0), SubVectors(), weights, alternatives)
      == AlternativeScores(Rerate(decision, row, col, 4), SubVectors(), weights, alternatives)
  {
    var sub := SubVectors();
    var d0, d4 := Rerate(decision, row, col, 0), Rerate(decision, row, col, 4);
    assert forall k :: 0 <= k < |sub| ==> |sub[k]| == 4;
    forall i, c | 0 <= i < alternatives && 0 <= c < |weights|
      ensures Rated(d0, sub, i, c) <==> Rated(d4, sub, i, c)
    {
      ZeroRatingCell(decision, sub, weights, row, col, i, c);
    }
    assert AllRated(d0, sub, alternatives, |weights|) <==> AllRated(d4, sub, alternatives, |weights|);
    if AllRated(d0, sub, alternatives, |weights|) {
      forall i | 0 <= i < alternatives
        ensures Terms(d0, sub, weights, i) == Terms(d4, sub, weights, i)
      {
        forall c | 0 <= c < |weights|
          ensures Term(d0, sub, weights, i, c) == Term(d4, sub, weights, i, c)
        {
          ZeroRatingCell(decision, sub, weights, row, col, i, c);
        }
      }
      var s0 := AlternativeScores(d0, sub, weights, alternatives).value;
      var s4 := AlternativeScores(d4, sub, weights, alternatives).value;
      assert forall i :: 0 <= i < alternatives ==> s0[i] == s4[i];
      assert s0 == s4;
    } else {
      assert !AllRated(d4, sub, alternatives, |weights|);
    }
  }

  /** `__mpc_sub_criteria(length)`: fills the rank-ratio matrix, totals its
      columns, divides it in place by those totals and averages each row as
      soon as that row is divided. */
  method MpcSubCriteria(length: nat) returns (weights: seq<real>)
    ensures NonZeroColumns(RankMatrix(length), length)
    ensures weights == PriorityVector(RankMatrix(length), length)
    ensures weights == RankWeights(length)
  {
    RankWeightsClosedForm(length);
    var subMpc := new real[length, length];
    FillRankMatrix(subMpc);
    weights := PriorityVectorInPlace(subMpc);
  }

  /** The last two loops of `__mpc_sub_criteria`, on the filled matrix:
      column totals from zero, then each row divided in place and averaged. */
  method PriorityVectorInPlace(a: array2<real>) returns (weights: seq<real>)
    requires a.Length0 == a.Length1 && NonZeroColumns(Grid(a), a.Length0)
    modifies a
    ensures weights == PriorityVector(old(Grid(a)), a.Length0)
  {
    var n := a.Length0;
    ghost var m := Grid(a);
    var subSum := new real[n](_ => 0.0);
    var subWeights := new real[n](_ => 0.0);
    TotalColumns(a, subSum);
    assert subSum[..] == ColumnSums(m, n);
    NormalizeAndAverage(a, subSum[..], subWeights);
    weights := subWeights[..];
  }

  /** The first loop of `__mpc_sub_criteria`: entry (row, col) becomes
      `(col + 1) / (row + 1)`. */
  method FillRankMatrix(a: array2<real>)
    requires a.Length0 == a.Length1
    modifies a
    ensures Grid(a) == RankMatrix(a.Length0)
  {
    var n := a.Length0;
    ghost var m := RankMatrix(n);
    for row := 0 to n
      invariant forall r, c :: 0 <= r < row && 0 <= c < n ==> a[r, c] == m[r][c]
    {
      for col := 0 to n
        invariant forall r, c :: 0 <= r < row && 0 <= c < n ==> a[r, c] == m[r][c]
        invariant forall c :: 0 <= c < col ==> a[row, c] == m[row][c]
      {
        a[row, col] := (col + 1) as real / (row + 1) as real;
      }
    }
    assert forall r :: 0 <= r < n ==> RowOf(a, r) == m[r];
  }

  /** The column-total loop of `__mpc_sub_criteria`: each column is added,
      top to bottom, onto its running total. */
  method TotalColumns(a: array2<real>, sums: array<real>)
    requires a.Length1 == sums.Length
    modifies sums
    ensures forall c :: 0 <= c < sums.Length ==> sums[c] == old(sums[c]) + Sum(Column(Grid(a), c))
  {
    for col := 0 to a.Length1
      invariant forall c :: 0 <= c < col ==> sums[c] == old(sums[c]) + Sum(Column(Grid(a), c))
      invariant forall c :: col <= c < sums.Length ==> sums[c] == old(sums[c])
    {
      AccumulateColumn(a, sums, col);
    }
  }

  /** The inner loop of the column-total loop: `sums[col] += a[row, col]`
      for every row in turn. */
  method AccumulateColumn(a: array2<real>, sums: array<real>, col: nat)
    requires col < a.Length1 == sums.Length
    modifies sums
    ensures sums[col] == old(sums[col]) + Sum(Column(Grid(a), col))
    ensures forall c :: 0 <= c < sums.Length && c != col ==> sums[c] == old(sums[c])
  {
    ghost var column := Column(Grid(a), col);
    assert forall r :: 0 <= r < a.Length0 ==> column[r] == a[r, col];
    for row := 0 to a.Length0
      invariant sums[col] == old(sums[col]) + Sum(column[..row])
      invariant forall c :: 0 <= c < sums.Length && c != col ==> sums[c] == old(sums[c])
    {
      SumPrefixStep(column, row);
      sums[col] := sums[col] + a[row, col];
    }
    assert column[..a.Length0] == column;
  }

  /** The last loop of `__mpc_sub_criteria`: each row is divided in place by
      the column totals, then averaged into its weight. */
  method NormalizeAndAverage(a: array2<real>, sums: seq<real>, weights: array<real>)
    requires a.Length0 == a.Length1 == |sums| == weights.Length && NonZero(sums)
    modifies a, weights
    ensures Grid(a) == NormalizeBy(old(Grid(a)), sums)
    ensures weights[..] == RowAverages(Grid(a))
  {
    var n := a.Length0;
    ghost var m := Grid(a);
    ghost var nm := NormalizeBy(m, sums);
    for row := 0 to n
      invariant forall r, c :: 0 <= r < row && 0 <= c < n ==> a[r, c] == nm[r][c]
      invariant forall r, c :: row <= r < n && 0 <= c < n ==> a[r, c] == m[r][c]
      invariant forall r :: 0 <= r < row ==> weights[r] == Sum(nm[r]) / n as real
    {
      DivideRow(a, row, sums);
      assert RowOf(a, row) == nm[row];
      weights[row] := Sum(RowOf(a, row)) / n as real;
    }
    assert forall r :: 0 <= r < n ==> RowOf(a, r) == nm[r];
  }

  /** The inner loop of the last loop of `__mpc_sub_criteria`: row `row` is
      divided in place, entry by entry, by the column totals. */
  method DivideRow(a: array2<real>, row: nat, sums: seq<real>)
    requires row < a.Length0 && a.Length1 == |sums| && NonZero(sums)
    modifies a
    ensures forall r, c :: 0 <= r < a.Length0 && r != row && 0 <= c < a.Length1 ==> a[r, c] == old(a[r, c])
    ensures forall c :: 0 <= c < a.Length1 ==> a[row, c] == old(a[row, c]) / sums[c]
  {
    for col := 0 to a.Length1
      invariant forall r, c :: 0 <= r < a.Length0 && r != row && 0 <= c < a.Length1 ==> a[r, c] == old(a[r, c])
      invariant forall c :: 0 <= c < col ==> a[row, c] == old(a[row, c]) / sums[c]
      invariant forall c :: col <= c < a.Length1 ==> a[row, c] == old(a[row, c])
    {
      a[row, col] := a[row, col] / sums[col];
    }
  }

  /** `__calculate_sub_criteria_priority_vector`: five sub-criteria vectors
      of four ranks, one per criterion. */
  method CalculateSubCriteriaPriorityVector() returns (allSub: seq<seq<real>>)
    ensures allSub == SubVectors()
    ensures NonZeroColumns(RankMatrix(4), 4)
    ensures forall k :: 0 <= k < 5 ==> allSub[k] == PriorityVector(RankMatrix(4), 4)
  {
    allSub := [];
    for i := 0 to 5
      invariant |allSub| == i
      invariant forall k :: 0 <= k < i ==> allSub[k] == RankWeights(4)
    {
      var v := MpcSubCriteria(4);
      allSub := allSub + [v];
    }
    RankWeightsOfFour();
    RankWeightsClosedForm(4);
  }
}
