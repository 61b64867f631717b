/** Strategy A, the alternative scoring of `show_recommendation` in
    src/main.py: every row of the decision matrix is divided by its own
    total, weighted by the criteria weights, and the weighted scores are
    divided by their total before the alternatives are ranked. */
module DirectScoring {
  import opened RealSums
  import opened Matrices
  import opened Results
  import opened Ranking

  /** The row can be divided by its total: it is empty (nothing is divided)
      or its total is non-zero. */
  predicate RowDivisible(row: seq<real>)
  {
    row == [] || Sum(row) != 0.0
  }

  predicate Divisible(d: Matrix)
  {
    forall r :: 0 <= r < |d| ==> RowDivisible(d[r])
  }

  /** A decision row divided by its own total. */
  function NormalizeRow(row: seq<real>): (nr: seq<real>)
    requires RowDivisible(row)
    ensures |nr| == |row|
  {
    if row == [] then [] else Shares(row)
  }

  /** The weighted score of one alternative: its normalised ratings times the
      criteria weights, paired up as `zip` pairs them. */
  function RowScore(row: seq<real>, weights: seq<real>): real
    requires RowDivisible(row)
  {
    Sum(Products(NormalizeRow(row), weights))
  }

  function WeightedScores(d: Matrix, weights: seq<real>): (ws: seq<real>)
    requires Divisible(d)
    ensures |ws| == |d|
    ensures forall r :: 0 <= r < |d| ==> ws[r] == RowScore(d[r], weights)
  {
    seq(|d|, r requires 0 <= r < |d| => RowScore(d[r], weights))
  }

  /** The overall priorities of the alternatives: the weighted scores divided
      by their total. A row with a zero total, or a zero total of the weighted
      scores, is a division by zero. */
  function DirectPriorities(d: Matrix, weights: seq<real>): (r: Result<seq<real>>)
    ensures r.Ok? <==> Divisible(d) && (d == [] || Sum(WeightedScores(d, weights)) != 0.0)
    ensures r.Err? ==> r.error == DivisionByZero
    ensures r.Ok? ==> |r.value| == |d|
  {
    if !Divisible(d) then Err(DivisionByZero)
    else
      var ws := WeightedScores(d, weights);
      if ws == [] then Ok([])
      else if Sum(ws) == 0.0 then Err(DivisionByZero)
      else Ok(Shares(ws))
  }

  /** The alternatives paired with their priorities, ranked. */
  function DirectRanking(alternatives: seq<string>, d: Matrix, weights: seq<real>): (r: Result<seq<Entry>>)
    ensures r.Ok? <==> DirectPriorities(d, weights).Ok?
    ensures r.Err? ==> r.error == DivisionByZero
    ensures r.Ok? ==> IsStableRanking(r.value, Zip(alternatives, DirectPriorities(d, weights).value))
  {
    match DirectPriorities(d, weights)
    case Err(e) => Err(e)
    case Ok(p) =>
      SortIsStableRanking(Zip(alternatives, p));
      Ok(SortDescending(Zip(alternatives, p)))
  }

  /** Every normalised non-empty decision row sums to 1. */
  lemma {:induction false} NormalizedRowSumsToOne(row: seq<real>)
    requires row != [] && RowDivisible(row)
    ensures Sum(NormalizeRow(row)) == 1.0
  {
    SharesSumToOne(row);
  }

  /** The overall priorities of a non-empty decision matrix sum to 1. */
  lemma {:induction false} PrioritiesSumToOne(d: Matrix, weights: seq<real>)
    requires DirectPriorities(d, weights).Ok? && d != []
    ensures Sum(DirectPriorities(d, weights).value) == 1.0
  {
    SharesSumToOne(WeightedScores(d, weights));
  }

  predicate NonNegativeEntries(d: Matrix)
  {
    forall r, c :: 0 <= r < |d| && 0 <= c < |d[r]| ==> d[r][c] >= 0.0
  }

  predicate NonNegative(s: seq<real>)
  {
    forall i :: 0 <= i < |s| ==> s[i] >= 0.0
  }

  /** A quotient of a non-negative number by a positive one is non-negative. */
  lemma {:induction false} QuotientNonNegative(a: real, b: real)
    requires a >= 0.0 && b > 0.0
    ensures a / b >= 0.0
  {
  }

  /** A part of a positive total is at most 1. */
  lemma {:induction false} PartAtMostOne(a: real, b: real)
    requires 0.0 <= a <= b && b > 0.0
    ensures 0.0 <= a / b <= 1.0
  {
  }

  /** A non-negative row, normalised, has non-negative entries. */
  lemma {:induction false} NormalizedRowNonNegative(row: seq<real>)
    requires NonNegative(row) && RowDivisible(row)
    ensures NonNegative(NormalizeRow(row))
  {
    if row != [] {
      SumNonNegative(row);
      forall i | 0 <= i < |row|
        ensures NormalizeRow(row)[i] >= 0.0
      {
        QuotientNonNegative(row[i], Sum(row));
      }
    }
  }

  /** Non-negative ratings and weights give a non-negative weighted score. */
  lemma {:induction false} RowScoreNonNegative(row: seq<real>, weights: seq<real>)
    requires NonNegative(row) && NonNegative(weights) && RowDivisible(row)
    ensures RowScore(row, weights) >= 0.0
  {
    NormalizedRowNonNegative(row);
    var p := Products(NormalizeRow(row), weights);
    forall k | 0 <= k < |p|
      ensures p[k] >= 0.0
    {
    }
    SumNonNegative(p);
  }

  /** With non-negative ratings and weights every overall priority lies
      between 0 and 1. */
  lemma {:induction false} PrioritiesBounded(d: Matrix, weights: seq<real>)
    requires NonNegativeEntries(d) && NonNegative(weights)
    requires DirectPriorities(d, weights).Ok?
    ensures forall i :: 0 <= i < |d| ==> 0.0 <= DirectPriorities(d, weights).value[i] <= 1.0
  {
    if d != [] {
      var ws := WeightedScores(d, weights);
      forall r | 0 <= r < |d|
        ensures ws[r] >= 0.0
      {
        assert NonNegative(d[r]);
        RowScoreNonNegative(d[r], weights);
      }
      SumNonNegative(ws);
      forall i | 0 <= i < |d|
        ensures 0.0 <= DirectPriorities(d, weights).value[i] <= 1.0
      {
        PartAtMostOne(ws[i], Sum(ws));
      }
    }
  }

  /** Row `r` of `d` multiplied by the factor `k`. */
  function ScaleRow(d: Matrix, r: nat, k: real): (e: Matrix)
    requires r < |d|
    ensures |e| == |d| && |e[r]| == |d[r]|
    ensures forall i :: 0 <= i < |d| && i != r ==> e[i] == d[i]
    ensures forall c :: 0 <= c < |d[r]| ==> e[r][c] == k * d[r][c]
  {
    d[r := seq(|d[r]|, c requires 0 <= c < |d[r]| => k * d[r][c])]
  }

  /** Scaling a row by a non-zero factor does not change it once normalised. */
  lemma {:induction false} NormalizeRowScaled(row: seq<real>, scaled: seq<real>, k: real)
    requires k != 0.0 && RowDivisible(row) && |scaled| == |row|
    requires forall c :: 0 <= c < |row| ==> scaled[c] == k * row[c]
    ensures RowDivisible(scaled) && NormalizeRow(scaled) == NormalizeRow(row)
  {
    if row != [] {
      var total := Sum(row);
      SumScaled(row, scaled, k);
      forall c | 0 <= c < |row|
        ensures NormalizeRow(scaled)[c] == NormalizeRow(row)[c]
      {
        QuotientCancelFactor(row[c], total, scaled[c], Sum(scaled), k);
      }
    }
  }

  /** A common non-zero factor cancels from a quotient. */
  lemma {:induction false} QuotientCancelFactor(a: real, b: real, ka: real, kb: real, k: real)
    requires b != 0.0 && k != 0.0 && ka == k * a && kb == k * b
    ensures kb != 0.0 && ka / kb == a / b
  {
  }

  /** Rating one alternative on a different scale (every rating of its row
      multiplied by the same non-zero factor) changes no priority. */
  lemma {:induction false} PrioritiesScaleInvariant(d: Matrix, weights: seq<real>, r: nat, k: real)
    requires r < |d| && k != 0.0
    ensures DirectPriorities(ScaleRow(d, r, k), weights) == DirectPriorities(d, weights)
  {
    var e := ScaleRow(d, r, k);
    ScaledRowDivisible(d[r], e[r], k);
    assert Divisible(e) <==> Divisible(d) by {
      forall i | 0 <= i < |d|
        ensures RowDivisible(e[i]) <==> RowDivisible(d[i])
      {
        if i != r {
          assert e[i] == d[i];
        }
      }
    }
    if Divisible(d) {
      forall i | 0 <= i < |d|
        ensures WeightedScores(e, weights)[i] == WeightedScores(d, weights)[i]
      {
        if i != r {
          assert e[i] == d[i];
        }
      }
      assert WeightedScores(e, weights) == WeightedScores(d, weights);
    }
  }

  /** A row scaled by a non-zero factor can be divided by its total exactly
      when the original can, and then normalises to the same shares. */
  lemma {:induction false} ScaledRowDivisible(row: seq<real>, scaled: seq<real>, k: real)
    requires k != 0.0 && |scaled| == |row|
    requires forall c :: 0 <= c < |row| ==> scaled[c] == k * row[c]
    ensures RowDivisible(scaled) <==> RowDivisible(row)
    ensures RowDivisible(row) ==> NormalizeRow(scaled) == NormalizeRow(row)
  {
    if RowDivisible(row) {
      NormalizeRowScaled(row, scaled, k);
    } else {
      SumScaled(row, scaled, k);
    }
  }

  /** Ratings 2 and 4 under equal weights score 0.5: the row normalises to
      (1/3, 2/3). */
  lemma {:induction false} DirectScoreExample()
    ensures RowDivisible([2.0, 4.0])
    ensures NormalizeRow([2.0, 4.0]) == [1.0 / 3.0, 2.0 / 3.0]
    ensures RowScore([2.0, 4.0], [0.5, 0.5]) == 0.5
  {
    var row := [2.0, 4.0];
    assert row[..1] == [2.0] && [2.0][..0] == [];
    assert Sum(row) == 6.0;
    var p := Products(NormalizeRow(row), [0.5, 0.5]);
    assert p == [1.0 / 6.0, 2.0 / 6.0];
    assert p[..1] == [1.0 / 6.0] && [1.0 / 6.0][..0] == [];
  }
}
