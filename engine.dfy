/** The `AHP` class: the pairwise judgments of the criteria, the column
    totals, the normalised matrix, the criteria weights and the consistency
    figures it fills in place, and the two recommendation strategies
    (src/main.py scores alternatives directly, src/AHP.py through
    sub-criteria vectors). The pipeline the two files share is modelled once. */
module AhpEngine {
  import opened RealSums
  import opened Matrices
  import opened Results
  import opened Consistency
  import opened Ranking
  import opened DirectScoring
  import opened SubCriteria

  /** The position of the first zero in `s`. */
  function FirstZero(s: seq<real>): (k: nat)
    requires !NonZero(s)
    ensures k < |s| && s[k] == 0.0
    ensures forall i :: 0 <= i < k ==> s[i] != 0.0
  {
    if s[0] == 0.0 then 0
    else
      assert !NonZero(s[1..]) by {
        var j :| 0 <= j < |s| && s[j] == 0.0;
        assert s[1..][j - 1] == 0.0;
      }
      1 + FirstZero(s[1..])
  }

  /** A zero preceded by no other zero is the first zero. */
  lemma {:induction false} FirstZeroAt(s: seq<real>, k: nat)
    requires k < |s| && s[k] == 0.0
    requires forall i :: 0 <= i < k ==> s[i] != 0.0
    ensures !NonZero(s) && FirstZero(s) == k
  {
    if k > 0 {
      FirstZeroAt(s[1..], k - 1);
    }
  }

  /** Integer ratings read as numbers. */
  function AsReals(d: seq<seq<int>>): (m: Matrix)
    ensures |m| == |d|
    ensures forall r :: 0 <= r < |d| ==> |m[r]| == |d[r]| && forall c :: 0 <= c < |d[r]| ==> m[r][c] == d[r][c] as real
  {
    seq(|d|, r requires 0 <= r < |d| => seq(|d[r]|, c requires 0 <= c < |d[r]| => d[r][c] as real))
  }

  class Ahp {
    /** The ratings of the alternatives, one row per alternative and one
        column per criterion (the data set without its name column). */
    const decisionMatrix: seq<seq<int>>
    const criteria: seq<string>
    const alternative: seq<string>
    const length: nat
    const pairwiseMatrix: Matrix
    const calculatedSum: array<real>
    const normalizedMatrix: array2<real>
    const criteriaWeights: array<real>
    var consistencyIndex: real
    var consistencyRatio: real

    /** The shapes `__init__` establishes. */
    predicate Valid()
    {
      && length == |criteria|
      && IsSquare(pairwiseMatrix, length)
      && calculatedSum.Length == length
      && normalizedMatrix.Length0 == length && normalizedMatrix.Length1 == length
      && criteriaWeights.Length == length
      && calculatedSum != criteriaWeights
    }

    constructor(dataFrame: seq<seq<int>>, inputCriteria: seq<string>, inputAlternative: seq<string>, inputPairwiseMatrix: Matrix)
      requires IsSquare(inputPairwiseMatrix, |inputCriteria|)
      ensures Valid()
      ensures decisionMatrix == dataFrame && criteria == inputCriteria && alternative == inputAlternative
      ensures pairwiseMatrix == inputPairwiseMatrix
      ensures forall c :: 0 <= c < length ==> calculatedSum[c] == 0.0
      ensures forall r, c :: 0 <= r < length && 0 <= c < length ==> normalizedMatrix[r, c] == 0.0
      ensures forall r :: 0 <= r < length ==> criteriaWeights[r] == 0.0
      ensures consistencyIndex == 0.0 && consistencyRatio == 0.0
      ensures fresh(calculatedSum) && fresh(normalizedMatrix) && fresh(criteriaWeights)
    {
      decisionMatrix := dataFrame;
      criteria := inputCriteria;
      alternative := inputAlternative;
      length := |inputCriteria|;
      pairwiseMatrix := inputPairwiseMatrix;
      calculatedSum := new real[|inputCriteria|](_ => 0.0);
      normalizedMatrix := new real[|inputCriteria|, |inputCriteria|]((_, _) => 0.0);
      criteriaWeights := new real[|inputCriteria|](_ => 0.0);
      consistencyIndex := 0.0;
      consistencyRatio := 0.0;
    }

    /** `__calculate_sum`: adds every column of the judgments onto its
        running total. */
    method CalculateSum() returns (sums: seq<real>)
      requires Valid()
      modifies calculatedSum
      ensures forall c :: 0 <= c < length ==> calculatedSum[c] == old(calculatedSum[c]) + Sum(Column(pairwiseMatrix, c))
      ensures sums == calculatedSum[..]
    {
      for col := 0 to length
        invariant forall c :: 0 <= c < col ==> calculatedSum[c] == old(calculatedSum[c]) + Sum(Column(pairwiseMatrix, c))
        invariant forall c :: col <= c < length ==> calculatedSum[c] == old(calculatedSum[c])
      {
        AddColumn(col);
      }
      sums := calculatedSum[..];
    }

    /** The inner loop of `__calculate_sum`, for one column. */
    method AddColumn(col: nat)
      requires Valid() && col < length
      modifies calculatedSum
      ensures calculatedSum[col] == old(calculatedSum[col]) + Sum(Column(pairwiseMatrix, col))
      ensures forall c :: 0 <= c < length && c != col ==> calculatedSum[c] == old(calculatedSum[c])
    {
      ghost var column := Column(pairwiseMatrix, col);
      for row := 0 to length
        invariant calculatedSum[col] == old(calculatedSum[col]) + Sum(column[..row])
        invariant forall c :: 0 <= c < length && c != col ==> calculatedSum[c] == old(calculatedSum[c])
      {
        SumPrefixStep(column, row);
        calculatedSum[col] := calculatedSum[col] + pairwiseMatrix[row][col];
      }
      assert column[..length] == column;
    }

    /** `normalize_matrix`: adds the column totals onto `calculated_sum`, then
        divides every judgment by the total of its column, row by row. A zero
        total stops it part-way through the first row. */
    method NormalizeMatrix() returns (r: Result<Matrix>)
      requires Valid()
      modifies calculatedSum, normalizedMatrix
      ensures forall c :: 0 <= c < length ==> calculatedSum[c] == old(calculatedSum[c]) + Sum(Column(pairwiseMatrix, c))
      ensures r.Ok? <==> NonZero(calculatedSum[..])
      ensures r.Ok? ==> Grid(normalizedMatrix) == NormalizeBy(pairwiseMatrix, calculatedSum[..]) && r.value == Grid(normalizedMatrix)
      ensures r.Err? ==> r.error == DivisionByZero
      ensures r.Err? ==> forall c :: 0 <= c < FirstZero(calculatedSum[..]) ==>
        normalizedMatrix[0, c] == pairwiseMatrix[0][c] / calculatedSum[c]
      ensures r.Err? ==> forall i, c :: 0 <= i < length && 0 <= c < length && (i != 0 || c >= FirstZero(calculatedSum[..])) ==>
        normalizedMatrix[i, c] == old(normalizedMatrix[i, c])
    {
      var sums := CalculateSum();
      for row := 0 to length
        invariant sums == calculatedSum[..]
        invariant row > 0 ==> NonZero(sums)
        invariant forall i, c :: 0 <= i < row && 0 <= c < length ==> normalizedMatrix[i, c] == pairwiseMatrix[i][c] / sums[c]
        invariant forall i, c :: row <= i < length && 0 <= c < length ==> normalizedMatrix[i, c] == old(normalizedMatrix[i, c])
      {
        var ok := DivideRowByTotals(row);
        if !ok {
          return Err(DivisionByZero);
        }
      }
      GridNormalizedBy(normalizedMatrix, pairwiseMatrix, sums);
      return Ok(Grid(normalizedMatrix));
    }

    /** The inner loop of `normalize_matrix`: row `row` divided by the column
        totals, column by column, up to the first zero total if there is one. */
    method DivideRowByTotals(row: nat) returns (ok: bool)
      requires Valid() && row < length
      modifies normalizedMatrix
      ensures ok <==> NonZero(calculatedSum[..])
      ensures ok ==> forall c :: 0 <= c < length ==> normalizedMatrix[row, c] == pairwiseMatrix[row][c] / calculatedSum[c]
      ensures !ok ==> forall c :: 0 <= c < FirstZero(calculatedSum[..]) ==>
        normalizedMatrix[row, c] == pairwiseMatrix[row][c] / calculatedSum[c]
      ensures !ok ==> forall c :: FirstZero(calculatedSum[..]) <= c < length ==> normalizedMatrix[row, c] == old(normalizedMatrix[row, c])
      ensures forall i, c :: 0 <= i < length && i != row && 0 <= c < length ==> normalizedMatrix[i, c] == old(normalizedMatrix[i, c])
    {
      for col := 0 to length
        invariant forall c :: 0 <= c < col ==> calculatedSum[c] != 0.0
        invariant forall c :: 0 <= c < col ==> normalizedMatrix[row, c] == pairwiseMatrix[row][c] / calculatedSum[c]
        invariant forall c :: col <= c < length ==> normalizedMatrix[row, c] == old(normalizedMatrix[row, c])
        invariant forall i, c :: 0 <= i < length && i != row && 0 <= c < length ==> normalizedMatrix[i, c] == old(normalizedMatrix[i, c])
      {
        if calculatedSum[col] == 0.0 {
          FirstZeroAt(calculatedSum[..], col);
          return false;
        }
        normalizedMatrix[row, col] := pairwiseMatrix[row][col] / calculatedSum[col];
      }
      return true;
    }

    /** `calculate_criteria_weight`: the weight of each criterion is the
        average of its row of the normalised matrix. */
    method CalculateCriteriaWeight() returns (weights: seq<real>)
      requires Valid()
      modifies criteriaWeights
      ensures criteriaWeights[..] == RowAverages(Grid(normalizedMatrix))
      ensures weights == criteriaWeights[..]
    {
      for row := 0 to length
        invariant forall i :: 0 <= i < row ==> criteriaWeights[i] == Sum(RowOf(normalizedMatrix, i)) / length as real
      {
        criteriaWeights[row] := Sum(RowOf(normalizedMatrix, row)) / length as real;
      }
      weights := criteriaWeights[..];
    }

    /** The first loop of `calculate_consistency`: each row of judgments
        weighted column by column by the criteria weights and summed. */
    method WeightedSumValues() returns (ws: array<real>)
      requires Valid()
      ensures fresh(ws) && ws.Length == length
      ensures ws[..] == WeightedSums(pairwiseMatrix, criteriaWeights[..])
    {
      var temp := new real[length, length];
      ws := new real[length](_ => 0.0);
      for row := 0 to length
        invariant forall i :: 0 <= i < row ==> ws[i] == Sum(Products(pairwiseMatrix[i], criteriaWeights[..]))
        invariant forall i :: row <= i < length ==> ws[i] == 0.0
      {
        WeightRow(temp, ws, row);
      }
    }

    /** One row of the first loop: `temp[row][col]` is the judgment times
        the weight of its column, accumulated into `ws[row]`. */
    method WeightRow(temp: array2<real>, ws: array<real>, row: nat)
      requires Valid() && row < length
      requires temp.Length0 == temp.Length1 == ws.Length == length
      requires ws != criteriaWeights
      modifies temp, ws
      ensures ws[row] == old(ws[row]) + Sum(Products(pairwiseMatrix[row], criteriaWeights[..]))
      ensures forall i :: 0 <= i < length && i != row ==> ws[i] == old(ws[i])
    {
      ghost var p := Products(pairwiseMatrix[row], criteriaWeights[..]);
      ghost var start := ws[row];
      for col := 0 to length
        invariant ws[row] == start + Sum(p[..col])
        invariant forall i :: 0 <= i < length && i != row ==> ws[i] == old(ws[i])
      {
        temp[row, col] := pairwiseMatrix[row][col] * criteriaWeights[col];
        SumPrefixStep(p, col);
        ws[row] := ws[row] + temp[row, col];
      }
      assert p[..length] == p;
    }

    /** The second loop of `calculate_consistency`: each weighted row sum
        divided by the weight of its row; `ok` is false where the first zero
        weight stops it. */
    method RatioValues(ws: array<real>) returns (ok: bool, ratio: array<real>)
      requires Valid() && ws.Length == length
      ensures ok <==> NonZero(criteriaWeights[..])
      ensures ok ==> ratio.Length == length
      ensures ok ==> forall i :: 0 <= i < length ==> ratio[i] == ws[i] / criteriaWeights[i]
    {
      ratio := new real[length](_ => 0.0);
      for row := 0 to length
        invariant forall i :: 0 <= i < row ==> criteriaWeights[i] != 0.0 && ratio[i] == ws[i] / criteriaWeights[i]
        invariant forall i :: row <= i < length ==> ratio[i] == 0.0
      {
        if criteriaWeights[row] == 0.0 {
          return false, ratio;
        }
        ratio[row] := ratio[row] + ws[row] / criteriaWeights[row];
      }
      return true, ratio;
    }

    /** `calculate_consistency`: lambda_max is the mean over the rows of the
        weighted row sum divided by the weight of the row; then
        CI = (lambda_max - n) / (n - 1) and CR = CI / RI[n]. A zero weight,
        n = 0 or n = 1 fail before anything is stored; n = 2 (RI = 0) fails
        after CI is stored, and n > 10 runs off the table after CI is stored. */
    method CalculateConsistency() returns (r: Result<Verdict>)
      requires Valid()
      modifies this
      ensures r.Ok? <==> NonZero(criteriaWeights[..]) && 3 <= length <= 10
      ensures r.Err? && !(NonZero(criteriaWeights[..]) && length >= 2) ==>
        r.error == DivisionByZero && consistencyIndex == old(consistencyIndex) && consistencyRatio == old(consistencyRatio)
      ensures NonZero(criteriaWeights[..]) && length >= 2 ==> consistencyIndex == ConsistencyIndex(pairwiseMatrix, criteriaWeights[..])
      ensures NonZero(criteriaWeights[..]) && length == 2 ==> r == Err(DivisionByZero) && consistencyRatio == old(consistencyRatio)
      ensures NonZero(criteriaWeights[..]) && length > 10 ==> r == Err(IndexOutOfRange) && consistencyRatio == old(consistencyRatio)
      ensures r.Ok? ==> consistencyRatio == RatioOf(consistencyIndex, length) && r.value == Classify(consistencyRatio)
    {
      var lambdaMax := LambdaMaxValue();
      if lambdaMax.Err? {
        return Err(lambdaMax.error);
      }
      ghost var w := criteriaWeights[..];
      r := StoreIndexAndRatio(lambdaMax.value);
      assert criteriaWeights[..] == w;
    }

    /** The end of `calculate_consistency`, from lambda_max on: stores
        CI = (lambda_max - n) / (n - 1), then looks up RI[n] and stores
        CR = CI / RI[n]. */
    method StoreIndexAndRatio(lambdaMax: real) returns (r: Result<Verdict>)
      requires Valid() && length > 0
      modifies this
      ensures length == 1 ==> r == Err(DivisionByZero) && consistencyIndex == old(consistencyIndex)
      ensures length >= 2 ==> consistencyIndex == IndexOf(lambdaMax, length)
      ensures length == 2 ==> r == Err(DivisionByZero)
      ensures length > 10 ==> r == Err(IndexOutOfRange)
      ensures 3 <= length <= 10 ==> consistencyRatio == RatioOf(consistencyIndex, length) && r == Ok(Classify(consistencyRatio))
      ensures r.Err? ==> consistencyRatio == old(consistencyRatio)
    {
      if length == 1 {
        return Err(DivisionByZero);
      }
      consistencyIndex := (lambdaMax - length as real) / (length - 1) as real;
      RandomIndexDefined(length);
      if length >= |RandomIndex| {
        return Err(IndexOutOfRange);
      }
      if RandomIndex[length] == 0.0 {
        return Err(DivisionByZero);
      }
      consistencyRatio := consistencyIndex / RandomIndex[length];
      return Ok(Classify(consistencyRatio));
    }

    /** The loops of `calculate_consistency` up to lambda_max, the mean of
        the ratios; a zero weight or an empty matrix divides by zero. */
    method LambdaMaxValue() returns (r: Result<real>)
      requires Valid()
      ensures r.Ok? <==> NonZero(criteriaWeights[..]) && length > 0
      ensures r.Err? ==> r.error == DivisionByZero
      ensures r.Ok? ==> r.value == LambdaMax(pairwiseMatrix, criteriaWeights[..])
    {
      var ws := WeightedSumValues();
      var ok, ratio := RatioValues(ws);
      if !ok || length == 0 {
        return Err(DivisionByZero);
      }
      assert ratio[..] == Ratios(pairwiseMatrix, criteriaWeights[..]);
      return Ok(Mean(ratio[..]));
    }

    /** `show_criteria_weights`: the criteria paired with their weights,
        through a `dict`, ranked by non-increasing weight. */
    method ShowCriteriaWeights() returns (ranked: seq<Entry>)
      requires Valid()
      ensures ranked == RankedDict(Zip(criteria, criteriaWeights[..]))
    {
      ranked := RankedDict(Zip(criteria, criteriaWeights[..]));
    }

    /** `show_recommendation` of src/main.py (direct scoring). */
    method ShowRecommendation() returns (r: Result<seq<Entry>>)
      requires Valid()
      ensures r == DirectRanking(alternative, AsReals(decisionMatrix), criteriaWeights[..])
    {
      r := DirectRanking(alternative, AsReals(decisionMatrix), criteriaWeights[..]);
    }

    /** `show_recommendation` of src/AHP.py (sub-criteria scoring). */
    method ShowSubCriteriaRecommendation() returns (r: Result<seq<Entry>>)
      requires Valid()
      ensures r == SubCriteriaRanking(alternative, decisionMatrix, criteriaWeights[..])
    {
      var allSub := CalculateSubCriteriaPriorityVector();
      var scores := AlternativeTotals(allSub);
      match scores
      case Err(e) =>
        r := Err(e);
      case Ok(alternativeHpt) =>
        r := Ok(SortDescending(Zip(alternative, alternativeHpt)));
    }

    /** The scoring loop of `show_recommendation` in src/AHP.py: fills the
        alternative matrix row by row and sums each row; the first rating
        that selects no entry stops it with an index error. */
    method AlternativeTotals(allSub: seq<seq<real>>) returns (r: Result<seq<real>>)
      requires Valid()
      ensures r == AlternativeScores(decisionMatrix, allSub, criteriaWeights[..], |alternative|)
    {
      ghost var w := criteriaWeights[..];
      var lenAlternative := |alternative|;
      var alternativeMatrix := new real[lenAlternative, length];
      var alternativeHpt: seq<real> := [];
      for row := 0 to lenAlternative
        invariant |alternativeHpt| == row
        invariant forall i, c :: 0 <= i < row && 0 <= c < length ==> Rated(decisionMatrix, allSub, i, c)
        invariant forall i :: 0 <= i < row ==> alternativeHpt[i] == Sum(Terms(decisionMatrix, allSub, w, i))
      {
        var ok := ScoreRow(allSub, alternativeMatrix, row);
        if !ok {
          return Err(IndexOutOfRange);
        }
        alternativeHpt := alternativeHpt + [Sum(RowOf(alternativeMatrix, row))];
      }
      assert AllRated(decisionMatrix, allSub, lenAlternative, length);
      assert alternativeHpt == AlternativeScores(decisionMatrix, allSub, w, lenAlternative).value;
      return Ok(alternativeHpt);
    }

    /** One row of the scoring loop: each rating selects an entry of the
        sub-criteria vector of its criterion (Python indexing, so 0 and the
        negative ratings count from the end), weighted by the criterion. */
    method ScoreRow(allSub: seq<seq<real>>, m: array2<real>, row: nat) returns (ok: bool)
      requires Valid() && row < m.Length0 && m.Length1 == length
      modifies m
      ensures ok <==> forall c :: 0 <= c < length ==> Rated(decisionMatrix, allSub, row, c)
      ensures ok ==> RowOf(m, row) == Terms(decisionMatrix, allSub, criteriaWeights[..], row)
      ensures forall i, c :: 0 <= i < m.Length0 && i != row && 0 <= c < m.Length1 ==> m[i, c] == old(m[i, c])
    {
      ghost var w := criteriaWeights[..];
      for col := 0 to length
        invariant forall c :: 0 <= c < col ==> Rated(decisionMatrix, allSub, row, c)
        invariant forall c :: 0 <= c < col ==> m[row, c] == Term(decisionMatrix, allSub, w, row, c)
        invariant forall i, c :: 0 <= i < m.Length0 && i != row && 0 <= c < m.Length1 ==> m[i, c] == old(m[i, c])
      {
        if row >= |decisionMatrix| || col >= |decisionMatrix[row]| || col >= |allSub| {
          assert !Rated(decisionMatrix, allSub, row, col);
          return false;
        }
        var subVecIdx := decisionMatrix[row][col] - 1;
        if !IndexInRange(subVecIdx, |allSub[col]|) {
          assert !Rated(decisionMatrix, allSub, row, col);
          return false;
        }
        m[row, col] := Pick(allSub[col], subVecIdx) * criteriaWeights[col];
      }
      assert RowOf(m, row) == Terms(decisionMatrix, allSub, w, row);
      return true;
    }
  }

  /** The first steps of the driver in src/main.py: a fresh `AHP` object,
      `normalize_matrix`, then `calculate_criteria_weight`. On a fresh object
      the totals are exactly the column sums, and the weights are the
      priority vector of the judgments: a distribution, positive when every
      judgment is. */
  method WeighCriteria(dataFrame: seq<seq<int>>, criteria: seq<string>, alternatives: seq<string>, pairwise: Matrix)
    returns (ahp: Ahp, r: Result<seq<real>>)
    requires IsSquare(pairwise, |criteria|)
    ensures fresh(ahp) && fresh(ahp.calculatedSum) && fresh(ahp.normalizedMatrix) && fresh(ahp.criteriaWeights)
    ensures ahp.Valid() && ahp.pairwiseMatrix == pairwise
    ensures ahp.calculatedSum[..] == ColumnSums(pairwise, |criteria|)
    ensures r.Ok? <==> NonZeroColumns(pairwise, |criteria|)
    ensures r.Err? ==> r.error == DivisionByZero
    ensures r.Ok? ==> r.value == PriorityVector(pairwise, |criteria|) && r.value == ahp.criteriaWeights[..]
    ensures Positive(pairwise) && |criteria| > 0 ==>
      r.Ok? && Sum(r.value) == 1.0 && forall i :: 0 <= i < |criteria| ==> r.value[i] > 0.0
  {
    ahp := new Ahp(dataFrame, criteria, alternatives, pairwise);
    ghost var n := |criteria|;
    var normalized := ahp.NormalizeMatrix();
    ghost var sums := ahp.calculatedSum[..];
    assert sums == ColumnSums(pairwise, n) by {
      forall c | 0 <= c < n
        ensures sums[c] == ColumnSums(pairwise, n)[c]
      {
      }
    }
    if normalized.Err? {
      if Positive(pairwise) && n > 0 {
        PriorityVectorIsDistribution(pairwise, n);
      }
      return ahp, Err(normalized.error);
    }
    ghost var g := Grid(ahp.normalizedMatrix);
    assert g == Normalize(pairwise, n);
    var weights := ahp.CalculateCriteriaWeight();
    assert ahp.calculatedSum[..] == sums;
    assert Grid(ahp.normalizedMatrix) == g;
    assert weights == PriorityVector(pairwise, n);
    if Positive(pairwise) && n > 0 {
      PriorityVectorIsDistribution(pairwise, n);
    }
    r := Ok(weights);
  }
}
