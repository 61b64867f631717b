# AHP engine in Dafny

A model of the Analytic Hierarchy Process engine, the `AHP` class of
`src/main.py` and its near-duplicate `src/AHP.py`, with proofs about it.

The engine takes a square matrix of pairwise judgments between criteria and
works through the following steps.

- It adds up every column into `calculated_sum`.
- It divides every judgment by its column total into `normalized_matrix`.
- It averages each normalised row into `criteria_weights`.
- It checks consistency with Saaty's index. lambda_max is the mean of
  `(A·w)[i] / w[i]`, `CI = (lambda_max − n)/(n − 1)` and
  `CR = CI / RI[n]`, where RI is an 11-entry table of random indices.
  A ratio below 0.10 is acceptable.
- It ranks the criteria by weight, with a stable descending sort.
- It scores the alternatives in one of two ways:
  - `src/main.py` normalises each decision row to sum to 1, weighs it by the
    criteria weights, and rescales the scores so that they sum to 1
    (direct scoring);
  - `src/AHP.py` builds the rank-ratio matrix `(col+1)/(row+1)` and takes its
    priority vector. Each ordinal rating picks an entry of that vector, which
    is weighted by its criterion and summed (sub-criteria scoring).

Numbers are exact `real`s. This makes "columns sum to 1", "weights sum to 1"
and "CI = 0 for consistent judgments" exact theorems.

## Modules

- `RealSums`: the left-to-right sum and its algebra.
- `Results`: the error results `DivisionByZero` (Python's `ZeroDivisionError`)
  and `IndexOutOfRange` (`IndexError`).
- `Matrices`: column sums, column normalisation, row averages and the priority
  vector, with their lemmas.
- `Consistency`: lambda_max, CI, CR, the random-index table and the verdict.
- `Ranking`: `sorted(..., key=score, reverse=True)` as a stable insertion sort.
  It also holds the `dict(zip(...))` that precedes the criteria ranking.
- `DirectScoring`: the direct scoring of `src/main.py`.
- `SubCriteria`: the sub-criteria vectors and sub-criteria scoring of
  `src/AHP.py`. The vectors are built in place on arrays, as the source does.
- `AhpEngine`: the class `Ahp`.
  - Its judgments are a `const` sequence.
  - `calculated_sum` and `criteria_weights` are arrays, and
    `normalized_matrix` is a two-dimensional array.
  - The consistency figures are mutable fields.
  - Its methods fill these fields with the source's nested loops.

`src/AHP.py:17-22` and `src/AHP.py:53-93` repeat `src/main.py:21-68`
statement for statement. The model holds this shared pipeline once, and the
table cites `src/main.py`.

### Behaviour of the code worth knowing

- `normalize_matrix` is not a pure function of the judgments. It adds the
  column totals onto `calculated_sum`, so a second call doubles the totals.
  `Ahp.NormalizeMatrix` states this. `Matrices.NormalizedByScaledSums` shows
  that every column of a second normalisation then sums to 1/2 instead of 1.
- A failing stage does leave partial results behind.
  - A zero column total stops `normalize_matrix` part-way through the first
    row, and the entries written up to that column stay written.
  - `consistency_index` is stored before the ratio fails: for n = 2 the
    table entry is 0.0 and the division by it fails, and for n > 10 the
    table lookup itself fails.
- A rating of 0 (and -3 to -1) is not rejected in sub-criteria scoring.
  Python's negative indexing wraps it to the other end of the vector, so a
  rating of 0 scores exactly like a rating of 4
  (`SubCriteria.ZeroRatingScoresAsFour`).
- `dict(zip(criteria, weights))` keeps one entry per distinct name: the
  position of the first occurrence, with the value of the last.
  `Ranking.DictOf` models exactly that, so duplicate criterion names are
  collapsed rather than excluded.

## Model

| member | source | states |
|---|---|---|
| AhpEngine.Ahp.constructor | src/main.py:8-19 | the object keeps the data set, names and judgments given and starts with zero totals, a zero normalised matrix, zero weights and CI = CR = 0, on fresh arrays |
| AhpEngine.Ahp.CalculateSum | src/main.py:21-26 | every column total grows by the sum of that column of the judgments; the returned list is the stored totals |
| AhpEngine.Ahp.AddColumn | src/main.py:22-24 | one column total grows by the sum of its column; the other totals are untouched |
| AhpEngine.Ahp.NormalizeMatrix | src/main.py:28-35 | totals grow by the column sums; succeeds exactly when no total is zero, and then the normalised matrix is each judgment over its column total; on a zero total it fails with a division by zero, having written row 0 only up to the first zero column and nothing else |
| AhpEngine.FirstZero | src/main.py:31-34 | the column at which the division stops: the first position holding a zero, with none before it |
| AhpEngine.Ahp.DivideRowByTotals | src/main.py:32-34 | one row divided by the column totals, complete exactly when no total is zero, otherwise up to the first zero total; other rows untouched |
| AhpEngine.Ahp.CalculateCriteriaWeight | src/main.py:37-41 | the stored weights are the row averages of the normalised matrix |
| AhpEngine.WeighCriteria | src/main.py:111-117 | on a freshly allocated object whose totals, normalised grid and weights are freshly allocated arrays, after normalising and weighing, the totals are exactly the column sums; the run succeeds exactly when no column sums to zero, and the weights are then the priority vector of the judgments; for positive judgments they are positive and sum to 1 |
| AhpEngine.Ahp.WeightedSumValues | src/main.py:45-51 | the weighted row sums `(A·w)[i]` of the judgments |
| AhpEngine.Ahp.WeightRow | src/main.py:49-51 | one weighted row sum accumulated; other rows untouched |
| AhpEngine.Ahp.RatioValues | src/main.py:52-53 | each weighted row sum over the weight of its row, succeeding exactly when no weight is zero |
| AhpEngine.Ahp.LambdaMaxValue | src/main.py:45-55 | lambda_max is the mean of the ratios; it fails with a division by zero exactly when a weight is zero or there are no criteria |
| AhpEngine.Ahp.StoreIndexAndRatio | src/main.py:56-61 | from lambda_max: for n = 1 division by zero with nothing stored; for n >= 2 CI is stored; n = 2 then divides by RI = 0 and n > 10 runs off the table, both leaving CR; for 3 <= n <= 10 CR = CI / RI[n] is stored and classified |
| AhpEngine.Ahp.CalculateConsistency | src/main.py:43-61 | succeeds exactly when all weights are non-zero and 3 <= n <= 10; CI is Saaty's index of the judgments and weights whenever it is reached; CR = CI / RI[n] and the verdict is OK exactly when CR < 0.10; each failure is the right error and leaves the fields that the source had not yet reached |
| Consistency.RandomIndexDefined | src/main.py:17 | the random-index table has a usable, non-zero entry exactly for sizes 3 to 10 |
| Consistency.ExactIndex | src/main.py:56-61 | lambda_max = n gives CI = 0, hence CR = 0 and an OK verdict |
| Consistency.ExactWeightsHaveZeroIndex | src/main.py:43-61 | weights the judgments reproduce exactly give lambda_max = n, CI = 0, CR = 0 and an OK verdict |
| Consistency.ConsistentJudgmentsHaveZeroIndex | src/main.py:28-60 | perfectly consistent judgments `a[i][j] = v[i]/v[j]` have non-zero column sums and weights, lambda_max = n and CI = 0, and for sizes 3 to 10 CR = 0 with the "CR is OK" verdict |
| Consistency.UniformWeights | src/main.py:28-41 | an all-ones matrix gives every criterion the weight 1/n |
| Consistency.UniformJudgments | src/main.py:28-60 | an all-ones matrix has lambda_max = n and CI = 0, and for sizes 3 to 10 CR = 0 with the "CR is OK" verdict |
| Matrices.NormalizedColumnsSumToOne | src/main.py:28-35 | with non-zero column totals every column of the normalised matrix sums to 1 |
| Matrices.NormalizedColumnSum | src/main.py:31-34 | a normalised column sums to the column's sum over its divisor |
| Matrices.NormalizedByScaledSums | src/main.py:21-34 | normalising by k times the column sums, as a second `normalize_matrix` call does with k = 2, makes every column sum to 1/k |
| Matrices.RowSumsTotal | src/main.py:37-41 | the row sums and the column sums have the same total |
| Matrices.RowAveragesSumToOne | src/main.py:37-41 | when every column sums to 1 the row averages sum to 1 |
| Matrices.PriorityVectorIsDistribution | src/main.py:28-41 | positive judgments have non-zero column sums, and their weights are n positive numbers summing to 1 |
| Matrices.ConsistentNormalized | src/main.py:28-35 | consistent judgments normalise to the matrix whose every column is the scaled hidden scores |
| Matrices.RowAveragesOfConstantRows | src/main.py:37-41 | rows of copies average to the copied value |
| Matrices.ConsistentPriorityVector | src/main.py:28-41 | the weights of consistent judgments `v[i]/v[j]` are exactly `v` scaled to sum 1 |
| Matrices.SharesSumToOne | src/main.py:85 | scaling a sequence by its non-zero total makes it sum to 1 |
| RealSums.SumBetween | src/AHP.py:108 | entry-wise bounds proportional to the weights bound the sum |
| AhpEngine.Ahp.ShowCriteriaWeights | src/main.py:63-66 | the criteria ranking is the dictionary of names to weights ranked |
| Ranking.RankedDict | src/main.py:65-66 | the ranking of the dictionary is a stable non-increasing permutation of it, with distinct names, and covers every name given |
| Ranking.DictOfNames | src/main.py:65 | the dictionary has distinct names, exactly the names given |
| Ranking.DictOfDistinct | src/main.py:65 | with distinct names the dictionary keeps every pair in order |
| Ranking.AssignNames | src/main.py:65 | storing a key adds exactly that name and keeps names distinct |
| Ranking.AssignFresh | src/main.py:65 | storing a new key appends it |
| Ranking.SortPermutation | src/main.py:86-88 | the ranking is a permutation of its input |
| Ranking.SortNonIncreasing | src/main.py:86-88 | the ranking is non-increasing in score |
| Ranking.SortTies | src/main.py:86-88 | the entries with any given score keep their input order |
| Ranking.SortIsStableRanking | src/main.py:86-88 | the ranking is a stable non-increasing permutation |
| Ranking.StableRankingUnique | src/main.py:86-88 | any stable non-increasing permutation of the input is the ranking: the specification determines the output |
| Ranking.RankedByTies | src/main.py:86-88 | two non-increasing sequences with the same entries per score, in the same order, are equal |
| Ranking.SortNames | src/main.py:66 | ranking keeps names distinct and the same |
| Ranking.InsertPermutation | src/main.py:86-88 | inserting adds exactly the one entry |
| Ranking.InsertNonIncreasing | src/main.py:86-88 | inserting into a non-increasing list keeps it non-increasing |
| Ranking.InsertTies | src/main.py:86-88 | the inserted entry comes before all entries with its score |
| AhpEngine.Ahp.ShowRecommendation | src/main.py:70-88 | the alternatives ranked by direct scoring of the data set with the stored weights |
| DirectScoring.DirectPriorities | src/main.py:75-85 | succeeds exactly when no non-empty row sums to zero and, with alternatives, the scores do not total zero; otherwise a division by zero; one priority per alternative |
| DirectScoring.DirectRanking | src/main.py:86-88 | fails exactly when the priorities fail; otherwise a stable non-increasing permutation of the alternatives paired with their priorities |
| DirectScoring.NormalizedRowSumsToOne | src/main.py:75-78 | every normalised decision row sums to 1 |
| DirectScoring.PrioritiesSumToOne | src/main.py:84-85 | the overall priorities sum to 1 whenever they are defined |
| DirectScoring.NormalizedRowNonNegative | src/main.py:76-77 | a non-negative row normalises to non-negative entries |
| DirectScoring.RowScoreNonNegative | src/main.py:80-83 | non-negative ratings and weights give a non-negative score |
| DirectScoring.PrioritiesBounded | src/main.py:75-85 | with non-negative ratings and weights every priority lies in [0, 1] |
| DirectScoring.NormalizeRowScaled | src/main.py:75-78 | scaling a row by a non-zero factor does not change its normalised form |
| DirectScoring.PrioritiesScaleInvariant | src/main.py:75-85 | scaling one alternative's ratings by a non-zero factor leaves every priority, and every failure, unchanged |
| DirectScoring.DirectScoreExample | src/main.py:75-83 | ratings [2, 4] normalise to [1/3, 2/3] and with weights [0.5, 0.5] score 0.5 |
| SubCriteria.RankMatrixConsistent | src/AHP.py:29-31 | the rank-ratio matrix `(col+1)/(row+1)` is perfectly consistent with the scores `1/(k+1)` |
| SubCriteria.RankWeightsClosedForm | src/AHP.py:24-44 | the rank-ratio matrix has non-zero column sums and its priority vector is `(1/(r+1)) / Σ 1/(k+1)` |
| SubCriteria.RankWeightsDistribution | src/AHP.py:24-44 | the sub-criteria vector is positive and sums to 1 |
| SubCriteria.RankWeightsDecreasing | src/AHP.py:24-44 | the sub-criteria vector is strictly decreasing |
| SubCriteria.RankWeightsOfFour | src/AHP.py:49 | for four levels the vector is [12/25, 6/25, 4/25, 3/25] |
| SubCriteria.MpcSubCriteria | src/AHP.py:24-44 | the built vector is the priority vector of the rank-ratio matrix, i.e. its closed form |
| SubCriteria.FillRankMatrix | src/AHP.py:29-31 | the array holds the rank-ratio matrix |
| SubCriteria.PriorityVectorInPlace | src/AHP.py:33-42 | normalising in place and averaging rows yields the priority vector of the original array |
| SubCriteria.TotalColumns | src/AHP.py:34-36 | every column total grows by its column's sum |
| SubCriteria.AccumulateColumn | src/AHP.py:35-36 | one column total grows by its column's sum, the others untouched |
| SubCriteria.NormalizeAndAverage | src/AHP.py:39-42 | the array is divided by the column totals in place and the weights are its row averages |
| SubCriteria.DivideRow | src/AHP.py:40-41 | one row divided by the totals in place, other rows untouched |
| SubCriteria.CalculateSubCriteriaPriorityVector | src/AHP.py:46-50 | five identical vectors, each the priority vector of the 4-level rank-ratio matrix, i.e. [12/25, 6/25, 4/25, 3/25] |
| SubCriteria.Pick | src/AHP.py:105-106 | Python indexing: a non-negative index counts from the front, a negative one from the end, and the entry is in the vector |
| SubCriteria.AlternativeScores | src/AHP.py:103-108 | succeeds exactly when every rating of every alternative on every criterion selects an entry, otherwise an index error; one score per alternative |
| SubCriteria.SubCriteriaRanking | src/AHP.py:98-112 | fails with an index error exactly when a rating selects no entry; otherwise a stable non-increasing permutation of the alternatives paired with their scores |
| SubCriteria.PickBounds | src/AHP.py:105-106 | any entry a rating picks lies in [3/25, 12/25] |
| SubCriteria.TermBounded | src/AHP.py:106-107 | each weighted entry lies between 3/25 and 12/25 of its weight |
| SubCriteria.RowScoreBounded | src/AHP.py:103-108 | with non-negative weights summing to 1 a score lies in [3/25, 12/25] |
| SubCriteria.ScoresBounded | src/AHP.py:103-108 | with non-negative weights summing to 1 every score lies in [3/25, 12/25] |
| SubCriteria.BetterRatingRaisesScore | src/AHP.py:103-108 | lowering a rating from 2..4 to a smaller positive rating on a criterion of positive weight keeps scoring defined and strictly raises that alternative's score |
| SubCriteria.ZeroRatingCell | src/AHP.py:105-106 | a rating of 0 selects a value exactly when 4 does, and the same value |
| SubCriteria.ZeroRatingScoresAsFour | src/AHP.py:105-106 | a rating of 0 wraps around and scores exactly as a rating of 4 |
| AhpEngine.Ahp.ShowSubCriteriaRecommendation | src/AHP.py:95-112 | the alternatives ranked by sub-criteria scoring of the data set with the stored weights |
| AhpEngine.Ahp.AlternativeTotals | src/AHP.py:99-108 | the alternative totals are the sub-criteria scores, with an index error at the first rating that selects nothing |
| AhpEngine.Ahp.ScoreRow | src/AHP.py:104-107 | one row of the alternative matrix holds the weighted picked entries, completed exactly when each of its ratings selects an entry; no other row changes |

## Left out

- Reading the data set with pandas, dropping its name column and the rest of the `__main__` block (`src/main.py:94-125`) are left out. The decision matrix, criteria and alternatives are parameters, and `AhpEngine.WeighCriteria` models only the construction of the object, `normalize_matrix()` and `calculate_criteria_weight()` in that block (`src/main.py:111-117`).
- The concrete 6×6 judgment matrix of `src/main.py:102-109` is not evaluated; the lemmas hold for every matrix.
- Every `print` is left out. The consistency verdict is returned as `Verdict` and the rankings are returned as sequences.
- Floating point is not modelled: numbers are exact reals, so rounding, `inf` and `NaN` do not arise.
- DirectScoring.DirectPriorities: numpy divides a zero row sum or a zero score total into `inf`/`NaN` with a warning rather than raising; the model reports `DivisionByZero` instead.
- AhpEngine.Ahp.constructor: requires a judgment matrix of exactly as many rows and columns as there are criteria. Every loop of the source runs over `range(self.length)`, so a larger matrix, or rows longer than `length`, pass silently and only the leading `length`×`length` block is used; a smaller one raises `IndexError` inside the first loop that reaches past it. Neither behaviour is modelled.
- The data set holds integer ratings (`seq<seq<int>>`), because sub-criteria scoring (`src/AHP.py:105-106`) uses them as list indices; through the class, direct scoring therefore sees only integer ratings, although `src/main.py:75-85` accepts any numbers. `DirectScoring.DirectRanking` itself takes real ratings.
- The random-index table is a module constant (`Consistency.RandomIndex`) rather than a per-object list; both files hold the same values and never change them.
- The intermediate dictionary rebuilt from the sorted criteria (`src/main.py:66`) is returned as the ranked sequence; a Python `dict` keeps insertion order, so they carry the same pairs in the same order.
