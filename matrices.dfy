/** Column-sum normalisation of a pairwise-judgment matrix and the row-average
    priority vector derived from it: the steps `normalize_matrix` and
    `calculate_criteria_weight` perform, stated on values. */
module Matrices {
  import opened RealSums

  type Matrix = seq<seq<real>>

  /** Every row of `m` has `n` entries. */
  predicate IsRect(m: Matrix, n: nat)
  {
    forall r :: 0 <= r < |m| ==> |m[r]| == n
  }

  /** `m` is an `n` by `n` matrix. */
  predicate IsSquare(m: Matrix, n: nat)
  {
    |m| == n && IsRect(m, n)
  }

  /** Every entry of `m` is a positive judgment. */
  predicate Positive(m: Matrix)
  {
    forall r, c :: 0 <= r < |m| && 0 <= c < |m[r]| ==> m[r][c] > 0.0
  }

  predicate NonZero(s: seq<real>)
  {
    forall i :: 0 <= i < |s| ==> s[i] != 0.0
  }

  function Column(m: Matrix, c: nat): (col: seq<real>)
    requires forall r :: 0 <= r < |m| ==> c < |m[r]|
    ensures |col| == |m|
    ensures forall r :: 0 <= r < |m| ==> col[r] == m[r][c]
  {
    seq(|m|, r requires 0 <= r < |m| => m[r][c])
  }

  /** The totals of the `n` columns of `m`. */
  function ColumnSums(m: Matrix, n: nat): (sums: seq<real>)
    requires IsRect(m, n)
    ensures |sums| == n
    ensures forall c :: 0 <= c < n ==> sums[c] == Sum(Column(m, c))
  {
    seq(n, c requires 0 <= c < n => Sum(Column(m, c)))
  }

  /** The totals of the rows of `m`. */
  function RowSums(m: Matrix): (sums: seq<real>)
    ensures |sums| == |m|
    ensures forall r :: 0 <= r < |m| ==> sums[r] == Sum(m[r])
  {
    seq(|m|, r requires 0 <= r < |m| => Sum(m[r]))
  }

  /** Every entry divided by the divisor of its column. */
  function NormalizeBy(m: Matrix, sums: seq<real>): (nm: Matrix)
    requires IsRect(m, |sums|) && NonZero(sums)
    ensures |nm| == |m| && IsRect(nm, |sums|)
    ensures forall r, c :: 0 <= r < |m| && 0 <= c < |sums| ==> nm[r][c] == m[r][c] / sums[c]
  {
    seq(|m|, r requires 0 <= r < |m| =>
      seq(|sums|, c requires 0 <= c < |sums| => m[r][c] / sums[c]))
  }

  /** No column of `m` sums to zero, so that normalisation divides by no zero. */
  predicate NonZeroColumns(m: Matrix, n: nat)
    requires IsRect(m, n)
  {
    NonZero(ColumnSums(m, n))
  }

  /** Each entry divided by the total of its column. */
  function Normalize(m: Matrix, n: nat): Matrix
    requires IsSquare(m, n) && NonZeroColumns(m, n)
  {
    NormalizeBy(m, ColumnSums(m, n))
  }

  /** The average of each row. */
  function RowAverages(m: Matrix): (avg: seq<real>)
    ensures |avg| == |m|
    ensures forall r :: 0 <= r < |m| ==> avg[r] == Sum(m[r]) / |m| as real
  {
    seq(|m|, r requires 0 <= r < |m| => Sum(m[r]) / |m| as real)
  }

  /** The criteria weights the engine derives from a pairwise matrix. */
  function PriorityVector(m: Matrix, n: nat): (w: seq<real>)
    requires IsSquare(m, n) && NonZeroColumns(m, n)
    ensures |w| == n
  {
    RowAverages(Normalize(m, n))
  }

  /** `m` holds perfectly consistent judgments: entry (i, j) is the ratio of
      the hidden positive scores `v[i]` and `v[j]`. */
  predicate IsConsistentWith(m: Matrix, v: seq<real>)
  {
    && IsSquare(m, |v|)
    && (forall i :: 0 <= i < |v| ==> v[i] > 0.0)
    && (forall i, j {:trigger m[i][j]} :: 0 <= i < |v| && 0 <= j < |v| ==> m[i][j] == v[i] / v[j])
  }

  /** Column `c` of a matrix divided column-wise by `sums` totals the column
      of the original divided by `sums[c]`. */
  lemma {:induction false} NormalizedColumnSum(m: Matrix, sums: seq<real>, c: nat)
    requires IsRect(m, |sums|) && NonZero(sums) && c < |sums|
    ensures Sum(Column(NormalizeBy(m, sums), c)) == Sum(Column(m, c)) / sums[c]
  {
    SumDivided(Column(m, c), Column(NormalizeBy(m, sums), c), sums[c]);
  }

  /** Normalising by the true column totals makes every column sum to 1. */
  lemma {:induction false} NormalizedColumnsSumToOne(m: Matrix, n: nat)
    requires IsSquare(m, n) && NonZeroColumns(m, n)
    ensures forall c :: 0 <= c < n ==> Sum(Column(Normalize(m, n), c)) == 1.0
  {
    forall c | 0 <= c < n
      ensures Sum(Column(Normalize(m, n), c)) == 1.0
    {
      var sums := ColumnSums(m, n);
      assert sums[c] == Sum(Column(m, c)) && sums[c] != 0.0;
      NormalizedColumnSum(m, sums, c);
      assert Normalize(m, n) == NormalizeBy(m, sums);
      DivideBySelf(Sum(Column(Normalize(m, n), c)), sums[c]);
    }
  }

  /** A non-zero multiple of a non-zero number is non-zero. */
  lemma {:induction false} ScaledNonZero(x: real, k: real, y: real)
    requires x != 0.0 && k != 0.0 && y == k * x
    ensures y != 0.0
  {
  }

  /** A number divided by `k` times itself is `1 / k`. */
  lemma {:induction false} ScaledQuotient(x: real, k: real, y: real, q: real)
    requires x != 0.0 && k != 0.0 && y == k * x && q == x / y
    ensures q == 1.0 / k
  {
    assert q * y == x;
  }

  /** Normalising by `k` times the column totals (what accumulating the sums
      `k` times leaves behind) makes every column sum to `1 / k`. */
  lemma {:induction false} NormalizedByScaledSums(m: Matrix, n: nat, sums: seq<real>, k: real)
    requires IsSquare(m, n) && NonZeroColumns(m, n) && |sums| == n && k != 0.0
    requires forall c :: 0 <= c < n ==> sums[c] == k * Sum(Column(m, c))
    ensures NonZero(sums)
    ensures forall c :: 0 <= c < n ==> Sum(Column(NormalizeBy(m, sums), c)) == 1.0 / k
  {
    forall c | 0 <= c < n
      ensures sums[c] != 0.0
    {
      assert ColumnSums(m, n)[c] != 0.0;
      ScaledNonZero(Sum(Column(m, c)), k, sums[c]);
    }
    forall c | 0 <= c < n
      ensures Sum(Column(NormalizeBy(m, sums), c)) == 1.0 / k
    {
      NormalizedScaledColumn(m, sums, k, c);
    }
  }

  /** One column of the matrix normalised by `k` times its column totals. */
  lemma {:induction false} NormalizedScaledColumn(m: Matrix, sums: seq<real>, k: real, c: nat)
    requires IsRect(m, |sums|) && NonZero(sums) && c < |sums| && k != 0.0
    requires sums[c] == k * Sum(Column(m, c))
    ensures Sum(Column(NormalizeBy(m, sums), c)) == 1.0 / k
  {
    NormalizedColumnSum(m, sums, c);
    ScaledQuotient(Sum(Column(m, c)), k, sums[c], Sum(Column(NormalizeBy(m, sums), c)));
  }

  /** A column total grows by the entry of the last row. */
  lemma {:induction false} ColumnSumStep(m: Matrix, n: nat, c: nat)
    requires IsRect(m, n) && m != [] && c < n
    ensures Sum(Column(m, c)) == Sum(Column(m[..|m| - 1], c)) + m[|m| - 1][c]
  {
    assert Column(m, c)[..|m| - 1] == Column(m[..|m| - 1], c);
  }

  /** Summing all entries row by row or column by column gives the same total. */
  lemma {:induction false} RowSumsTotal(m: Matrix, n: nat)
    requires IsRect(m, n)
    ensures Sum(RowSums(m)) == Sum(ColumnSums(m, n))
  {
    if m == [] {
      SumConstant(ColumnSums(m, n), 0.0);
    } else {
      var k := |m| - 1;
      var p := m[..k];
      RowSumsTotal(p, n);
      assert RowSums(m)[..k] == RowSums(p);
      forall c | 0 <= c < n
        ensures ColumnSums(m, n)[c] == ColumnSums(p, n)[c] + m[k][c]
      {
        ColumnSumStep(m, n, c);
      }
      SumPointwiseAdd(ColumnSums(p, n), m[k], ColumnSums(m, n));
    }
  }

  /** When every column of a square matrix sums to 1, its row averages sum to 1. */
  lemma {:induction false} RowAveragesSumToOne(m: Matrix, n: nat)
    requires IsSquare(m, n) && n > 0
    requires forall c :: 0 <= c < n ==> Sum(Column(m, c)) == 1.0
    ensures Sum(RowAverages(m)) == 1.0
  {
    var rows, avg, cols := RowSums(m), RowAverages(m), ColumnSums(m, n);
    var size := n as real;
    SumDivided(rows, avg, size);
    RowSumsTotal(m, n);
    SumOnes(cols);
    DivideBySelf(Sum(avg), size);
  }

  /** Positive judgments give positive weights that sum to 1. */
  lemma {:induction false} PriorityVectorIsDistribution(m: Matrix, n: nat)
    requires IsSquare(m, n) && Positive(m) && n > 0
    ensures NonZeroColumns(m, n)
    ensures |PriorityVector(m, n)| == n
    ensures Sum(PriorityVector(m, n)) == 1.0
    ensures forall r :: 0 <= r < n ==> PriorityVector(m, n)[r] > 0.0
  {
    var sums := ColumnSums(m, n);
    forall c | 0 <= c < n
      ensures sums[c] > 0.0
    {
      SumPositive(Column(m, c));
    }
    assert NonZeroColumns(m, n);
    var nm := Normalize(m, n);
    var pv := PriorityVector(m, n);
    forall r | 0 <= r < n
      ensures pv[r] > 0.0
    {
      forall c | 0 <= c < n
        ensures nm[r][c] > 0.0
      {
        QuotientPositive(m[r][c], sums[c]);
      }
      SumPositive(nm[r]);
      QuotientPositive(Sum(nm[r]), n as real);
    }
    NormalizedColumnsSumToOne(m, n);
    RowAveragesSumToOne(nm, n);
  }

  /** Dividing two quotients over the same denominator cancels it. */
  lemma {:induction false} QuotientCancel(a: real, b: real, s: real)
    requires b != 0.0 && s != 0.0
    ensures (a / b) / (s / b) == a / s
  {
    var x, y := a / b, s / b;
    assert a == x * b && s == y * b;
    assert y != 0.0;
    assert (x * b) / (y * b) == x / y;
  }

  /** A consistent judgment divided by its column total is the row's share. */
  lemma {:induction false} EntryCancel(entry: real, total: real, vr: real, vc: real, s: real)
    requires vc != 0.0 && s != 0.0
    requires entry == vr / vc && total == s / vc
    ensures total != 0.0 && entry / total == vr / s
  {
    QuotientCancel(vr, vc, s);
  }

  /** A column of consistent judgments sums to the total of the hidden
      scores divided by the score of the column, a positive number. */
  lemma {:induction false} ConsistentColumnSum(m: Matrix, v: seq<real>, c: nat)
    requires IsConsistentWith(m, v) && c < |v|
    ensures Sum(v) > 0.0
    ensures Sum(Column(m, c)) == Sum(v) / v[c] > 0.0
  {
    SumPositive(v);
    SumDivided(v, Column(m, c), v[c]);
    QuotientPositive(Sum(v), v[c]);
  }

  /** Normalising consistent judgments gives, in every column, the hidden
      scores scaled to sum to 1. */
  lemma {:induction false} ConsistentNormalized(m: Matrix, v: seq<real>)
    requires IsConsistentWith(m, v) && |v| > 0
    ensures Sum(v) > 0.0
    ensures NonZeroColumns(m, |v|)
    ensures forall r, c :: 0 <= r < |v| && 0 <= c < |v| ==> Normalize(m, |v|)[r][c] == v[r] / Sum(v)
  {
    var n := |v|;
    SumPositive(v);
    var sums := ColumnSums(m, n);
    forall c | 0 <= c < n
      ensures sums[c] == Sum(v) / v[c] > 0.0
    {
      ConsistentColumnSum(m, v, c);
    }
    assert NonZeroColumns(m, n);
    var nm := Normalize(m, n);
    forall r, c | 0 <= r < n && 0 <= c < n
      ensures nm[r][c] == v[r] / Sum(v)
    {
      EntryCancel(m[r][c], sums[c], v[r], v[c], Sum(v));
    }
  }

  /** A square matrix whose rows are each constant averages to those constants. */
  lemma {:induction false} RowAveragesOfConstantRows(nm: Matrix, x: seq<real>)
    requires IsSquare(nm, |x|)
    requires forall r, c :: 0 <= r < |x| && 0 <= c < |x| ==> nm[r][c] == x[r]
    ensures RowAverages(nm) == x
  {
    var avg := RowAverages(nm);
    forall r | 0 <= r < |x|
      ensures avg[r] == x[r]
    {
      SumConstant(nm[r], x[r]);
      AverageOfCopies(Sum(nm[r]), x[r], |x|);
    }
  }

  /** The hidden scores scaled to sum to 1. */
  function Shares(v: seq<real>): (w: seq<real>)
    requires Sum(v) != 0.0
    ensures |w| == |v| && forall i :: 0 <= i < |v| ==> w[i] == v[i] / Sum(v)
  {
    seq(|v|, i requires 0 <= i < |v| => v[i] / Sum(v))
  }

  /** The shares of a sequence with a non-zero total sum to 1. */
  lemma {:induction false} SharesSumToOne(v: seq<real>)
    requires Sum(v) != 0.0
    ensures Sum(Shares(v)) == 1.0
  {
    SumDivided(v, Shares(v), Sum(v));
    DivideBySelf(Sum(Shares(v)), Sum(v));
  }

  /** For perfectly consistent judgments the priority vector recovers the
      hidden scores, scaled to sum to 1. */
  lemma {:induction false} ConsistentPriorityVector(m: Matrix, v: seq<real>)
    requires IsConsistentWith(m, v) && |v| > 0
    ensures Sum(v) > 0.0
    ensures NonZeroColumns(m, |v|)
    ensures PriorityVector(m, |v|) == Shares(v)
  {
    ConsistentNormalized(m, v);
    RowAveragesOfConstantRows(Normalize(m, |v|), Shares(v));
  }

  /** Row `r` of a two-dimensional array, as a sequence. */
  function RowOf(a: array2<real>, r: nat): (row: seq<real>)
    reads a
    requires r < a.Length0
    ensures |row| == a.Length1
    ensures forall c :: 0 <= c < a.Length1 ==> row[c] == a[r, c]
  {
    seq(a.Length1, c requires 0 <= c < a.Length1 reads a => a[r, c])
  }

  /** The contents of a two-dimensional array, row by row. */
  function Grid(a: array2<real>): (m: Matrix)
    reads a
    ensures |m| == a.Length0 && IsRect(m, a.Length1)
    ensures forall r :: 0 <= r < a.Length0 ==> m[r] == RowOf(a, r)
  {
    seq(a.Length0, r requires 0 <= r < a.Length0 reads a => RowOf(a, r))
  }

  /** An array whose every entry is the judgment over its column total holds
      the normalised matrix. */
  lemma {:induction false} GridNormalizedBy(a: array2<real>, m: Matrix, sums: seq<real>)
    requires IsRect(m, |sums|) && NonZero(sums)
    requires a.Length0 == |m| && a.Length1 == |sums|
    requires forall r, c :: 0 <= r < |m| && 0 <= c < |sums| ==> a[r, c] == m[r][c] / sums[c]
    ensures Grid(a) == NormalizeBy(m, sums)
  {
    forall r | 0 <= r < |m|
      ensures Grid(a)[r] == NormalizeBy(m, sums)[r]
    {
      assert RowOf(a, r) == NormalizeBy(m, sums)[r];
    }
  }
}
