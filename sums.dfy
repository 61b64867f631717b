/** Exact sums over sequences of reals, accumulated left to right as Python's
    built-in `sum` and the `+=` loops of the AHP engine do, with the algebra
    the rest of the model needs. */
module RealSums {

  /** Total of `s`, folded from the left. */
  function Sum(s: seq<real>): real
  {
    if s == [] then 0.0 else Sum(s[..|s| - 1]) + s[|s| - 1]
  }

  /** Element-wise products of two sequences, truncated to the shorter one as
      Python's `zip` truncates. */
  function Products(a: seq<real>, b: seq<real>): (p: seq<real>)
    ensures |p| == if |a| <= |b| then |a| else |b|
    ensures forall k :: 0 <= k < |p| ==> p[k] == a[k] * b[k]
  {
    var n := if |a| <= |b| then |a| else |b|;
    seq(n, k requires 0 <= k < n => a[k] * b[k])
  }

  /** The running total over a prefix grows by the next element. */
  lemma {:induction false} SumPrefixStep(s: seq<real>, i: nat)
    requires i < |s|
    ensures Sum(s[..i + 1]) == Sum(s[..i]) + s[i]
  {
    assert s[..i + 1][..i] == s[..i];
  }

  /** A constant factor can be taken out of a sum. */
  lemma {:induction false} SumScaled(s: seq<real>, t: seq<real>, c: real)
    requires |t| == |s|
    requires forall i :: 0 <= i < |s| ==> t[i] == c * s[i]
    ensures Sum(t) == c * Sum(s)
  {
    if s != [] {
      var k := |s| - 1;
      SumScaled(s[..k], t[..k], c);
    }
  }

  /** A common divisor can be taken out of a sum. */
  lemma {:induction false} SumDivided(s: seq<real>, t: seq<real>, d: real)
    requires d != 0.0
    requires |t| == |s|
    requires forall i :: 0 <= i < |s| ==> t[i] == s[i] / d
    ensures Sum(t) == Sum(s) / d
  {
    if s != [] {
      var k := |s| - 1;
      SumDivided(s[..k], t[..k], d);
      assert Sum(t) == Sum(s[..k]) / d + s[k] / d;
    }
  }

  /** The sum of an element-wise sum is the sum of the sums. */
  lemma {:induction false} SumPointwiseAdd(a: seq<real>, b: seq<real>, t: seq<real>)
    requires |a| == |b| == |t|
    requires forall i :: 0 <= i < |t| ==> t[i] == a[i] + b[i]
    ensures Sum(t) == Sum(a) + Sum(b)
  {
    if t != [] {
      var k := |t| - 1;
      SumPointwiseAdd(a[..k], b[..k], t[..k]);
    }
  }

  /** A sequence of `|s|` copies of `c` sums to `|s| * c`. */
  lemma {:induction false} SumConstant(s: seq<real>, c: real)
    requires forall i :: 0 <= i < |s| ==> s[i] == c
    ensures Sum(s) == |s| as real * c
  {
    if s != [] {
      SumConstant(s[..|s| - 1], c);
    }
  }

  /** A sequence of ones sums to its length. */
  lemma {:induction false} SumOnes(s: seq<real>)
    requires forall i :: 0 <= i < |s| ==> s[i] == 1.0
    ensures Sum(s) == |s| as real
  {
    SumConstant(s, 1.0);
  }

  /** A number divided by itself is one (kept apart so that the solver sees
      the division without the surrounding quantifiers). */
  lemma {:induction false} DivideBySelf(x: real, d: real)
    requires d != 0.0 && x == d / d
    ensures x == 1.0
  {
  }

  /** A quotient of positive numbers is positive. */
  lemma {:induction false} QuotientPositive(a: real, b: real)
    requires a > 0.0 && b > 0.0
    ensures a / b > 0.0
  {
  }

  /** The average of `n` copies of `x` is `x`. */
  lemma {:induction false} AverageOfCopies(total: real, x: real, n: nat)
    requires n > 0 && total == n as real * x
    ensures total / n as real == x
  {
  }

  /** Sums respect the element-wise order. */
  lemma {:induction false} SumMonotone(a: seq<real>, b: seq<real>)
    requires |a| == |b|
    requires forall i :: 0 <= i < |a| ==> a[i] <= b[i]
    ensures Sum(a) <= Sum(b)
  {
    if a != [] {
      var k := |a| - 1;
      SumMonotone(a[..k], b[..k]);
    }
  }

  /** Sums respect the element-wise order strictly once one element is strictly smaller. */
  lemma {:induction false} SumStrictlyMonotone(a: seq<real>, b: seq<real>, j: nat)
    requires |a| == |b| && j < |a|
    requires forall i :: 0 <= i < |a| ==> a[i] <= b[i]
    requires a[j] < b[j]
    ensures Sum(a) < Sum(b)
  {
    var k := |a| - 1;
    if j == k {
      SumMonotone(a[..k], b[..k]);
    } else {
      SumStrictlyMonotone(a[..k], b[..k], j);
    }
  }

  /** A non-empty sequence of positive numbers has a positive sum. */
  lemma {:induction false} SumPositive(s: seq<real>)
    requires s != []
    requires forall i :: 0 <= i < |s| ==> s[i] > 0.0
    ensures Sum(s) > 0.0
  {
    var k := |s| - 1;
    if k > 0 {
      SumPositive(s[..k]);
    }
  }

  /** A sequence of non-negative numbers has a non-negative sum, at least as large as any element. */
  lemma {:induction false} SumNonNegative(s: seq<real>)
    requires forall i :: 0 <= i < |s| ==> s[i] >= 0.0
    ensures Sum(s) >= 0.0
    ensures forall i :: 0 <= i < |s| ==> s[i] <= Sum(s)
  {
    if s != [] {
      SumNonNegative(s[..|s| - 1]);
    }
  }

  /** Element-wise bounds proportional to `w` carry over to the sums. */
  lemma {:induction false} SumBetween(t: seq<real>, w: seq<real>, lo: real, hi: real)
    requires |t| == |w|
    requires forall i :: 0 <= i < |t| ==> lo * w[i] <= t[i] <= hi * w[i]
    ensures lo * Sum(w) <= Sum(t) <= hi * Sum(w)
  {
    var l := seq(|w|, i requires 0 <= i < |w| => lo * w[i]);
    var h := seq(|w|, i requires 0 <= i < |w| => hi * w[i]);
    SumScaled(w, l, lo);
    SumScaled(w, h, hi);
    SumMonotone(l, t);
    SumMonotone(t, h);
  }
}
