/**
 Sums, means and extrema of sequences of reals: the numpy reductions (`np.sum`, `.mean()`,
 `.max()`, `np.average`) that the measurement code applies to its arrays, with the
 linearity and bound facts the proofs about the fit and the profile rest on.
 */
module RealSeq {
  import opened Numeric

  function Sum(s: seq<real>): real
  {
    if |s| == 0 then 0.0 else s[0] + Sum(s[1..])
  }

  function Mean(s: seq<real>): real
    requires |s| > 0
  {
    Sum(s) / |s| as real
  }

  /** `s - s.mean()`. */
  function Centered(s: seq<real>): seq<real>
    requires |s| > 0
  {
    seq(|s|, i requires 0 <= i < |s| => s[i] - Mean(s))
  }

  /** The element-wise product `u * v`. */
  function Products(u: seq<real>, v: seq<real>): seq<real>
    requires |u| == |v|
  {
    seq(|u|, i requires 0 <= i < |u| => u[i] * v[i])
  }

  /** `np.sum(s ** 2)`. */
  function SumSquares(s: seq<real>): real
  {
    Sum(Products(s, s))
  }

  /** `s.max()`: an element of `s` that no element exceeds. */
  function MaxOf(s: seq<real>): (m: real)
    requires |s| > 0
    ensures exists k :: 0 <= k < |s| && s[k] == m
    ensures forall i :: 0 <= i < |s| ==> s[i] <= m
  {
    if |s| == 1 then s[0]
    else
      var rest := MaxOf(s[1..]);
      assert forall i :: 1 <= i < |s| ==> s[i] == s[1..][i - 1];
      MaxReal(s[0], rest)
  }

  /** `np.max(np.abs(s))`: the largest magnitude, attained by some element. */
  function MaxAbs(s: seq<real>): (m: real)
    requires |s| > 0
    ensures exists k :: 0 <= k < |s| && Abs(s[k]) == m
    ensures forall i :: 0 <= i < |s| ==> Abs(s[i]) <= m
  {
    if |s| == 1 then Abs(s[0])
    else
      var rest := MaxAbs(s[1..]);
      assert forall i :: 1 <= i < |s| ==> s[i] == s[1..][i - 1];
      MaxReal(Abs(s[0]), rest)
  }

  /** Summation is additive: `sum(u + v) == sum(u) + sum(v)`. */
  lemma {:induction false} SumAdd(t: seq<real>, u: seq<real>, v: seq<real>)
    requires |t| == |u| == |v|
    requires forall i :: 0 <= i < |t| ==> t[i] == u[i] + v[i]
    ensures Sum(t) == Sum(u) + Sum(v)
  {
    if |t| > 0 {
      SumAdd(t[1..], u[1..], v[1..]);
    }
  }

  /** `sum(a * u) == a * sum(u)`. */
  lemma {:induction false} SumScaled(t: seq<real>, u: seq<real>, a: real)
    requires |t| == |u|
    requires forall i :: 0 <= i < |t| ==> t[i] == a * u[i]
    ensures Sum(t) == a * Sum(u)
  {
    if |t| > 0 {
      SumScaled(t[1..], u[1..], a);
    }
  }

  /** `sum(u + c) == sum(u) + len(u) * c`. */
  lemma {:induction false} SumShifted(t: seq<real>, u: seq<real>, c: real)
    requires |t| == |u|
    requires forall i :: 0 <= i < |t| ==> t[i] == u[i] + c
    ensures Sum(t) == Sum(u) + |t| as real * c
  {
    if |t| > 0 {
      SumShifted(t[1..], u[1..], c);
    }
  }

  /** Bounds on every element bound the sum. */
  lemma {:induction false} SumBounds(s: seq<real>, lo: real, hi: real)
    requires forall i :: 0 <= i < |s| ==> lo <= s[i] <= hi
    ensures |s| as real * lo <= Sum(s) <= |s| as real * hi
  {
    if |s| > 0 {
      SumBounds(s[1..], lo, hi);
    }
  }

  lemma {:induction false} SumNonnegative(s: seq<real>)
    requires forall i :: 0 <= i < |s| ==> 0.0 <= s[i]
    ensures 0.0 <= Sum(s)
  {
    if |s| > 0 {
      SumNonnegative(s[1..]);
    }
  }

  /** A sum of non-negative terms one of which is positive is positive. */
  lemma {:induction false} SumPositive(s: seq<real>, k: int)
    requires forall i :: 0 <= i < |s| ==> 0.0 <= s[i]
    requires 0 <= k < |s| && 0.0 < s[k]
    ensures 0.0 < Sum(s)
  {
    if k == 0 {
      SumNonnegative(s[1..]);
    } else {
      SumPositive(s[1..], k - 1);
    }
  }

  /** A sum of squares is never negative. */
  lemma SumSquaresNonnegative(s: seq<real>)
    ensures 0.0 <= SumSquares(s)
  {
    SquaresNonnegative(s);
    SumNonnegative(Products(s, s));
  }

  /** A sum of squares with a non-zero term is positive. */
  lemma SumSquaresPositive(s: seq<real>, k: int)
    requires 0 <= k < |s| && s[k] != 0.0
    ensures 0.0 < SumSquares(s)
  {
    SquaresNonnegative(s);
    var p := Products(s, s);
    SquarePositive(s[k], p[k]);
    SumPositive(p, k);
  }

  lemma SquaresNonnegative(s: seq<real>)
    ensures forall i :: 0 <= i < |s| ==> 0.0 <= Products(s, s)[i]
  {
    forall i | 0 <= i < |s| ensures 0.0 <= Products(s, s)[i] {
      SquareNonnegative(s[i]);
    }
  }

  /** `a * u`, element by element. */
  function Scaled(a: real, u: seq<real>): seq<real>
  {
    seq(|u|, i requires 0 <= i < |u| => a * u[i])
  }

  /** Summation is additive over four sequences. */
  lemma {:induction false} SumOfFour(t: seq<real>, u: seq<real>, v: seq<real>, w: seq<real>,
                                     x: seq<real>)
    requires |t| == |u| == |v| == |w| == |x|
    requires forall i :: 0 <= i < |t| ==> t[i] == u[i] + v[i] + w[i] + x[i]
    ensures Sum(t) == Sum(u) + Sum(v) + Sum(w) + Sum(x)
  {
    if |t| > 0 {
      SumOfFour(t[1..], u[1..], v[1..], w[1..], x[1..]);
    }
  }

  lemma ProductWithZero(p: real, a: real, z: real)
    requires z == 0.0 && p == a * z
    ensures p == 0.0
  {
  }

  /** `sum(a * u) == a * sum(u)`, for the `Scaled` sequence itself. */
  lemma {:induction false} ScaledSum(a: real, u: seq<real>)
    ensures Sum(Scaled(a, u)) == a * Sum(u)
  {
    if |u| > 0 {
      ScaledTail(a, u);
      ScaledSum(a, u[1..]);
      Distribute(a, u[0], Sum(u[1..]));
    }
  }

  lemma ScaledTail(a: real, u: seq<real>)
    requires |u| > 0
    ensures Scaled(a, u)[1..] == Scaled(a, u[1..])
  {
    assert |Scaled(a, u)[1..]| == |Scaled(a, u[1..])|;
    forall i | 0 <= i < |u| - 1 ensures Scaled(a, u)[1..][i] == Scaled(a, u[1..])[i] {
    }
  }

  /** `u * (a * v) == a * (u * v)`, element by element. */
  lemma ProductsScaled(u: seq<real>, v: seq<real>, a: real)
    requires |u| == |v|
    ensures Products(u, Scaled(a, v)) == Scaled(a, Products(u, v))
  {
    forall i | 0 <= i < |u| ensures Products(u, Scaled(a, v))[i] == Scaled(a, Products(u, v))[i] {
      ReorderProduct(u[i], v[i], a);
    }
  }

  /** `(a * u) ** 2 == a^2 * u ** 2`, element by element. */
  lemma SquaresScaled(u: seq<real>, a: real)
    ensures Products(Scaled(a, u), Scaled(a, u)) == Scaled(a * a, Products(u, u))
  {
    forall i | 0 <= i < |u|
      ensures Products(Scaled(a, u), Scaled(a, u))[i] == Scaled(a * a, Products(u, u))[i]
    {
      SquareOfScaled(u[i], a);
    }
  }

  lemma ReorderProduct(x: real, y: real, a: real)
    ensures x * (a * y) == a * (x * y)
  {
  }

  lemma SquareOfScaled(x: real, a: real)
    ensures (a * x) * (a * x) == (a * a) * (x * x)
  {
  }

  /** A sequence of zeros has a zero sum of squares. */
  lemma SumSquaresOfZeros(s: seq<real>)
    requires forall i :: 0 <= i < |s| ==> s[i] == 0.0
    ensures SumSquares(s) == 0.0
  {
    assert Products(s, s) == seq(|s|, i => 0.0);
    SumOfZeros(|s|);
  }

  lemma {:induction false} SumOfZeros(k: nat)
    ensures Sum(seq(k, i => 0.0)) == 0.0
  {
    if k > 0 {
      assert seq(k, i => 0.0)[1..] == seq(k - 1, i => 0.0);
      SumOfZeros(k - 1);
    }
  }

  /** Scaling a sequence that sums to zero keeps its sum zero. */
  lemma ScaledSumZero(a: real, u: seq<real>)
    requires Sum(u) == 0.0
    ensures Sum(Scaled(a, u)) == 0.0
  {
    ScaledSum(a, u);
    ProductWithZero(Sum(Scaled(a, u)), a, Sum(u));
  }

  /** The deviations from the mean sum to zero. */
  lemma SumCentered(s: seq<real>)
    requires |s| > 0
    ensures Sum(Centered(s)) == 0.0
  {
    SumShifted(Centered(s), s, -Mean(s));
  }

  /** Appending a value adds it to the sum. */
  lemma {:induction false} SumAppend(s: seq<real>, x: real)
    ensures Sum(s + [x]) == Sum(s) + x
  {
    if |s| > 0 {
      assert (s + [x])[1..] == s[1..] + [x];
      SumAppend(s[1..], x);
    }
  }

  lemma MeanOfOne(s: seq<real>)
    requires |s| == 1
    ensures Sum(s) == s[0] && Mean(s) == s[0]
  {
    assert s[1..] == [];
  }

  /** The mean of values that all lie in [lo, hi] lies in [lo, hi]. */
  lemma MeanBounds(s: seq<real>, lo: real, hi: real)
    requires |s| > 0
    requires forall i :: 0 <= i < |s| ==> lo <= s[i] <= hi
    ensures lo <= Mean(s) <= hi
  {
    SumBounds(s, lo, hi);
    var n := |s| as real;
    assert Mean(s) * n == Sum(s);
  }

  /**
   A weighted sum `sum(v * w)` with non-negative weights lies between `lo * sum(w)` and
   `hi * sum(w)` when every value lies in [lo, hi].
   */
  lemma WeightedSumBounds(p: seq<real>, v: seq<real>, w: seq<real>, lo: real, hi: real)
    requires |p| == |v| == |w|
    requires forall i :: 0 <= i < |p| ==> p[i] == v[i] * w[i]
    requires forall i :: 0 <= i < |w| ==> 0.0 <= w[i]
    requires forall i :: 0 <= i < |v| ==> lo <= v[i] <= hi
    ensures lo * Sum(w) <= Sum(p) <= hi * Sum(w)
  {
    WeightedSumLower(p, v, w, lo);
    WeightedSumUpper(p, v, w, hi);
  }

  lemma {:induction false} WeightedSumLower(p: seq<real>, v: seq<real>, w: seq<real>, lo: real)
    requires |p| == |v| == |w|
    requires forall i :: 0 <= i < |p| ==> p[i] == v[i] * w[i]
    requires forall i :: 0 <= i < |w| ==> 0.0 <= w[i]
    requires forall i :: 0 <= i < |v| ==> lo <= v[i]
    ensures lo * Sum(w) <= Sum(p)
  {
    if |p| > 0 {
      WeightedSumLower(p[1..], v[1..], w[1..], lo);
      WeightedTermBounds(v[0], w[0], lo, v[0]);
      WeightedStepLower(p[0], Sum(p[1..]), Sum(p), w[0], Sum(w[1..]), Sum(w), lo);
    } else {
      ProductWithZero(lo * Sum(w), lo, Sum(w));
    }
  }

  lemma {:induction false} WeightedSumUpper(p: seq<real>, v: seq<real>, w: seq<real>, hi: real)
    requires |p| == |v| == |w|
    requires forall i :: 0 <= i < |p| ==> p[i] == v[i] * w[i]
    requires forall i :: 0 <= i < |w| ==> 0.0 <= w[i]
    requires forall i :: 0 <= i < |v| ==> v[i] <= hi
    ensures Sum(p) <= hi * Sum(w)
  {
    if |p| > 0 {
      WeightedSumUpper(p[1..], v[1..], w[1..], hi);
      WeightedTermBounds(v[0], w[0], v[0], hi);
      WeightedStepUpper(p[0], Sum(p[1..]), Sum(p), w[0], Sum(w[1..]), Sum(w), hi);
    } else {
      ProductWithZero(hi * Sum(w), hi, Sum(w));
    }
  }

  lemma WeightedTermBounds(v: real, w: real, lo: real, hi: real)
    requires 0.0 <= w && lo <= v <= hi
    ensures lo * w <= v * w <= hi * w
  {
    assert (v - lo) * w >= 0.0;
    assert (hi - v) * w >= 0.0;
  }

  /** One step of the weighted-sum induction, for the lower bound. */
  lemma WeightedStepLower(head: real, rest: real, total: real, w0: real, wrest: real, wtotal: real,
                          k: real)
    requires total == head + rest && wtotal == w0 + wrest
    requires k * w0 <= head && k * wrest <= rest
    ensures k * wtotal <= total
  {
    Distribute(k, w0, wrest);
  }

  /** One step of the weighted-sum induction, for the upper bound. */
  lemma WeightedStepUpper(head: real, rest: real, total: real, w0: real, wrest: real, wtotal: real,
                          k: real)
    requires total == head + rest && wtotal == w0 + wrest
    requires head <= k * w0 && rest <= k * wrest
    ensures total <= k * wtotal
  {
    Distribute(k, w0, wrest);
  }

  lemma Distribute(k: real, a: real, b: real)
    ensures k * (a + b) == k * a + k * b
  {
  }

  lemma MeanOfAffine(my: real, mn: real, sumY: real, sumN: real, count: real, a: real, b: real)
    requires 0.0 < count && sumY == a * sumN + count * b
    requires my * count == sumY && mn * count == sumN
    ensures my == a * mn + b
  {
    assert (my - a * mn - b) * count == 0.0;
  }

  /** Data on the line y = a n + b sum to a sum(n) + N b ... */
  lemma {:induction false} AffineSum(n: seq<real>, y: seq<real>, count: real, a: real, b: real)
    requires |n| == |y| && count == |n| as real
    requires forall i :: 0 <= i < |n| ==> y[i] == a * n[i] + b
    ensures Sum(y) == a * Sum(n) + count * b
  {
    if |n| > 0 {
      AffineSum(n[1..], y[1..], count - 1.0, a, b);
      AffineStep(Sum(y), y[0], Sum(y[1..]), Sum(n), n[0], Sum(n[1..]), count, a, b);
    }
  }

  lemma AffineStep(total: real, head: real, rest: real, nTotal: real, nHead: real, nRest: real,
                   count: real, a: real, b: real)
    requires total == head + rest && nTotal == nHead + nRest
    requires head == a * nHead + b && rest == a * nRest + (count - 1.0) * b
    ensures total == a * nTotal + count * b
  {
    Distribute(a, nHead, nRest);
  }

  /** ... so mean(y) = a mean(n) + b. */
  lemma AffineMean(n: seq<real>, y: seq<real>, count: real, a: real, b: real)
    requires |n| == |y| > 0 && count == |n| as real
    requires Sum(y) == a * Sum(n) + count * b
    ensures Mean(y) == a * Mean(n) + b
  {
    DivisionCancels(Sum(y), count, Mean(y));
    DivisionCancels(Sum(n), count, Mean(n));
    MeanOfAffine(Mean(y), Mean(n), Sum(y), Sum(n), count, a, b);
  }

  lemma DeviationOfAffine(y: real, n: real, my: real, m: real, a: real, b: real)
    requires y == a * n + b && my == a * m + b
    ensures y - my == a * (n - m)
  {
  }

  /** ... and deviations dy = a dn. */
  lemma AffineDeviations(n: seq<real>, y: seq<real>, mn: real, my: real, a: real, b: real)
    requires |n| == |y| > 0
    requires forall i :: 0 <= i < |n| ==> y[i] == a * n[i] + b
    requires mn == Mean(n) && my == Mean(y) && my == a * mn + b
    ensures Centered(y) == Scaled(a, Centered(n))
  {
    var dy := Centered(y);
    var sdn := Scaled(a, Centered(n));
    forall i | 0 <= i < |n| ensures dy[i] == sdn[i] {
      DeviationOfAffine(y[i], n[i], my, mn, a, b);
    }
    assert |dy| == |sdn|;
  }

  /** Values that are all equal have no spread about their mean. */
  lemma ConstantSpread(y: seq<real>)
    requires |y| > 0
    requires forall i :: 0 <= i < |y| ==> y[i] == y[0]
    ensures SumSquares(Centered(y)) == 0.0
  {
    AffineSum(y, y, |y| as real, 0.0, y[0]);
    AffineMean(y, y, |y| as real, 0.0, y[0]);
    SumSquaresOfZeros(Centered(y));
  }

  /** Deviations dy = a dn have covariance a Sxx with dn ... */
  lemma ScaledCovariance(dn: seq<real>, dy: seq<real>, a: real)
    requires dy == Scaled(a, dn)
    ensures Sum(Products(dn, dy)) == a * SumSquares(dn)
  {
    ProductsScaled(dn, dn, a);
    ScaledSum(a, Products(dn, dn));
  }

  /** ... and a positive spread whenever dn has one and a != 0. */
  lemma ScaledSpread(dn: seq<real>, dy: seq<real>, a: real)
    requires dy == Scaled(a, dn) && a != 0.0 && 0.0 < SumSquares(dn)
    ensures 0.0 < SumSquares(dy)
  {
    SquaresScaled(dn, a);
    ScaledSum(a * a, Products(dn, dn));
    SquarePositive(a, a * a);
    ProductPositive(a * a, SumSquares(dn), SumSquares(dy));
  }
}
