/**
 The curvature fit of `fit_radius_squared_vs_n`: an ordinary least-squares line through the
 points (n, r^2), where n runs over consecutive dark-ring orders, followed by the residual
 variance, the standard errors of slope and intercept, the coefficient of determination and
 the conversion of the slope into the lens' radius of curvature R = slope / wavelength.

 Doubles are modelled as reals; `Float` marks the fields that become NaN. `np.sqrt` is the
 function parameter `sqrt`; the lemmas that need its meaning require `IsSqrt(sqrt)`.
 */
module Calculation {
  import opened Wrappers
  import opened Numeric
  import opened RealSeq

  /** The sodium D line, the default `wavelength_nm`. */
  const DefaultWavelengthNm: real := 589.3
  /** The default `ring_index_start`: the first detected ring is order 1. */
  const DefaultRingIndexStart: int := 1
  /** One nanometre in millimetres. */
  const NmToMm: real := 0.000001

  /** The ways `np.polyfit(n, r2, 1)` raises instead of returning a line. */
  datatype FitError =
    | EmptyInput       // no radius at all: polyfit rejects an empty vector (TypeError)
    | SingularScaling  // one radius at order 0: polyfit's column scaling computes 0/0 and lstsq fails

  /** The dictionary returned by `fit_radius_squared_vs_n`. */
  datatype FitResult = FitResult(
    orders: seq<real>,          // "n"
    radiiMm: seq<real>,         // "r_mm"
    radiiSqMm2: seq<real>,      // "r2_mm2"
    slope: real,
    intercept: real,
    slopeSe: Float,
    interceptSe: Float,
    curvatureRadiusMm: real,    // "R_mm"
    curvatureRadiusSeMm: Float, // "R_se_mm"
    rSquared: real)

  /** `np.arange(start, start + count)`: consecutive ring orders. */
  function Orders(start: int, count: nat): (n: seq<real>)
    ensures |n| == count && forall i :: 0 <= i < count ==> n[i] == (start + i) as real
  {
    seq(count, i => (start + i) as real)
  }

  /** `r ** 2`. */
  function Squares(r: seq<real>): (q: seq<real>)
    ensures |q| == |r| && forall i :: 0 <= i < |r| ==> q[i] == r[i] * r[i]
  {
    Products(r, r)
  }

  /** Sum of squared deviations of the orders from their mean. */
  function Sxx(n: seq<real>): real
    requires |n| > 0
  {
    SumSquares(Centered(n))
  }

  /** Sum of products of the deviations of n and y from their means. */
  function Sxy(n: seq<real>, y: seq<real>): real
    requires |n| == |y| > 0
  {
    Sum(Products(Centered(n), Centered(y)))
  }

  /** `y - (slope * n + intercept)`: the residuals against a line. */
  function Residuals(n: seq<real>, y: seq<real>, slope: real, intercept: real): seq<real>
    requires |n| == |y|
  {
    seq(|n|, i requires 0 <= i < |n| => y[i] - (slope * n[i] + intercept))
  }

  /** The sum of squared residuals of a line, the quantity least squares minimises. */
  function SquaredError(n: seq<real>, y: seq<real>, slope: real, intercept: real): real
    requires |n| == |y|
  {
    SumSquares(Residuals(n, y, slope, intercept))
  }

  /**
   `np.polyfit(n, y, 1)`, returning (slope, intercept). With two or more points of distinct
   abscissae this is the closed-form least-squares line. With a single point numpy returns the
   minimum-norm solution of its column-scaled system, which is (y/(2n), y/2); a single point at
   n = 0 makes the scaling divide zero by zero and the solver fail.
   */
  function PolyFit1(n: seq<real>, y: seq<real>): (r: Result<(real, real), FitError>)
    requires |n| == |y|
    requires 2 <= |n| ==> 0.0 < Sxx(n)
    ensures r.Failure? <==> |n| == 0 || (|n| == 1 && n[0] == 0.0)
    ensures r.Success? ==> r.value.0 * Mean(n) + r.value.1 == Mean(y)
    ensures |n| == 1 && r.Success? ==> r.value.0 * n[0] == r.value.1 && 2.0 * r.value.1 == y[0]
  {
    if |n| == 0 then Failure(EmptyInput)
    else if |n| == 1 then
      if n[0] == 0.0 then Failure(SingularScaling)
      else
        MeanOfOne(n);
        MeanOfOne(y);
        Success((y[0] / (2.0 * n[0]), y[0] / 2.0))
    else
      var slope := Sxy(n, y) / Sxx(n);
      Success((slope, Mean(y) - slope * Mean(n)))
  }

  /** `max(1, len(n) - 2)`: the residual degrees of freedom, floored at one. */
  function Dof(count: nat): (d: nat)
    ensures 1 <= d && 2 + d >= count
    ensures d == 1 || d == count - 2
  {
    MaxInt(1, count - 2)
  }

  /**
   `sigma2 = sum(residuals ** 2) / dof`: the residual variance, never negative, and `dof` times
   it is the squared error of the line.
   */
  function ResidualVariance(n: seq<real>, y: seq<real>, slope: real, intercept: real): (s2: real)
    requires |n| == |y|
    ensures 0.0 <= s2
    ensures s2 * Dof(|n|) as real == SquaredError(n, y, slope, intercept)
  {
    SquaredErrorNonnegative(n, y, slope, intercept);
    var d := Dof(|n|) as real;
    DivisionCancels(SquaredError(n, y, slope, intercept), d, SquaredError(n, y, slope, intercept) / d);
    SquaredError(n, y, slope, intercept) / d
  }

  /** `sqrt(sigma2 / Sxx)`, NaN when the orders have no spread. */
  function SlopeStandardError(sigma2: real, sxx: real, sqrt: real -> real): (se: Float)
    ensures se.Finite? <==> 0.0 < sxx
  {
    if sxx > 0.0 then Finite(sqrt(sigma2 / sxx)) else NonFinite
  }

  /** `sqrt(sigma2 * (1 / N + mean(n)^2 / Sxx))`, NaN when the orders have no spread. */
  function InterceptStandardError(sigma2: real, sxx: real, count: nat, meanOrder: real,
                                  sqrt: real -> real): (se: Float)
    requires 0 < count
    ensures se.Finite? <==> 0.0 < sxx
  {
    if sxx > 0.0 then Finite(sqrt(sigma2 * (1.0 / count as real + meanOrder * meanOrder / sxx)))
    else NonFinite
  }

  /** `1 - ss_res / ss_tot`, or 0 when the squared radii do not vary. */
  function RSquared(ssRes: real, ssTot: real): real
  {
    if ssTot > 0.0 then 1.0 - ssRes / ssTot else 0.0
  }

  /** The statistics of `fit_radius_squared_vs_n` once polyfit has returned (slope, intercept). */
  function FitStatistics(n: seq<real>, radiiMm: seq<real>, r2: seq<real>, slope: real, intercept: real,
                         wavelengthNm: real, sqrt: real -> real): (f: FitResult)
    requires |n| == |r2| == |radiiMm| > 0 && wavelengthNm != 0.0
    ensures f.orders == n && f.radiiMm == radiiMm && f.radiiSqMm2 == r2
    ensures f.slope == slope && f.intercept == intercept
    ensures f.slopeSe.Finite? <==> 0.0 < Sxx(n)
    ensures f.interceptSe.Finite? <==> 0.0 < Sxx(n)
    ensures f.curvatureRadiusMm == slope / (wavelengthNm * NmToMm)
    ensures f.curvatureRadiusSeMm.Finite? <==> f.slopeSe.Finite?
    ensures f.curvatureRadiusSeMm.Finite? ==>
      f.curvatureRadiusSeMm.value == f.slopeSe.value / (wavelengthNm * NmToMm)
    ensures SumSquares(Centered(r2)) == 0.0 ==> f.rSquared == 0.0
    ensures 0.0 < SumSquares(Centered(r2)) ==>
      f.rSquared == 1.0 - SquaredError(n, r2, slope, intercept) / SumSquares(Centered(r2))
  {
    var sigma2 := ResidualVariance(n, r2, slope, intercept);
    var sxx := Sxx(n);
    var slopeSe := SlopeStandardError(sigma2, sxx, sqrt);
    var interceptSe := InterceptStandardError(sigma2, sxx, |n|, Mean(n), sqrt);
    var rSquared := RSquared(SquaredError(n, r2, slope, intercept), SumSquares(Centered(r2)));
    var wavelengthMm := wavelengthNm * NmToMm;
    var seMm := if slopeSe.Finite? then Finite(slopeSe.value / wavelengthMm) else NonFinite;
    FitResult(n, radiiMm, r2, slope, intercept, slopeSe, interceptSe,
              slope / wavelengthMm, seMm, rSquared)
  }

  /** `fit_radius_squared_vs_n(radii_mm, wavelength_nm, ring_index_start)`. */
  function FitRadiusSquaredVsN(radiiMm: seq<real>, wavelengthNm: real, ringIndexStart: int,
                               sqrt: real -> real): (r: Result<FitResult, FitError>)
    requires wavelengthNm != 0.0
    ensures r.Failure? <==> |radiiMm| == 0 || (|radiiMm| == 1 && ringIndexStart == 0)
    ensures r.Success? ==>
      && r.value.radiiMm == radiiMm
      && |r.value.orders| == |radiiMm| && |r.value.radiiSqMm2| == |radiiMm|
      && (forall i :: 0 <= i < |radiiMm| ==> r.value.orders[i] == (ringIndexStart + i) as real)
      && (forall i :: 0 <= i < |radiiMm| ==> r.value.radiiSqMm2[i] == radiiMm[i] * radiiMm[i])
      && (r.value.slopeSe.Finite? <==> 2 <= |radiiMm|)
      && (r.value.interceptSe.Finite? <==> 2 <= |radiiMm|)
      && r.value.curvatureRadiusMm == r.value.slope / (wavelengthNm * NmToMm)
      && (r.value.curvatureRadiusSeMm.Finite? <==> r.value.slopeSe.Finite?)
      && (r.value.curvatureRadiusSeMm.Finite? ==>
            r.value.curvatureRadiusSeMm.value == r.value.slopeSe.value / (wavelengthNm * NmToMm))
      && (SumSquares(Centered(r.value.radiiSqMm2)) == 0.0 ==> r.value.rSquared == 0.0)
      && (0.0 < SumSquares(Centered(r.value.radiiSqMm2)) ==>
            r.value.rSquared == 1.0 - SquaredError(r.value.orders, r.value.radiiSqMm2, r.value.slope,
                                                   r.value.intercept)
                                      / SumSquares(Centered(r.value.radiiSqMm2)))
  {
    var n := Orders(ringIndexStart, |radiiMm|);
    var r2 := Squares(radiiMm);
    OrdersSpread(ringIndexStart, |radiiMm|);
    match PolyFit1(n, r2)
    case Failure(e) => Failure(e)
    case Success((slope, intercept)) =>
      Success(FitStatistics(n, radiiMm, r2, slope, intercept, wavelengthNm, sqrt))
  }

  // ---------------------------------------------------------------------------------------
  // Lemmas

  lemma SquaredErrorNonnegative(n: seq<real>, y: seq<real>, slope: real, intercept: real)
    requires |n| == |y|
    ensures 0.0 <= SquaredError(n, y, slope, intercept)
  {
    var e := Residuals(n, y, slope, intercept);
    SumNonnegative(Products(e, e));
  }

  /**
   Consecutive orders have a positive spread exactly when there are at least two of them, so
   the standard errors are NaN only for a single ring.
   */
  lemma OrdersSpread(start: int, count: nat)
    ensures 1 <= count ==> (0.0 < Sxx(Orders(start, count)) <==> 2 <= count)
  {
    if 1 <= count {
      var n := Orders(start, count);
      var d := Centered(n);
      if count == 1 {
        MeanOfOne(n);
        var dd := Products(d, d);
        assert dd[0] == 0.0;
        MeanOfOne(dd);
      } else {
        assert d[1] == d[0] + 1.0;
        if d[0] != 0.0 {
          SumSquaresPositive(d, 0);
        } else {
          SumSquaresPositive(d, 1);
        }
      }
    }
  }

  lemma LineThroughCentroid(y: real, n: real, s: real, my: real, m: real)
    ensures y - (s * n + (my - s * m)) == (y - my) + (-s) * (n - m)
  {
  }

  lemma ResidualTimesDeviation(e: real, dy: real, dn: real, s: real)
    requires e == dy + (-s) * dn
    ensures e * dn == dn * dy + (-s) * (dn * dn)
  {
  }

  lemma ResidualTimesOrder(e: real, n: real, dn: real, m: real)
    requires dn == n - m
    ensures e * n == e * dn + m * e
  {
  }

  /** Element by element, the residuals of a line through the centroid are dy - s dn. */
  lemma CentroidLinePointwise(n: seq<real>, y: seq<real>, s: real)
    requires |n| == |y| > 0
    ensures forall i :: 0 <= i < |n| ==>
      Residuals(n, y, s, Mean(y) - s * Mean(n))[i] == Centered(y)[i] + Scaled(-s, Centered(n))[i]
  {
    forall i | 0 <= i < |n|
      ensures Residuals(n, y, s, Mean(y) - s * Mean(n))[i]
           == Centered(y)[i] + Scaled(-s, Centered(n))[i]
    {
      LineThroughCentroid(y[i], n[i], s, Mean(y), Mean(n));
    }
  }

  lemma DeviationProductsPointwise(e: seq<real>, dy: seq<real>, dn: seq<real>, s: real)
    requires |e| == |dy| == |dn|
    requires forall i :: 0 <= i < |e| ==> e[i] == dy[i] + Scaled(-s, dn)[i]
    ensures forall i :: 0 <= i < |e| ==>
      Products(e, dn)[i] == Products(dn, dy)[i] + Scaled(-s, Products(dn, dn))[i]
  {
    forall i | 0 <= i < |e|
      ensures Products(e, dn)[i] == Products(dn, dy)[i] + Scaled(-s, Products(dn, dn))[i]
    {
      ResidualTimesDeviation(e[i], dy[i], dn[i], s);
    }
  }

  lemma ShiftProductsPointwise(e: seq<real>, n: seq<real>, dn: seq<real>, m: real)
    requires |e| == |n| == |dn|
    requires forall i :: 0 <= i < |n| ==> dn[i] == n[i] - m
    ensures forall i :: 0 <= i < |n| ==> Products(e, n)[i] == Products(e, dn)[i] + Scaled(m, e)[i]
  {
    forall i | 0 <= i < |n| ensures Products(e, n)[i] == Products(e, dn)[i] + Scaled(m, e)[i] {
      ResidualTimesOrder(e[i], n[i], dn[i], m);
    }
  }

  /** The residuals of any line through the centroid (mean(n), mean(y)) sum to zero. */
  lemma CentroidResidualsSum(n: seq<real>, y: seq<real>, s: real)
    requires |n| == |y| > 0
    ensures Sum(Residuals(n, y, s, Mean(y) - s * Mean(n))) == 0.0
  {
    CentroidLinePointwise(n, y, s);
    SumCentered(n);
    SumCentered(y);
    ScaledSumZero(-s, Centered(n));
    SumAdd(Residuals(n, y, s, Mean(y) - s * Mean(n)), Centered(y), Scaled(-s, Centered(n)));
  }

  /** Their inner product with the deviations of the orders is Sxy - s Sxx. */
  lemma CentroidResidualsAgainstDeviations(n: seq<real>, y: seq<real>, s: real)
    requires |n| == |y| > 0
    ensures Sum(Products(Residuals(n, y, s, Mean(y) - s * Mean(n)), Centered(n)))
         == Sxy(n, y) + (-s) * Sxx(n)
  {
    CentroidLinePointwise(n, y, s);
    DeviationInnerProduct(Residuals(n, y, s, Mean(y) - s * Mean(n)), Centered(y), Centered(n), s);
  }

  /** The inner product of residuals e = dy - s dn with dn. */
  lemma DeviationInnerProduct(e: seq<real>, dy: seq<real>, dn: seq<real>, s: real)
    requires |e| == |dy| == |dn|
    requires forall i :: 0 <= i < |e| ==> e[i] == dy[i] + Scaled(-s, dn)[i]
    ensures Sum(Products(e, dn)) == Sum(Products(dn, dy)) + (-s) * Sum(Products(dn, dn))
  {
    DeviationInnerProductSplit(e, dy, dn, s);
    ScaledInnerProduct(Sum(Products(e, dn)), Sum(Products(dn, dy)), dn, s);
  }

  lemma DeviationInnerProductSplit(e: seq<real>, dy: seq<real>, dn: seq<real>, s: real)
    requires |e| == |dy| == |dn|
    requires forall i :: 0 <= i < |e| ==> e[i] == dy[i] + Scaled(-s, dn)[i]
    ensures Sum(Products(e, dn)) == Sum(Products(dn, dy)) + Sum(Scaled(-s, Products(dn, dn)))
  {
    DeviationProductsPointwise(e, dy, dn, s);
    SumAdd(Products(e, dn), Products(dn, dy), Scaled(-s, Products(dn, dn)));
  }

  lemma ScaledInnerProduct(t: real, u: real, dn: seq<real>, s: real)
    requires t == u + Sum(Scaled(-s, Products(dn, dn)))
    ensures t == u + (-s) * Sum(Products(dn, dn))
  {
    ScaledSum(-s, Products(dn, dn));
  }

  /** Residuals summing to zero are as orthogonal to the orders as to their deviations. */
  lemma CentroidResidualsAgainstOrders(n: seq<real>, y: seq<real>, s: real)
    requires |n| == |y| > 0
    requires Sum(Residuals(n, y, s, Mean(y) - s * Mean(n))) == 0.0
    ensures var e := Residuals(n, y, s, Mean(y) - s * Mean(n));
      Sum(Products(e, n)) == Sum(Products(e, Centered(n)))
  {
    var e := Residuals(n, y, s, Mean(y) - s * Mean(n));
    ShiftProductsPointwise(e, n, Centered(n), Mean(n));
    ScaledSumZero(Mean(n), e);
    SumAdd(Products(e, n), Products(e, Centered(n)), Scaled(Mean(n), e));
  }

  /**
   For any line through the centroid with slope s, the residuals sum to zero and their inner
   product with the orders is Sxy - s Sxx.
   */
  lemma CentroidLineResiduals(n: seq<real>, y: seq<real>, s: real)
    requires |n| == |y| > 0
    ensures var e := Residuals(n, y, s, Mean(y) - s * Mean(n));
      Sum(e) == 0.0 && Sum(Products(e, n)) == Sxy(n, y) + (-s) * Sxx(n)
  {
    CentroidResidualsSum(n, y, s);
    CentroidResidualsAgainstDeviations(n, y, s);
    CentroidResidualsAgainstOrders(n, y, s);
  }

  /**
   The normal equations: the residuals of the fitted line sum to zero and are orthogonal to
   the orders.
   */
  lemma NormalEquations(n: seq<real>, y: seq<real>)
    requires |n| == |y|
    requires 2 <= |n| ==> 0.0 < Sxx(n)
    requires PolyFit1(n, y).Success?
    ensures var (s, c) := PolyFit1(n, y).value;
      Sum(Residuals(n, y, s, c)) == 0.0 && Sum(Products(Residuals(n, y, s, c), n)) == 0.0
  {
    var (s, c) := PolyFit1(n, y).value;
    if |n| == 1 {
      SinglePointResiduals(n, y);
    } else {
      DivisionCancels(Sxy(n, y), Sxx(n), s);
      ManyPointResiduals(n, y, s, c);
    }
  }

  /** The normal equations hold for the line through the centroid with slope Sxy / Sxx. */
  lemma ManyPointResiduals(n: seq<real>, y: seq<real>, s: real, c: real)
    requires |n| == |y| > 0
    requires s * Sxx(n) == Sxy(n, y) && c == Mean(y) - s * Mean(n)
    ensures Sum(Residuals(n, y, s, c)) == 0.0 && Sum(Products(Residuals(n, y, s, c), n)) == 0.0
  {
    CentroidLineResiduals(n, y, s);
  }

  lemma SinglePointResidual(y: real, n: real)
    requires n != 0.0
    ensures y - (y / (2.0 * n) * n + y / 2.0) == 0.0
  {
    assert y / (2.0 * n) * n == y / 2.0;
  }

  /** numpy's line through a single point passes through it. */
  lemma SinglePointResiduals(n: seq<real>, y: seq<real>)
    requires |n| == |y| == 1 && n[0] != 0.0
    ensures var e := Residuals(n, y, y[0] / (2.0 * n[0]), y[0] / 2.0);
      Sum(e) == 0.0 && Sum(Products(e, n)) == 0.0
  {
    var e := Residuals(n, y, y[0] / (2.0 * n[0]), y[0] / 2.0);
    SinglePointResidual(y[0], n[0]);
    assert e[0] == 0.0;
    MeanOfOne(e);
    MeanOfOne(Products(e, n));
  }

  /** `(s - a) n + (c - b)`: the vertical gap between the lines (s, c) and (a, b). */
  function LineGap(n: seq<real>, ds: real, dc: real): seq<real>
  {
    seq(|n|, i requires 0 <= i < |n| => ds * n[i] + dc)
  }

  /** Moving a line by (s - a, c - b) changes one squared residual by these terms. */
  lemma PointShift(y: real, n: real, s: real, c: real, a: real, b: real)
    ensures (y - (a * n + b)) * (y - (a * n + b))
         == (y - (s * n + c)) * (y - (s * n + c))
            + ((s - a) * n + (c - b)) * ((s - a) * n + (c - b))
            + 2.0 * (s - a) * ((y - (s * n + c)) * n) + 2.0 * (c - b) * (y - (s * n + c))
  {
  }

  lemma ShiftedSquaresPointwise(n: seq<real>, y: seq<real>, s: real, c: real, a: real, b: real)
    requires |n| == |y|
    ensures var e := Residuals(n, y, s, c);
      var r := Residuals(n, y, a, b);
      var g := LineGap(n, s - a, c - b);
      forall i :: 0 <= i < |n| ==>
        Products(r, r)[i] == Products(e, e)[i] + Products(g, g)[i]
                             + Scaled(2.0 * (s - a), Products(e, n))[i] + Scaled(2.0 * (c - b), e)[i]
  {
    var e := Residuals(n, y, s, c);
    var r := Residuals(n, y, a, b);
    var g := LineGap(n, s - a, c - b);
    forall i | 0 <= i < |n|
      ensures Products(r, r)[i] == Products(e, e)[i] + Products(g, g)[i]
                                   + Scaled(2.0 * (s - a), Products(e, n))[i] + Scaled(2.0 * (c - b), e)[i]
    {
      PointShift(y[i], n[i], s, c, a, b);
    }
  }

  /**
   For a line (s, c) whose residuals satisfy the normal equations, the squared error of any
   other line (a, b) exceeds it by the sum of squared vertical offsets between the lines.
   */
  lemma SquaredErrorDecomposition(n: seq<real>, y: seq<real>, s: real, c: real, a: real, b: real)
    requires |n| == |y|
    requires Sum(Residuals(n, y, s, c)) == 0.0
    requires Sum(Products(Residuals(n, y, s, c), n)) == 0.0
    ensures SquaredError(n, y, a, b)
         == SquaredError(n, y, s, c) + SumSquares(LineGap(n, s - a, c - b))
  {
    var e := Residuals(n, y, s, c);
    var r := Residuals(n, y, a, b);
    var g := LineGap(n, s - a, c - b);
    var p := Scaled(2.0 * (s - a), Products(e, n));
    var q := Scaled(2.0 * (c - b), e);
    ShiftedSquaresPointwise(n, y, s, c, a, b);
    SumOfFour(Products(r, r), Products(e, e), Products(g, g), p, q);
    ScaledSumZero(2.0 * (s - a), Products(e, n));
    ScaledSumZero(2.0 * (c - b), e);
  }

  /**
   `np.polyfit(n, y, 1)` returns a least-squares line: no other line has a smaller sum of
   squared residuals.
   */
  lemma PolyFitIsLeastSquares(n: seq<real>, y: seq<real>, a: real, b: real)
    requires |n| == |y|
    requires 2 <= |n| ==> 0.0 < Sxx(n)
    requires PolyFit1(n, y).Success?
    ensures var (s, c) := PolyFit1(n, y).value;
      SquaredError(n, y, s, c) <= SquaredError(n, y, a, b)
  {
    var (s, c) := PolyFit1(n, y).value;
    NormalEquations(n, y);
    SquaredErrorDecomposition(n, y, s, c, a, b);
    SumSquaresNonnegative(LineGap(n, s - a, c - b));
  }

  lemma RSquaredBounds(ssRes: real, ssTot: real)
    requires 0.0 <= ssRes <= ssTot
    ensures 0.0 <= RSquared(ssRes, ssTot) <= 1.0
  {
    if ssTot > 0.0 {
      RatioInUnitInterval(ssRes, ssTot);
    }
  }

  /** The residuals against the horizontal line at mean(y) are the deviations of y. */
  lemma FlatLineResiduals(n: seq<real>, y: seq<real>)
    requires |n| == |y| > 0
    ensures Residuals(n, y, 0.0, Mean(y)) == Centered(y)
  {
  }

  /** The fit's coefficient of determination lies in [0, 1]. */
  lemma RSquaredInUnitInterval(radiiMm: seq<real>, wavelengthNm: real, ringIndexStart: int,
                               sqrt: real -> real)
    requires wavelengthNm != 0.0
    requires FitRadiusSquaredVsN(radiiMm, wavelengthNm, ringIndexStart, sqrt).Success?
    ensures var f := FitRadiusSquaredVsN(radiiMm, wavelengthNm, ringIndexStart, sqrt).value;
      0.0 <= f.rSquared <= 1.0
  {
    var n := Orders(ringIndexStart, |radiiMm|);
    var r2 := Squares(radiiMm);
    OrdersSpread(ringIndexStart, |radiiMm|);
    var (s, c) := PolyFit1(n, r2).value;
    PolyFitIsLeastSquares(n, r2, 0.0, Mean(r2));
    FlatLineResiduals(n, r2);
    SquaredErrorNonnegative(n, r2, s, c);
    RSquaredBounds(SquaredError(n, r2, s, c), SumSquares(Centered(r2)));
  }

  /**
   Points that lie exactly on a line y = a n + b, with orders of positive spread, make
   polyfit return that line with no residual, and y varies unless a = 0.
   */
  lemma AffineFit(n: seq<real>, y: seq<real>, a: real, b: real)
    requires |n| == |y| >= 2 && 0.0 < Sxx(n)
    requires forall i :: 0 <= i < |n| ==> y[i] == a * n[i] + b
    ensures PolyFit1(n, y) == Success((a, b))
    ensures SquaredError(n, y, a, b) == 0.0
    ensures a != 0.0 ==> 0.0 < SumSquares(Centered(y))
  {
    var count := |n| as real;
    AffineSum(n, y, count, a, b);
    AffineMean(n, y, count, a, b);
    AffineDeviations(n, y, Mean(n), Mean(y), a, b);
    ScaledCovariance(Centered(n), Centered(y), a);
    PolyFitOfLine(n, y, a, b);
    ExactLineResiduals(n, y, a, b);
    if a != 0.0 {
      ScaledSpread(Centered(n), Centered(y), a);
    }
  }

  /** A line with Sxy = s Sxx through the centroid is the one polyfit returns. */
  lemma PolyFitOfLine(n: seq<real>, y: seq<real>, s: real, c: real)
    requires |n| == |y| >= 2 && 0.0 < Sxx(n)
    requires Sxy(n, y) == s * Sxx(n) && Mean(y) == s * Mean(n) + c
    ensures PolyFit1(n, y) == Success((s, c))
  {
    var r := PolyFit1(n, y);
    assert r.value.0 == Sxy(n, y) / Sxx(n);
    ExactQuotient(Sxy(n, y), Sxx(n), s);
    assert r.value.1 == Mean(y) - s * Mean(n);
  }

  /** Points exactly on a line leave no residual against it. */
  lemma ExactLineResiduals(n: seq<real>, y: seq<real>, a: real, b: real)
    requires |n| == |y|
    requires forall i :: 0 <= i < |n| ==> y[i] == a * n[i] + b
    ensures SquaredError(n, y, a, b) == 0.0
  {
    SumSquaresOfZeros(Residuals(n, y, a, b));
  }

  /**
   The residuals of a successful fit sum to zero and are orthogonal to the orders: the line
   `fit_radius_squared_vs_n` reports is polyfit's least-squares line.
   */
  lemma FitNormalEquations(radiiMm: seq<real>, wavelengthNm: real, ringIndexStart: int,
                           sqrt: real -> real)
    requires wavelengthNm != 0.0
    requires FitRadiusSquaredVsN(radiiMm, wavelengthNm, ringIndexStart, sqrt).Success?
    ensures var f := FitRadiusSquaredVsN(radiiMm, wavelengthNm, ringIndexStart, sqrt).value;
      var e := Residuals(f.orders, f.radiiSqMm2, f.slope, f.intercept);
      Sum(e) == 0.0 && Sum(Products(e, f.orders)) == 0.0
  {
    var n := Orders(ringIndexStart, |radiiMm|);
    var y := Squares(radiiMm);
    OrdersSpread(ringIndexStart, |radiiMm|);
    NormalEquations(n, y);
  }

  /**
   When every squared radius lies exactly on the line r^2 = a n + b and there are at least two
   rings, the fit returns slope a and intercept b, R = a / wavelength, and r_squared = 1 unless
   the data are constant.
   */
  lemma FitRecoversAffineData(radiiMm: seq<real>, wavelengthNm: real, ringIndexStart: int,
                              sqrt: real -> real, a: real, b: real)
    requires wavelengthNm != 0.0
    requires 2 <= |radiiMm|
    requires forall i :: 0 <= i < |radiiMm| ==>
      radiiMm[i] * radiiMm[i] == a * (ringIndexStart + i) as real + b
    ensures var r := FitRadiusSquaredVsN(radiiMm, wavelengthNm, ringIndexStart, sqrt);
      && r.Success?
      && r.value.slope == a && r.value.intercept == b
      && r.value.curvatureRadiusMm == a / (wavelengthNm * NmToMm)
      && (a != 0.0 ==> r.value.rSquared == 1.0)
      && SquaredError(r.value.orders, r.value.radiiSqMm2, a, b) == 0.0
  {
    var n := Orders(ringIndexStart, |radiiMm|);
    var y := Squares(radiiMm);
    OrdersSpread(ringIndexStart, |radiiMm|);
    AffineFit(n, y, a, b);
  }

  /**
   Synthetic rings of a lens of radius R, r_n^2 = (wavelength R) n + b, give back exactly R,
   with r_squared = 1.
   */
  lemma FitRecoversCurvatureRadius(radiiMm: seq<real>, wavelengthNm: real, ringIndexStart: int,
                                   sqrt: real -> real, radius: real, b: real)
    requires 0.0 < wavelengthNm && 0.0 < radius
    requires 2 <= |radiiMm|
    requires forall i :: 0 <= i < |radiiMm| ==>
      radiiMm[i] * radiiMm[i] == (wavelengthNm * NmToMm * radius) * (ringIndexStart + i) as real + b
    ensures var r := FitRadiusSquaredVsN(radiiMm, wavelengthNm, ringIndexStart, sqrt);
      r.Success? && r.value.curvatureRadiusMm == radius && r.value.rSquared == 1.0
  {
    var k := wavelengthNm * NmToMm;
    var a := k * radius;
    FitRecoversAffineData(radiiMm, wavelengthNm, ringIndexStart, sqrt, a, b);
    ProductPositive(k, radius, a);
    var f := FitRadiusSquaredVsN(radiiMm, wavelengthNm, ringIndexStart, sqrt).value;
    ExactQuotient(a, k, radius);
  }

  /**
   A single ring at a non-zero order n gives numpy's one-point line, which splits r^2 evenly
   between slope n and intercept, so R = r^2 / (2 n wavelength); both standard errors and R_se
   are NaN.
   */
  lemma SingleRingFit(radiiMm: seq<real>, wavelengthNm: real, ringIndexStart: int, sqrt: real -> real)
    requires wavelengthNm != 0.0 && |radiiMm| == 1 && ringIndexStart != 0
    ensures var r := FitRadiusSquaredVsN(radiiMm, wavelengthNm, ringIndexStart, sqrt);
      && r.Success?
      && r.value.slope * ringIndexStart as real == r.value.intercept
      && 2.0 * r.value.intercept == radiiMm[0] * radiiMm[0]
      && r.value.curvatureRadiusMm * (2.0 * ringIndexStart as real * (wavelengthNm * NmToMm))
         == radiiMm[0] * radiiMm[0]
      && r.value.slopeSe.NonFinite? && r.value.interceptSe.NonFinite?
      && r.value.curvatureRadiusSeMm.NonFinite?
  {
    var f := FitRadiusSquaredVsN(radiiMm, wavelengthNm, ringIndexStart, sqrt).value;
    var k := wavelengthNm * NmToMm;
    assert f.orders[0] == ringIndexStart as real;
    OnePointRadius(f.slope, f.intercept, ringIndexStart as real, radiiMm[0] * radiiMm[0],
                   k, f.curvatureRadiusMm);
  }

  lemma OnePointRadius(slope: real, intercept: real, n: real, q: real, k: real, radius: real)
    requires k != 0.0 && slope * n == intercept && 2.0 * intercept == q && radius == slope / k
    ensures radius * (2.0 * n * k) == q
  {
    DivisionCancels(slope, k, radius);
    assert radius * (2.0 * n * k) == 2.0 * ((radius * k) * n);
  }

  /**
   Rings that all have the same radius leave ss_tot at 0, so r_squared is 0 even though the flat
   line through them fits exactly; with two rings or more that line has slope 0.
   */
  lemma ConstantRadiiFit(radiiMm: seq<real>, wavelengthNm: real, ringIndexStart: int,
                         sqrt: real -> real)
    requires wavelengthNm != 0.0
    requires FitRadiusSquaredVsN(radiiMm, wavelengthNm, ringIndexStart, sqrt).Success?
    requires forall i :: 0 <= i < |radiiMm| ==> radiiMm[i] == radiiMm[0]
    ensures var f := FitRadiusSquaredVsN(radiiMm, wavelengthNm, ringIndexStart, sqrt).value;
      f.rSquared == 0.0 && (2 <= |radiiMm| ==> f.slope == 0.0)
  {
    var f := FitRadiusSquaredVsN(radiiMm, wavelengthNm, ringIndexStart, sqrt).value;
    ConstantSpread(f.radiiSqMm2);
    if 2 <= |radiiMm| {
      var c := radiiMm[0] * radiiMm[0];
      FlatSquares(radiiMm, ringIndexStart);
      FitRecoversAffineData(radiiMm, wavelengthNm, ringIndexStart, sqrt, 0.0, c);
    }
  }

  /** Equal radii lie on the flat line r^2 = 0 n + r_0^2. */
  lemma FlatSquares(radiiMm: seq<real>, start: int)
    requires 0 < |radiiMm|
    requires forall i :: 0 <= i < |radiiMm| ==> radiiMm[i] == radiiMm[0]
    ensures forall i :: 0 <= i < |radiiMm| ==>
      radiiMm[i] * radiiMm[i] == 0.0 * (start + i) as real + radiiMm[0] * radiiMm[0]
  {
  }

  /**
   With the default arguments the rings are numbered from 1, so even a single ring gives a
   line, and R is the slope over the sodium wavelength 589.3 nm.
   */
  lemma DefaultArguments(radiiMm: seq<real>, sqrt: real -> real)
    requires 0 < |radiiMm|
    ensures var r := FitRadiusSquaredVsN(radiiMm, DefaultWavelengthNm, DefaultRingIndexStart, sqrt);
      && r.Success?
      && (forall i :: 0 <= i < |radiiMm| ==> r.value.orders[i] == (i + 1) as real)
      && r.value.curvatureRadiusMm == r.value.slope / 0.0005893
  {
  }

  /** With sigma2 >= 0 and a usable spread, the slope error squares to sigma2 / Sxx. */
  lemma SlopeStandardErrorSquared(sigma2: real, sxx: real, sqrt: real -> real)
    requires IsSqrt(sqrt) && 0.0 <= sigma2 && 0.0 < sxx
    ensures var se := SlopeStandardError(sigma2, sxx, sqrt);
      0.0 <= se.value && se.value * se.value == sigma2 / sxx
  {
    SqrtSquared(sqrt, sigma2 / sxx);
  }

  /** ... and the intercept error to sigma2 (1/N + mean(n)^2 / Sxx). */
  lemma InterceptStandardErrorSquared(sigma2: real, sxx: real, count: nat, meanOrder: real,
                                      sqrt: real -> real)
    requires IsSqrt(sqrt) && 0.0 <= sigma2 && 0.0 < sxx && 0 < count
    ensures var se := InterceptStandardError(sigma2, sxx, count, meanOrder, sqrt);
      0.0 <= se.value
      && se.value * se.value == sigma2 * (1.0 / count as real + meanOrder * meanOrder / sxx)
  {
    SquareNonnegative(meanOrder);
    var v := sigma2 * (1.0 / count as real + meanOrder * meanOrder / sxx);
    NonnegativeProduct(sigma2, 1.0 / count as real + meanOrder * meanOrder / sxx, v);
    SqrtSquared(sqrt, v);
  }

  /** With at least two rings the slope's standard error is the square root of sigma2 / Sxx. */
  lemma SlopeStandardErrorOfFit(radiiMm: seq<real>, wavelengthNm: real, ringIndexStart: int,
                                sqrt: real -> real)
    requires wavelengthNm != 0.0 && IsSqrt(sqrt)
    requires 2 <= |radiiMm|
    ensures var f := FitRadiusSquaredVsN(radiiMm, wavelengthNm, ringIndexStart, sqrt).value;
      var n := Orders(ringIndexStart, |radiiMm|);
      var sigma2 := ResidualVariance(n, Squares(radiiMm), f.slope, f.intercept);
      0.0 <= f.slopeSe.value && f.slopeSe.value * f.slopeSe.value == sigma2 / Sxx(n)
  {
    var n := Orders(ringIndexStart, |radiiMm|);
    var r2 := Squares(radiiMm);
    OrdersSpread(ringIndexStart, |radiiMm|);
    var f := FitRadiusSquaredVsN(radiiMm, wavelengthNm, ringIndexStart, sqrt).value;
    var sigma2 := ResidualVariance(n, r2, f.slope, f.intercept);
    assert f.slopeSe == SlopeStandardError(sigma2, Sxx(n), sqrt);
    SlopeStandardErrorSquared(sigma2, Sxx(n), sqrt);
  }

  /**
   With at least two rings the intercept's standard error is the square root of
   sigma2 (1/N + mean(n)^2 / Sxx).
   */
  lemma InterceptStandardErrorOfFit(radiiMm: seq<real>, wavelengthNm: real, ringIndexStart: int,
                                    sqrt: real -> real)
    requires wavelengthNm != 0.0 && IsSqrt(sqrt)
    requires 2 <= |radiiMm|
    ensures var f := FitRadiusSquaredVsN(radiiMm, wavelengthNm, ringIndexStart, sqrt).value;
      var n := Orders(ringIndexStart, |radiiMm|);
      var sigma2 := ResidualVariance(n, Squares(radiiMm), f.slope, f.intercept);
      && 0.0 <= f.interceptSe.value
      && f.interceptSe.value * f.interceptSe.value
         == sigma2 * (1.0 / |n| as real + Mean(n) * Mean(n) / Sxx(n))
  {
    var n := Orders(ringIndexStart, |radiiMm|);
    var r2 := Squares(radiiMm);
    OrdersSpread(ringIndexStart, |radiiMm|);
    var f := FitRadiusSquaredVsN(radiiMm, wavelengthNm, ringIndexStart, sqrt).value;
    var sigma2 := ResidualVariance(n, r2, f.slope, f.intercept);
    assert f.interceptSe == InterceptStandardError(sigma2, Sxx(n), |n|, Mean(n), sqrt);
    InterceptStandardErrorSquared(sigma2, Sxx(n), |n|, Mean(n), sqrt);
  }
}
