/**
 The error verdict of a measurement (`analyze_error`): the residuals of r^2 against the fitted
 line and their summary statistics, the optional comparison of the measured curvature radius
 with a reference radius, and the pass/fail flags built from configurable thresholds.
 */
module ErrorAnalysis {
  import opened Wrappers
  import opened Numeric
  import opened RealSeq
  import Calculation

  /** The optional `thresholds` dictionary; an absent dictionary has both entries absent. */
  datatype Thresholds = Thresholds(
    minRSquared: Option<real>,   // "min_r_squared", default 0.98
    maxRelError: Option<real>)   // "max_rel_error", default None

  const DefaultMinRSquared: real := 0.98

  /** The entries of the fit dictionary that `analyze_error` reads. */
  datatype FitSummary = FitSummary(
    orders: seq<real>,           // "n"
    radiiSqMm2: seq<real>,       // "r2_mm2"
    slope: real,
    intercept: real,
    curvatureRadiusMm: real,     // "R_mm"
    rSquared: Option<real>)      // "r_squared", read with default 0.0

  /** The dictionary `fit_radius_squared_vs_n` returns, as `analyze_error` sees it. */
  function SummaryOf(f: Calculation.FitResult): FitSummary {
    FitSummary(f.orders, f.radiiSqMm2, f.slope, f.intercept, f.curvatureRadiusMm, Some(f.rSquared))
  }

  datatype ResidualStats = ResidualStats(meanMm2: real, stdMm2: real, maxAbsMm2: real)

  datatype Flags = Flags(passFitQuality: bool, passError: Option<bool>, overallPass: bool)

  /** The dictionary `analyze_error` returns. */
  datatype ErrorReport = ErrorReport(
    measuredRMm: real,
    referenceRMm: Option<real>,
    absErrorMm: Option<real>,
    relError: Option<real>,
    rSquared: real,
    minRSquared: real,
    maxRelError: Option<real>,
    residualsMm2: seq<real>,
    stats: ResidualStats,
    flags: Flags)

  // ---------------------------------------------------------------------------------------
  // Residual statistics

  /** `np.mean(residuals)`, or 0 when there is no residual. */
  function ResidualMean(e: seq<real>): real {
    if |e| == 0 then 0.0 else Mean(e)
  }

  /** `np.std(residuals, ddof=1)`, or 0 when there are fewer than two residuals. */
  function SampleStd(e: seq<real>, sqrt: real -> real): real {
    if |e| < 2 then 0.0 else sqrt(SumSquares(Centered(e)) / (|e| - 1) as real)
  }

  /** `np.max(np.abs(residuals))`, or 0 when there is no residual: the largest residual size. */
  function MaxAbsResidual(e: seq<real>): (m: real)
    ensures 0.0 <= m
    ensures forall i :: 0 <= i < |e| ==> Abs(e[i]) <= m
    ensures |e| == 0 ==> m == 0.0
    ensures |e| > 0 ==> exists k :: 0 <= k < |e| && Abs(e[k]) == m
  {
    if |e| == 0 then 0.0 else MaxAbs(e)
  }

  function Stats(e: seq<real>, sqrt: real -> real): ResidualStats {
    ResidualStats(ResidualMean(e), SampleStd(e, sqrt), MaxAbsResidual(e))
  }

  // ---------------------------------------------------------------------------------------
  // Reference comparison and flags

  /** A reference radius that can be compared with: given, finite and not zero. */
  function UsableReference(reference: Option<Float>): (r: Option<real>)
    ensures r.Some? <==> reference.Some? && reference.value.Finite? && reference.value.value != 0.0
    ensures r.Some? ==> r.value == reference.value.value
  {
    match reference
    case Some(Finite(v)) => if v != 0.0 then Some(v) else None
    case _ => None
  }

  /** `abs(measured - reference) / abs(reference)`: the error as a fraction of the reference. */
  function RelativeError(measured: real, reference: real): (rel: real)
    requires reference != 0.0
    ensures 0.0 <= rel
    ensures rel * Abs(reference) == Abs(measured - reference)
  {
    var q := Abs(measured - reference) / Abs(reference);
    DivisionCancels(Abs(measured - reference), Abs(reference), q);
    RatioNonnegative(Abs(measured - reference), Abs(reference), q);
    q
  }

  lemma RatioNonnegative(x: real, d: real, q: real)
    requires 0.0 <= x && 0.0 < d && q == x / d
    ensures 0.0 <= q
  {
  }

  /** `rel_error <= max_rel_error` when a threshold is set; no threshold never fails. */
  function PassError(relError: real, maxRelError: Option<real>): bool {
    match maxRelError
    case None => true
    case Some(m) => relError <= m
  }

  /**
   `analyze_error(fit, reference_R_mm, thresholds)`: residuals, their statistics, the reference
   comparison when the reference is usable, and the flags.
   */
  function AnalyzeError(fit: FitSummary, reference: Option<Float>, thresholds: Thresholds,
                        sqrt: real -> real): (r: ErrorReport)
    requires |fit.orders| == |fit.radiiSqMm2|
    ensures r.measuredRMm == fit.curvatureRadiusMm && r.rSquared == fit.rSquared.GetOr(0.0)
    ensures r.minRSquared == thresholds.minRSquared.GetOr(DefaultMinRSquared)
    ensures r.maxRelError == thresholds.maxRelError
    ensures r.residualsMm2 == Calculation.Residuals(fit.orders, fit.radiiSqMm2, fit.slope, fit.intercept)
    ensures r.stats == Stats(r.residualsMm2, sqrt)
    ensures r.flags.passFitQuality <==> r.minRSquared <= r.rSquared
    ensures r.referenceRMm.Some? <==>
      reference.Some? && reference.value.Finite? && reference.value.value != 0.0
    ensures r.referenceRMm.None? ==>
      r.absErrorMm.None? && r.relError.None? && r.flags.passError.None?
    ensures r.referenceRMm.Some? ==>
      && r.referenceRMm.value == reference.value.value
      && r.absErrorMm == Some(Abs(r.measuredRMm - r.referenceRMm.value))
      && r.relError == Some(RelativeError(r.measuredRMm, r.referenceRMm.value))
      && r.flags.passError.Some?
      && (r.flags.passError.value <==>
            r.maxRelError.None? || r.relError.value <= r.maxRelError.value)
    ensures r.flags.overallPass <==>
      r.flags.passFitQuality && (r.flags.passError.None? || r.flags.passError.value)
  {
    var minR2 := thresholds.minRSquared.GetOr(DefaultMinRSquared);
    var maxRel := thresholds.maxRelError;
    var residuals := Calculation.Residuals(fit.orders, fit.radiiSqMm2, fit.slope, fit.intercept);
    var measured := fit.curvatureRadiusMm;
    var rSquared := fit.rSquared.GetOr(0.0);
    var passFitQuality := minR2 <= rSquared;
    var ref := UsableReference(reference);
    var absError := if ref.Some? then Some(Abs(measured - ref.value)) else None;
    var relError := if ref.Some? then Some(RelativeError(measured, ref.value)) else None;
    var passError := if ref.Some? then Some(PassError(relError.value, maxRel)) else None;
    var overallPass := passFitQuality && (if passError.Some? then passError.value else true);
    ErrorReport(measured, ref, absError, relError, rSquared, minR2, maxRel, residuals,
                Stats(residuals, sqrt), Flags(passFitQuality, passError, overallPass))
  }

  // ---------------------------------------------------------------------------------------
  // Lemmas

  /** The overall verdict never passes a fit that fails the quality threshold. */
  lemma OverallPassNeedsFitQuality(fit: FitSummary, reference: Option<Float>,
                                   thresholds: Thresholds, sqrt: real -> real)
    requires |fit.orders| == |fit.radiiSqMm2|
    ensures var r := AnalyzeError(fit, reference, thresholds, sqrt);
      r.flags.overallPass ==> r.flags.passFitQuality && fit.rSquared.GetOr(0.0) >= r.minRSquared
  {
  }

  /** Without a usable reference the verdict is the fit-quality verdict alone. */
  lemma VerdictWithoutReference(fit: FitSummary, reference: Option<Float>,
                                thresholds: Thresholds, sqrt: real -> real)
    requires |fit.orders| == |fit.radiiSqMm2|
    requires UsableReference(reference).None?
    ensures var r := AnalyzeError(fit, reference, thresholds, sqrt);
      && r.referenceRMm.None? && r.flags.passError.None?
      && (r.flags.overallPass <==> thresholds.minRSquared.GetOr(DefaultMinRSquared) <= fit.rSquared.GetOr(0.0))
  {
  }

  /**
   With a threshold, the error check is the cross-multiplied comparison
   |measured - reference| <= max_rel_error * |reference|.
   */
  lemma RelativeErrorCriterion(fit: FitSummary, reference: real, maxRelError: real,
                               minRSquared: Option<real>, sqrt: real -> real)
    requires |fit.orders| == |fit.radiiSqMm2| && reference != 0.0
    ensures var r := AnalyzeError(fit, Some(Finite(reference)), Thresholds(minRSquared, Some(maxRelError)), sqrt);
      r.flags.passError == Some(Abs(fit.curvatureRadiusMm - reference) <= maxRelError * Abs(reference))
  {
    RelativeErrorWithin(fit.curvatureRadiusMm, reference, maxRelError);
  }

  lemma RelativeErrorWithin(measured: real, reference: real, bound: real)
    requires reference != 0.0
    ensures RelativeError(measured, reference) <= bound
        <==> Abs(measured - reference) <= bound * Abs(reference)
  {
    var rel := RelativeError(measured, reference);
    var d := Abs(reference);
    if rel <= bound {
      ScaleBelow(rel, bound, d);
    } else {
      ScaleIncreasing(bound, rel, d);
    }
  }

  lemma ScaleBelow(x: real, y: real, d: real)
    requires x <= y && 0.0 < d
    ensures x * d <= y * d
  {
    if x < y {
      ProductPositive(y - x, d, (y - x) * d);
    }
  }

  /** Reference 10 mm measured as 10.5 mm: an absolute error of 0.5 mm and a relative one of 5%. */
  lemma ReferenceExample(fit: FitSummary, thresholds: Thresholds, sqrt: real -> real)
    requires |fit.orders| == |fit.radiiSqMm2| && fit.curvatureRadiusMm == 10.5
    ensures var r := AnalyzeError(fit, Some(Finite(10.0)), thresholds, sqrt);
      r.referenceRMm == Some(10.0) && r.absErrorMm == Some(0.5) && r.relError == Some(0.05)
  {
    var r := AnalyzeError(fit, Some(Finite(10.0)), thresholds, sqrt);
    assert r.relError.value * 10.0 == 0.5;
  }

  /** A measurement equal to the reference has no error and passes any non-negative threshold. */
  lemma ExactMeasurementPasses(fit: FitSummary, thresholds: Thresholds, sqrt: real -> real)
    requires |fit.orders| == |fit.radiiSqMm2| && fit.curvatureRadiusMm != 0.0
    requires thresholds.maxRelError.Some? ==> 0.0 <= thresholds.maxRelError.value
    ensures var r := AnalyzeError(fit, Some(Finite(fit.curvatureRadiusMm)), thresholds, sqrt);
      && r.absErrorMm == Some(0.0) && r.relError == Some(0.0) && r.flags.passError == Some(true)
  {
    NoRelativeError(fit.curvatureRadiusMm);
  }

  lemma NoRelativeError(reference: real)
    requires reference != 0.0
    ensures RelativeError(reference, reference) == 0.0
  {
    var rel := RelativeError(reference, reference);
    if rel != 0.0 {
      ProductPositive(rel, Abs(reference), rel * Abs(reference));
    }
  }

  /** The mean residual lies within the largest residual size. */
  lemma MeanWithinMaxAbs(e: seq<real>)
    ensures -MaxAbsResidual(e) <= ResidualMean(e) <= MaxAbsResidual(e)
  {
    if |e| > 0 {
      var m := MaxAbsResidual(e);
      forall i | 0 <= i < |e| ensures -m <= e[i] <= m {
        assert Abs(e[i]) <= m;
      }
      MeanBounds(e, -m, m);
    }
  }

  /** The sample standard deviation is non-negative and squares to Σ(e - mean)² / (N - 1). */
  lemma SampleStdSquared(e: seq<real>, sqrt: real -> real)
    requires IsSqrt(sqrt) && 2 <= |e|
    ensures var std := SampleStd(e, sqrt);
      0.0 <= std && std * std * (|e| - 1) as real == SumSquares(Centered(e))
  {
    var d := (|e| - 1) as real;
    var v := SumSquares(Centered(e)) / d;
    SumSquaresNonnegative(Centered(e));
    RatioNonnegative(SumSquares(Centered(e)), d, v);
    SqrtSquared(sqrt, v);
    DivisionCancels(SumSquares(Centered(e)), d, v);
  }

  /** With two or more residuals the standard deviation is zero exactly when they are all equal. */
  lemma SampleStdZeroIffConstant(e: seq<real>, sqrt: real -> real)
    requires IsSqrt(sqrt) && 2 <= |e|
    ensures SampleStd(e, sqrt) == 0.0 <==> forall i :: 0 <= i < |e| ==> e[i] == Mean(e)
  {
    var c := Centered(e);
    var d := (|e| - 1) as real;
    var v := SumSquares(c) / d;
    SqrtSquared(sqrt, 0.0);
    if forall i :: 0 <= i < |e| ==> e[i] == Mean(e) {
      forall i | 0 <= i < |c| ensures c[i] == 0.0 {
      }
      SumSquaresOfZeros(c);
      assert v == 0.0;
      ZeroRoot(sqrt(0.0));
    } else {
      var k :| 0 <= k < |e| && e[k] != Mean(e);
      assert c[k] != 0.0;
      SumSquaresPositive(c, k);
      PositiveRatio(SumSquares(c), d, v);
      SqrtSquared(sqrt, v);
    }
  }

  lemma ZeroRoot(x: real)
    requires x * x == 0.0
    ensures x == 0.0
  {
    if x != 0.0 {
      SquarePositive(x, x * x);
    }
  }

  lemma PositiveRatio(x: real, d: real, q: real)
    requires 0.0 < x && 0.0 < d && q == x / d
    ensures 0.0 < q
  {
  }

  /**
   Fed the result of `fit_radius_squared_vs_n`, the residuals are those of the least-squares
   line: one per ring, summing to zero, so their mean is zero; the fit-quality flag compares the
   fit's own r_squared.
   */
  lemma ResidualsOfFit(radiiMm: seq<real>, wavelengthNm: real, ringIndexStart: int,
                       sqrt: real -> real, reference: Option<Float>, thresholds: Thresholds)
    requires wavelengthNm != 0.0
    requires Calculation.FitRadiusSquaredVsN(radiiMm, wavelengthNm, ringIndexStart, sqrt).Success?
    ensures var f := Calculation.FitRadiusSquaredVsN(radiiMm, wavelengthNm, ringIndexStart, sqrt).value;
      var r := AnalyzeError(SummaryOf(f), reference, thresholds, sqrt);
      && |r.residualsMm2| == |radiiMm|
      && Sum(r.residualsMm2) == 0.0
      && r.stats.meanMm2 == 0.0
      && (r.flags.passFitQuality <==> thresholds.minRSquared.GetOr(DefaultMinRSquared) <= f.rSquared)
  {
    var f := Calculation.FitRadiusSquaredVsN(radiiMm, wavelengthNm, ringIndexStart, sqrt).value;
    Calculation.FitNormalEquations(radiiMm, wavelengthNm, ringIndexStart, sqrt);
    var e := Calculation.Residuals(f.orders, f.radiiSqMm2, f.slope, f.intercept);
    assert |e| == |radiiMm|;
    assert Sum(e) == 0.0;
    if |e| > 0 {
      assert Mean(e) == 0.0 / |e| as real;
    }
  }

  /**
   Residuals that sum to zero, as those of every fit do (`ResidualsOfFit`), have a sample
   standard deviation whose square times N - 1 is the squared error of the line: the residual
   std measures the quantity the fit minimised.
   */
  lemma ResidualSpread(fit: FitSummary, reference: Option<Float>, thresholds: Thresholds,
                       sqrt: real -> real, d: real)
    requires IsSqrt(sqrt) && 2 <= |fit.orders| == |fit.radiiSqMm2| && d == (|fit.orders| - 1) as real
    requires Sum(Calculation.Residuals(fit.orders, fit.radiiSqMm2, fit.slope, fit.intercept)) == 0.0
    ensures var std := AnalyzeError(fit, reference, thresholds, sqrt).stats.stdMm2;
      0.0 <= std &&
      std * std * d == Calculation.SquaredError(fit.orders, fit.radiiSqMm2, fit.slope, fit.intercept)
  {
    var e := Calculation.Residuals(fit.orders, fit.radiiSqMm2, fit.slope, fit.intercept);
    assert AnalyzeError(fit, reference, thresholds, sqrt).stats.stdMm2 == SampleStd(e, sqrt);
    ZeroSumSpread(e, sqrt, d);
  }

  /** For values summing to zero, std^2 (N - 1) is their sum of squares. */
  lemma ZeroSumSpread(e: seq<real>, sqrt: real -> real, d: real)
    requires IsSqrt(sqrt) && 2 <= |e| && Sum(e) == 0.0 && d == (|e| - 1) as real
    ensures 0.0 <= SampleStd(e, sqrt) && SampleStd(e, sqrt) * SampleStd(e, sqrt) * d == SumSquares(e)
  {
    CenteredOfZeroSum(e);
    SampleStdSquared(e, sqrt);
  }

  /** Values summing to zero are their own deviations from the mean. */
  lemma CenteredOfZeroSum(e: seq<real>)
    requires |e| > 0 && Sum(e) == 0.0
    ensures Centered(e) == e
  {
    assert Mean(e) == 0.0 / |e| as real;
  }

  /**
   Rings lying exactly on r^2 = a n + b with a != 0 leave no residual and pass any fit-quality
   threshold up to 1.
   */
  lemma ExactRingsPassFitQuality(radiiMm: seq<real>, wavelengthNm: real, ringIndexStart: int,
                                 sqrt: real -> real, a: real, b: real,
                                 reference: Option<Float>, thresholds: Thresholds)
    requires wavelengthNm != 0.0 && 2 <= |radiiMm| && a != 0.0
    requires forall i :: 0 <= i < |radiiMm| ==>
      radiiMm[i] * radiiMm[i] == a * (ringIndexStart + i) as real + b
    requires thresholds.minRSquared.GetOr(DefaultMinRSquared) <= 1.0
    ensures var fit := Calculation.FitRadiusSquaredVsN(radiiMm, wavelengthNm, ringIndexStart, sqrt);
      && fit.Success?
      && var r := AnalyzeError(SummaryOf(fit.value), reference, thresholds, sqrt);
      && r.flags.passFitQuality
      && (forall i :: 0 <= i < |r.residualsMm2| ==> r.residualsMm2[i] == 0.0)
      && r.stats.meanMm2 == 0.0 && r.stats.maxAbsMm2 == 0.0
  {
    Calculation.FitRecoversAffineData(radiiMm, wavelengthNm, ringIndexStart, sqrt, a, b);
    var f := Calculation.FitRadiusSquaredVsN(radiiMm, wavelengthNm, ringIndexStart, sqrt).value;
    PerfectFitVerdict(f, reference, thresholds, sqrt);
  }

  /** A fit with no squared error and r_squared = 1 leaves no residual and passes. */
  lemma PerfectFitVerdict(fit: Calculation.FitResult, reference: Option<Float>, thresholds: Thresholds,
                          sqrt: real -> real)
    requires |fit.orders| == |fit.radiiSqMm2|
    requires Calculation.SquaredError(fit.orders, fit.radiiSqMm2, fit.slope, fit.intercept) == 0.0
    requires fit.rSquared == 1.0 && thresholds.minRSquared.GetOr(DefaultMinRSquared) <= 1.0
    ensures var r := AnalyzeError(SummaryOf(fit), reference, thresholds, sqrt);
      && r.flags.passFitQuality
      && (forall i :: 0 <= i < |r.residualsMm2| ==> r.residualsMm2[i] == 0.0)
      && r.stats.meanMm2 == 0.0 && r.stats.maxAbsMm2 == 0.0
  {
    var e := Calculation.Residuals(fit.orders, fit.radiiSqMm2, fit.slope, fit.intercept);
    forall i | 0 <= i < |e| ensures e[i] == 0.0 {
      if e[i] != 0.0 {
        SumSquaresPositive(e, i);
      }
    }
    NoResidualStats(e);
  }

  /** Zero residuals have zero mean and zero largest size. */
  lemma NoResidualStats(e: seq<real>)
    requires forall i :: 0 <= i < |e| ==> e[i] == 0.0
    ensures ResidualMean(e) == 0.0 && MaxAbsResidual(e) == 0.0
  {
    SumOfZerosIsZero(e);
    if |e| > 0 {
      assert Mean(e) == 0.0 / |e| as real;
      var k :| 0 <= k < |e| && Abs(e[k]) == MaxAbsResidual(e);
    }
  }

  lemma SumOfZerosIsZero(e: seq<real>)
    requires forall i :: 0 <= i < |e| ==> e[i] == 0.0
    ensures Sum(e) == 0.0
  {
    assert e == seq(|e|, i => 0.0);
    SumOfZeros(|e|);
  }
}
