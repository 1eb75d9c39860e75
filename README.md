# Newton-ring measurement core in Dafny

This project models the measurement core of the NewtonRing tool. The tool photographs a
Newton-ring interference pattern and estimates the curvature radius R of the lens.

1. **Detection.** It finds the ring centre in one of three ways: the largest Hough circle, the
   gradient-weighted centroid of the Canny edge pixels, or the image centre. It then averages
   the image over many angles into a radial intensity profile and smooths that profile with a
   moving average. Dark rings are the peaks of the inverted profile, which scipy's `find_peaks`
   locates. Rings near the centre are dropped. The gate then enforces `min_rings`, keeps at
   most `max_rings` rings and converts pixels to millimetres.
2. **Calculation.** It fits r² = slope·n + intercept by ordinary least squares over the ring
   orders n. From the fit it computes the residual variance, the standard errors, R², and
   R = slope / wavelength.
3. **Error analysis.** It computes the residuals of r² against the fitted line and their mean,
   sample standard deviation and largest size. When a usable reference radius is given, it
   also computes the absolute and relative error. Finally it sets the pass/fail flags.

The model is written as functions over `real`. NaN and infinities are the `NonFinite` case of
`Numeric.Float`, and an absent value or configuration entry is `Wrappers.Option`. The model
takes as inputs the calls into libraries it cannot see:

- **`Image`** carries the image's:
  - width and height;
  - `HoughCircles` result for given parameters;
  - Canny edge pixels with their Sobel magnitude;
  - bilinear sampler.
- **`direction(k, n)`** is (cos, sin) of 2πk/n.
- **`sqrt`** is any function satisfying `IsSqrt`.
- **`findPeaks`** is any function satisfying `IsPeakFinder`. Such a function returns in-range
  indices of weak local maxima that lie at least `distance` apart.

Files:

- `numeric.dfy`: the `Wrappers` and `Numeric` modules.
- `real_seq.dfy`: `RealSeq`, sums, means and deviations of real sequences, with their algebra.
- `detection.dfy`: `Detection`.
- `calculation.dfy`: `Calculation`.
- `error_analysis.dfy`: `ErrorAnalysis`.

`np.convolve(..., mode="same")` returns `max(len(profile), win)` entries, so a window longer
than the profile gives a smoothed signal longer than the profile. `Detection.Smooth` and
`Detection.FindDarkRings` state that length.

## Model

| member | source | states |
|---|---|---|
| Detection.ArgMaxRadius | NewtonRing/src/detection.py:50-53 | the index is in range, its radius is at least every other radius, and every earlier circle is strictly smaller (numpy's first maximum) |
| Detection.CenterByHough | NewtonRing/src/detection.py:30-54 | no result exactly when OpenCV finds no circle; otherwise the result is the centre of the first largest detected circle (every earlier circle is strictly smaller, as `np.argmax` picks), tagged "hough", and its score is at least every detected radius |
| Detection.CenterByGradient | NewtonRing/src/detection.py:57-86 | no result exactly when there are fewer than 200 edge pixels; otherwise the tag is "gradient", the centre (x0, y0) balances the magnitude-weighted first moments (x0·sum(w) = sum(xs·w), and likewise for y), and the score times (weighted RMS spread about that centre + 1e-6) is 1, so the score is strictly positive |
| Detection.SpreadNonnegative | NewtonRing/src/detection.py:84 | the weighted spread sqrt(average of squared distances) is never negative, whatever the centre |
| Detection.WeightedAverageBounds | NewtonRing/src/detection.py:78-81 | with positive weights, a weighted average of values in [lo, hi] lies in [lo, hi] |
| Detection.GradientCenterInsideEdgeBox | NewtonRing/src/detection.py:78-81 | the gradient centroid lies inside every axis-aligned box containing all the edge pixels |
| Detection.AsciiLower | NewtonRing/src/detection.py:90 | the length is kept, each upper-case ASCII letter becomes its own lower-case letter (code + 32), and every other character is unchanged |
| Detection.HoughSpellings | NewtonRing/src/detection.py:90-91 | "HOUGH" and "Hough" select the Hough-first order; an absent method (default "gradient") does not |
| Detection.FallbackCenter | NewtonRing/src/detection.py:105-107 | the image centre (2x = width, 2y = height) with tag "fallback_center" and score 0 |
| Detection.EstimateCenter | NewtonRing/src/detection.py:89-107 | the fallback is used exactly when both detectors fail; with "hough" the Hough result wins and otherwise the gradient result wins; the other detector is used only when the preferred one fails; a detector's result is returned unchanged |
| Detection.CenterMethodTags | NewtonRing/src/detection.py:89-107 | the tag is always one of "hough", "gradient" and "fallback_center"; a fallback scores 0 and a gradient centre scores above 0 |
| Detection.EffectiveMaxRadius | NewtonRing/src/detection.py:115-118 | the number of radii is max(10, max_radius) when max_radius is configured, and otherwise max(10, int(min(cx, cy, w - cx, h - cy))) |
| Detection.ProfileRadiusFitsImage | NewtonRing/src/detection.py:116-118 | without a configured radius, and with the centre at least 10 px from every border, the radius is the largest whole number not exceeding any border distance |
| Detection.RadialProfile | NewtonRing/src/detection.py:110-135 | the profile has one entry per radius 0..max_radius-1, and entry r is the mean over the num_angles directions of the samples on the circle of radius r |
| Detection.ProfileWithinIntensityRange | NewtonRing/src/detection.py:128-135 | when every sample lies in [lo, hi], every profile value lies in [lo, hi] |
| Detection.SmoothingWindow | NewtonRing/src/detection.py:144-148 | the window is odd, at least 3, and either max(3, requested) or one more than it |
| Detection.Kernel | NewtonRing/src/detection.py:149 | the kernel has win weights, each equal to 1/win |
| Detection.ConvolveSame | NewtonRing/src/detection.py:150 | numpy's "same" convolution has max(len(a), len(v)) entries |
| Detection.Smooth | NewtonRing/src/detection.py:149-150 | the moving average of the profile has max(len(profile), win) entries |
| Detection.SmoothIsCentredMean | NewtonRing/src/detection.py:143-150 | for an odd window and h = win // 2, every entry i with h <= i < len(profile) - h is the mean of profile[i-h : i+h+1], the centred moving average |
| Detection.ConstantKernelWindow | NewtonRing/src/detection.py:150 | an entry of the full convolution with a constant kernel c whose window lies inside the samples is c times the sum of the samples in that window |
| Detection.KernelTotalWeight | NewtonRing/src/detection.py:149-150 | away from the profile's ends, the kernel weight meeting the profile is exactly 1 |
| Detection.KernelMassAtMostOne | NewtonRing/src/detection.py:149-150 | the kernel weight meeting the profile is in [0, 1] everywhere, because of the zero padding at the ends |
| Detection.SmoothWithinRange | NewtonRing/src/detection.py:149-150 | smoothing a profile with values in [0, hi] gives values in [0, hi] |
| Detection.Inverted | NewtonRing/src/detection.py:153 | max - smooth is non-negative and reverses the order: inv[i] <= inv[j] iff smooth[j] <= smooth[i] |
| Detection.AtLeast | NewtonRing/src/detection.py:160-161 | the kept peaks are exactly the peaks >= min_r, and there are no more of them than peaks |
| Detection.AtLeastKeepsSpacing | NewtonRing/src/detection.py:157-161 | filtering keeps the peaks in order and at least `distance` apart |
| Detection.FindDarkRings | NewtonRing/src/detection.py:138-163 | the returned smoothed profile is the moving average of the profile with the adjusted window (so `SmoothIsCentredMean` applies to it) and has max(len(profile), win) entries; a ring is returned exactly when find_peaks reports it on the inverted smoothed profile (prominence default 3, distance default 8) and it is >= min_radius_px (default 10), and there are no more rings than peaks |
| Detection.DarkRingsAreMinima | NewtonRing/src/detection.py:138-163 | with a conforming peak finder, the rings ascend at least `minima_distance` apart, and each is an interior local minimum of the smoothed profile and at least min_radius_px |
| Detection.PyPrefix | NewtonRing/src/detection.py:219 | s[:stop] is a prefix of length min(stop, len) for stop >= 0 and max(0, len + stop) for negative stop |
| Detection.GateRings | NewtonRing/src/detection.py:213-222 | failure exactly when fewer than min_rings (default 5) rings were found, with that count; otherwise the radii are minima[:max_rings] (default 30) and radii_mm[i] = radii_px[i]·pixel_to_mm (default 0.01), with equal lengths |
| Detection.GateKeepsInnermost | NewtonRing/src/detection.py:216-219 | with 0 <= min_rings <= max_rings and ascending minima, a success keeps min(len, max_rings) rings, between min_rings and max_rings of them, each smaller than every dropped ring |
| Detection.GateKeepsOrder | NewtonRing/src/detection.py:221-222 | with a positive pixel size, ascending pixel radii give ascending millimetre radii |
| Detection.GateKeepsSubset | NewtonRing/src/detection.py:219 | every kept radius is one of the detected minima |
| Detection.DetectNewtonRings | NewtonRing/src/detection.py:201-236 | the result is the gate applied to the dark rings of the profile taken around the estimated centre, with num_angles defaulting to 720 |
| Detection.DetectedRingsAreDarkRings | NewtonRing/src/detection.py:201-222 | a successful detection returns between min_rings and max_rings strictly ascending radii, with ascending mm radii; each radius is at least min_radius_px and an interior local minimum of the smoothed profile |
| Detection.GatedRingsAreDarkRings | NewtonRing/src/detection.py:211-222 | the same guarantees for the gate applied to find_dark_rings of any non-empty profile |
| Calculation.Orders | NewtonRing/src/calculation.py:26 | the orders are the count consecutive numbers ring_index_start, ring_index_start + 1, ... |
| Calculation.Squares | NewtonRing/src/calculation.py:27 | r2[i] = r[i]·r[i], with the same length |
| Calculation.OrdersSpread | NewtonRing/src/calculation.py:26-39 | for a non-empty set of consecutive orders, Sxx > 0 holds exactly when there are at least two rings |
| Calculation.PolyFit1 | NewtonRing/src/calculation.py:31 | polyfit fails exactly for no point or for a single point at order 0; a returned line passes through (mean(n), mean(y)); for a single point the line is numpy's minimum-norm one, slope·n = intercept = y/2 |
| Calculation.NormalEquations | NewtonRing/src/calculation.py:31 | the residuals of the fitted line sum to zero and are orthogonal to the orders |
| Calculation.PolyFitIsLeastSquares | NewtonRing/src/calculation.py:31 | no line has a smaller sum of squared residuals than the fitted one |
| Calculation.AffineFit | NewtonRing/src/calculation.py:29-31 | points exactly on y = a·n + b give back slope a and intercept b with zero squared error, and y varies when a != 0 |
| Calculation.SquaredErrorNonnegative | NewtonRing/src/calculation.py:37 | the sum of squared residuals is non-negative |
| Calculation.Dof | NewtonRing/src/calculation.py:36 | dof = max(1, N - 2): it is at least 1 and at least N - 2, and it equals 1 or N - 2 |
| Calculation.ResidualVariance | NewtonRing/src/calculation.py:34-37 | sigma2 is non-negative and sigma2·dof equals the sum of squared residuals |
| Calculation.SlopeStandardError | NewtonRing/src/calculation.py:40 | slope_se is finite exactly when Sxx > 0 |
| Calculation.SlopeStandardErrorSquared | NewtonRing/src/calculation.py:40 | when finite, slope_se >= 0 and slope_se² = sigma2/Sxx |
| Calculation.InterceptStandardError | NewtonRing/src/calculation.py:41 | intercept_se is finite exactly when Sxx > 0 |
| Calculation.InterceptStandardErrorSquared | NewtonRing/src/calculation.py:41 | when finite, intercept_se >= 0 and intercept_se² = sigma2·(1/N + mean(n)²/Sxx) |
| Calculation.RSquaredBounds | NewtonRing/src/calculation.py:43-44 | r_squared lies in [0, 1] whenever 0 <= ss_res <= ss_tot |
| Calculation.FlatLineResiduals | NewtonRing/src/calculation.py:43 | the residuals against the flat line at mean(r2) are the deviations that ss_tot sums |
| Calculation.RSquaredInUnitInterval | NewtonRing/src/calculation.py:31-44 | the fit's r_squared always lies in [0, 1] |
| Calculation.FitStatistics | NewtonRing/src/calculation.py:33-62 | the returned record echoes n, r_mm, r2, slope and intercept; the standard errors are finite exactly when Sxx > 0; R = slope/(wavelength_nm·1e-6); R_se is finite exactly when slope_se is, and then equals slope_se/(wavelength_nm·1e-6); r_squared is 0 when ss_tot = 0 and 1 - ss_res/ss_tot when ss_tot > 0 |
| Calculation.FitRadiusSquaredVsN | NewtonRing/src/calculation.py:20-62 | failure exactly for no radius, or for one radius at order 0; on success: r_mm is echoed, n[i] = start + i, r2[i] = r_mm[i]², the standard errors are finite exactly when there are at least two rings, R = slope/(wavelength_nm·1e-6); R_se is finite exactly when slope_se is, and then equals slope_se/(wavelength_nm·1e-6); r_squared is 0 when ss_tot = 0 and 1 - ss_res/ss_tot when ss_tot > 0 |
| Calculation.SingleRingFit | NewtonRing/src/calculation.py:26-49 | one ring at a non-zero order n gives slope·n = intercept = r²/2, so R·(2·n·wavelength_nm·1e-6) = r², with NaN standard errors and R_se |
| Calculation.ConstantRadiiFit | NewtonRing/src/calculation.py:43-44 | when all radii are equal, ss_tot = 0 and r_squared is 0, even though the flat line fits them exactly; with two or more rings the slope is 0 |
| Calculation.DefaultArguments | NewtonRing/src/calculation.py:20-48 | with the defaults (589.3 nm, ring_index_start = 1) every non-empty list of radii gives a fit, with n[i] = i + 1 and R = slope/0.0005893 |
| Calculation.FitNormalEquations | NewtonRing/src/calculation.py:31-35 | the residuals of every successful fit sum to zero and are orthogonal to the orders |
| Calculation.FitRecoversAffineData | NewtonRing/src/calculation.py:20-49 | at least two radii with r² = a·n + b give slope a, intercept b, zero squared error and R = a/(wavelength_nm·1e-6), with r_squared = 1 when a != 0 |
| Calculation.FitRecoversCurvatureRadius | NewtonRing/src/calculation.py:47-48 | synthetic rings of a lens of radius R > 0 (r² = wavelength·R·n + b) give back exactly R, with r_squared = 1 |
| Calculation.SlopeStandardErrorOfFit | NewtonRing/src/calculation.py:36-40 | with at least two rings, the fit's slope_se >= 0 and slope_se² = sigma2/Sxx |
| Calculation.InterceptStandardErrorOfFit | NewtonRing/src/calculation.py:36-41 | with at least two rings, the fit's intercept_se >= 0 and intercept_se² = sigma2·(1/N + mean(n)²/Sxx) |
| ErrorAnalysis.MaxAbsResidual | NewtonRing/src/error_analysis.py:71 | the value is 0 for no residual; otherwise it is non-negative, at least every abs(residual), and equal to one of them |
| ErrorAnalysis.MeanWithinMaxAbs | NewtonRing/src/error_analysis.py:69-71 | the mean residual lies in [-max_abs, max_abs] |
| ErrorAnalysis.SampleStdSquared | NewtonRing/src/error_analysis.py:70 | with two or more residuals, std >= 0 and std²·(N - 1) = sum of squared deviations (ddof = 1) |
| ErrorAnalysis.SampleStdZeroIffConstant | NewtonRing/src/error_analysis.py:70 | with two or more residuals, std = 0 exactly when all residuals are equal |
| ErrorAnalysis.UsableReference | NewtonRing/src/error_analysis.py:83 | a reference is used exactly when it is given, finite and non-zero, and then its value is used |
| ErrorAnalysis.RelativeError | NewtonRing/src/error_analysis.py:85-86 | rel_error >= 0 and rel_error·abs(ref) = abs(measured - ref) |
| ErrorAnalysis.AnalyzeError | NewtonRing/src/error_analysis.py:54-117 | R_mm is echoed; r_squared defaults to 0.0 and min_r_squared to 0.98, and max_rel_error is echoed; the residuals are r2 - (slope·n + intercept); the stats are those of the residuals; pass_fit_quality iff r_squared >= min_r_squared; the reference, abs error, rel error and pass_error are all absent exactly when the reference is absent, non-finite or zero; otherwise abs = abs(R - ref) and rel = abs/abs(ref), and pass_error iff there is no threshold or rel <= max_rel_error; overall_pass iff fit quality passes and pass_error is absent or true |
| ErrorAnalysis.OverallPassNeedsFitQuality | NewtonRing/src/error_analysis.py:77-94 | overall_pass implies pass_fit_quality |
| ErrorAnalysis.VerdictWithoutReference | NewtonRing/src/error_analysis.py:80-94 | without a usable reference, pass_error is absent and overall_pass is exactly r_squared >= min_r_squared |
| ErrorAnalysis.RelativeErrorCriterion | NewtonRing/src/error_analysis.py:85-88 | with a threshold, pass_error iff abs(R - ref) <= max_rel_error·abs(ref) |
| ErrorAnalysis.RelativeErrorWithin | NewtonRing/src/error_analysis.py:86-88 | rel_error <= bound iff abs(measured - ref) <= bound·abs(ref) |
| ErrorAnalysis.ReferenceExample | NewtonRing/src/error_analysis.py:83-86 | reference 10.0 with measured 10.5 gives abs error 0.5 and rel error 0.05 |
| ErrorAnalysis.ExactMeasurementPasses | NewtonRing/src/error_analysis.py:83-90 | a measurement equal to a non-zero reference has zero abs and rel error and passes any non-negative threshold |
| ErrorAnalysis.NoRelativeError | NewtonRing/src/error_analysis.py:85-86 | the relative error of a value against itself is 0 |
| ErrorAnalysis.ResidualsOfFit | NewtonRing/src/error_analysis.py:60-69 | given the output of fit_radius_squared_vs_n, there is one residual per ring, the residuals sum to 0, their mean is 0, and the fit-quality flag compares the fit's own r_squared |
| ErrorAnalysis.ResidualSpread | NewtonRing/src/error_analysis.py:66-70 | for residuals that sum to zero, std >= 0 and std²·(N - 1) equals the squared error of the line |
| ErrorAnalysis.ZeroSumSpread | NewtonRing/src/error_analysis.py:70 | for values summing to zero, std >= 0 and std²·(N - 1) is their sum of squares |
| ErrorAnalysis.ExactRingsPassFitQuality | NewtonRing/src/error_analysis.py:66-77 | rings exactly on r² = a·n + b with a != 0 leave all residuals, the mean and max_abs at 0, and pass any min_r_squared <= 1 |
| ErrorAnalysis.PerfectFitVerdict | NewtonRing/src/error_analysis.py:66-77 | a fit with zero squared error and r_squared = 1 leaves all residuals at 0 and passes any min_r_squared <= 1 |
| ErrorAnalysis.NoResidualStats | NewtonRing/src/error_analysis.py:69-71 | zero residuals have mean 0 and max_abs 0 |

## Left out

- OpenCV and SciPy internals are inputs of the model, not part of it: `HoughCircles`, `Canny`, `Sobel` and `magnitude`, `remap`, and `find_peaks`.
  - `find_peaks` is constrained only by `IsPeakFinder`: in-range weak local maxima at least `distance` apart.
  - Its prominence test is not modelled. `minima_prominence` is passed through unchanged.
- Detection.CenterByHough: requires `HoughNonEmpty`, because OpenCV never returns an empty circle array.
- The squeeze of the HoughCircles result is not modelled; circles are given as a sequence.
- Detection.CenterByGradient: the centroid is stated through its first-moment balance, not as the quotient itself; `GradientCenterInsideEdgeBox` bounds it by the edge pixels' box.
- The 1e-6 clip of the gradient weights is written out but not reasoned about beyond positivity.
- Floating point is not modelled:
  - all arithmetic is on exact reals;
  - float32 kernels and sampling grids and IEEE rounding are left out;
  - `np.sqrt` is any function satisfying `IsSqrt`;
  - cos/sin of the sampling angles are the `direction` input.
- Detection.AsciiLower: lower-cases ASCII letters only; Unicode case mapping of the method string is left out.
- The failure message of `detect_newton_rings` is a `DetectionError` value, not the formatted text.
- The overlay and profile figures, their paths and the `os.makedirs` calls are not modelled.
- `save_residual_plot` and `save_R_comparison_plot` are not modelled. They do file and plotting I/O only.
- Calculation.FitRadiusSquaredVsN: requires a non-zero wavelength, so it excludes both zero-wavelength cases. With two or more rings, the R_se division raises ZeroDivisionError. With one ring, the numpy division for R gives ±inf or NaN with a warning, and R_se is NaN because slope_se is NaN.
- The `logger.info` report of the estimated centre in `detect_newton_rings` is not modelled; it is logging output only.
- Detection.RadialProfile: requires `num_angles >= 1`. With a negative `num_angles`, `np.linspace` raises ValueError; with 0, `cv2.remap` rejects the empty sampling map. The model does not represent either error.
- Detection.SmoothIsCentredMean: covers the entries whose window lies inside the profile. Near the ends numpy pads with zeros; that part is stated only by `KernelMassAtMostOne` and `SmoothWithinRange`.
- Detection.DarkRingsAreMinima: requires `minima_distance >= 1`. scipy rejects smaller distances.
- Detection.FindDarkRings: requires a non-empty profile. Every profile has at least 10 entries.
- ErrorAnalysis.AnalyzeError: requires `len(n) == len(r2_mm2)`. numpy broadcasting of mismatched lengths is left out.
- ErrorAnalysis.AnalyzeError: NaN values for r_squared, R_mm or max_rel_error are not modelled.
- The `fit` and `thresholds` dictionaries are datatypes with optional fields. Keys other than those `analyze_error` reads are left out.
