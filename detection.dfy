/**
 Newton-ring detection: the centre estimate, the radial intensity profile, the dark-ring
 (minimum) extraction and the ring-count gate of `detect_newton_rings`.

 The OpenCV and SciPy primitives are inputs. An `Image` carries the grey image's size and
 what `cv2.HoughCircles`, `cv2.Canny` (with the Sobel gradient magnitude at each edge pixel)
 and `cv2.remap` return for it; `scipy.signal.find_peaks` is the function parameter
 `findPeaks`, constrained by `IsPeakFinder`; `np.sqrt` is `sqrt`, constrained by `IsSqrt`;
 the cosine and sine of the sampling angles are `direction`.
 */
module Detection {
  import opened Wrappers
  import opened Numeric
  import opened RealSeq

  // ---------------------------------------------------------------------------------------
  // Inputs

  /** One circle `(x, y, r)` reported by `cv2.HoughCircles`. */
  datatype Circle = Circle(x: real, y: real, r: real)

  /** A non-zero pixel of the Canny edge map and the Sobel gradient magnitude there. */
  datatype EdgePixel = EdgePixel(x: nat, y: nat, magnitude: real)

  /** The arguments `dp, minDist, param1, param2` passed to `cv2.HoughCircles`. */
  datatype HoughParams = HoughParams(dp: real, minDist: real, param1: real, param2: real)

  /**
   A grey image as the detection sees it: its size, the Hough circles found for given
   parameters (`None` when OpenCV finds none), the Canny edge pixels for the two thresholds,
   and the bilinear, border-reflecting sampler of `cv2.remap`.
   */
  datatype Image = Image(
    width: nat,
    height: nat,
    hough: HoughParams -> Option<seq<Circle>>,
    canny: (real, real) -> seq<EdgePixel>,
    sample: (real, real) -> real)

  /** OpenCV returns either no circle array at all or a non-empty one. */
  ghost predicate HoughNonEmpty(img: Image) {
    forall p: HoughParams :: img.hough(p).Some? ==> |img.hough(p).value| > 0
  }

  /** The `detection` section of the configuration; absent keys take the configuration's defaults. */
  datatype DetectionConfig = DetectionConfig(
    centerDetectionMethod: Option<string>, // "center_detection_method", default "gradient"
    houghDp: Option<real>,                 // "hough_dp", default 1
    houghMinDist: Option<real>,            // "hough_min_dist", default 50
    houghParam1: Option<real>,             // "hough_param1", default 50
    houghParam2: Option<real>,             // "hough_param2", default 30
    cannyThreshold1: Option<real>,         // "canny_threshold1", default 50
    cannyThreshold2: Option<real>,         // "canny_threshold2", default 150
    profileNumAngles: Option<int>,         // "profile_num_angles", default 720
    maxRadiusPx: Option<int>,              // "max_radius_px", default None
    profileSmoothWindow: Option<int>,      // "profile_smooth_window", default 9
    minimaProminence: Option<real>,        // "minima_prominence", default 3.0
    minimaDistance: Option<int>,           // "minima_distance", default 8
    minRadiusPx: Option<int>)              // "min_radius_px", default 10

  /** The keys of the `calculation` section that the detection reads. */
  datatype CalculationConfig = CalculationConfig(
    minRings: Option<int>,   // "min_rings", default 5
    maxRings: Option<int>,   // "max_rings", default 30
    pixelToMm: Option<real>) // "pixel_to_mm", default 0.01

  const MinEdgePixels: nat := 200
  const WeightFloor: real := 0.000001
  const SpreadEpsilon: real := 0.000001
  const MinProfileRadius: int := 10

  // ---------------------------------------------------------------------------------------
  // Centre estimate

  /** The dataclass `CenterResult`: a centre, the method that found it and its score. */
  datatype CenterResult = CenterResult(x: real, y: real, methodName: string, score: real)

  /**
   `int(np.argmax(radii))`: the index of the first circle of largest radius.
   */
  function ArgMaxRadius(cs: seq<Circle>): (k: nat)
    requires |cs| > 0
    ensures k < |cs|
    ensures forall j :: 0 <= j < |cs| ==> cs[j].r <= cs[k].r
    ensures forall j :: 0 <= j < k ==> cs[j].r < cs[k].r
  {
    if |cs| == 1 then 0
    else
      var rest := 1 + ArgMaxRadius(cs[1..]);
      assert forall j :: 1 <= j < |cs| ==> cs[j] == cs[1..][j - 1];
      if cs[0].r < cs[rest].r then rest else 0
  }

  function HoughParamsOf(cfg: DetectionConfig): HoughParams {
    HoughParams(cfg.houghDp.GetOr(1.0), cfg.houghMinDist.GetOr(50.0),
                cfg.houghParam1.GetOr(50.0), cfg.houghParam2.GetOr(30.0))
  }

  /**
   `_center_by_hough`: no result when OpenCV finds no circle, otherwise the centre of the
   first largest circle, tagged "hough" and scored by its radius.
   */
  function CenterByHough(img: Image, cfg: DetectionConfig): (r: Option<CenterResult>)
    requires HoughNonEmpty(img)
    ensures r.None? <==> img.hough(HoughParamsOf(cfg)).None?
    ensures r.Some? ==>
      var cs := img.hough(HoughParamsOf(cfg)).value;
      && r.value.methodName == "hough"
      && (exists k :: 0 <= k < |cs| && r.value == CenterResult(cs[k].x, cs[k].y, "hough", cs[k].r)
                      && (forall j :: 0 <= j < k ==> cs[j].r < cs[k].r))
      && (forall j :: 0 <= j < |cs| ==> cs[j].r <= r.value.score)
  {
    match img.hough(HoughParamsOf(cfg))
    case None => None
    case Some(cs) =>
      var k := ArgMaxRadius(cs);
      Some(CenterResult(cs[k].x, cs[k].y, "hough", cs[k].r))
  }

  /** `np.clip(mag[ys, xs], 1e-6, None)`: the centroid weights, all positive. */
  function Weights(edges: seq<EdgePixel>): (w: seq<real>)
    ensures |w| == |edges|
    ensures forall i :: 0 <= i < |w| ==> 0.0 < w[i] && edges[i].magnitude <= w[i]
  {
    seq(|edges|, i requires 0 <= i < |edges| => MaxReal(edges[i].magnitude, WeightFloor))
  }

  function Xs(edges: seq<EdgePixel>): (xs: seq<real>)
    ensures |xs| == |edges|
  {
    seq(|edges|, i requires 0 <= i < |edges| => edges[i].x as real)
  }

  function Ys(edges: seq<EdgePixel>): (ys: seq<real>)
    ensures |ys| == |edges|
  {
    seq(|edges|, i requires 0 <= i < |edges| => edges[i].y as real)
  }

  /**
   `np.sum(v * w) / np.sum(w)`: the `w`-weighted average of `v`, the point about which the
   weighted first moment balances.
   */
  function WeightedAverage(v: seq<real>, w: seq<real>): (avg: real)
    requires |v| == |w| > 0
    requires forall i :: 0 <= i < |w| ==> 0.0 < w[i]
    ensures avg * Sum(w) == Sum(Products(v, w))
  {
    SumPositive(w, 0);
    DivisionCancels(Sum(Products(v, w)), Sum(w), Sum(Products(v, w)) / Sum(w));
    Sum(Products(v, w)) / Sum(w)
  }

  /** `(xs - x0) ** 2 + (ys - y0) ** 2`: squared distances of the edge pixels from a centre. */
  function SquaredDistances(xs: seq<real>, ys: seq<real>, x0: real, y0: real): (d: seq<real>)
    requires |xs| == |ys|
    ensures |d| == |xs|
  {
    seq(|xs|, i requires 0 <= i < |xs| => (xs[i] - x0) * (xs[i] - x0) + (ys[i] - y0) * (ys[i] - y0))
  }

  /**
   `_center_by_gradient`: no result below 200 edge pixels, otherwise the gradient-weighted
   centroid of the edge pixels, tagged "gradient" and scored by the inverse of the weighted
   spread of the pixels around it.
   */
  function CenterByGradient(img: Image, cfg: DetectionConfig, sqrt: real -> real)
    : (r: Option<CenterResult>)
    requires IsSqrt(sqrt)
    ensures var edges := img.canny(cfg.cannyThreshold1.GetOr(50.0), cfg.cannyThreshold2.GetOr(150.0));
      r.None? <==> |edges| < MinEdgePixels
    ensures r.Some? ==> r.value.methodName == "gradient" && 0.0 < r.value.score
    ensures var edges := img.canny(cfg.cannyThreshold1.GetOr(50.0), cfg.cannyThreshold2.GetOr(150.0));
      r.Some? ==>
        && r.value.x * Sum(Weights(edges)) == Sum(Products(Xs(edges), Weights(edges)))
        && r.value.y * Sum(Weights(edges)) == Sum(Products(Ys(edges), Weights(edges)))
        && r.value.score * (sqrt(WeightedAverage(SquaredDistances(Xs(edges), Ys(edges), r.value.x, r.value.y),
                                                 Weights(edges))) + SpreadEpsilon) == 1.0
  {
    var edges := img.canny(cfg.cannyThreshold1.GetOr(50.0), cfg.cannyThreshold2.GetOr(150.0));
    if |edges| < MinEdgePixels then None
    else
      var w := Weights(edges);
      var xs := Xs(edges);
      var ys := Ys(edges);
      var x0 := WeightedAverage(xs, w);
      var y0 := WeightedAverage(ys, w);
      var spread := sqrt(WeightedAverage(SquaredDistances(xs, ys, x0, y0), w));
      SpreadNonnegative(xs, ys, x0, y0, w, sqrt);
      DivisionCancels(1.0, spread + SpreadEpsilon, 1.0 / (spread + SpreadEpsilon));
      Some(CenterResult(x0, y0, "gradient", 1.0 / (spread + SpreadEpsilon)))
  }

  lemma SpreadNonnegative(xs: seq<real>, ys: seq<real>, x0: real, y0: real, w: seq<real>,
                          sqrt: real -> real)
    requires |xs| == |ys| == |w| > 0 && IsSqrt(sqrt)
    requires forall i :: 0 <= i < |w| ==> 0.0 < w[i]
    ensures 0.0 <= sqrt(WeightedAverage(SquaredDistances(xs, ys, x0, y0), w))
  {
    var d := SquaredDistances(xs, ys, x0, y0);
    forall i | 0 <= i < |d| ensures 0.0 <= d[i] {
      SquareNonnegative(xs[i] - x0);
      SquareNonnegative(ys[i] - y0);
    }
    WeightedAverageBounds(d, w, 0.0, MaxOf(d));
    SqrtSquared(sqrt, WeightedAverage(d, w));
  }

  /** A weighted average of values in [lo, hi] lies in [lo, hi]. */
  lemma WeightedAverageBounds(v: seq<real>, w: seq<real>, lo: real, hi: real)
    requires |v| == |w| > 0
    requires forall i :: 0 <= i < |w| ==> 0.0 < w[i]
    requires forall i :: 0 <= i < |v| ==> lo <= v[i] <= hi
    ensures lo <= WeightedAverage(v, w) <= hi
  {
    SumPositive(w, 0);
    WeightedSumBounds(Products(v, w), v, w, lo, hi);
    QuotientBounds(Sum(Products(v, w)), Sum(w), lo, hi);
  }

  lemma QuotientBounds(num: real, den: real, lo: real, hi: real)
    requires 0.0 < den && lo * den <= num <= hi * den
    ensures lo <= num / den <= hi
  {
    var q := num / den;
    assert q * den == num;
  }

  /** The gradient centroid lies in every axis-aligned box that holds all the edge pixels. */
  lemma GradientCenterInsideEdgeBox(img: Image, cfg: DetectionConfig, sqrt: real -> real,
                                    xLo: real, xHi: real, yLo: real, yHi: real)
    requires IsSqrt(sqrt)
    requires var edges := img.canny(cfg.cannyThreshold1.GetOr(50.0), cfg.cannyThreshold2.GetOr(150.0));
      forall i :: 0 <= i < |edges| ==>
        xLo <= edges[i].x as real <= xHi && yLo <= edges[i].y as real <= yHi
    ensures var r := CenterByGradient(img, cfg, sqrt);
      r.Some? ==> xLo <= r.value.x <= xHi && yLo <= r.value.y <= yHi
  {
    var edges := img.canny(cfg.cannyThreshold1.GetOr(50.0), cfg.cannyThreshold2.GetOr(150.0));
    if MinEdgePixels <= |edges| {
      WeightedAverageBounds(Xs(edges), Weights(edges), xLo, xHi);
      WeightedAverageBounds(Ys(edges), Weights(edges), yLo, yHi);
    }
  }

  /** `str.lower()` on the ASCII letters; every other character is kept. */
  function AsciiLower(s: string): (t: string)
    ensures |t| == |s|
    ensures forall i :: 0 <= i < |s| && 'A' <= s[i] <= 'Z' ==>
      t[i] as int == s[i] as int - 'A' as int + 'a' as int
    ensures forall i :: 0 <= i < |s| ==> !('A' <= s[i] <= 'Z') ==> t[i] == s[i]
  {
    seq(|s|, i requires 0 <= i < |s| =>
      if 'A' <= s[i] <= 'Z' then (s[i] as int - 'A' as int + 'a' as int) as char else s[i])
  }

  /** Whether the configured method names the Hough detector, in any letter case. */
  predicate PrefersHough(cfg: DetectionConfig) {
    AsciiLower(cfg.centerDetectionMethod.GetOr("gradient")) == "hough"
  }

  lemma HoughSpellings(cfg: DetectionConfig)
    ensures cfg.centerDetectionMethod == Some("HOUGH") ==> PrefersHough(cfg)
    ensures cfg.centerDetectionMethod == Some("Hough") ==> PrefersHough(cfg)
    ensures cfg.centerDetectionMethod.None? ==> !PrefersHough(cfg)
  {
    if cfg.centerDetectionMethod == Some("HOUGH") {
      assert AsciiLower("HOUGH") == "hough";
    } else if cfg.centerDetectionMethod == Some("Hough") {
      assert AsciiLower("Hough") == "hough";
    } else if cfg.centerDetectionMethod.None? {
      assert AsciiLower("gradient")[0] == 'g';
    }
  }

  /** `CenterResult(w / 2.0, h / 2.0, "fallback_center", 0.0)`. */
  function FallbackCenter(img: Image): (c: CenterResult)
    ensures c.methodName == "fallback_center" && c.score == 0.0
    ensures c.x * 2.0 == img.width as real && c.y * 2.0 == img.height as real
  {
    CenterResult(img.width as real / 2.0, img.height as real / 2.0, "fallback_center", 0.0)
  }

  /**
   `estimate_center`: the preferred detector ("hough" if the lower-cased method says so,
   otherwise gradient), then the other one, then the image centre. A detector's result is
   returned as it is.
   */
  function EstimateCenter(img: Image, cfg: DetectionConfig, sqrt: real -> real): (c: CenterResult)
    requires HoughNonEmpty(img) && IsSqrt(sqrt)
    ensures var hough := CenterByHough(img, cfg);
      var gradient := CenterByGradient(img, cfg, sqrt);
      && (c.methodName == "fallback_center" <==> hough.None? && gradient.None?)
      && (hough.None? && gradient.None? ==> c == FallbackCenter(img))
      && (PrefersHough(cfg) && hough.Some? ==> c == hough.value)
      && (PrefersHough(cfg) && hough.None? && gradient.Some? ==> c == gradient.value)
      && (!PrefersHough(cfg) && gradient.Some? ==> c == gradient.value)
      && (!PrefersHough(cfg) && gradient.None? && hough.Some? ==> c == hough.value)
  {
    if PrefersHough(cfg) then
      var res := CenterByHough(img, cfg);
      if res.Some? then res.value
      else
        var res := CenterByGradient(img, cfg, sqrt);
        if res.Some? then res.value
        else FallbackCenter(img)
    else
      var res := CenterByGradient(img, cfg, sqrt);
      if res.Some? then res.value
      else
        var res := CenterByHough(img, cfg);
        if res.Some? then res.value
        else FallbackCenter(img)
  }

  /** The centre always comes from one of the three sources, with that source's tag. */
  lemma CenterMethodTags(img: Image, cfg: DetectionConfig, sqrt: real -> real)
    requires HoughNonEmpty(img) && IsSqrt(sqrt)
    ensures var c := EstimateCenter(img, cfg, sqrt);
      c.methodName in {"hough", "gradient", "fallback_center"}
    ensures var c := EstimateCenter(img, cfg, sqrt);
      c.methodName == "fallback_center" ==> c.score == 0.0
    ensures var c := EstimateCenter(img, cfg, sqrt);
      c.methodName == "gradient" ==> 0.0 < c.score
  {
  }

  // ---------------------------------------------------------------------------------------
  // Radial profile

  /**
   The number of radii sampled: `max_radius` when configured, otherwise the truncated
   distance from the centre to the nearest image border; never less than 10.
   */
  function EffectiveMaxRadius(img: Image, cx: real, cy: real, maxRadius: Option<int>): (m: int)
    ensures MinProfileRadius <= m
    ensures maxRadius.Some? && MinProfileRadius <= maxRadius.value ==> m == maxRadius.value
    ensures maxRadius.Some? ==> m == MaxInt(MinProfileRadius, maxRadius.value)
    ensures maxRadius.None? ==> m == MaxInt(MinProfileRadius,
      Trunc(MinReal(MinReal(cx, cy), MinReal(img.width as real - cx, img.height as real - cy))))
  {
    var requested := match maxRadius
      case Some(r) => r
      case None => Trunc(MinReal(MinReal(cx, cy), MinReal(img.width as real - cx, img.height as real - cy)));
    MaxInt(MinProfileRadius, requested)
  }

  /**
   Without a configured radius, a centre at least 10 pixels from every border gets the largest
   whole radius that keeps every sampled circle inside the image.
   */
  lemma ProfileRadiusFitsImage(img: Image, cx: real, cy: real)
    requires 10.0 <= cx && 10.0 <= cy
    requires 10.0 <= img.width as real - cx && 10.0 <= img.height as real - cy
    ensures var m := EffectiveMaxRadius(img, cx, cy, None) as real;
      && m <= cx && m <= cy && m <= img.width as real - cx && m <= img.height as real - cy
      && (cx < m + 1.0 || cy < m + 1.0 || img.width as real - cx < m + 1.0
          || img.height as real - cy < m + 1.0)
  {
  }

  /** The samples at radius `r` along the `numAngles` equally spaced directions. */
  function RingSamples(img: Image, cx: real, cy: real, numAngles: nat, r: nat,
                       direction: (nat, nat) -> (real, real)): (v: seq<real>)
    ensures |v| == numAngles
  {
    seq(numAngles, k requires 0 <= k < numAngles =>
      img.sample(cx + direction(k, numAngles).0 * r as real, cy + direction(k, numAngles).1 * r as real))
  }

  /**
   `radial_profile`: for each radius 0 .. max_radius - 1, the mean over the sampling angles of
   the image sampled on the circle of that radius around (cx, cy). `direction(k, n)` is
   (cos, sin) of the angle 2 pi k / n.
   */
  function RadialProfile(img: Image, cx: real, cy: real, numAngles: int, maxRadius: Option<int>,
                         direction: (nat, nat) -> (real, real)): (profile: seq<real>)
    requires 1 <= numAngles
    ensures |profile| == EffectiveMaxRadius(img, cx, cy, maxRadius)
    ensures forall r :: 0 <= r < |profile| ==>
      profile[r] == Mean(RingSamples(img, cx, cy, numAngles, r, direction))
  {
    var m := EffectiveMaxRadius(img, cx, cy, maxRadius);
    seq(m, r requires 0 <= r < m => Mean(RingSamples(img, cx, cy, numAngles, r, direction)))
  }

  /** Every profile value lies within the range of the sampled intensities. */
  lemma ProfileWithinIntensityRange(img: Image, cx: real, cy: real, numAngles: int,
                                    maxRadius: Option<int>, direction: (nat, nat) -> (real, real),
                                    lo: real, hi: real)
    requires 1 <= numAngles
    requires forall x: real, y: real :: lo <= img.sample(x, y) <= hi
    ensures var profile := RadialProfile(img, cx, cy, numAngles, maxRadius, direction);
      forall r :: 0 <= r < |profile| ==> lo <= profile[r] <= hi
  {
    var profile := RadialProfile(img, cx, cy, numAngles, maxRadius, direction);
    forall r | 0 <= r < |profile| ensures lo <= profile[r] <= hi {
      MeanBounds(RingSamples(img, cx, cy, numAngles, r, direction), lo, hi);
    }
  }

  // ---------------------------------------------------------------------------------------
  // Dark rings

  /**
   The smoothing window: the configured one (default 9), raised to 3 and then to the next odd
   number, i.e. the smallest odd number that is at least the request and at least 3.
   */
  function SmoothingWindow(cfg: DetectionConfig): (win: int)
    ensures 3 <= win && win % 2 == 1
    ensures MaxInt(3, cfg.profileSmoothWindow.GetOr(9)) <= win <= MaxInt(3, cfg.profileSmoothWindow.GetOr(9)) + 1
  {
    var requested := cfg.profileSmoothWindow.GetOr(9);
    var win := if requested < 3 then 3 else requested;
    if win % 2 == 0 then win + 1 else win
  }

  /** `np.ones(win) / win`: the moving-average kernel. */
  function Kernel(win: nat): (kernel: seq<real>)
    requires 0 < win
    ensures |kernel| == win
    ensures forall i :: 0 <= i < win ==> kernel[i] == 1.0 / win as real
  {
    seq(win, i => 1.0 / win as real)
  }

  /** Entry `t` of a kernel, zero outside it (the zero padding of a convolution). */
  function KernelAt(v: seq<real>, t: int): real {
    if 0 <= t < |v| then v[t] else 0.0
  }

  /** `sum(a[j] * v[k - j] for j < m)`: a partial sum of entry `k` of the full convolution. */
  function ConvolutionPrefix(a: seq<real>, v: seq<real>, k: int, m: nat): real
    requires m <= |a|
  {
    if m == 0 then 0.0
    else ConvolutionPrefix(a, v, k, m - 1) + a[m - 1] * KernelAt(v, k - (m - 1))
  }

  /**
   `np.convolve(a, v, mode="same")`: `max(len(a), len(v))` entries of the full convolution,
   starting `(min(len(a), len(v)) - 1) // 2` entries in.
   */
  function ConvolveSame(a: seq<real>, v: seq<real>): (c: seq<real>)
    requires 0 < |a| && 0 < |v|
    ensures |c| == MaxInt(|a|, |v|)
  {
    var offset := (MinInt(|a|, |v|) - 1) / 2;
    seq(MaxInt(|a|, |v|), i => ConvolutionPrefix(a, v, i + offset, |a|))
  }

  /** The smoothed profile. */
  function Smooth(profile: seq<real>, win: int): (smooth: seq<real>)
    requires 0 < |profile| && 0 < win
    ensures |smooth| == MaxInt(|profile|, win)
  {
    ConvolveSame(profile, Kernel(win))
  }

  /** `sum(v[k - j] for j < m)`: the kernel weight that meets the first `m` samples. */
  function KernelMass(v: seq<real>, k: int, m: nat): real {
    if m == 0 then 0.0 else KernelMass(v, k, m - 1) + KernelAt(v, k - (m - 1))
  }

  /** How many of the samples 0 .. m - 1 the window k - win + 1 .. k covers. */
  function Covered(k: int, m: nat, win: nat): (n: nat)
    ensures n <= win
  {
    MaxInt(0, MinInt(m, k + 1) - MaxInt(0, k - win + 1))
  }

  lemma {:induction false} KernelMassCount(win: nat, k: int, m: nat)
    requires 0 < win
    ensures KernelMass(Kernel(win), k, m) == (1.0 / win as real) * Covered(k, m, win) as real
  {
    if m > 0 {
      KernelMassCount(win, k, m - 1);
      var c := 1.0 / win as real;
      var step := KernelAt(Kernel(win), k - (m - 1));
      if k - win + 1 <= m - 1 <= k {
        assert step == c;
        assert Covered(k, m, win) == Covered(k, m - 1, win) + 1;
        MassStep(c, Covered(k, m - 1, win) as real);
      } else {
        assert step == 0.0;
        assert Covered(k, m, win) == Covered(k, m - 1, win);
      }
    }
  }

  lemma MassStep(c: real, n: real)
    ensures c * n + c == c * (n + 1.0)
  {
  }

  /** A window that lies inside the samples meets the whole kernel, of total weight 1. */
  lemma KernelTotalWeight(win: nat, k: int, m: nat)
    requires 0 < win && win - 1 <= k < m
    ensures KernelMass(Kernel(win), k, m) == 1.0
  {
    KernelMassCount(win, k, m);
    assert Covered(k, m, win) == win;
    assert (1.0 / win as real) * win as real == 1.0;
  }

  /** The moving-average kernel meets any stretch of samples with total weight at most 1. */
  lemma KernelMassAtMostOne(win: nat, k: int, m: nat)
    requires 0 < win
    ensures 0.0 <= KernelMass(Kernel(win), k, m) <= 1.0
  {
    KernelMassCount(win, k, m);
    FractionAtMostOne(Covered(k, m, win) as real, win as real);
  }

  lemma FractionAtMostOne(n: real, w: real)
    requires 0.0 <= n <= w && 0.0 < w
    ensures 0.0 <= (1.0 / w) * n <= 1.0
  {
    assert (1.0 / w) * n == n / w;
    RatioInUnitInterval(n, w);
  }

  /**
   With samples in [0, hi] and a non-negative kernel, a partial convolution sum lies between 0
   and hi times the kernel weight it has met.
   */
  lemma {:induction false} ConvolutionPrefixBounds(a: seq<real>, v: seq<real>, k: int, m: nat, hi: real)
    requires m <= |a|
    requires forall j :: 0 <= j < |a| ==> 0.0 <= a[j] <= hi
    requires forall t :: 0 <= t < |v| ==> 0.0 <= v[t]
    ensures 0.0 <= ConvolutionPrefix(a, v, k, m) <= hi * KernelMass(v, k, m)
  {
    if m > 0 {
      ConvolutionPrefixBounds(a, v, k, m - 1, hi);
      var kappa := KernelAt(v, k - (m - 1));
      ConvolutionStep(a[m - 1], kappa, hi, ConvolutionPrefix(a, v, k, m - 1), KernelMass(v, k, m - 1));
    }
  }

  lemma ConvolutionStep(x: real, kappa: real, hi: real, sum: real, mass: real)
    requires 0.0 <= x <= hi && 0.0 <= kappa && 0.0 <= sum <= hi * mass
    ensures 0.0 <= sum + x * kappa <= hi * (mass + kappa)
  {
    NonnegativeProduct(x, kappa, x * kappa);
    NonnegativeProduct(hi - x, kappa, (hi - x) * kappa);
  }

  lemma ScaleAtMostOne(hi: real, mass: real, s: real)
    requires 0.0 <= hi && 0.0 <= mass <= 1.0 && s <= hi * mass
    ensures s <= hi
  {
    NonnegativeProduct(hi, 1.0 - mass, hi * (1.0 - mass));
  }

  /** Smoothing a profile with values in [0, hi] gives values in [0, hi]. */
  lemma SmoothWithinRange(profile: seq<real>, win: int, hi: real)
    requires 0 < |profile| && 0 < win
    requires forall j :: 0 <= j < |profile| ==> 0.0 <= profile[j] <= hi
    ensures var smooth := Smooth(profile, win);
      forall i :: 0 <= i < |smooth| ==> 0.0 <= smooth[i] <= hi
  {
    var kernel := Kernel(win);
    var offset := (MinInt(|profile|, win) - 1) / 2;
    var smooth := Smooth(profile, win);
    forall i | 0 <= i < |smooth| ensures 0.0 <= smooth[i] <= hi {
      var k := i + offset;
      ConvolutionPrefixBounds(profile, kernel, k, |profile|, hi);
      KernelMassAtMostOne(win, k, |profile|);
      ScaleAtMostOne(hi, KernelMass(kernel, k, |profile|), smooth[i]);
    }
  }

  /** Samples before the window k - |v| + 1 .. k meet no kernel weight. */
  lemma {:induction false} ConvolutionBeforeWindow(a: seq<real>, v: seq<real>, k: int, m: nat)
    requires m <= |a| && m <= k - |v| + 1
    ensures ConvolutionPrefix(a, v, k, m) == 0.0
  {
    if m > 0 {
      ConvolutionBeforeWindow(a, v, k, m - 1);
      ZeroStep(0.0, a[m - 1], KernelAt(v, k - (m - 1)));
    }
  }

  /** `sum(a[lo:m])`, added up from the back as the convolution adds its terms. */
  function RangeSum(a: seq<real>, lo: int, m: int): real
    requires 0 <= lo && m <= |a|
    decreases m - lo
  {
    if m <= lo then 0.0 else RangeSum(a, lo, m - 1) + a[m - 1]
  }

  lemma {:induction false} RangeSumIsSum(a: seq<real>, lo: int, m: int)
    requires 0 <= lo <= m <= |a|
    ensures RangeSum(a, lo, m) == Sum(a[lo .. m])
    decreases m - lo
  {
    if m == lo {
      assert a[lo .. m] == [];
    } else {
      RangeSumIsSum(a, lo, m - 1);
      WindowGrows(a, lo, m);
    }
  }

  /**
   With a constant kernel of value `c`, the samples from the start of the window up to `m`
   contribute `c` times their sum.
   */
  lemma {:induction false} ConvolutionInWindow(a: seq<real>, v: seq<real>, c: real, k: int, m: nat)
    requires 0 < |v| && 0 <= k - |v| + 1 <= m <= k + 1 && m <= |a|
    requires forall t :: 0 <= t < |v| ==> v[t] == c
    ensures ConvolutionPrefix(a, v, k, m) == c * RangeSum(a, k - |v| + 1, m)
    decreases m
  {
    var lo := k - |v| + 1;
    if m == lo {
      ConvolutionBeforeWindow(a, v, k, m);
    } else {
      ConvolutionInWindow(a, v, c, k, m - 1);
      var prefix := ConvolutionPrefix(a, v, k, m - 1);
      var weight := KernelAt(v, k - (m - 1));
      assert weight == v[k - (m - 1)] == c;
      WindowStep(prefix, c, RangeSum(a, lo, m - 1), a[m - 1]);
    }
  }

  /** Samples after the window add nothing either. */
  lemma {:induction false} ConvolutionAfterWindow(a: seq<real>, v: seq<real>, k: int, m: nat)
    requires 0 <= k + 1 <= m <= |a|
    ensures ConvolutionPrefix(a, v, k, m) == ConvolutionPrefix(a, v, k, k + 1)
  {
    if m > k + 1 {
      ConvolutionAfterWindow(a, v, k, m - 1);
      ZeroStep(ConvolutionPrefix(a, v, k, m - 1), a[m - 1], KernelAt(v, k - (m - 1)));
    }
  }

  lemma WindowGrows(a: seq<real>, lo: int, m: int)
    requires 0 <= lo < m <= |a|
    ensures Sum(a[lo .. m]) == Sum(a[lo .. m - 1]) + a[m - 1]
  {
    assert a[lo .. m] == a[lo .. m - 1] + [a[m - 1]];
    SumAppend(a[lo .. m - 1], a[m - 1]);
  }

  lemma ZeroStep(prefix: real, x: real, weight: real)
    requires weight == 0.0
    ensures prefix + x * weight == prefix
  {
  }

  lemma WindowStep(prefix: real, c: real, before: real, x: real)
    requires prefix == c * before
    ensures prefix + x * c == c * (before + x)
  {
  }

  lemma ScaledByReciprocal(s: real, w: real)
    requires 0.0 < w
    ensures (1.0 / w) * s == s / w
  {
  }

  /**
   Away from the ends, the smoothed profile is the centred moving average: entry `i` is the
   mean of the `win` samples i - win/2 .. i + win/2, as numpy's "same" mode aligns them.
   */
  lemma SmoothIsCentredMean(profile: seq<real>, win: int, i: int)
    requires 0 < |profile| && 0 < win && win % 2 == 1
    requires win / 2 <= i < |profile| - win / 2
    ensures i < |Smooth(profile, win)|
    ensures Smooth(profile, win)[i] == Mean(profile[i - win / 2 .. i + win / 2 + 1])
  {
    var h := win / 2;
    assert win == 2 * h + 1;
    SmoothAsWindowMean(profile, h, i);
  }

  /** The same with the window written as 2 h + 1. */
  lemma SmoothAsWindowMean(profile: seq<real>, h: nat, i: int)
    requires h <= i < |profile| - h
    ensures Smooth(profile, 2 * h + 1)[i] == Mean(profile[i - h .. i + h + 1])
  {
    var win := 2 * h + 1;
    var window := profile[i - h .. i + h + 1];
    SmoothCentredEntry(profile, h, i);
    WindowOfKernel(profile, win, i + h);
    ScaledByReciprocal(Sum(window), win as real);
  }

  /** Entry `i` of the smoothed profile is entry `i + h` of the full convolution. */
  lemma SmoothCentredEntry(profile: seq<real>, h: nat, i: int)
    requires h <= i < |profile| - h
    ensures Smooth(profile, 2 * h + 1)[i] == ConvolutionPrefix(profile, Kernel(2 * h + 1), i + h, |profile|)
  {
    assert MinInt(|profile|, 2 * h + 1) == 2 * h + 1;
  }

  /** An entry of the full convolution whose window lies inside the samples is the window's mean. */
  lemma WindowOfKernel(profile: seq<real>, win: nat, k: int)
    requires 0 < win && win - 1 <= k < |profile|
    ensures ConvolutionPrefix(profile, Kernel(win), k, |profile|)
         == (1.0 / win as real) * Sum(profile[k - win + 1 .. k + 1])
  {
    ConstantKernelWindow(profile, Kernel(win), 1.0 / win as real, k);
  }

  /** The same for any kernel whose entries all equal `c`. */
  lemma ConstantKernelWindow(a: seq<real>, v: seq<real>, c: real, k: int)
    requires 0 < |v| && |v| - 1 <= k < |a|
    requires forall t :: 0 <= t < |v| ==> v[t] == c
    ensures ConvolutionPrefix(a, v, k, |a|) == c * Sum(a[k - |v| + 1 .. k + 1])
  {
    var lo := k - |v| + 1;
    ConvolutionInWindow(a, v, c, k, k + 1);
    ConvolutionAfterWindow(a, v, k, |a|);
    RangeSumIsSum(a, lo, k + 1);
    ScaledEqual(ConvolutionPrefix(a, v, k, |a|), ConvolutionPrefix(a, v, k, k + 1), c,
                RangeSum(a, lo, k + 1), Sum(a[lo .. k + 1]));
  }

  lemma ScaledEqual(whole: real, part: real, c: real, r: real, s: real)
    requires whole == part && part == c * r && r == s
    ensures whole == c * s
  {
  }


  /** `smooth.max() - smooth`: the profile turned upside down, minima becoming peaks. */
  function Inverted(smooth: seq<real>): (inv: seq<real>)
    requires 0 < |smooth|
    ensures |inv| == |smooth|
    ensures forall i :: 0 <= i < |inv| ==> 0.0 <= inv[i]
    ensures forall i, j :: 0 <= i < |inv| && 0 <= j < |inv| ==>
      (inv[i] <= inv[j] <==> smooth[j] <= smooth[i])
  {
    var top := MaxOf(smooth);
    seq(|smooth|, i requires 0 <= i < |smooth| => top - smooth[i])
  }

  /**
   What the model relies on from `find_peaks(x, prominence=..., distance=d)`: interior indices
   that are (weak) local maxima of `x`, any two of them at least `d` apart in ascending order.
   Prominence is not modelled.
   */
  predicate ArePeaks(x: seq<real>, distance: int, peaks: seq<int>) {
    && (forall i, j :: 0 <= i < j < |peaks| ==> peaks[i] + distance <= peaks[j])
    && (forall p | p in peaks :: 0 < p < |x| - 1 && x[p - 1] <= x[p] && x[p + 1] <= x[p])
  }

  ghost predicate IsPeakFinder(findPeaks: (seq<real>, real, int) -> seq<int>) {
    forall x: seq<real>, prominence: real, distance: int {:trigger findPeaks(x, prominence, distance)} ::
      1 <= distance ==> ArePeaks(x, distance, findPeaks(x, prominence, distance))
  }

  /** `peaks[peaks >= m]`: the peaks at index `m` or beyond, in their order. */
  function AtLeast(peaks: seq<int>, m: int): (kept: seq<int>)
    ensures |kept| <= |peaks|
    ensures forall p :: p in kept <==> p in peaks && m <= p
  {
    if |peaks| == 0 then []
    else if m <= peaks[0] then [peaks[0]] + AtLeast(peaks[1..], m)
    else AtLeast(peaks[1..], m)
  }

  /** Filtering keeps any two survivors at least as far apart as before. */
  lemma {:induction false} AtLeastKeepsSpacing(peaks: seq<int>, m: int, distance: int)
    requires forall i, j :: 0 <= i < j < |peaks| ==> peaks[i] + distance <= peaks[j]
    ensures forall i, j :: 0 <= i < j < |AtLeast(peaks, m)| ==>
      AtLeast(peaks, m)[i] + distance <= AtLeast(peaks, m)[j]
  {
    if |peaks| > 0 {
      var rest := peaks[1..];
      assert forall i, j :: 0 <= i < j < |rest| ==> rest[i] + distance <= rest[j] by {
        forall i, j | 0 <= i < j < |rest| ensures rest[i] + distance <= rest[j] {
          assert rest[i] == peaks[i + 1] && rest[j] == peaks[j + 1];
        }
      }
      AtLeastKeepsSpacing(rest, m, distance);
      if m <= peaks[0] {
        var kept := AtLeast(peaks, m);
        var tail := AtLeast(rest, m);
        assert kept == [peaks[0]] + tail;
        forall i, j | 0 <= i < j < |kept| ensures kept[i] + distance <= kept[j] {
          assert kept[j] == tail[j - 1];
          if i == 0 {
            assert tail[j - 1] in tail;
            var t :| 0 <= t < |rest| && rest[t] == kept[j];
            assert rest[t] == peaks[t + 1];
          } else {
            assert kept[i] == tail[i - 1];
          }
        }
      }
    }
  }

  /** `find_dark_rings`: the dark-ring radii (profile indices) and the smoothed profile. */
  function FindDarkRings(profile: seq<real>, cfg: DetectionConfig,
                         findPeaks: (seq<real>, real, int) -> seq<int>)
    : (rings: (seq<int>, seq<real>))
    requires 0 < |profile|
    ensures rings.1 == Smooth(profile, SmoothingWindow(cfg))
    ensures |rings.1| == MaxInt(|profile|, SmoothingWindow(cfg))
    ensures forall p :: p in rings.0 ==> cfg.minRadiusPx.GetOr(10) <= p
    ensures var peaks := findPeaks(Inverted(rings.1), cfg.minimaProminence.GetOr(3.0),
                                   cfg.minimaDistance.GetOr(8));
      && (forall p :: p in rings.0 <==> p in peaks && cfg.minRadiusPx.GetOr(10) <= p)
      && |rings.0| <= |peaks|
  {
    var win := SmoothingWindow(cfg);
    var smooth := Smooth(profile, win);
    var inv := Inverted(smooth);
    var prominence := cfg.minimaProminence.GetOr(3.0);
    var distance := cfg.minimaDistance.GetOr(8);
    var peaks := findPeaks(inv, prominence, distance);
    (AtLeast(peaks, cfg.minRadiusPx.GetOr(10)), smooth)
  }

  /**
   Every dark ring is an interior local minimum of the smoothed profile at least
   `min_radius_px` from the centre, and the rings come in ascending order, any two at least
   `minima_distance` apart.
   */
  lemma DarkRingsAreMinima(profile: seq<real>, cfg: DetectionConfig,
                           findPeaks: (seq<real>, real, int) -> seq<int>)
    requires 0 < |profile| && IsPeakFinder(findPeaks) && 1 <= cfg.minimaDistance.GetOr(8)
    ensures var (rings, smooth) := FindDarkRings(profile, cfg, findPeaks);
      && (forall i, j :: 0 <= i < j < |rings| ==> rings[i] + cfg.minimaDistance.GetOr(8) <= rings[j])
      && (forall p | p in rings ::
            && cfg.minRadiusPx.GetOr(10) <= p
            && 0 < p < |smooth| - 1
            && smooth[p] <= smooth[p - 1] && smooth[p] <= smooth[p + 1])
  {
    var smooth := Smooth(profile, SmoothingWindow(cfg));
    var inv := Inverted(smooth);
    var distance := cfg.minimaDistance.GetOr(8);
    var minRadius := cfg.minRadiusPx.GetOr(10);
    var peaks := findPeaks(inv, cfg.minimaProminence.GetOr(3.0), distance);
    var rings := AtLeast(peaks, minRadius);
    assert FindDarkRings(profile, cfg, findPeaks) == (rings, smooth);
    assert ArePeaks(inv, distance, peaks);
    AtLeastKeepsSpacing(peaks, minRadius, distance);
    assert forall i, j :: 0 <= i < j < |rings| ==> rings[i] + distance <= rings[j];
    forall p | p in rings
      ensures 0 < p < |smooth| - 1 && smooth[p] <= smooth[p - 1] && smooth[p] <= smooth[p + 1]
    {
      assert p in peaks;
      assert inv[p - 1] <= inv[p] && inv[p + 1] <= inv[p];
    }
  }

  // ---------------------------------------------------------------------------------------
  // Ring-count gate

  /** `s[:stop]` in Python: a negative `stop` counts from the end; the slice is clamped. */
  function PyPrefix<T>(s: seq<T>, stop: int): (p: seq<T>)
    ensures 0 <= stop ==> |p| == MinInt(stop, |s|)
    ensures stop < 0 ==> |p| == MaxInt(0, |s| + stop)
    ensures p == s[..|p|]
  {
    if 0 <= stop then s[..MinInt(stop, |s|)] else s[..MaxInt(0, |s| + stop)]
  }

  /** The failure of `detect_newton_rings`: fewer dark rings than `min_rings`. */
  datatype DetectionError = TooFewRings(detected: nat, minRings: int)

  /** The success dictionary of `detect_newton_rings`, without the figure paths. */
  datatype RingDetection = RingDetection(center: CenterResult, radiiPx: seq<int>, radiiMm: seq<real>)

  /**
   The gate, truncation and scaling of `detect_newton_rings`: fail when fewer than `min_rings`
   rings were found, otherwise keep the first `max_rings` of them and convert pixels to
   millimetres.
   */
  function GateRings(minima: seq<int>, center: CenterResult, cfg: CalculationConfig)
    : (r: Result<RingDetection, DetectionError>)
    ensures r.Failure? <==> |minima| < cfg.minRings.GetOr(5)
    ensures r.Failure? ==> r.error == TooFewRings(|minima|, cfg.minRings.GetOr(5))
    ensures r.Success? ==>
      && r.value.center == center
      && r.value.radiiPx == PyPrefix(minima, cfg.maxRings.GetOr(30))
      && |r.value.radiiMm| == |r.value.radiiPx|
      && (forall i :: 0 <= i < |r.value.radiiPx| ==>
            r.value.radiiMm[i] == r.value.radiiPx[i] as real * cfg.pixelToMm.GetOr(0.01))
  {
    var minRings := cfg.minRings.GetOr(5);
    var maxRings := cfg.maxRings.GetOr(30);
    if |minima| < minRings then Failure(TooFewRings(|minima|, minRings))
    else
      var kept := PyPrefix(minima, maxRings);
      var pixelToMm := cfg.pixelToMm.GetOr(0.01);
      Success(RingDetection(center, kept, seq(|kept|, i requires 0 <= i < |kept| => kept[i] as real * pixelToMm)))
  }

  /**
   With `max_rings >= min_rings >= 0`, a successful gate keeps between `min_rings` and
   `max_rings` rings, and of ascending minima it keeps the innermost ones: every kept radius is
   smaller than every dropped one.
   */
  lemma GateKeepsInnermost(minima: seq<int>, center: CenterResult, cfg: CalculationConfig)
    requires 0 <= cfg.minRings.GetOr(5) <= cfg.maxRings.GetOr(30)
    requires forall i, j :: 0 <= i < j < |minima| ==> minima[i] < minima[j]
    ensures var r := GateRings(minima, center, cfg);
      r.Success? ==>
        && cfg.minRings.GetOr(5) <= |r.value.radiiPx| <= cfg.maxRings.GetOr(30)
        && |r.value.radiiPx| == MinInt(|minima|, cfg.maxRings.GetOr(30))
        && (forall i, j :: 0 <= i < |r.value.radiiPx| <= j < |minima| ==> r.value.radiiPx[i] < minima[j])
  {
  }

  /** With a positive pixel size, ascending pixel radii give ascending millimetre radii. */
  lemma GateKeepsOrder(minima: seq<int>, center: CenterResult, cfg: CalculationConfig)
    requires 0.0 < cfg.pixelToMm.GetOr(0.01)
    requires forall i, j :: 0 <= i < j < |minima| ==> minima[i] < minima[j]
    ensures GateRings(minima, center, cfg).Success? ==>
      var mm := GateRings(minima, center, cfg).value.radiiMm;
      forall i, j :: 0 <= i < j < |mm| ==> mm[i] < mm[j]
  {
    var r := GateRings(minima, center, cfg);
    if r.Success? {
      var px := r.value.radiiPx;
      var mm := r.value.radiiMm;
      var k := cfg.pixelToMm.GetOr(0.01);
      forall i, j | 0 <= i < j < |mm| ensures mm[i] < mm[j] {
        assert px[i] < px[j];
        ScaleIncreasing(px[i] as real, px[j] as real, k);
      }
    }
  }

  /** The dark rings of the whole pipeline: centre, profile, then `find_dark_rings`. */
  function DarkRings(img: Image, cfg: DetectionConfig, center: CenterResult,
                     direction: (nat, nat) -> (real, real),
                     findPeaks: (seq<real>, real, int) -> seq<int>): (rings: (seq<int>, seq<real>))
    requires 1 <= cfg.profileNumAngles.GetOr(720)
  {
    var profile := RadialProfile(img, center.x, center.y, cfg.profileNumAngles.GetOr(720),
                                 cfg.maxRadiusPx, direction);
    FindDarkRings(profile, cfg, findPeaks)
  }

  /**
   `detect_newton_rings`: estimate the centre, take the radial profile around it, find the dark
   rings and gate them.
   */
  function DetectNewtonRings(img: Image, detectionCfg: DetectionConfig, calculationCfg: CalculationConfig,
                             sqrt: real -> real, direction: (nat, nat) -> (real, real),
                             findPeaks: (seq<real>, real, int) -> seq<int>)
    : (r: Result<RingDetection, DetectionError>)
    requires HoughNonEmpty(img) && IsSqrt(sqrt)
    requires 1 <= detectionCfg.profileNumAngles.GetOr(720)
    ensures var center := EstimateCenter(img, detectionCfg, sqrt);
      r == GateRings(DarkRings(img, detectionCfg, center, direction, findPeaks).0, center, calculationCfg)
  {
    var center := EstimateCenter(img, detectionCfg, sqrt);
    var (minima, _) := DarkRings(img, detectionCfg, center, direction, findPeaks);
    GateRings(minima, center, calculationCfg)
  }

  /**
   End to end: a successful detection returns ascending pixel radii, each an interior local
   minimum of the smoothed profile at least `min_radius_px` from the centre, at most
   `max_rings` of them, and their millimetre values in the same order.
   */
  lemma DetectedRingsAreDarkRings(img: Image, detectionCfg: DetectionConfig,
                                  calculationCfg: CalculationConfig, sqrt: real -> real,
                                  direction: (nat, nat) -> (real, real),
                                  findPeaks: (seq<real>, real, int) -> seq<int>)
    requires HoughNonEmpty(img) && IsSqrt(sqrt) && IsPeakFinder(findPeaks)
    requires 1 <= detectionCfg.profileNumAngles.GetOr(720)
    requires 1 <= detectionCfg.minimaDistance.GetOr(8)
    requires 0 <= calculationCfg.minRings.GetOr(5) <= calculationCfg.maxRings.GetOr(30)
    requires 0.0 < calculationCfg.pixelToMm.GetOr(0.01)
    ensures var r := DetectNewtonRings(img, detectionCfg, calculationCfg, sqrt, direction, findPeaks);
      var center := EstimateCenter(img, detectionCfg, sqrt);
      var smooth := DarkRings(img, detectionCfg, center, direction, findPeaks).1;
      r.Success? ==>
        && calculationCfg.minRings.GetOr(5) <= |r.value.radiiPx| <= calculationCfg.maxRings.GetOr(30)
        && (forall i, j :: 0 <= i < j < |r.value.radiiPx| ==> r.value.radiiPx[i] < r.value.radiiPx[j])
        && (forall i, j :: 0 <= i < j < |r.value.radiiMm| ==> r.value.radiiMm[i] < r.value.radiiMm[j])
        && (forall p | p in r.value.radiiPx ::
              && detectionCfg.minRadiusPx.GetOr(10) <= p
              && 0 < p < |smooth| - 1
              && smooth[p] <= smooth[p - 1] && smooth[p] <= smooth[p + 1])
  {
    var center := EstimateCenter(img, detectionCfg, sqrt);
    var profile := RadialProfile(img, center.x, center.y, detectionCfg.profileNumAngles.GetOr(720),
                                 detectionCfg.maxRadiusPx, direction);
    GatedRingsAreDarkRings(profile, detectionCfg, calculationCfg, center, findPeaks);
  }

  /** The gate applied to `find_dark_rings`: the step of the lemma above after the profile. */
  lemma GatedRingsAreDarkRings(profile: seq<real>, detectionCfg: DetectionConfig,
                               calculationCfg: CalculationConfig, center: CenterResult,
                               findPeaks: (seq<real>, real, int) -> seq<int>)
    requires 0 < |profile| && IsPeakFinder(findPeaks)
    requires 1 <= detectionCfg.minimaDistance.GetOr(8)
    requires 0 <= calculationCfg.minRings.GetOr(5) <= calculationCfg.maxRings.GetOr(30)
    requires 0.0 < calculationCfg.pixelToMm.GetOr(0.01)
    ensures var (minima, smooth) := FindDarkRings(profile, detectionCfg, findPeaks);
      var r := GateRings(minima, center, calculationCfg);
      r.Success? ==>
        && calculationCfg.minRings.GetOr(5) <= |r.value.radiiPx| <= calculationCfg.maxRings.GetOr(30)
        && (forall i, j :: 0 <= i < j < |r.value.radiiPx| ==> r.value.radiiPx[i] < r.value.radiiPx[j])
        && (forall i, j :: 0 <= i < j < |r.value.radiiMm| ==> r.value.radiiMm[i] < r.value.radiiMm[j])
        && (forall p | p in r.value.radiiPx ::
              && detectionCfg.minRadiusPx.GetOr(10) <= p
              && 0 < p < |smooth| - 1
              && smooth[p] <= smooth[p - 1] && smooth[p] <= smooth[p + 1])
  {
    var minima := FindDarkRings(profile, detectionCfg, findPeaks).0;
    DarkRingsAreMinima(profile, detectionCfg, findPeaks);
    GateKeepsInnermost(minima, center, calculationCfg);
    GateKeepsOrder(minima, center, calculationCfg);
    GateKeepsSubset(minima, center, calculationCfg);
  }

  /** Every ring the gate keeps is one of the rings it was given. */
  lemma GateKeepsSubset(minima: seq<int>, center: CenterResult, cfg: CalculationConfig)
    ensures GateRings(minima, center, cfg).Success? ==>
      forall p | p in GateRings(minima, center, cfg).value.radiiPx :: p in minima
  {
    var r := GateRings(minima, center, cfg);
    if r.Success? {
      var px := r.value.radiiPx;
      forall p | p in px ensures p in minima {
        var t :| 0 <= t < |px| && px[t] == p;
        assert minima[t] == p;
      }
    }
  }
}
