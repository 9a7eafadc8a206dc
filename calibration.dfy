/** Calibration of the newest package: the frame compliance from the
    intercept of the measured compliance 1/S over 1/√P pooled over all
    tests, then the tip's area function fitted to the contact areas that a
    material of known modulus implies. Each test has been analysed before
    (`analyse`); its stiffnesses, depths and forces come in as values. The
    minimiser (lmfit) and the smoothed interpolation are supplied by the
    caller. NaN and infinite numbers are `None`. */
module Calibration {
  import opened Numerics
  import opened Definitions
  import opened IndenterTip
  import opened Theory
  import opened LeastSquares
  import opened Evaluation

  // ----- Numbers as numpy computes them -----

  /** numpy's 1/v: NaN or an infinity for an absent or zero v. */
  function Reciprocal(v: Option<real>): (r: Option<real>)
    ensures r.Some? <==> v.Some? && v.value != 0.0
    ensures r.Some? ==> r.value * v.value == 1.0
  {
    if v.Some? && v.value != 0.0 then Some(1.0 / v.value) else None
  }

  /** numpy's 1/√q: finite and positive for q > 0, an infinity for q = 0
      and NaN below. */
  function InverseRoot(q: real, m: Maths): (r: Option<real>)
    requires Lawful(m)
    ensures r.Some? <==> 0.0 < q
    ensures r.Some? ==> 0.0 < r.value && r.value * r.value * q == 1.0
  {
    if 0.0 < q then
      SqrtPositive(m.sqrt, q);
      InverseRootArith(m.sqrt(q), q);
      Some(1.0 / m.sqrt(q))
    else None
  }

  lemma InverseRootArith(s: real, q: real)
    requires 0.0 < s && s * s == q
    ensures 0.0 < 1.0 / s && (1.0 / s) * (1.0 / s) * q == 1.0
  {
    var r := 1.0 / s;
    assert r * s == 1.0;
    assert r * r * q == (r * s) * (r * s);
  }

  predicate Finite(v: seq<Option<real>>)
  {
    forall i :: 0 <= i < |v| ==> v[i].Some?
  }

  function Values(v: seq<Option<real>>): (r: seq<real>)
    requires Finite(v)
    ensures |r| == |v| && forall i :: 0 <= i < |v| ==> v[i] == Some(r[i])
  {
    seq(|v|, i requires 0 <= i < |v| => v[i].value)
  }

  function Somes(v: seq<real>): (r: seq<Option<real>>)
    ensures |r| == |v| && forall i :: 0 <= i < |v| ==> r[i] == Some(v[i])
  {
    seq(|v|, i requires 0 <= i < |v| => Some(v[i]))
  }

  function Reciprocals(s: seq<Option<real>>): (r: seq<Option<real>>)
    ensures |r| == |s| && forall i :: 0 <= i < |s| ==> r[i] == Reciprocal(s[i])
  {
    seq(|s|, i requires 0 <= i < |s| => Reciprocal(s[i]))
  }

  function InverseRoots(p: seq<real>, m: Maths): (r: seq<Option<real>>)
    requires Lawful(m)
    ensures |r| == |p| && forall i :: 0 <= i < |p| ==> r[i] == InverseRoot(p[i], m)
  {
    seq(|p|, i requires 0 <= i < |p| => InverseRoot(p[i], m))
  }

  // ----- Pooling the tests -----

  /** What one analysed test contributes: the stiffnesses and the depths
      and forces they belong to, i.e. `S_mN/um`, `hMax_um` and `pMax_mN`
      of the user metadata, or for CSM `slope`, `h[valid]` and
      `p[valid]`. A single value is a one-entry list. */
  datatype Samples = Samples(s: seq<Option<real>>, h: seq<real>, p: seq<real>)

  const NoSamples := Samples([], [], [])

  /** Depths and forces come from the same valid samples. */
  predicate Paired(d: Samples)
  {
    |d.h| == |d.p|
  }

  predicate AllPaired(tests: seq<Samples>)
  {
    forall i :: 0 <= i < |tests| ==> Paired(tests[i])
  }

  function Join(a: Samples, b: Samples): Samples
  {
    Samples(a.s + b.s, a.h + b.h, a.p + b.p)
  }

  /** The arrays `np.hstack` (or list concatenation) builds over the
      tests, each test's entries after those of the tests before it. */
  function Pooled(tests: seq<Samples>): (r: Samples)
    ensures AllPaired(tests) ==> Paired(r)
  {
    if tests == [] then NoSamples
    else
      var n := |tests| - 1;
      assert AllPaired(tests) ==> AllPaired(tests[..n]);
      Join(Pooled(tests[..n]), tests[n])
  }

  /** Pooling two runs of tests is pooling each and joining the two. */
  lemma {:induction false} PooledAppend(a: seq<Samples>, b: seq<Samples>)
    ensures Pooled(a + b) == Join(Pooled(a), Pooled(b))
  {
    if b == [] {
      assert a + b == a;
    } else {
      var n := |b| - 1;
      PooledAppend(a, b[..n]);
      assert (a + b)[..|a + b| - 1] == a + b[..n];
      assert (a + b)[|a + b| - 1] == b[n];
      JoinAssociative(Pooled(a), Pooled(b[..n]), b[n]);
    }
  }

  lemma JoinAssociative(a: Samples, b: Samples, c: Samples)
    ensures Join(Join(a, b), c) == Join(a, Join(b, c))
  {
    assert (a.s + b.s) + c.s == a.s + (b.s + c.s);
    assert (a.h + b.h) + c.h == a.h + (b.h + c.h);
    assert (a.p + b.p) + c.p == a.p + (b.p + c.p);
  }

  /** The loop over the tests that gathers their samples. */
  method PoolTests(tests: seq<Samples>) returns (r: Samples)
    ensures r == Pooled(tests)
  {
    r := NoSamples;
    var k := 0;
    while k < |tests|
      invariant 0 <= k <= |tests|
      invariant r == Pooled(tests[..k])
    {
      assert tests[..k + 1][..k] == tests[..k];
      r := Join(r, tests[k]);
      k := k + 1;
    }
    assert tests[..k] == tests;
  }

  /** The CSM abscissae 1/√(P - min P + 0.001) of one test's valid
      forces; the 0.001 keeps every root positive. */
  function ShiftedAbscissae(p: seq<real>, m: Maths): (x: seq<real>)
    requires Lawful(m) && |p| > 0
    ensures |x| == |p|
    ensures forall i :: 0 <= i < |p| ==> InverseRoot(p[i] - Min(p) + 0.001, m) == Some(x[i]) && 0.0 < x[i]
  {
    seq(|p|, i requires 0 <= i < |p| => InverseRoot(p[i] - Min(p) + 0.001, m).value)
  }

  /** The CSM arrays of the compliance fit: x, y = 1/S and the depths. */
  datatype CsmData = CsmData(x: seq<real>, y: seq<Option<real>>, h: seq<real>)

  function CsmContribution(t: Samples, m: Maths): (c: CsmData)
    requires Lawful(m) && |t.p| > 0
  {
    CsmData(ShiftedAbscissae(t.p, m), Reciprocals(t.s), t.h)
  }

  /** The CSM arrays after the tests so far. The first test is always
      taken, and `np.min` of no valid forces raises (`None`); a later test
      without valid samples is skipped. */
  function CsmPooled(tests: seq<Samples>, m: Maths): (r: Option<CsmData>)
    requires Lawful(m) && |tests| > 0 && AllPaired(tests)
    ensures r.Some? <==> |tests[0].p| > 0
    ensures r.Some? ==> 0 < |r.value.x| == |r.value.h|
    ensures r.Some? ==> forall i :: 0 <= i < |r.value.x| ==> 0.0 < r.value.x[i]
    decreases |tests|
  {
    var n := |tests| - 1;
    if n == 0 then
      if |tests[0].p| == 0 then None else Some(CsmContribution(tests[0], m))
    else
      assert AllPaired(tests[..n]) && tests[..n][0] == tests[0];
      match CsmPooled(tests[..n], m)
      case None => None
      case Some(d) =>
        if |tests[n].p| == 0 then Some(d)
        else
          var c := CsmContribution(tests[n], m);
          Some(CsmData(d.x + c.x, d.y + c.y, d.h + c.h))
  }

  /** The CSM loop of `calibrateStiffness`. */
  method PoolCsm(tests: seq<Samples>, m: Maths) returns (r: Option<CsmData>)
    requires Lawful(m) && |tests| > 0 && AllPaired(tests)
    ensures r == CsmPooled(tests, m)
  {
    if |tests[0].p| == 0 {
      return None;
    }
    var first := CsmContribution(tests[0], m);
    var x, y, h := first.x, first.y, first.h;
    var k := 1;
    assert tests[..1] == [tests[0]];
    while k < |tests|
      invariant 1 <= k <= |tests|
      invariant CsmPooled(tests[..k], m) == Some(CsmData(x, y, h))
    {
      var t := tests[k];
      assert tests[..k + 1][..k] == tests[..k] && tests[..k + 1][k] == t;
      if |t.p| > 0 {
        var c := CsmContribution(t, m);
        x, y, h := x + c.x, y + c.y, h + c.h;
      }
      k := k + 1;
    }
    assert tests[..k] == tests;
    return Some(CsmData(x, y, h));
  }

  /** The monolith's CSM pooling: every test goes through `np.min`, so a
      test without valid samples raises wherever it comes. */
  function CsmPooledMonolith(tests: seq<Samples>, m: Maths): (r: Option<CsmData>)
    requires Lawful(m) && |tests| > 0 && AllPaired(tests)
    ensures r.Some? <==> forall i :: 0 <= i < |tests| ==> |tests[i].p| > 0
    decreases |tests|
  {
    var n := |tests| - 1;
    if |tests[n].p| == 0 then None
    else if n == 0 then Some(CsmContribution(tests[0], m))
    else
      assert AllPaired(tests[..n]);
      assert forall i :: 0 <= i < n ==> tests[..n][i] == tests[i];
      match CsmPooledMonolith(tests[..n], m)
      case None => None
      case Some(d) =>
        var c := CsmContribution(tests[n], m);
        Some(CsmData(d.x + c.x, d.y + c.y, d.h + c.h))
  }

  /** Where every test has valid samples, both packages pool the same CSM
      arrays; a later test without any makes only the monolith raise. */
  lemma {:induction false} CsmPoolingAgrees(tests: seq<Samples>, m: Maths)
    requires Lawful(m) && |tests| > 0 && AllPaired(tests)
    ensures (forall i :: 0 <= i < |tests| ==> |tests[i].p| > 0) ==> CsmPooledMonolith(tests, m) == CsmPooled(tests, m)
    ensures (exists i :: 0 < i < |tests| && |tests[i].p| == 0) && |tests[0].p| > 0 ==>
      CsmPooledMonolith(tests, m).None? && CsmPooled(tests, m).Some?
    decreases |tests|
  {
    var n := |tests| - 1;
    if n > 0 {
      assert AllPaired(tests[..n]);
      assert forall i :: 0 <= i < n ==> tests[..n][i] == tests[i];
      CsmPoolingAgrees(tests[..n], m);
    }
  }

  // ----- Filtering -----

  /** x < 1/√critForce as numpy evaluates it: an infinite bound for
      critForce = 0 and a NaN bound, which nothing passes, below. */
  predicate BelowForceLimit(x: real, critForce: real, m: Maths)
    requires Lawful(m)
  {
    if 0.0 < critForce then x < 1.0 / m.sqrt(critForce) else critForce == 0.0
  }

  /** For x = 1/√q the CSM force filter is a threshold on q itself: it
      keeps exactly the samples whose shifted force exceeds critForce. */
  lemma ForceLimitIsForceThreshold(q: real, critForce: real, m: Maths)
    requires Lawful(m) && 0.0 < q && 0.0 < critForce
    ensures BelowForceLimit(InverseRoot(q, m).value, critForce, m) <==> critForce < q
  {
    var s, t := m.sqrt(q), m.sqrt(critForce);
    SqrtPositive(m.sqrt, q);
    SqrtPositive(m.sqrt, critForce);
    assert s * s == q && t * t == critForce;
    if t < s {
      SquareMonotone(t, s);
      ReciprocalDecreasing(t, s);
    } else if s < t {
      SquareMonotone(s, t);
      ReciprocalDecreasing(s, t);
    }
  }

  /** The CSM filter: deeper than critDepth and under the force limit. */
  function PrimaryCsmMask(x: seq<real>, h: seq<real>, critDepth: real, critForce: real, m: Maths): (mask: seq<bool>)
    requires Lawful(m) && |x| == |h|
    ensures |mask| == |x|
    ensures forall i :: 0 <= i < |x| ==> (mask[i] <==> critDepth < h[i] && BelowForceLimit(x[i], critForce, m))
  {
    seq(|x|, i requires 0 <= i < |x| => critDepth < h[i] && BelowForceLimit(x[i], critForce, m))
  }

  /** The fallback when that filter keeps nothing: more than half the
      largest depth and less than half the largest x. */
  function HalfMaximumMask(x: seq<real>, h: seq<real>): (mask: seq<bool>)
    requires |x| == |h| > 0
    ensures |mask| == |x|
    ensures forall i :: 0 <= i < |x| ==> (mask[i] <==> Max(h) * 0.5 < h[i] && x[i] < Max(x) * 0.5)
  {
    seq(|x|, i requires 0 <= i < |x| => Max(h) * 0.5 < h[i] && x[i] < Max(x) * 0.5)
  }

  function CsmMask(x: seq<real>, h: seq<real>, critDepth: real, critForce: real, m: Maths): (mask: seq<bool>)
    requires Lawful(m) && |x| == |h| > 0
    ensures |mask| == |x|
  {
    var primary := PrimaryCsmMask(x, h, critDepth, critForce, m);
    if Count(primary) > 0 then primary else HalfMaximumMask(x, h)
  }

  /** The CSM mask keeps only samples that pass the primary filter when
      any does; otherwise it keeps only samples beyond half the deepest,
      and a non-positive force limit admits no sample, or every sample
      deeper than critDepth. */
  lemma CsmMaskSelects(x: seq<real>, h: seq<real>, critDepth: real, critForce: real, m: Maths, i: nat)
    requires Lawful(m) && |x| == |h| > 0 && i < |x|
    requires CsmMask(x, h, critDepth, critForce, m)[i]
    ensures PrimaryCsmMask(x, h, critDepth, critForce, m)[i] || (Count(PrimaryCsmMask(x, h, critDepth, critForce, m)) == 0 && Max(h) * 0.5 < h[i])
    ensures critForce < 0.0 ==> Count(PrimaryCsmMask(x, h, critDepth, critForce, m)) == 0
  {
    if critForce < 0.0 {
      CountNone(PrimaryCsmMask(x, h, critDepth, critForce, m));
    }
  }

  /** The non-CSM filter: deeper than critDepth and above critForce. */
  function PeakMask(h: seq<real>, p: seq<real>, critDepth: real, critForce: real): (mask: seq<bool>)
    requires |h| == |p|
    ensures |mask| == |h|
    ensures forall i :: 0 <= i < |h| ==> (mask[i] <==> critDepth < h[i] && critForce < p[i])
  {
    seq(|h|, i requires 0 <= i < |h| => critDepth < h[i] && critForce < p[i])
  }

  /** With a non-negative force threshold every abscissa 1/√P the non-CSM
      filter keeps is finite. */
  lemma PeakMaskKeepsRootsFinite(h: seq<real>, p: seq<real>, critDepth: real, critForce: real, m: Maths)
    requires |h| == |p| && Lawful(m) && 0.0 <= critForce
    ensures Finite(Select(InverseRoots(p, m), PeakMask(h, p, critDepth, critForce)))
  {
    var mask := PeakMask(h, p, critDepth, critForce);
    forall i | 0 <= i < Count(mask)
      ensures Select(InverseRoots(p, m), mask)[i].Some?
    {
      SelectAt(InverseRoots(p, m), mask, i);
    }
  }

  // ----- The compliance fit -----

  /** Why a calibration raises. */
  datatype Failure =
    | NoValidSample    // np.min of the first CSM test's empty valid forces
    | LengthMismatch   // a stiffness list of another length than the mask
    | NotFinite        // a NaN or infinity among the fitted samples
    | SameAbscissa     // every kept x equal: the normal matrix is singular
    | TooFewPoints     // cov=True needs more points than the fit's two parameters

  /** `None` from an empty mask, a raise, or the fitted line; its intercept
      is the frame compliance, the inverse of which is the frame stiffness. */
  datatype StiffnessCalibration = NoData | Raised(why: Failure) | Calibrated(line: Line)

  /** The empty-mask test and `np.polyfit(x[mask], y[mask], 1, cov=True)`.
      Scaling the covariance divides by the number of points less the
      two parameters, so numpy refuses two points or fewer. */
  function FitCompliance(x: seq<Option<real>>, y: seq<Option<real>>, mask: seq<bool>): (r: StiffnessCalibration)
    requires |x| == |mask|
    ensures r.NoData? <==> Count(mask) == 0
    ensures r.Calibrated? <==>
      && Count(mask) > 2 && |y| == |mask|
      && Finite(Select(x, mask)) && Finite(Select(y, mask))
      && !AllEqual(Values(Select(x, mask)))
    ensures r == Raised(TooFewPoints) <==>
      && 0 < Count(mask) <= 2 && |y| == |mask|
      && Finite(Select(x, mask)) && Finite(Select(y, mask))
      && !AllEqual(Values(Select(x, mask)))
    ensures r.Calibrated? ==> LineFit(Values(Select(x, mask)), Values(Select(y, mask))) == Some(r.line)
  {
    if Count(mask) == 0 then NoData
    else if |y| != |mask| then Raised(LengthMismatch)
    else if !Finite(Select(x, mask)) || !Finite(Select(y, mask)) then Raised(NotFinite)
    else
      match LineFit(Values(Select(x, mask)), Values(Select(y, mask)))
      case None => Raised(SameAbscissa)
      case Some(l) => if Count(mask) <= 2 then Raised(TooFewPoints) else Calibrated(l)
  }

  /** When every kept sample lies on 1/S = C + k·x and the kept x are not
      all equal, the fit returns that line, the frame compliance C, as
      soon as more than two samples are kept; two are refused. */
  lemma ExactComplianceRecovered(x: seq<Option<real>>, y: seq<Option<real>>, mask: seq<bool>, l: Line)
    requires |x| == |mask| == |y|
    requires forall i :: 0 <= i < |mask| && mask[i] ==> x[i].Some? && y[i].Some? && OnLine(l, x[i].value, y[i].value)
    requires exists i, j :: 0 <= i < |mask| && 0 <= j < |mask| && mask[i] && mask[j] && x[i] != x[j]
    ensures FitCompliance(x, y, mask) == if Count(mask) > 2 then Calibrated(l) else Raised(TooFewPoints)
  {
    var i, j :| 0 <= i < |mask| && 0 <= j < |mask| && mask[i] && mask[j] && x[i] != x[j];
    CountPositive(mask, i);
    var sx, sy := Select(x, mask), Select(y, mask);
    forall k | 0 <= k < Count(mask)
      ensures sx[k].Some? && sy[k].Some? && OnLine(l, sx[k].value, sy[k].value)
    {
      SelectAt(x, mask, k);
      SelectAt(y, mask, k);
    }
    var xs, ys := Values(sx), Values(sy);
    SelectedPosition(x, mask, i);
    SelectedPosition(x, mask, j);
    assert xs[Count(mask[..i])] != xs[Count(mask[..j])];
    SpreadZeroIffAllEqual(xs, ys);
    ExactLineRecovered(xs, ys, l);
  }

  /** The calibrated line has the least squared error over the kept
      samples of all lines. */
  lemma CalibratedIsLeastSquares(x: seq<Option<real>>, y: seq<Option<real>>, mask: seq<bool>, k: Line)
    requires |x| == |mask| && FitCompliance(x, y, mask).Calibrated?
    ensures var xs, ys := Values(Select(x, mask)), Values(Select(y, mask));
      SquaredError(xs, ys, FitCompliance(x, y, mask).line) <= SquaredError(xs, ys, k)
  {
    LineFitIsLeastSquares(Values(Select(x, mask)), Values(Select(y, mask)), k);
  }

  /** What `calibrateStiffness` finds over the analysed tests. CSM pools
      x = 1/√(P - min P + 0.001) and filters with the CSM mask; otherwise
      x = 1/√P with the depth and force filter. y = 1/S in both. */
  function StiffnessCalibrationOf(csm: bool, tests: seq<Samples>, critDepth: real, critForce: real, m: Maths): (r: StiffnessCalibration)
    requires Lawful(m) && |tests| > 0 && AllPaired(tests)
    ensures csm && |tests[0].p| == 0 ==> r == Raised(NoValidSample)
  {
    if csm then
      match CsmPooled(tests, m)
      case None => Raised(NoValidSample)
      case Some(d) => FitCompliance(Somes(d.x), d.y, CsmMask(d.x, d.h, critDepth, critForce, m))
    else
      var d := Pooled(tests);
      FitCompliance(InverseRoots(d.p, m), Reciprocals(d.s), PeakMask(d.h, d.p, critDepth, critForce))
  }

  /** `calibrateStiffness`: pools the analysed tests, fits the compliance
      line and stores its intercept as the tip's frame compliance. With
      no data left it returns `None` and leaves the tip as it was. */
  method CalibrateStiffness(tip: Tip, csm: bool, tests: seq<Samples>, critDepth: real, critForce: real, m: Maths)
    returns (r: StiffnessCalibration)
    requires Lawful(m) && |tests| > 0 && AllPaired(tests)
    modifies tip`compliance
    ensures r == StiffnessCalibrationOf(csm, tests, critDepth, critForce, m)
    ensures r.Calibrated? ==> tip.compliance == r.line.intercept
    ensures !r.Calibrated? ==> tip.compliance == old(tip.compliance)
  {
    var x: seq<Option<real>>, y: seq<Option<real>>, mask: seq<bool>;
    if csm {
      var pooled := PoolCsm(tests, m);
      if pooled.None? {
        return Raised(NoValidSample);
      }
      var d := pooled.value;
      x, y, mask := Somes(d.x), d.y, CsmMask(d.x, d.h, critDepth, critForce, m);
    } else {
      var d := PoolTests(tests);
      x, y, mask := InverseRoots(d.p, m), Reciprocals(d.s), PeakMask(d.h, d.p, critDepth, critForce);
    }
    r := FitCompliance(x, y, mask);
    if r.Calibrated? {
      tip.compliance := r.line.intercept;
    }
  }

  /** The monolith's `frameCompliance, res = self.calibrateStiffness(...)`:
      only a successful fit returns a pair; its `None` cannot be unpacked. */
  function MonolithCompliance(r: StiffnessCalibration): (c: Option<real>)
    ensures c.Some? <==> r.Calibrated?
    ensures c.Some? ==> c.value == r.line.intercept
  {
    if r.Calibrated? then Some(r.line.intercept) else None
  }

  // ----- The area calibration -----

  /** The samples deeper than critDepthTip. */
  function DeepEnough(h: seq<real>, critDepthTip: real): (mask: seq<bool>)
    ensures |mask| == |h|
    ensures forall i :: 0 <= i < |h| ==> (mask[i] <==> critDepthTip < h[i])
  {
    seq(|h|, i requires 0 <= i < |h| => critDepthTip < h[i])
  }

  /** Ac = (S·√π/(2·Er))²: the contact area at which the Oliver-Pharr
      method turns the stiffness S into the reduced modulus Er. */
  function TargetArea(s: Option<real>, goal: real, m: Maths): (ac: Option<real>)
    requires Lawful(m) && goal != 0.0
    ensures ac.Some? <==> s.Some?
  {
    if s.None? then None
    else
      SqrtPositive(m.sqrt, m.pi);
      Some(m.pow(s.value / (2.0 * goal / m.sqrt(m.pi)), 2.0))
  }

  function TargetAreas(s: seq<Option<real>>, goal: real, m: Maths): (ac: seq<Option<real>>)
    requires Lawful(m) && goal != 0.0
    ensures |ac| == |s| && forall i :: 0 <= i < |s| ==> ac[i] == TargetArea(s[i], goal, m)
  {
    seq(|s|, i requires 0 <= i < |s| => TargetArea(s[i], goal, m))
  }

  /** hc = h - β·P/S; a NaN or zero stiffness gives no finite depth. */
  function ContactDepth(h: real, p: real, s: Option<real>, beta: real): (hc: Option<real>)
    ensures hc.Some? <==> s.Some? && s.value != 0.0
    ensures hc.Some? ==> hc.value + beta * p / s.value == h
  {
    if s.Some? && s.value != 0.0 then Some(h - beta * p / s.value) else None
  }

  function ContactDepths(h: seq<real>, p: seq<real>, s: seq<Option<real>>, beta: real): (hc: seq<Option<real>>)
    requires |h| == |p| == |s|
    ensures |hc| == |s| && forall i :: 0 <= i < |s| ==> hc[i] == ContactDepth(h[i], p[i], s[i], beta)
  {
    seq(|s|, i requires 0 <= i < |s| => ContactDepth(h[i], p[i], s[i], beta))
  }

  /** A tip whose area function passes through a target sample makes the
      Oliver-Pharr method (with the default metal factor 1) return the
      target reduced modulus and the same contact depth and area there:
      the inversion and the evaluation agree. */
  lemma TargetAreaReproducesModulus(s: real, p: real, h: real, beta: real, goal: real, area: real -> real, m: Maths)
    requires Lawful(m) && 0.0 < s && 0.0 < goal
    requires AreaFloor <= TargetArea(Some(s), goal, m).value
    requires area(ContactDepth(h, p, Some(s), beta).value) == TargetArea(Some(s), goal, m).value
    ensures OliverPharr(s, p, h, 1.0, beta, area, m)
            == Contact(goal, TargetArea(Some(s), goal, m).value, ContactDepth(h, p, Some(s), beta).value)
  {
    var c := OliverPharr(s, p, h, 1.0, beta, area, m);
    var hc := ContactDepth(h, p, Some(s), beta).value;
    assert c.hc == hc by {
      assert 1.0 * beta * p / s == beta * p / s;
    }
    var sp := m.sqrt(m.pi);
    SqrtPositive(m.sqrt, m.pi);
    var q := s / (2.0 * goal / sp);
    assert 0.0 < q;
    assert c.ac == q * q;
    SqrtOfSquare(m.sqrt, q);
    ModulusArith(s, sp, goal, q, c.modulusRed);
  }

  lemma ModulusArith(s: real, sp: real, goal: real, q: real, e: real)
    requires 0.0 < s && 0.0 < sp && 0.0 < goal
    requires q == s / (2.0 * goal / sp) && 2.0 * q * e == s * sp
    ensures e == goal
  {
    var d := 2.0 * goal / sp;
    assert q * d == s;
    assert d * sp == 2.0 * goal;
    calc {
      2.0 * q * e;
      s * sp;
      q * d * sp;
      q * (d * sp);
      2.0 * q * goal;
    }
    assert q != 0.0;
  }

  /** lmfit's parameters: a name, a start value and the bounds. */
  datatype Bound = Bound(name: string, start: real, lo: real, hi: real)

  function Pow100(k: nat): (r: real)
    ensures 1.0 <= r
  {
    if k == 0 then 1.0 else 100.0 * Pow100(k - 1)
  }

  /** The name `'m' + str(k)` of the k-th polynomial prefactor. */
  function PrefactorName(k: nat): string
  {
    "m" + NatToString(k)
  }

  /** m0 starts at 24.3 within [10, 60]; mk starts at 100^k/1000 within
      ±100^k·100. */
  function PolynomialBound(k: nat): Bound
  {
    if k == 0 then Bound(PrefactorName(0), 24.3, 10.0, 60.0)
    else Bound(PrefactorName(k), Pow100(k) / 1000.0, -Pow100(k) * 100.0, Pow100(k) * 100.0)
  }

  /** The constant term, in nm, starts at 20 within [0.5, 300]. */
  const ConstantBound := Bound("c", 20.0, 0.5, 300.0)

  /** The parameters in the order they are added: m0, …, m(numPolynomial-1),
      then c with the constant term. */
  function AreaFitParameters(numPolynomial: int, constantTerm: bool): (ps: seq<Bound>)
    ensures |ps| == (if numPolynomial > 1 then numPolynomial else 1) + (if constantTerm then 1 else 0)
  {
    var n := if numPolynomial > 1 then numPolynomial else 1;
    seq(n, k requires 0 <= k < n => PolynomialBound(k)) + (if constantTerm then [ConstantBound] else [])
  }

  /** Every parameter starts inside its bounds, and the names are distinct,
      so no `add` replaces an earlier parameter: there is one fitted value
      per polynomial term, plus the constant. */
  lemma AreaFitParametersWellPosed(numPolynomial: int, constantTerm: bool)
    ensures var ps := AreaFitParameters(numPolynomial, constantTerm);
      && ps[0] == Bound("m0", 24.3, 10.0, 60.0)
      && (constantTerm ==> ps[|ps| - 1] == ConstantBound)
      && (forall i :: 0 <= i < |ps| ==> ps[i].lo <= ps[i].start <= ps[i].hi)
      && (forall i, j :: 0 <= i < j < |ps| ==> ps[i].name != ps[j].name)
  {
    var ps := AreaFitParameters(numPolynomial, constantTerm);
    var n := if numPolynomial > 1 then numPolynomial else 1;
    assert NatToString(0) == "0";
    forall i, j | 0 <= i < j < |ps|
      ensures ps[i].name != ps[j].name
    {
      if j < n {
        PrefactorNamesDistinct(i, j);
      }
    }
  }

  lemma PrefactorNamesDistinct(i: nat, j: nat)
    requires i != j
    ensures PrefactorName(i) != PrefactorName(j)
  {
    if PrefactorName(i) == PrefactorName(j) {
      assert PrefactorName(i)[1..] == NatToString(i);
      assert PrefactorName(j)[1..] == NatToString(j);
      NatToStringRoundTrip(i);
      NatToStringRoundTrip(j);
    }
  }

  /** What the minimiser (lmfit) is relied on for: one value per
      parameter, each inside that parameter's bounds. */
  ghost predicate MinimiserLaw(minimise: (seq<Bound>, Kind, seq<real>, seq<real>) -> seq<real>)
  {
    forall ps: seq<Bound>, kind: Kind, hc: seq<real>, ac: seq<real> :: |minimise(ps, kind, hc, ac)| == |ps| &&
      forall i :: 0 <= i < |ps| ==> ps[i].lo <= minimise(ps, kind, hc, ac)[i] <= ps[i].hi
  }

  /** The residual vector |Ac - area(hc)|/N of the area fit. */
  function AreaResidual(pf: seq<Entry>, hc: seq<real>, ac: seq<real>, m: Maths): (r: seq<real>)
    requires WellFormed(pf) && CosNonZero(m) && |hc| == |ac|
    ensures |r| == |ac|
    ensures forall i :: 0 <= i < |ac| ==> 0.0 <= r[i]
  {
    seq(|ac|, i requires 0 <= i < |ac| => Abs(ac[i] - Area(pf, hc[i], m)) / (|ac| as real))
  }

  /** The residual vanishes exactly when the area function passes through
      every target. */
  lemma ResidualVanishesOnTargets(pf: seq<Entry>, hc: seq<real>, ac: seq<real>, m: Maths)
    requires WellFormed(pf) && CosNonZero(m) && |hc| == |ac|
    ensures (forall i :: 0 <= i < |ac| ==> AreaResidual(pf, hc, ac, m)[i] == 0.0)
        <==> (forall i :: 0 <= i < |ac| ==> Area(pf, hc[i], m) == ac[i])
  {
    var r := AreaResidual(pf, hc, ac, m);
    forall i | 0 <= i < |ac|
      ensures r[i] == 0.0 <==> Area(pf, hc[i], m) == ac[i]
    {
      var n := |ac| as real;
      assert r[i] == Abs(ac[i] - Area(pf, hc[i], m)) / n;
      assert r[i] * n == Abs(ac[i] - Area(pf, hc[i], m));
    }
  }

  /** The savgol window `int(N/20)`, made odd by subtracting 1. */
  function SavgolWindow(n: nat): (w: int)
    ensures w % 2 == 1 && w <= n / 20
  {
    if (n / 20) % 2 == 1 then n / 20 else n / 20 - 1
  }

  /** The window exceeds the filter's order 3, as savgol_filter demands,
      exactly when there are at least 100 samples. */
  lemma SavgolWindowUsable(n: nat)
    ensures SavgolWindow(n) > 3 <==> n >= 100
  {
  }

  /** The kind tag appended to the fitted prefactors. */
  function FittedKind(constantTerm: bool): Kind
  {
    if constantTerm then IsoPlusConstant else Iso
  }

  /** Why the area calibration raises. */
  datatype AreaFailure =
    | MaskMismatch      // slope[mask] with a stiffness list of another length
    | NoTargetModulus   // the reduced target modulus divides by zero
    | NoBeta            // the depth correction reads a beta that does not exist
    | WindowTooSmall    // savgol_filter needs a window above its order 3
    | NotFiniteTarget   // lmfit refuses a NaN residual
    | TooFewSamples     // leastsq needs at least one residual per parameter

  /** The outcome of the area calibration: the fitted prefactors with the
      depths and areas they were fitted to, or the interpolation mode with
      its smoothing window. */
  datatype AreaFit =
    | AreaFailed(why: AreaFailure)
    | Interpolated(window: int)
    | Fitted(prefactors: seq<Entry>, hc: seq<real>, ac: seq<real>)

  /** Prefactors as the fit leaves them: one number per parameter and the
      kind's tag, the leading coefficient within 10..60 and a constant
      term within 0.5..300. */
  predicate BoundedPrefactors(pf: seq<Entry>, ps: seq<Bound>, constantTerm: bool)
  {
    && WellFormed(pf) && KindOf(pf) == FittedKind(constantTerm)
    && |pf| == |ps| + 1 && |ps| >= 1 && AllNumbers(pf[..|ps|])
    && pf[0].Num? && 10.0 <= pf[0].v <= 60.0
    && (constantTerm ==> pf[|ps| - 1].Num? && 0.5 <= pf[|ps| - 1].v <= 300.0)
  }

  /** The polynomial fit of the area function to the target areas and
      contact depths: refused when a value is not finite or there are
      fewer samples than parameters; otherwise the minimiser's values
      tagged with the area function's kind. */
  function PolynomialArea(ac: seq<Option<real>>, hc: seq<Option<real>>, n: int, constantTerm: bool,
                          minimise: (seq<Bound>, Kind, seq<real>, seq<real>) -> seq<real>): (r: AreaFit)
    requires MinimiserLaw(minimise) && |ac| == |hc|
    ensures r == AreaFailed(NotFiniteTarget) || r == AreaFailed(TooFewSamples) || r.Fitted?
    ensures r == AreaFailed(NotFiniteTarget) <==> !Finite(ac) || !Finite(hc)
    ensures r.Fitted? ==>
      var ps := AreaFitParameters(n, constantTerm);
      && Finite(ac) && Finite(hc) && |ac| >= |ps|
      && r.ac == Values(ac) && r.hc == Values(hc)
      && BoundedPrefactors(r.prefactors, ps, constantTerm)
  {
    var ps := AreaFitParameters(n, constantTerm);
    if !Finite(ac) || !Finite(hc) then AreaFailed(NotFiniteTarget)
    else if |ac| < |ps| then AreaFailed(TooFewSamples)
    else
      var values := minimise(ps, FittedKind(constantTerm), Values(hc), Values(ac));
      FittedPrefactors(ps, values, constantTerm);
      Fitted(Nums(values) + [Tag(FittedKind(constantTerm))], Values(hc), Values(ac))
  }

  /** The area calibration over the re-analysed samples, with the beta its
      depth correction reads (`None` where it does not exist). */
  function AreaCalibration(d: Samples, critDepthTip: real, t: TipElastic, nuMat: real, eTarget: real,
                           beta: Option<real>, numPolynomial: Option<int>, constantTerm: bool,
                           minimise: (seq<Bound>, Kind, seq<real>, seq<real>) -> seq<real>, m: Maths): (r: AreaFit)
    requires Lawful(m) && ValidTip(t) && Paired(d) && MinimiserLaw(minimise)
    ensures beta.None? ==> r.AreaFailed?
    ensures r == AreaFailed(NotFiniteTarget) || r == AreaFailed(TooFewSamples) ==> numPolynomial.Some?
    ensures r.Interpolated? <==>
      && numPolynomial.None? && |d.s| == |d.h| && ReducedModulus(t, nuMat, eTarget, nuMat).Some? && beta.Some?
      && Count(DeepEnough(d.h, critDepthTip)) >= 100
    ensures r.Fitted? ==>
      var keep := DeepEnough(d.h, critDepthTip);
      && numPolynomial.Some? && |d.s| == |d.h| && beta.Some? && ReducedModulus(t, nuMat, eTarget, nuMat).Some?
      && |r.ac| == |r.hc| == Count(keep) >= |AreaFitParameters(numPolynomial.value, constantTerm)|
      && (forall i :: 0 <= i < |r.ac| ==>
            && Some(r.ac[i]) == TargetArea(Select(d.s, keep)[i], ReducedModulus(t, nuMat, eTarget, nuMat).value, m)
            && Some(r.hc[i]) == ContactDepth(Select(d.h, keep)[i], Select(d.p, keep)[i], Select(d.s, keep)[i], beta.value))
    ensures r.Fitted? ==>
      BoundedPrefactors(r.prefactors, AreaFitParameters(numPolynomial.value, constantTerm), constantTerm)
  {
    var keep := DeepEnough(d.h, critDepthTip);
    if |d.s| != |keep| then AreaFailed(MaskMismatch)
    else
      var s, h, p := Select(d.s, keep), Select(d.h, keep), Select(d.p, keep);
      match ReducedModulus(t, nuMat, eTarget, nuMat)
      case None => AreaFailed(NoTargetModulus)
      case Some(goal) =>
        if beta.None? then AreaFailed(NoBeta)
        else
          var ac := TargetAreas(s, goal, m);
          var hc := ContactDepths(h, p, s, beta.value);
          match numPolynomial
          case None =>
            SavgolWindowUsable(|ac|);
            if SavgolWindow(|ac|) <= 3 then AreaFailed(WindowTooSmall) else Interpolated(SavgolWindow(|ac|))
          case Some(n) => PolynomialArea(ac, hc, n, constantTerm, minimise)
  }

  /** The prefactors lmfit's values give: numbers, then the kind tag. */
  lemma FittedPrefactors(ps: seq<Bound>, values: seq<real>, constantTerm: bool)
    requires |values| == |ps| && |ps| >= 1
    ensures var pf := Nums(values) + [Tag(FittedKind(constantTerm))];
      && WellFormed(pf) && KindOf(pf) == FittedKind(constantTerm)
      && |pf| == |ps| + 1 && AllNumbers(pf[..|ps|]) && pf[0] == Entry.Num(values[0])
      && pf[|ps| - 1] == Entry.Num(values[|ps| - 1])
  {
    var pf := Nums(values) + [Tag(FittedKind(constantTerm))];
    assert pf[..|ps|] == Nums(values);
    if constantTerm {
      assert Nums(values) == Nums(values[..|ps| - 1]) + [Entry.Num(values[|ps| - 1])];
      IsoShapesWellFormed(values[..|ps| - 1], values[|ps| - 1]);
    } else {
      IsoShapesWellFormed(values, 0.0);
    }
  }

  /** As written, the depth correction reads `self.beta`, which no object
      of the package has: every area calibration that gets past the target
      modulus raises there. */
  lemma SelfBetaRaises(d: Samples, critDepthTip: real, t: TipElastic, nuMat: real, eTarget: real,
                       numPolynomial: Option<int>, constantTerm: bool,
                       minimise: (seq<Bound>, Kind, seq<real>, seq<real>) -> seq<real>, m: Maths)
    requires Lawful(m) && ValidTip(t) && Paired(d) && MinimiserLaw(minimise)
    requires |d.s| == |d.h| && ReducedModulus(t, nuMat, eTarget, nuMat).Some?
    ensures AreaCalibration(d, critDepthTip, t, nuMat, eTarget, None, numPolynomial, constantTerm, minimise, m)
            == AreaFailed(NoBeta)
  {
  }

  /** With the model's beta, as the Oliver-Pharr evaluation reads it: where
      the fitted area function passes through a sample's target area, the
      evaluation of that sample returns the target reduced modulus. */
  lemma ModelBetaReproducesTargetModulus(d: Samples, critDepthTip: real, model: Dict, nuMat: real, eTarget: real,
                                         numPolynomial: Option<int>, constantTerm: bool,
                                         minimise: (seq<Bound>, Kind, seq<real>, seq<real>) -> seq<real>,
                                         m: Maths, i: nat)
    requires Lawful(m) && CosNonZero(m) && HasEvaluationConstants(model) && Paired(d) && MinimiserLaw(minimise)
    requires var r := AreaCalibration(d, critDepthTip, TipOf(model), nuMat, eTarget, NumberAt(model, "beta"),
                                      numPolynomial, constantTerm, minimise, m);
      && r.Fitted? && i < |r.ac| && AreaFloor <= r.ac[i] && Area(r.prefactors, r.hc[i], m) == r.ac[i]
    requires 0.0 < eTarget && nuMat * nuMat < 1.0
    ensures var r := AreaCalibration(d, critDepthTip, TipOf(model), nuMat, eTarget, NumberAt(model, "beta"),
                                     numPolynomial, constantTerm, minimise, m);
      var keep := DeepEnough(d.h, critDepthTip);
      var s := Select(d.s, keep)[i];
      s.Some? && (0.0 < s.value ==>
        OliverPharr(s.value, Select(d.p, keep)[i], Select(d.h, keep)[i], 1.0, NumberAt(model, "beta").value,
                    hc => Area(r.prefactors, hc, m), m).modulusRed
        == ReducedModulus(TipOf(model), nuMat, eTarget, nuMat).value)
  {
    var t := TipOf(model);
    var beta := NumberAt(model, "beta");
    var r := AreaCalibration(d, critDepthTip, t, nuMat, eTarget, beta, numPolynomial, constantTerm, minimise, m);
    var keep := DeepEnough(d.h, critDepthTip);
    var goal := ReducedModulus(t, nuMat, eTarget, nuMat).value;
    var s, p, h := Select(d.s, keep)[i], Select(d.p, keep)[i], Select(d.h, keep)[i];
    assert Some(r.ac[i]) == TargetArea(s, goal, m) && Some(r.hc[i]) == ContactDepth(h, p, s, beta.value);
    if s.Some? && 0.0 < s.value {
      TargetModulusPositive(t, nuMat, eTarget);
      ModulusAtSample(s.value, p, h, beta.value, goal, r.ac[i], r.hc[i], hc => Area(r.prefactors, hc, m), m);
    }
  }

  /** The target modulus of a material with |ν| < 1 is positive. */
  lemma TargetModulusPositive(t: TipElastic, nuMat: real, eTarget: real)
    requires ValidTip(t) && 0.0 < eTarget && nuMat * nuMat < 1.0
    ensures ReducedModulus(t, nuMat, eTarget, nuMat).Some?
    ensures 0.0 < ReducedModulus(t, nuMat, eTarget, nuMat).value
  {
    calc {
      Poisson(nuMat, nuMat) * Poisson(nuMat, nuMat);
      { assert Poisson(nuMat, nuMat) == nuMat; }
      nuMat * nuMat;
      < 1.0;
    }
    ReducedModulusBounds(t, nuMat, eTarget, nuMat);
  }

  /** One sample whose fitted area at its contact depth is its target
      area: Oliver-Pharr returns the target reduced modulus. */
  lemma ModulusAtSample(s: real, p: real, h: real, beta: real, goal: real, ac: real, hc: real,
                        area: real -> real, m: Maths)
    requires Lawful(m) && 0.0 < s && 0.0 < goal
    requires Some(ac) == TargetArea(Some(s), goal, m) && Some(hc) == ContactDepth(h, p, Some(s), beta)
    requires AreaFloor <= ac && area(hc) == ac
    ensures OliverPharr(s, p, h, 1.0, beta, area, m).modulusRed == goal
  {
    TargetAreaReproducesModulus(s, p, h, beta, goal, area, m);
  }

  /** The start values lmfit passes to the residual on its first call. */
  function StartValues(ps: seq<Bound>): (v: seq<real>)
    ensures |v| == |ps| && forall i :: 0 <= i < |ps| ==> v[i] == ps[i].start
  {
    seq(|ps|, i requires 0 <= i < |ps| => ps[i].start)
  }

  /** The prefactors the residual stores on the tip before lmfit rejects
      the problem: the start values and the kind tag. */
  function FirstTrialPrefactors(numPolynomial: int, constantTerm: bool): (pf: seq<Entry>)
    ensures WellFormed(pf) && KindOf(pf) == FittedKind(constantTerm)
    ensures pf[0] == Entry.Num(24.3)
  {
    var ps := AreaFitParameters(numPolynomial, constantTerm);
    AreaFitParametersWellPosed(numPolynomial, constantTerm);
    FittedPrefactors(ps, StartValues(ps), constantTerm);
    Nums(StartValues(ps)) + [Tag(FittedKind(constantTerm))]
  }

  /** The area failures lmfit raises after its first call of the residual. */
  predicate RejectedByMinimiser(fit: AreaFit)
  {
    fit == AreaFailed(NotFiniteTarget) || fit == AreaFailed(TooFewSamples)
  }

  /** The tip takes over the outcome of the area calibration: the fitted
      prefactors as a new list, the interpolation function, the first trial
      prefactors where lmfit rejected the problem, and nothing otherwise. */
  method AdoptAreaFit(tip: Tip, fit: AreaFit, numPolynomial: Option<int>, constantTerm: bool,
                      interpolant: real -> real)
    requires fit.Fitted? ==> WellFormed(fit.prefactors)
    requires RejectedByMinimiser(fit) ==> numPolynomial.Some?
    modifies tip
    ensures tip.compliance == old(tip.compliance)
    ensures fit.Fitted? ==> fresh(tip.prefactors) && tip.prefactors.items == fit.prefactors && tip.Evaluable()
    ensures fit.Interpolated? ==> tip.prefactors == null && tip.interpFunction == Some(interpolant) && tip.Evaluable()
    ensures RejectedByMinimiser(fit) ==>
      fresh(tip.prefactors) && tip.prefactors.items == FirstTrialPrefactors(numPolynomial.value, constantTerm)
      && tip.Evaluable()
    ensures fit.AreaFailed? && !RejectedByMinimiser(fit) ==> tip.prefactors == old(tip.prefactors)
    ensures !fit.Interpolated? ==> tip.interpFunction == old(tip.interpFunction)
  {
    match fit {
      case Fitted(pf, _, _) =>
        tip.prefactors := new PrefactorList(pf);
      case Interpolated(_) =>
        tip.SetInterpolationFunction(interpolant);
      case AreaFailed(why) =>
        if why == NotFiniteTarget || why == TooFewSamples {
          tip.prefactors := new PrefactorList(FirstTrialPrefactors(numPolynomial.value, constantTerm));
        }
    }
  }

  /** The whole calibration: the frame compliance first, then, over the
      samples the tests give when analysed again with that compliance, the
      area function, which the tip takes over. The area calibration runs
      only after a compliance was fitted; it reads beta from the model. */
  method Calibrate(tip: Tip, model: Dict, nuMat: real, eTarget: real, numPolynomial: Option<int>,
                   critDepthStiffness: real, critForce: real, critDepthTip: real, constantTerm: bool,
                   csm: bool, tests: seq<Samples>, reanalysed: seq<Samples>,
                   minimise: (seq<Bound>, Kind, seq<real>, seq<real>) -> seq<real>,
                   interpolant: real -> real, m: Maths)
    returns (stiffness: StiffnessCalibration, area: Option<AreaFit>)
    requires Lawful(m) && |tests| > 0 && AllPaired(tests) && AllPaired(reanalysed)
    requires HasEvaluationConstants(model) && MinimiserLaw(minimise)
    modifies tip
    ensures stiffness == StiffnessCalibrationOf(csm, tests, critDepthStiffness, critForce, m)
    ensures stiffness.Calibrated? ==> tip.compliance == stiffness.line.intercept
    ensures !stiffness.Calibrated? ==> tip.compliance == old(tip.compliance)
    ensures area.Some? <==> stiffness.Calibrated?
    ensures area.Some? ==>
      area.value == AreaCalibration(Pooled(reanalysed), critDepthTip, TipOf(model), nuMat, eTarget,
                                    NumberAt(model, "beta"), numPolynomial, constantTerm, minimise, m)
    ensures area.Some? && area.value.Fitted? ==>
      fresh(tip.prefactors) && tip.prefactors.items == area.value.prefactors && tip.Evaluable()
    ensures area.Some? && area.value.Interpolated? ==>
      tip.prefactors == null && tip.interpFunction == Some(interpolant) && tip.Evaluable()
    ensures area.Some? && RejectedByMinimiser(area.value) ==>
      fresh(tip.prefactors) && tip.prefactors.items == FirstTrialPrefactors(numPolynomial.value, constantTerm)
    ensures (area.None? || (area.value.AreaFailed? && !RejectedByMinimiser(area.value))) ==>
      tip.prefactors == old(tip.prefactors) && tip.interpFunction == old(tip.interpFunction)
  {
    stiffness := CalibrateStiffness(tip, csm, tests, critDepthStiffness, critForce, m);
    if !stiffness.Calibrated? {
      return stiffness, None;
    }
    var fit := AreaCalibration(Pooled(reanalysed), critDepthTip, TipOf(model), nuMat, eTarget,
                               NumberAt(model, "beta"), numPolynomial, constantTerm, minimise, m);
    area := Some(fit);
    AdoptAreaFit(tip, fit, numPolynomial, constantTerm, interpolant);
  }
}
