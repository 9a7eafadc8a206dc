/** The seldom used corrections of the split package: taring depth, force
    and time at the surface of an Agilent test with the frame deflection,
    the thermal drift and the support spring removed; the drift rate of a
    Hysitron or Micromaterials drift segment; and the smoothing window of
    the fused-silica check. */
module Drift {
  import opened Numerics
  import opened Definitions
  import opened Stiffness
  import opened Segmentation
  import opened Configuration
  import opened LeastSquares
  import I = Indentation
  import Calibration

  // ----- tareDepthForce -----

  /** The raw signals of a test as the file holds them, with the frame
      stiffness and the stiffness of the support spring. */
  datatype RawTrace = RawTrace(hRaw: seq<real>, pRaw: seq<real>, tTotal: seq<real>, pVsHSlope: seq<real>,
                               frameStiffness: real, slopeSupport: real)

  predicate WellShaped(raw: RawTrace)
  {
    |raw.pRaw| == |raw.hRaw| && |raw.tTotal| == |raw.hRaw| && |raw.pVsHSlope| == |raw.hRaw|
  }

  /** How `tareDepthForce` ends: skipped for other vendors and methods, an
      exception (no slope above the threshold, a drift index out of range,
      an empty drift window), a drift window whose two ends share a time,
      or the tared signals with the surface, the drift window's ends and
      the drift rate. */
  datatype TareOutcome =
    | TareSkipped
    | NoSurface
    | DriftIndexError
    | EmptyDriftWindow
    | UndefinedDriftRate
    | Tared(surface: nat, driftStart: nat, driftEnd: nat, driftRate: real)

  /** The first index whose slope exceeds the threshold; `None` is the
      `ValueError` of the minimum of no index. */
  function SurfaceIndex(slope: seq<real>, threshold: real): (r: Option<nat>)
    ensures r.None? <==> forall j :: 0 <= j < |slope| ==> slope[j] <= threshold
    ensures r.Some? ==> r.value < |slope| && slope[r.value] > threshold
    ensures r.Some? ==> forall j :: 0 <= j < r.value ==> slope[j] <= threshold
  {
    NoneAbove(slope, threshold);
    if Count(Exceeds(slope, threshold)) == 0 then None else Some(FirstAbove(slope, threshold))
  }

  /** Every entry lowered by the entry at index `s`. */
  function Rezeroed(x: seq<real>, s: nat): (r: seq<real>)
    requires s < |x|
    ensures |r| == |x| && r[s] == 0.0
    ensures forall j :: 0 <= j < |x| ==> r[j] + x[s] == x[j]
  {
    seq(|x|, j requires 0 <= j < |x| => x[j] - x[s])
  }

  /** The depth less the frame deflection p/frameStiffness. */
  function Deflected(h: seq<real>, p: seq<real>, frameStiffness: real): (r: seq<real>)
    requires |p| == |h| && frameStiffness != 0.0
    ensures |r| == |h|
    ensures forall j :: 0 <= j < |h| ==> (r[j] + p[j] / frameStiffness == h[j])
  {
    seq(|h|, j requires 0 <= j < |h| => h[j] - p[j] / frameStiffness)
  }

  /** The depth re-zeroed at the surface, less the frame deflection. */
  function Undrifted(raw: RawTrace, surface: nat): (h: seq<real>)
    requires WellShaped(raw) && raw.frameStiffness != 0.0 && surface < |raw.hRaw|
    ensures |h| == |raw.hRaw|
  {
    Deflected(Rezeroed(raw.hRaw, surface), Rezeroed(raw.pRaw, surface), raw.frameStiffness)
  }

  /** The samples of the drift slice [start:stop] at or after the time
      tMiddle. */
  function DriftMask(t: seq<real>, start: int, stop: int, tMiddle: real): (m: seq<bool>)
    ensures |m| == |t|
    ensures forall j :: 0 <= j < |t| ==> (m[j] <==> InSlice(j, start, stop, |t|) && t[j] >= tMiddle)
  {
    seq(|t|, j requires 0 <= j < |t| => InSlice(j, start, stop, |t|) && t[j] >= tMiddle)
  }

  /** The drift window of the tared time: the part of the slice
      iDrift[0]:iDrift[1] from the mean of the times at its two ends on. */
  function DriftWindow(t: seq<real>, iDrift: DriftRange): (r: Option<seq<bool>>)
    ensures r.None? <==> iDrift.NoDrift? || I.PyIndex(|t|, iDrift.start).None? || I.PyIndex(|t|, iDrift.end).None?
    ensures r.Some? ==> |r.value| == |t|
  {
    if iDrift.NoDrift? then None
    else
      match (I.PyIndex(|t|, iDrift.start), I.PyIndex(|t|, iDrift.end))
      case (Some(s), Some(e)) => Some(DriftMask(t, iDrift.start, iDrift.end, (t[e] + t[s]) / 2.0))
      case _ => None
  }

  /** The first and last samples of the drift window give the rate. */
  function TwoPointRate(h: seq<real>, t: seq<real>, s: nat, e: nat): (r: Option<real>)
    requires s < |h| && e < |h| && |t| == |h|
    ensures r.None? <==> t[e] == t[s]
    ensures r.Some? ==> r.value * (t[e] - t[s]) == h[e] - h[s]
  {
    if t[e] == t[s] then None else Some((h[e] - h[s]) / (t[e] - t[s]))
  }

  /** What `tareDepthForce` decides. */
  function TareOf(raw: RawTrace, vendor: Option<Vendor>, testMethod: Method, iDrift: DriftRange,
                  threshold: real): (r: TareOutcome)
    requires WellShaped(raw) && raw.frameStiffness != 0.0
    ensures vendor != Some(Agilent) || testMethod == CSM <==> r == TareSkipped
    ensures r.Tared? ==> r.surface < |raw.hRaw| && SurfaceIndex(raw.pVsHSlope, threshold) == Some(r.surface)
  {
    if vendor != Some(Agilent) || testMethod == CSM then TareSkipped
    else
      match SurfaceIndex(raw.pVsHSlope, threshold)
      case None => NoSurface
      case Some(s) =>
        var t := Rezeroed(raw.tTotal, s);
        var h := Undrifted(raw, s);
        match DriftWindow(t, iDrift)
        case None => DriftIndexError
        case Some(window) =>
          if Count(window) == 0 then EmptyDriftWindow
          else
            var dS, dE := FirstTrue(window), LastTrue(window);
            match TwoPointRate(h, t, dS, dE)
            case None => UndefinedDriftRate
            case Some(rate) => Tared(s, dS, dE, rate)
  }

  /** The tared depth, force and time. */
  datatype Signals = Signals(h: seq<real>, p: seq<real>, t: seq<real>)

  /** The signals after taring at `surface` with drift rate `rate`: the
      time and force re-zeroed at the surface, the depth re-zeroed, less
      the frame deflection and the drift rate times the time, and the
      force less the support spring's share of the raw depth change. */
  function TaredSignals(raw: RawTrace, surface: nat, rate: real): (r: Signals)
    requires WellShaped(raw) && raw.frameStiffness != 0.0 && surface < |raw.hRaw|
    ensures |r.h| == |r.p| == |r.t| == |raw.hRaw|
  {
    var t := Rezeroed(raw.tTotal, surface);
    var p := Rezeroed(raw.pRaw, surface);
    var h := Undrifted(raw, surface);
    var hRel := Rezeroed(raw.hRaw, surface);
    Signals(seq(|h|, j requires 0 <= j < |h| => h[j] - rate * t[j]),
            seq(|p|, j requires 0 <= j < |p| => p[j] - raw.slopeSupport * hRel[j]),
            t)
  }

  /** `tareDepthForce` on a test: nothing changes unless the signals are
      tared; then depth, force and time are replaced together. */
  method TareDepthForce(ind: I.Indentation, raw: RawTrace, threshold: real) returns (r: TareOutcome)
    requires WellShaped(raw) && raw.frameStiffness != 0.0
    modifies ind`h, ind`p, ind`t
    ensures r == TareOf(raw, old(ind.vendor), old(ind.testMethod), old(ind.iDrift), threshold)
    ensures r.Tared? ==> Signals(ind.h, ind.p, ind.t) == TaredSignals(raw, r.surface, r.driftRate)
    ensures !r.Tared? ==> ind.h == old(ind.h) && ind.p == old(ind.p) && ind.t == old(ind.t)
  {
    r := TareOf(raw, ind.vendor, ind.testMethod, ind.iDrift, threshold);
    if r.Tared? {
      var s := TaredSignals(raw, r.surface, r.driftRate);
      ind.h, ind.p, ind.t := s.h, s.p, s.t;
    }
  }

  /** At the surface the tared depth, force and time are all zero. */
  lemma TaredZeroAtSurface(raw: RawTrace, surface: nat, rate: real)
    requires WellShaped(raw) && raw.frameStiffness != 0.0 && surface < |raw.hRaw|
    ensures var r := TaredSignals(raw, surface, rate);
      r.h[surface] == 0.0 && r.p[surface] == 0.0 && r.t[surface] == 0.0
  {
    var p := Rezeroed(raw.pRaw, surface);
    assert p[surface] == 0.0;
    assert Undrifted(raw, surface)[surface] == 0.0 - 0.0 / raw.frameStiffness;
  }

  /** The drift window: the first and the last sample of the slice at or
      after its middle time, the first no later than the last. */
  lemma DriftWindowEnds(raw: RawTrace, vendor: Option<Vendor>, testMethod: Method, iDrift: DriftRange,
                        threshold: real)
    requires WellShaped(raw) && raw.frameStiffness != 0.0
    requires TareOf(raw, vendor, testMethod, iDrift, threshold).Tared?
    ensures var r := TareOf(raw, vendor, testMethod, iDrift, threshold);
      var t := Rezeroed(raw.tTotal, r.surface);
      var n := |raw.hRaw|;
      && iDrift.DriftRange?
      && var s, e := I.PyIndex(n, iDrift.start).value, I.PyIndex(n, iDrift.end).value;
      && r.driftStart <= r.driftEnd < n
      && InSlice(r.driftStart, iDrift.start, iDrift.end, n) && InSlice(r.driftEnd, iDrift.start, iDrift.end, n)
      && t[r.driftStart] >= (t[e] + t[s]) / 2.0 && t[r.driftEnd] >= (t[e] + t[s]) / 2.0
      && (forall j :: 0 <= j < r.driftStart && InSlice(j, iDrift.start, iDrift.end, n) ==> t[j] < (t[e] + t[s]) / 2.0)
      && (forall j :: r.driftEnd < j < n && InSlice(j, iDrift.start, iDrift.end, n) ==> t[j] < (t[e] + t[s]) / 2.0)
  {
    var r := TareOf(raw, vendor, testMethod, iDrift, threshold);
    var t := Rezeroed(raw.tTotal, r.surface);
    var window := DriftWindow(t, iDrift).value;
    assert Count(window) > 0;
    assert r.driftStart == FirstTrue(window) && r.driftEnd == LastTrue(window);
  }

  /** After the correction the depth no longer drifts across the drift
      window: its two ends lie at the same depth. */
  lemma DriftRemoved(raw: RawTrace, vendor: Option<Vendor>, testMethod: Method, iDrift: DriftRange,
                     threshold: real)
    requires WellShaped(raw) && raw.frameStiffness != 0.0
    requires TareOf(raw, vendor, testMethod, iDrift, threshold).Tared?
    ensures var r := TareOf(raw, vendor, testMethod, iDrift, threshold);
      var s := TaredSignals(raw, r.surface, r.driftRate);
      r.driftStart < |s.h| && r.driftEnd < |s.h| && s.h[r.driftStart] == s.h[r.driftEnd]
  {
    var r := TareOf(raw, vendor, testMethod, iDrift, threshold);
    var t := Rezeroed(raw.tTotal, r.surface);
    var window := DriftWindow(t, iDrift).value;
    assert r.driftStart == FirstTrue(window) && r.driftEnd == LastTrue(window);
    assert TwoPointRate(Undrifted(raw, r.surface), t, r.driftStart, r.driftEnd) == Some(r.driftRate);
    FlatAcross(raw, r.surface, r.driftRate, r.driftStart, r.driftEnd);
  }

  /** A drift rate measured between two samples levels their tared depths. */
  lemma FlatAcross(raw: RawTrace, surface: nat, rate: real, s: nat, e: nat)
    requires WellShaped(raw) && raw.frameStiffness != 0.0 && surface < |raw.hRaw|
    requires s < |raw.hRaw| && e < |raw.hRaw|
    requires TwoPointRate(Undrifted(raw, surface), Rezeroed(raw.tTotal, surface), s, e) == Some(rate)
    ensures TaredSignals(raw, surface, rate).h[s] == TaredSignals(raw, surface, rate).h[e]
  {
    var h, t := Undrifted(raw, surface), Rezeroed(raw.tTotal, surface);
    FlatAfterRate(h[s], h[e], t[s], t[e], rate);
  }

  lemma FlatAfterRate(h1: real, h2: real, t1: real, t2: real, rate: real)
    requires rate * (t2 - t1) == h2 - h1
    ensures h1 - rate * t1 == h2 - rate * t2
  {
  }

  /** The tared force is the raw force change less the support spring's
      share of the raw depth change, both counted from the surface. */
  lemma TaredForce(raw: RawTrace, surface: nat, rate: real, j: nat)
    requires WellShaped(raw) && raw.frameStiffness != 0.0 && surface < |raw.hRaw| && j < |raw.hRaw|
    ensures TaredSignals(raw, surface, rate).p[j]
      == (raw.pRaw[j] - raw.pRaw[surface]) - raw.slopeSupport * (raw.hRaw[j] - raw.hRaw[surface])
  {
  }

  // ----- analyseDrift -----

  /** The Hysitron drift rate at sample i: undefined before 20 s, then
      the two-point rate against the sample nearest 20 s earlier. */
  function LookBackRate(t: seq<real>, h: seq<real>, i: nat): (r: Option<real>)
    requires |t| == |h| && i < |t|
    ensures t[i] < 20.0 ==> r.None?
    ensures t[i] >= 20.0 ==> r == TwoPointRate(h, t, Nearest(t, t[i] - 20.0), i)
  {
    if t[i] < 20.0 then None else TwoPointRate(h, t, Nearest(t, t[i] - 20.0), i)
  }

  /** The rate loop of `analyseDrift` for a Hysitron drift segment; an
      undefined rate stands for numpy's NaN. */
  method LookBackRates(t: seq<real>, h: seq<real>) returns (rate: seq<Option<real>>)
    requires |t| == |h|
    ensures |rate| == |t|
    ensures forall i :: 0 <= i < |t| ==> rate[i] == LookBackRate(t, h, i)
  {
    rate := seq(|t|, i requires 0 <= i < |t| => None);
    for i := 0 to |t|
      invariant |rate| == |t|
      invariant forall j :: 0 <= j < i ==> rate[j] == LookBackRate(t, h, j)
      invariant forall j :: i <= j < |t| ==> rate[j].None?
    {
      if t[i] < 20.0 {
        continue;
      }
      var start := Nearest(t, t[i] - 20.0);
      rate := rate[i := TwoPointRate(h, t, start, i)];
    }
  }

  /** How `analyseDrift` ends: not a drift-segment file, an exception (no
      drift samples), or the drift rate in µm/s, `None` where it is
      numpy's NaN or the line fit is not determined. */
  datatype DriftOutcome = NotAnalysed | DriftRaised | DriftRate(rate: Option<real>)

  /** The Hysitron drift: the look-back rate at the sample nearest 40 s. */
  method HysitronDrift(t: seq<real>, h: seq<real>) returns (r: DriftOutcome)
    requires |t| == |h|
    ensures |t| == 0 <==> r == DriftRaised
    ensures |t| > 0 ==> r == DriftRate(LookBackRate(t, h, Nearest(t, 40.0)))
  {
    var rate := LookBackRates(t, h);
    if |t| == 0 {
      return DriftRaised;
    }
    r := DriftRate(rate[Nearest(t, 40.0)]);
  }

  /** The default start time (1-f)·t_last + f·t_0 of the Micromaterials fit. */
  function DefaultStart(time: seq<real>, fraction: real): real
    requires |time| > 0
  {
    (1.0 - fraction) * time[|time| - 1] + fraction * time[0]
  }

  /** The default start leaves the final fraction f of the time span to
      the fit. */
  lemma DefaultStartKeepsFraction(time: seq<real>, fraction: real)
    requires |time| > 0
    ensures time[|time| - 1] - DefaultStart(time, fraction) == fraction * (time[|time| - 1] - time[0])
  {
  }

  /** The first sample of the Micromaterials fit as written: one before the
      sample nearest the start time, as a Python slice start, so that -1
      wraps round to the last sample. */
  function FitStartAsWritten(time: seq<real>, timeStart: real): (k: nat)
    requires |time| > 0
    ensures k < |time|
  {
    SliceBound(Nearest(time, timeStart) - 1, |time|)
  }

  /** The first sample of the fit as evidently intended: one before the
      nearest sample, but never before the first. */
  function FitStart(time: seq<real>, timeStart: real): (k: nat)
    requires |time| > 0
    ensures k <= Nearest(time, timeStart)
    ensures Nearest(time, timeStart) > 0 ==> k == Nearest(time, timeStart) - 1
    ensures Nearest(time, timeStart) == 0 ==> k == 0
  {
    var n := Nearest(time, timeStart);
    if n == 0 then 0 else n - 1
  }

  /** The two agree unless the nearest sample is the first one; then the
      slice as written keeps only the last sample, while the intended
      start keeps the whole segment. */
  lemma FitStartWraps(time: seq<real>, timeStart: real)
    requires |time| > 0
    ensures Nearest(time, timeStart) > 0 ==> FitStartAsWritten(time, timeStart) == FitStart(time, timeStart)
    ensures Nearest(time, timeStart) == 0 ==>
      FitStartAsWritten(time, timeStart) == |time| - 1 && FitStart(time, timeStart) == 0
  {
  }

  /** A start time at the first sample, as the fraction 1 gives: the fit
      as written sees the single last sample of [0, 1, 2] s, the intended
      fit all three. */
  lemma FitStartWrapsExample()
    ensures FitStartAsWritten([0.0, 1.0, 2.0], DefaultStart([0.0, 1.0, 2.0], 1.0)) == 2
    ensures FitStart([0.0, 1.0, 2.0], DefaultStart([0.0, 1.0, 2.0], 1.0)) == 0
  {
    var time := [0.0, 1.0, 2.0];
    assert DefaultStart(time, 1.0) == 0.0;
    assert Abs(time[0] - 0.0) == 0.0;
    assert Nearest(time, 0.0) == 0;
  }

  /** The Micromaterials drift: the slope of the line fitted to the depth
      over time from the start sample on, divided by 1000; the fraction
      defaults to 0.6 and an explicit start time supersedes it. */
  function MicromaterialsDrift(time: seq<real>, depth: seq<real>, fraction: Option<real>,
                               timeStart: Option<real>): (r: DriftOutcome)
    requires |time| == |depth|
    ensures r != NotAnalysed
    ensures r == DriftRaised <==> |time| == 0
    ensures r.DriftRate? && r.rate.Some? ==>
      var ts := if timeStart.Some? then timeStart.value
                else DefaultStart(time, if fraction.Some? then fraction.value else 0.6);
      var k := FitStart(time, ts);
      && LineFit(time[k..], depth[k..]).Some?
      && r.rate.value * 1000.0 == LineFit(time[k..], depth[k..]).value.slope
  {
    if |time| == 0 then DriftRaised
    else
      var f := if fraction.Some? then fraction.value else 0.6;
      var ts := if timeStart.Some? then timeStart.value else DefaultStart(time, f);
      var k := FitStart(time, ts);
      match LineFit(time[k..], depth[k..])
      case None => DriftRate(None)
      case Some(line) => DriftRate(Some(line.slope / 1000.0))
  }

  /** The drift segment of the current test as the file holds it. */
  datatype DriftSegment = DriftSegment(time: seq<real>, depth: seq<real>)

  /** `analyseDrift`: Hysitron `.hld` files are read before the test,
      Micromaterials `hdf5` files after it; the Hysitron rate is also
      stored in the user metadata. */
  method AnalyseDrift(ind: I.Indentation, fileName: string, segment: DriftSegment, fraction: Option<real>,
                      timeStart: Option<real>) returns (r: DriftOutcome)
    requires |segment.time| == |segment.depth|
    modifies ind`metaUser
    ensures old(ind.vendor) == Some(Hysitron) && EndsWith(fileName, ".hld") ==>
      && (|segment.time| == 0 <==> r == DriftRaised)
      && (r.DriftRate? ==> r.rate == LookBackRate(segment.time, segment.depth, Nearest(segment.time, 40.0))
                           && ind.metaUser == old(ind.metaUser)["drift" := I.Values([r.rate])])
    ensures old(ind.vendor) == Some(Micromaterials) && EndsWith(fileName, "hdf5") ==>
      r == MicromaterialsDrift(segment.time, segment.depth, fraction, timeStart)
    ensures (!(old(ind.vendor) == Some(Hysitron) && EndsWith(fileName, ".hld"))
             && !(old(ind.vendor) == Some(Micromaterials) && EndsWith(fileName, "hdf5"))) ==> r == NotAnalysed
    ensures !(r.DriftRate? && old(ind.vendor) == Some(Hysitron)) ==> ind.metaUser == old(ind.metaUser)
  {
    if ind.vendor == Some(Hysitron) && EndsWith(fileName, ".hld") {
      r := HysitronDrift(segment.time, segment.depth);
      if r.DriftRate? {
        ind.metaUser := ind.metaUser["drift" := I.Values([r.rate])];
      }
    } else if ind.vendor == Some(Micromaterials) && EndsWith(fileName, "hdf5") {
      r := MicromaterialsDrift(segment.time, segment.depth, fraction, timeStart);
    } else {
      r := NotAnalysed;
    }
  }

  // ----- isFusedSilica -----

  /** Python's `int(n / numPoints)`: the quotient truncated towards zero;
      `None` is the `ZeroDivisionError`. */
  function TruncatedQuotient(n: nat, numPoints: int): (q: Option<int>)
    ensures q.None? <==> numPoints == 0
    ensures q.Some? && numPoints > 0 ==> q.value * numPoints <= n < (q.value + 1) * numPoints
    ensures q.Some? && numPoints < 0 ==> q.value <= 0 && -q.value * -numPoints <= n < (-q.value + 1) * -numPoints
  {
    if numPoints == 0 then None
    else if numPoints > 0 then Some(n / numPoints)
    else Some(-(n / -numPoints))
  }

  /** The smoothing window of the fused-silica check: the truncated
      quotient, less one when it is even. */
  function SmoothingWindow(n: nat, numPoints: int): (w: Option<int>)
    ensures w.None? <==> numPoints == 0
    ensures w.Some? ==> w.value % 2 == 1
    ensures w.Some? ==>
      (w.value == TruncatedQuotient(n, numPoints).value || w.value == TruncatedQuotient(n, numPoints).value - 1)
  {
    match TruncatedQuotient(n, numPoints)
    case None => None
    case Some(q) => Some(if q % 2 == 1 then q else q - 1)
  }

  /** With 20 points the window is the one the interpolating area
      calibration smooths with. */
  lemma SmoothingWindowMatchesCalibration(n: nat)
    ensures SmoothingWindow(n, 20) == Some(Calibration.SavgolWindow(n))
  {
  }
}
