/** Unloading stiffness: for every load-hold-unload cycle a power law
    P = B·(h - hf)^m is fitted to the upper part of the unloading branch and
    its slope at one depth is the contact stiffness. The curve fit is a
    parameter; the window, the initial guess, the linear fallback and the
    evaluation point are modelled. Four generations of the code differ in
    a few rules; `Generation` names them. */
module Stiffness {
  import opened Numerics
  import opened Definitions
  import opened Theory

  /** The package generation whose rules apply: the newest package, the
      split package, the monolith and the documented monolith. */
  datatype Generation = Newest | Split | Monolith | Documentation

  /** One entry of the cycle list: four indices, or the empty entry the
      segmentation appends for a rejected cycle. */
  datatype Cycle = Cycle(loadStart: int, loadEnd: int, unloadStart: int, unloadEnd: int) | NoCycle

  /** Fitted power-law parameters. */
  datatype Params = Params(b: real, hf: real, m: real)

  /** The starting point and box of the curve fit. B has no upper bound;
      `b0` is absent when its formula divides by zero. */
  datatype Guess = Guess(b0: Option<real>, hf0: real, m0: real,
                         bLow: real, hfLow: real, mLow: real, hfHigh: real, mHigh: real)

  /** The parameters a cycle ends with: a power-law fit, or the secant of
      the fallback, whose slope and foot are absent where numpy yields a
      non-finite value. */
  datatype Fit = PowerLaw(params: Params) | Secant(b: Option<real>, hf: Option<real>)

  /** What one cycle does: abort the whole call (empty window), raise, or
      produce a stiffness (absent when non-finite), the index marked
      valid, the window, the parameters and whether the power law held. */
  datatype CycleOutcome =
    | Abort
    | Raise
    | Done(stiffness: Option<real>, valid: nat, window: seq<bool>, fit: Fit, powerLaw: bool)

  /** The return value: a tuple of `count` Nones, an exception, or the five
      results. */
  datatype Outcome =
    | Nones(count: nat)
    | Raised
    | Stiffnesses(stiffness: seq<Option<real>>, validMask: seq<bool>,
                  mask: Option<seq<bool>>, opt: Option<Fit>, powerlawFit: seq<bool>)

  /** The curve fit: it returns parameters, or nothing when it raises or
      its B is NaN. */
  type Fitter = (seq<real>, seq<real>, Guess) -> Option<Params>

  /** Python's index range for a sequence of length n. */
  predicate InRange(k: int, n: nat)
  {
    -(n as int) <= k < n
  }

  /** A Python index made non-negative. */
  function Norm(k: int, n: nat): (j: nat)
    requires InRange(k, n)
    ensures j < n
    ensures 0 <= k ==> j == k
  {
    if k < 0 then k + n else k
  }

  /** Python's clamping of a slice bound to 0..n. */
  function SliceBound(k: int, n: nat): (j: nat)
    ensures j <= n
  {
    if k < 0 then (if k + n < 0 then 0 else k + n) else if k > n then n else k
  }

  /** Index j lies in the slice [start:stop] of a length-n sequence. */
  predicate InSlice(j: nat, start: int, stop: int, n: nat)
  {
    SliceBound(start, n) <= j < SliceBound(stop, n)
  }

  /** For in-range, non-negative indices the slice [a:b+1] is a..b inclusive. */
  lemma InclusiveSlice(j: nat, a: int, b: int, n: nat)
    requires 0 <= a && 0 <= b < n
    ensures InSlice(j, a, b + 1, n) <==> a <= j <= b
  {
  }

  /** The fit window of a cycle: the samples from unloadStart to unloadEnd
      inclusive whose force lies strictly between the fractions pMin and
      pMax of the force at loadEnd. */
  function Window(p: seq<real>, c: Cycle, pMax: real, pMin: real): (w: seq<bool>)
    requires c.Cycle? && InRange(c.loadEnd, |p|)
    ensures |w| == |p|
  {
    var top := p[Norm(c.loadEnd, |p|)];
    seq(|p|, j requires 0 <= j < |p| =>
      InSlice(j, c.unloadStart, c.unloadEnd + 1, |p|) && p[j] < top * pMax && p[j] > top * pMin)
  }

  /** The window of a cycle whose indices are in order and in range holds
      exactly the unloading samples in the force band. */
  lemma WindowOfOrderedCycle(p: seq<real>, c: Cycle, pMax: real, pMin: real, j: nat)
    requires c.Cycle? && 0 <= c.loadEnd < |p| && 0 <= c.unloadStart <= c.unloadEnd < |p|
    requires j < |p|
    ensures Window(p, c, pMax, pMin)[j] <==>
              c.unloadStart <= j <= c.unloadEnd && p[c.loadEnd] * pMin < p[j] < p[c.loadEnd] * pMax
  {
    InclusiveSlice(j, c.unloadStart, c.unloadEnd, |p|);
  }

  /** `max(|num/(den - hf0)²|, 0.001)`, or the unclamped quotient; absent when
      the divisor is zero. */
  function StartB(num: real, den: real, hf0: real, clamp: bool): (b: Option<real>)
    ensures b.Some? <==> den != hf0
    ensures b.Some? && clamp ==> 0.001 <= b.value
  {
    if den == hf0 then None
    else
      var q := OverSquare(num, den - hf0);
      var a := if q < 0.0 then -q else q;
      Some(if clamp then (if a < 0.001 then 0.001 else a) else q)
  }

  function OverSquare(num: real, t: real): real
    requires t != 0.0
  {
    SquareZero(t);
    num / (t * t)
  }

  lemma SquareZero(x: real)
    ensures x != 0.0 ==> 0.0 < x * x
  {
    if x > 0.0 {
      PositiveProduct(x, x);
    } else if x < 0.0 {
      var y := 0.0 - x;
      PositiveProduct(y, y);
      assert y * y == x * x;
      assert x * x != 0.0;
    }
  }

  /** Initial guess and bounds of the curve fit from the window depths hw
      and forces pw and the whole trace p, h. */
  function StartGuess(g: Generation, p: seq<real>, h: seq<real>, pw: seq<real>, hw: seq<real>): Guess
    requires |p| == |h| > 0 && |pw| == |hw| > 0
  {
    var last := hw[|hw| - 1];
    match g
    case Newest =>
      var hf0 := last / 2.0;
      Guess(StartB(pw[0], hw[0], hf0, true), hf0, 2.0, 0.0, 0.0, 0.8, Max2(Min(hw), hf0), 10.0)
    case Split =>
      var hf0 := last / 2.0;
      Guess(StartB(p[0], h[0], hf0, true), hf0, 2.0, 0.0, 0.0, 0.8, Max2(Min(hw), hf0), 10.0)
    case Monolith =>
      var hf0 := last / 2.0;
      Guess(StartB(p[0], h[0], hf0, true), hf0, 2.0, 0.0, 0.0, 0.8, Max2(Min(hw), hf0), 10.0)
    case Documentation =>
      var hf0 := (h[|h| - 1] + last) / 2.0;
      Guess(StartB(p[0], h[0], hf0, false), hf0, 2.0, 0.0, h[|h| - 1], 1.0, Min(hw), 10.0)
  }

  function Max2(a: real, b: real): real
  {
    if a >= b then a else b
  }

  /** The starting point lies in the box.
      Newest rules: it does exactly when the last window depth is not
      negative (B0 ≥ 0.001 and m0 = 2 always fit; hf0 = last/2 must not be
      below 0 and is never above its own upper bound). */
  lemma NewestGuessFeasible(p: seq<real>, h: seq<real>, pw: seq<real>, hw: seq<real>)
    requires |p| == |h| > 0 && |pw| == |hw| > 0
    ensures var gs := StartGuess(Newest, p, h, pw, hw);
            && gs.hf0 <= gs.hfHigh
            && gs.mLow <= gs.m0 <= gs.mHigh
            && (gs.b0.Some? ==> gs.bLow <= gs.b0.value)
            && (gs.hfLow <= gs.hf0 <==> 0.0 <= hw[|hw| - 1])
  {
  }

  /** The secant slope through the first and last window samples; absent
      when the two depths coincide (numpy then yields inf or NaN). */
  function SecantSlope(pw: seq<real>, hw: seq<real>): (b: Option<real>)
    requires |pw| == |hw| > 0
    ensures b.Some? <==> hw[|hw| - 1] != hw[0]
  {
    var dh := hw[|hw| - 1] - hw[0];
    if dh == 0.0 then None else Some((pw[|pw| - 1] - pw[0]) / dh)
  }

  /** The fallback line's zero-force depth h0 - P0/B; absent when B is. */
  function SecantFoot(pw: seq<real>, hw: seq<real>): (hf: Option<real>)
    requires |pw| == |hw| > 0
  {
    var b := SecantSlope(pw, hw);
    if b.Some? && b.value != 0.0 then Some(hw[0] - pw[0] / b.value) else None
  }

  /** The fallback line passes through the first and the last window
      sample: with exponent 1 the unloading law through them is the secant. */
  lemma SecantThroughWindowEnds(pw: seq<real>, hw: seq<real>, m: Maths)
    requires Lawful(m)
    requires |pw| == |hw| > 0
    requires SecantFoot(pw, hw).Some?
    ensures UnloadingPower(hw[0], SecantSlope(pw, hw).value, SecantFoot(pw, hw).value, 1.0, m) == pw[0]
    ensures UnloadingPower(hw[|hw| - 1], SecantSlope(pw, hw).value, SecantFoot(pw, hw).value, 1.0, m) == pw[|pw| - 1]
  {
    var b := SecantSlope(pw, hw).value;
    var hf := SecantFoot(pw, hw).value;
    var dh := hw[|hw| - 1] - hw[0];
    UnloadingPowerLinear(hw[0], b, hf, m);
    UnloadingPowerLinear(hw[|hw| - 1], b, hf, m);
    assert b * (hw[0] - hf) == pw[0];
    assert b * dh == pw[|pw| - 1] - pw[0];
    assert b * (hw[|hw| - 1] - hf) == b * dh + b * (hw[0] - hf);
  }

  /** `math.pow` raises for a negative base with a fractional exponent and
      for zero to a negative power. */
  predicate PowRaises(x: real, e: real)
  {
    (x < 0.0 && e.Floor as real != e) || (x == 0.0 && e < 0.0)
  }

  /** Whether the generation rejects an empty window before fitting (the
      documented monolith does not, and indexing the empty window raises). */
  predicate ChecksEmptyWindow(g: Generation)
  {
    g != Documentation
  }

  /** Whether the stiffness is taken at unloadStart: a setting in the two
      packages, always in the monoliths. */
  predicate AtMaximum(g: Generation, atMax: Option<bool>)
  {
    if ReadsEvaluationPoint(g) then atMax == Some(true) else true
  }

  /** Whether the generation reads the evaluation-point setting; the two
      packages do, after the fit of every cycle, and the newest one reads
      it from the model dictionary, where it may be missing. */
  predicate ReadsEvaluationPoint(g: Generation)
  {
    g == Newest || g == Split
  }

  /** The number of Nones returned for a CSM test: the monoliths return four. */
  function CsmNones(g: Generation): nat
  {
    if g == Newest || g == Split then 5 else 4
  }

  /** The slope B·m·(x - hf)^(m-1) of a fitted law at depth x. */
  function Slope(q: Params, x: real, m: Maths): real
  {
    q.b * q.m * m.pow(x - q.hf, q.m - 1.0)
  }

  /** The evaluation of one cycle. The force thresholds are read when the
      window is built and the evaluation point after the fit, so a missing
      threshold raises in every cycle and a missing evaluation point only
      in a cycle whose window is not empty. */
  function CycleStep(g: Generation, atMax: Option<bool>, p: seq<real>, h: seq<real>, c: Cycle,
                     pMax: Option<real>, pMin: Option<real>, fit: Fitter, m: Maths): (r: CycleOutcome)
    requires |p| == |h|
    ensures r.Done? ==> r.valid < |p| == |r.window| && (AtMaximum(g, atMax) || r.window[r.valid])
    ensures r.Done? ==> pMax.Some? && pMin.Some? && (ReadsEvaluationPoint(g) ==> atMax.Some?)
    ensures r == Abort <==> ChecksEmptyWindow(g) && c.Cycle? && InRange(c.loadEnd, |p|)
                             && pMax.Some? && pMin.Some? && Count(Window(p, c, pMax.value, pMin.value)) == 0
  {
    if c.NoCycle? || !InRange(c.loadEnd, |p|) || pMax.None? || pMin.None? then Raise
    else
      var w := Window(p, c, pMax.value, pMin.value);
      if Count(w) == 0 then (if ChecksEmptyWindow(g) then Abort else Raise)
      else if ReadsEvaluationPoint(g) && atMax.None? then Raise
      else if AtMaximum(g, atMax) && !InRange(c.unloadStart, |p|) then Raise
      else
        var pw := Select(p, w);
        var hw := Select(h, w);
        var valid := if AtMaximum(g, atMax) then Norm(c.unloadStart, |p|) else FirstTrue(w);
        var x := h[valid];
        match fit(hw, pw, StartGuess(g, p, h, pw, hw))
        case Some(q) =>
          if PowRaises(x - q.hf, q.m - 1.0) then Raise
          else Done(Some(Slope(q, x, m)), valid, w, PowerLaw(q), true)
        case None =>
          Done(SecantSlope(pw, hw), valid, w, Secant(SecantSlope(pw, hw), SecantFoot(pw, hw)), false)
  }

  /** The outcome of every cycle, in order. */
  function Steps(g: Generation, atMax: Option<bool>, p: seq<real>, h: seq<real>, cs: seq<Cycle>,
                 pMax: Option<real>, pMin: Option<real>, fit: Fitter, m: Maths): (r: seq<CycleOutcome>)
    requires |p| == |h|
    ensures |r| == |cs|
    ensures forall k :: 0 <= k < |cs| ==> r[k] == CycleStep(g, atMax, p, h, cs[k], pMax, pMin, fit, m)
  {
    seq(|cs|, k requires 0 <= k < |cs| => CycleStep(g, atMax, p, h, cs[k], pMax, pMin, fit, m))
  }

  /** The cycle outcomes combined in order for a trace of n samples; the
      first abort or exception ends the call and discards what earlier
      cycles produced. */
  function Run(n: nat, steps: seq<CycleOutcome>): (r: Outcome)
    requires forall k :: 0 <= k < |steps| && steps[k].Done? ==> steps[k].valid < n
    ensures r.Stiffnesses? ==> |r.validMask| == n
  {
    if steps == [] then Stiffnesses([], seq(n, _ => false), None, None, [])
    else
      var prev := Run(n, steps[..|steps| - 1]);
      if !prev.Stiffnesses? then prev
      else
        match steps[|steps| - 1]
        case Abort => Nones(5)
        case Raise => Raised
        case Done(s, v, w, f, ok) =>
          Stiffnesses(prev.stiffness + [s], prev.validMask[v := true], Some(w), Some(f), prev.powerlawFit + [ok])
  }

  /** Valid indices chosen by cycles lie inside the trace. */
  predicate Inside(n: nat, steps: seq<CycleOutcome>)
  {
    forall k :: 0 <= k < |steps| && steps[k].Done? ==> steps[k].valid < n
  }

  /** Once a prefix of the cycles has aborted or raised, the call ends
      with that result. */
  lemma {:induction false} RunStops(n: nat, steps: seq<CycleOutcome>, k: nat)
    requires Inside(n, steps) && k <= |steps|
    requires !Run(n, steps[..k]).Stiffnesses?
    ensures Run(n, steps) == Run(n, steps[..k])
  {
    if k < |steps| {
      var last := |steps| - 1;
      assert steps[..last][..k] == steps[..k];
      RunStops(n, steps[..last], k);
    } else {
      assert steps[..k] == steps;
    }
  }

  /** One more completed cycle extends every list of the result. */
  lemma RunGrows(n: nat, steps: seq<CycleOutcome>, i: nat)
    requires Inside(n, steps) && i < |steps| && steps[i].Done?
    requires Run(n, steps[..i]).Stiffnesses?
    ensures var prev := Run(n, steps[..i]);
      Run(n, steps[..i + 1]) ==
        Stiffnesses(prev.stiffness + [steps[i].stiffness], prev.validMask[steps[i].valid := true],
                    Some(steps[i].window), Some(steps[i].fit), prev.powerlawFit + [steps[i].powerLaw])
  {
    assert steps[..i + 1][..i] == steps[..i];
  }

  /** stiffnessFromUnloading: a CSM test returns Nones at once; otherwise the cycles run. */
  function Evaluate(g: Generation, testMethod: Method, atMax: Option<bool>, p: seq<real>, h: seq<real>, cs: seq<Cycle>,
                    pMax: Option<real>, pMin: Option<real>, fit: Fitter, m: Maths): Outcome
    requires |p| == |h|
  {
    if testMethod == CSM then Nones(CsmNones(g)) else Run(|p|, Steps(g, atMax, p, h, cs, pMax, pMin, fit, m))
  }

  /** A missing force threshold raises in the first cycle, where the
      window is built; a call without cycles never reads it and completes
      with empty results. */
  lemma MissingThresholdRaises(g: Generation, testMethod: Method, atMax: Option<bool>, p: seq<real>, h: seq<real>,
                               cs: seq<Cycle>, pMax: Option<real>, pMin: Option<real>, fit: Fitter, m: Maths)
    requires |p| == |h| && testMethod != CSM
    requires pMax.None? || pMin.None?
    ensures Evaluate(g, testMethod, atMax, p, h, cs, pMax, pMin, fit, m) ==
              if cs == [] then Stiffnesses([], seq(|p|, _ => false), None, None, []) else Raised
  {
    if cs != [] {
      FirstCycleEnds(|p|, Steps(g, atMax, p, h, cs, pMax, pMin, fit, m));
    }
  }

  /** A package whose model lacks the evaluation point: the first cycle
      either finds its window empty, and the call returns its Nones, or
      raises when the setting is read after the fit; only a call without
      cycles completes. */
  lemma MissingEvaluationPointRaises(g: Generation, testMethod: Method, atMax: Option<bool>, p: seq<real>, h: seq<real>,
                                     cs: seq<Cycle>, pMax: Option<real>, pMin: Option<real>, fit: Fitter, m: Maths)
    requires |p| == |h| && testMethod != CSM
    requires ReadsEvaluationPoint(g) && atMax.None?
    ensures Evaluate(g, testMethod, atMax, p, h, cs, pMax, pMin, fit, m).Stiffnesses? <==> cs == []
    ensures cs != [] ==>
              Evaluate(g, testMethod, atMax, p, h, cs, pMax, pMin, fit, m) ==
                if CycleStep(g, atMax, p, h, cs[0], pMax, pMin, fit, m) == Abort then Nones(5) else Raised
  {
    if cs != [] {
      FirstCycleEnds(|p|, Steps(g, atMax, p, h, cs, pMax, pMin, fit, m));
    }
  }

  /** A first cycle that does not complete decides the call. */
  lemma FirstCycleEnds(n: nat, steps: seq<CycleOutcome>)
    requires Inside(n, steps) && steps != [] && !steps[0].Done?
    ensures Run(n, steps) == if steps[0] == Abort then Nones(5) else Raised
  {
    assert steps[..1][..0] == [];
    RunStops(n, steps, 1);
  }

  /** A completed call has one stiffness and one fit flag per cycle,
      and every cycle completed. */
  lemma {:induction false} OneResultPerCycle(n: nat, steps: seq<CycleOutcome>)
    requires Inside(n, steps)
    requires Run(n, steps).Stiffnesses?
    ensures |Run(n, steps).stiffness| == |steps| && |Run(n, steps).powerlawFit| == |steps|
    ensures forall k :: 0 <= k < |steps| ==> steps[k].Done?
  {
    if steps != [] {
      OneResultPerCycle(n, steps[..|steps| - 1]);
    }
  }

  /** Cycle k's stiffness and fit flag sit at position k of a completed
      call's results, and the index it chose is marked valid. */
  lemma {:induction false} CycleRecorded(n: nat, steps: seq<CycleOutcome>, k: nat)
    requires Inside(n, steps) && k < |steps|
    requires Run(n, steps).Stiffnesses?
    ensures steps[k].Done?
    ensures |Run(n, steps).stiffness| == |steps| && Run(n, steps).stiffness[k] == steps[k].stiffness
    ensures |Run(n, steps).powerlawFit| == |steps| && Run(n, steps).powerlawFit[k] == steps[k].powerLaw
    ensures Run(n, steps).validMask[steps[k].valid]
  {
    OneResultPerCycle(n, steps);
    var last := |steps| - 1;
    if k < last {
      CycleRecorded(n, steps[..last], k);
    }
  }

  /** Every index marked valid was chosen by some cycle. */
  lemma {:induction false} ValidChosenByCycle(n: nat, steps: seq<CycleOutcome>, j: nat)
    requires Inside(n, steps) && j < n
    requires Run(n, steps).Stiffnesses? && Run(n, steps).validMask[j]
    ensures exists k :: 0 <= k < |steps| && steps[k].Done? && steps[k].valid == j
  {
    var last := |steps| - 1;
    if steps[last].valid != j {
      ValidChosenByCycle(n, steps[..last], j);
      var k :| 0 <= k < last && steps[..last][k].Done? && steps[..last][k].valid == j;
      assert steps[..last][k] == steps[k];
    }
  }

  /** An aborting cycle after completed ones throws their results away:
      the call returns five Nones. */
  lemma {:induction false} AbortDiscardsEarlierCycles(n: nat, steps: seq<CycleOutcome>, k: nat)
    requires Inside(n, steps) && k < |steps|
    requires forall j :: 0 <= j < k ==> steps[j].Done?
    requires steps[k] == Abort
    ensures Run(n, steps) == Nones(5)
  {
    AllDoneCompletes(n, steps[..k]);
    assert steps[..k + 1][..k] == steps[..k];
    RunStops(n, steps, k + 1);
  }

  /** Cycles that all complete give a completed call. */
  lemma {:induction false} AllDoneCompletes(n: nat, steps: seq<CycleOutcome>)
    requires Inside(n, steps)
    requires forall j :: 0 <= j < |steps| ==> steps[j].Done?
    ensures Run(n, steps).Stiffnesses?
  {
    if steps != [] {
      AllDoneCompletes(n, steps[..|steps| - 1]);
    }
  }

  /** The cycle outcomes of a trace choose valid indices inside it. */
  lemma StepsInside(g: Generation, atMax: Option<bool>, p: seq<real>, h: seq<real>, cs: seq<Cycle>,
                    pMax: Option<real>, pMin: Option<real>, fit: Fitter, m: Maths)
    requires |p| == |h|
    ensures Inside(|p|, Steps(g, atMax, p, h, cs, pMax, pMin, fit, m))
  {
  }

  /** Where the stiffness is read: at unloadStart when evaluating at the
      maximum, otherwise at the first window sample, whose depth is the
      first depth handed to the fit. */
  lemma EvaluationPoint(g: Generation, atMax: Option<bool>, p: seq<real>, h: seq<real>, c: Cycle,
                        pMax: Option<real>, pMin: Option<real>, fit: Fitter, m: Maths)
    requires |p| == |h|
    requires CycleStep(g, atMax, p, h, c, pMax, pMin, fit, m).Done?
    ensures var r := CycleStep(g, atMax, p, h, c, pMax, pMin, fit, m);
            && c.Cycle? && InRange(c.loadEnd, |p|) && pMax.Some? && pMin.Some?
            && r.window == Window(p, c, pMax.value, pMin.value)
            && Count(r.window) > 0
            && (AtMaximum(g, atMax) ==> InRange(c.unloadStart, |p|) && r.valid == Norm(c.unloadStart, |p|))
            && (!AtMaximum(g, atMax) ==>
                  r.window[r.valid] && (forall j :: 0 <= j < r.valid ==> !r.window[j])
                  && h[r.valid] == Select(h, r.window)[0])
  {
    var r := CycleStep(g, atMax, p, h, c, pMax, pMin, fit, m);
    if !AtMaximum(g, atMax) {
      FirstSelected(h, r.window);
    }
  }

  /** When the fit fails the stiffness is the secant slope, flagged as no
      power law; when it succeeds it is the law's slope at the evaluation
      depth. */
  lemma FallbackStiffnessIsSecant(g: Generation, atMax: Option<bool>, p: seq<real>, h: seq<real>, c: Cycle,
                                  pMax: Option<real>, pMin: Option<real>, fit: Fitter, m: Maths)
    requires |p| == |h|
    requires CycleStep(g, atMax, p, h, c, pMax, pMin, fit, m).Done?
    ensures var r := CycleStep(g, atMax, p, h, c, pMax, pMin, fit, m);
            var pw := Select(p, r.window);
            var hw := Select(h, r.window);
            var gs := StartGuess(g, p, h, pw, hw);
            && (fit(hw, pw, gs).None? ==>
                  !r.powerLaw && r.stiffness == SecantSlope(pw, hw) && r.fit == Secant(SecantSlope(pw, hw), SecantFoot(pw, hw)))
            && (fit(hw, pw, gs).Some? ==>
                  r.powerLaw && r.fit == PowerLaw(fit(hw, pw, gs).value)
                  && r.stiffness == Some(Slope(fit(hw, pw, gs).value, h[r.valid], m)))
  {
  }

  /** The secant's stiffness agrees with the unloading law's slope: the
      law with exponent 1 has slope B everywhere. */
  lemma SecantSlopeIsLawSlope(b: real, hf: real, x: real, m: Maths)
    requires Lawful(m)
    ensures Slope(Params(b, hf, 1.0), x, m) == b
  {
    assert m.pow(x - hf, 0.0) == 1.0;
  }

  /** The fitted slope is never negative and math.pow does not raise when
      the fit kept to B ≥ 0 and m ≥ 0.8 and the evaluation depth lies
      above hf (at hf itself an exponent m - 1 < 0 raises). */
  lemma FittedSlopeNonNegative(q: Params, x: real, m: Maths)
    requires Lawful(m)
    requires 0.0 <= q.b && 0.8 <= q.m && q.hf < x
    ensures !PowRaises(x - q.hf, q.m - 1.0)
    ensures 0.0 <= Slope(q, x, m)
  {
    var t := m.pow(x - q.hf, q.m - 1.0);
    assert 0.0 <= t;
    assert 0.0 <= q.b * q.m;
  }

  /** The window as numpy builds it: the slice mask and the force mask
      combined element by element. */
  method WindowMask(p: seq<real>, c: Cycle, pMax: real, pMin: real) returns (w: array<bool>)
    requires c.Cycle? && InRange(c.loadEnd, |p|)
    ensures fresh(w) && w[..] == Window(p, c, pMax, pMin)
  {
    var n := |p|;
    var segment := new bool[n];
    var lo := SliceBound(c.unloadStart, n);
    var hi := SliceBound(c.unloadEnd + 1, n);
    for j := 0 to n
      invariant forall k :: 0 <= k < j ==> segment[k] == (lo <= k < hi)
    {
      segment[j] := lo <= j < hi;
    }
    var top := p[Norm(c.loadEnd, n)];
    w := new bool[n];
    for j := 0 to n
      invariant forall k :: 0 <= k < j ==> w[k] == (segment[k] && p[k] < top * pMax && p[k] > top * pMin)
      invariant forall k :: 0 <= k < n ==> segment[k] == (lo <= k < hi)
    {
      w[j] := segment[j] && p[j] < top * pMax && p[j] > top * pMin;
    }
    assert w[..] == Window(p, c, pMax, pMin);
  }

  /** One pass of the loop body: the window, the guess, the fit or its
      fallback and the evaluation point of one cycle. */
  method EvaluateCycle(g: Generation, atMax: Option<bool>, p: seq<real>, h: seq<real>, c: Cycle,
                       pMax: Option<real>, pMin: Option<real>, fit: Fitter, m: Maths) returns (r: CycleOutcome)
    requires |p| == |h|
    ensures r == CycleStep(g, atMax, p, h, c, pMax, pMin, fit, m)
  {
    if c.NoCycle? || !InRange(c.loadEnd, |p|) || pMax.None? || pMin.None? {
      return Raise;
    }
    var wa := WindowMask(p, c, pMax.value, pMin.value);
    var w := wa[..];
    if Count(w) == 0 {
      if ChecksEmptyWindow(g) {
        return Abort;
      }
      return Raise;
    }
    var pw := Select(p, w);
    var hw := Select(h, w);
    var guess := StartGuess(g, p, h, pw, hw);
    var valid: nat;
    if ReadsEvaluationPoint(g) && atMax.None? {
      return Raise;
    }
    if AtMaximum(g, atMax) {
      if !InRange(c.unloadStart, |p|) {
        return Raise;
      }
      valid := Norm(c.unloadStart, |p|);
    } else {
      valid := FirstTrue(w);
    }
    var x := h[valid];
    match fit(hw, pw, guess) {
      case Some(q) =>
        if PowRaises(x - q.hf, q.m - 1.0) {
          return Raise;
        }
        r := Done(Some(Slope(q, x, m)), valid, w, PowerLaw(q), true);
      case None =>
        var b := SecantSlope(pw, hw);
        r := Done(b, valid, w, Secant(b, SecantFoot(pw, hw)), false);
    }
  }

  /** stiffnessFromUnloading: a CSM test returns its Nones at once;
      otherwise the cycles are evaluated in order. */
  method StiffnessFromUnloading(g: Generation, testMethod: Method, atMax: Option<bool>, p: seq<real>, h: seq<real>,
                                cs: seq<Cycle>, pMax: Option<real>, pMin: Option<real>, fit: Fitter, m: Maths)
    returns (r: Outcome)
    requires |p| == |h|
    ensures r == Evaluate(g, testMethod, atMax, p, h, cs, pMax, pMin, fit, m)
  {
    if testMethod == CSM {
      return Nones(CsmNones(g));
    }
    r := EvaluateCycles(g, atMax, p, h, cs, pMax, pMin, fit, m);
  }

  /** The cycle loop of stiffnessFromUnloading, appending one stiffness
      and one fit flag per cycle and marking one valid index per cycle. */
  method EvaluateCycles(g: Generation, atMax: Option<bool>, p: seq<real>, h: seq<real>,
                        cs: seq<Cycle>, pMax: Option<real>, pMin: Option<real>, fit: Fitter, m: Maths)
    returns (r: Outcome)
    requires |p| == |h|
    ensures r == Run(|p|, Steps(g, atMax, p, h, cs, pMax, pMin, fit, m))
  {
    ghost var steps := Steps(g, atMax, p, h, cs, pMax, pMin, fit, m);
    StepsInside(g, atMax, p, h, cs, pMax, pMin, fit, m);
    var stiffness: seq<Option<real>> := [];
    var powerlawFit: seq<bool> := [];
    var mask: Option<seq<bool>> := None;
    var opt: Option<Fit> := None;
    var validMask := new bool[|p|](_ => false);
    assert validMask[..] == seq(|p|, _ => false);
    assert steps[..0] == [];
    for i := 0 to |cs|
      invariant Run(|p|, steps[..i]) == Stiffnesses(stiffness, validMask[..], mask, opt, powerlawFit)
    {
      var step := EvaluateCycle(g, atMax, p, h, cs[i], pMax, pMin, fit, m);
      assert steps[i] == step;
      if !step.Done? {
        assert steps[..i + 1][..i] == steps[..i];
        RunStops(|p|, steps, i + 1);
        return if step.Abort? then Nones(5) else Raised;
      }
      RunGrows(|p|, steps, i);
      validMask[step.valid] := true;
      stiffness := stiffness + [step.stiffness];
      powerlawFit := powerlawFit + [step.powerLaw];
      mask := Some(step.window);
      opt := Some(step.fit);
    }
    assert steps[..|cs|] == steps;
    return Stiffnesses(stiffness, validMask[..], mask, opt, powerlawFit);
  }
}
