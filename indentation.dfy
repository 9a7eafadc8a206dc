/** The indentation object of the newest package: the time, force, depth
    and validity signals of the current test, the load-hold-unload cycles
    and drift window found in them, the stiffness evaluation, the
    parameter dictionaries and the traversal of the tests of a file. The
    segmentation of the split package and of the two monolithic versions
    are variant methods of the same object; the attributes those versions
    keep instead of the model dictionary are passed in. */
module Indentation {
  import opened Numerics
  import opened Definitions
  import opened Stiffness
  import opened Segmentation
  import opened Configuration
  import opened Theory
  import opened Evaluation

  /** What a call gives back: a boolean, Python's `None`, or an exception. */
  datatype Reply = Threw | Returned(success: bool) | ReturnedNone

  /** The end of `analyse`: an exception, the early return after a failed
      force-normalised stiffness, or the evaluation carried on. */
  datatype AnalyseOutcome = AnalyseRaised | Skipped | Evaluated

  /** An entry of the user metadata. */
  datatype Meta = Values(values: seq<Option<real>>) | Labels(labels: seq<string>) | Label(name: string)

  /** The cycles and drift window after a CSM segmentation: unchanged when
      it raised, emptied when its histogram failed, one cycle
      [surface, load, hold, drift start] and the drift window otherwise. */
  predicate CsmRecorded(r: CsmOutcome, iLHU0: seq<Cycle>, iDrift0: DriftRange,
                        iLHU: seq<Cycle>, iDrift: DriftRange, reply: Reply, failed: Reply, found: Reply)
  {
    match r
    case CsmRaised => reply == Threw && iLHU == iLHU0 && iDrift == iDrift0
    case HistogramFailed => reply == failed && iLHU == [] && iDrift == NoDrift
    case Points(s, l, hold, ds, de) => reply == found && iLHU == [Cycle(s, l, hold, ds)] && iDrift == DriftRange(ds, de)
  }

  /** Whether the newest package reaches the end of its segmentation: an
      unmatched edge count or an output dictionary with a `successTest`
      list. Without that list a matched test raises a `KeyError`. */
  predicate Recordable(s: Segments, successTest: Option<seq<string>>)
  {
    !s.matched || successTest.Some?
  }

  /** `[str(i + 1) for i in range(n)]`. */
  function SegmentLabels(n: nat): (r: seq<string>)
    ensures |r| == n && forall i :: 0 <= i < n ==> r[i] == NatToString(i + 1)
  {
    seq(n, i requires 0 <= i < n => NatToString(i + 1))
  }

  /** The first index where `crossed` holds, or `None` (numpy's
      `IndexError` on an empty selection). */
  function FirstCrossing(crossed: seq<bool>): (r: Option<nat>)
    ensures r.Some? ==> r.value < |crossed| && crossed[r.value]
    ensures r.Some? ==> forall j :: 0 <= j < r.value ==> !crossed[j]
    ensures r.None? ==> forall j :: 0 <= j < |crossed| ==> !crossed[j]
  {
    if Count(crossed) == 0 then
      CountZero(crossed);
      None
    else Some(FirstTrue(crossed))
  }

  /** Python's index `i` into a sequence of length n: negative indices
      count from the end; `None` is an `IndexError`. */
  function PyIndex(n: nat, i: int): (r: Option<nat>)
    ensures r.Some? <==> -(n as int) <= i < n
    ensures r.Some? ==> r.value < n && (r.value as int == i || r.value as int == i + n)
  {
    if 0 <= i < n then Some(i) else if -(n as int) <= i < 0 then Some(i + n) else None
  }

  /** Every depth lowered by the depth at index `s`. */
  function ShiftedTo(h: seq<real>, s: nat): (r: seq<real>)
    requires s < |h|
    ensures |r| == |h| && r[s] == 0.0
    ensures forall j, k :: 0 <= j < |h| && 0 <= k < |h| ==> r[j] - r[k] == h[j] - h[k]
  {
    seq(|h|, j requires 0 <= j < |h| => h[j] - h[s])
  }

  /** Python's `x[-1]`: the last entry, or `None` for the `IndexError`
      of an empty array. */
  function Last<T>(s: seq<T>): (r: Option<T>)
    ensures r.Some? <==> |s| > 0
    ensures r.Some? ==> r.value == s[|s| - 1]
  {
    match PyIndex(|s|, -1)
    case None => None
    case Some(k) => Some(s[k])
  }

  function Finite(s: seq<real>): (r: seq<Option<real>>)
    ensures |r| == |s| && forall i :: 0 <= i < |s| ==> r[i] == Some(s[i])
  {
    seq(|s|, i requires 0 <= i < |s| => Some(s[i]))
  }

  /** The name under which the results are filed. */
  const CodeName := "main.py"

  /** The user metadata saveToUserMeta writes: for CSM the last value of
      every result with the segment label "0" (`str(-1 + 1)`), nothing
      when there is no stiffness, and an `IndexError` when any other
      result is empty; otherwise every result list with the labels
      "1".."n". The name of the code file is added in every case. */
  function MetaOf(csm: bool, slope: seq<Option<real>>, hv: seq<real>, pv: seq<real>,
                  modulusRed: seq<Option<real>>, ac: seq<Option<real>>, hc: seq<Option<real>>,
                  modulus: seq<Option<real>>, hardness: seq<Option<real>>): (r: Option<map<string, Meta>>)
    ensures r.None? <==>
      csm && |slope| > 0 &&
      (|hv| == 0 || |pv| == 0 || |modulusRed| == 0 || |ac| == 0 || |hc| == 0 || |modulus| == 0 || |hardness| == 0)
    ensures r.Some? ==> "code" in r.value && r.value["code"] == Label(CodeName)
  {
    var code := map["code" := Label(CodeName)];
    if csm then
      if |slope| == 0 then Some(code)
      else
        var s, hm, pm := Last(slope), Last(hv), Last(pv);
        var er, a, c, e, hd := Last(modulusRed), Last(ac), Last(hc), Last(modulus), Last(hardness);
        if hm.None? || pm.None? || er.None? || a.None? || c.None? || e.None? || hd.None? then None
        else
          Some(map["S_mN/um" := Values([s.value]), "hMax_um" := Values([Some(hm.value)]),
                   "pMax_mN" := Values([Some(pm.value)]), "modulusRed_GPa" := Values([er.value]),
                   "A_um2" := Values([a.value]), "hc_um" := Values([c.value]), "E_GPa" := Values([e.value]),
                   "H_GPa" := Values([hd.value]), "segment" := Labels([NatToString(0)])] + code)
    else
      Some(map["S_mN/um" := Values(slope), "hMax_um" := Values(Finite(hv)), "pMax_mN" := Values(Finite(pv)),
               "modulusRed_GPa" := Values(modulusRed), "A_um2" := Values(ac), "hc_um" := Values(hc),
               "E_GPa" := Values(modulus), "H_GPa" := Values(hardness),
               "segment" := Labels(SegmentLabels(|slope|))] + code)
  }

  /** Without CSM every stiffness is stored and labelled by its cycle:
      label i reads back as the number i + 1. */
  lemma CyclesLabelledInOrder(slope: seq<Option<real>>, hv: seq<real>, pv: seq<real>,
                              modulusRed: seq<Option<real>>, ac: seq<Option<real>>, hc: seq<Option<real>>,
                              modulus: seq<Option<real>>, hardness: seq<Option<real>>, i: nat)
    requires i < |slope|
    ensures var r := MetaOf(false, slope, hv, pv, modulusRed, ac, hc, modulus, hardness);
      r.Some? && r.value["S_mN/um"] == Values(slope) &&
      r.value["segment"].Labels? && |r.value["segment"].labels| == |slope| &&
      DigitsValue(r.value["segment"].labels[i]) == i + 1
  {
    NatToStringRoundTrip(i + 1);
  }

  /** With CSM and at least one stiffness, a complete result set keeps
      exactly the last stiffness and the last valid depth and force,
      under the label "0". */
  lemma CsmKeepsLastPoint(slope: seq<Option<real>>, hv: seq<real>, pv: seq<real>,
                          modulusRed: seq<Option<real>>, ac: seq<Option<real>>, hc: seq<Option<real>>,
                          modulus: seq<Option<real>>, hardness: seq<Option<real>>)
    requires |slope| > 0 && |hv| > 0 && |pv| > 0
    requires |modulusRed| > 0 && |ac| > 0 && |hc| > 0 && |modulus| > 0 && |hardness| > 0
    ensures var r := MetaOf(true, slope, hv, pv, modulusRed, ac, hc, modulus, hardness);
      r.Some? && r.value["S_mN/um"] == Values([slope[|slope| - 1]]) &&
      r.value["hMax_um"] == Values([Some(hv[|hv| - 1])]) && r.value["pMax_mN"] == Values([Some(pv[|pv| - 1])]) &&
      r.value["segment"] == Labels(["0"])
  {
    var r := MetaOf(true, slope, hv, pv, modulusRed, ac, hc, modulus, hardness);
    assert NatToString(0) == "0";
  }

  // ----- The unloading fit with the default tables -----

  /** The unloading fit of a model that holds only the default tables: a
      test without cycles completes with empty results; otherwise the
      first cycle ends the call, with five Nones when its window is empty
      and with the `KeyError` of the missing evaluation point when not. */
  lemma DefaultsNeverFit(k: VendorKey, testMethod: Method, p: seq<real>, h: seq<real>, cs: seq<Cycle>,
                         fit: Fitter, m: Maths)
    requires k in DefaultVendorDependent && testMethod != CSM && |p| == |h|
    ensures var s := UnloadingSettings(DefaultModel + DefaultVendorDependent[k]);
            var r := Stiffness.Evaluate(Newest, testMethod, s.atMax, p, h, cs, s.pMax, s.pMin, fit, m);
            && (cs == [] ==> r == Stiffnesses([], seq(|p|, _ => false), None, None, []))
            && (cs != [] ==> r == if CycleStep(Newest, s.atMax, p, h, cs[0], s.pMax, s.pMin, fit, m) == Abort
                                  then Nones(5) else Raised)
  {
    DefaultsLackEvaluationPoint(k);
    var s := UnloadingSettings(DefaultModel + DefaultVendorDependent[k]);
    MissingEvaluationPointRaises(Newest, testMethod, s.atMax, p, h, cs, s.pMax, s.pMin, fit, m);
  }

  /** With the split package's defaults the unloading stiffness is taken
      at unloadStart, whatever the window. */
  lemma SplitDefaultsEvaluateAtMaximum(p: seq<real>, h: seq<real>, c: Cycle, pMax: Option<real>, pMin: Option<real>,
                                       fit: Fitter, m: Maths)
    requires |p| == |h|
    requires CycleStep(Split, Some(SplitDefaults.evaluateStiffnessAtMax), p, h, c, pMax, pMin, fit, m).Done?
    ensures InRange(c.unloadStart, |p|)
    ensures CycleStep(Split, Some(SplitDefaults.evaluateStiffnessAtMax), p, h, c, pMax, pMin, fit, m).valid
            == Norm(c.unloadStart, |p|)
  {
    EvaluationPoint(Split, Some(SplitDefaults.evaluateStiffnessAtMax), p, h, c, pMax, pMin, fit, m);
  }

  // ----- The surface search of the split package -----

  /** The signals the split package can search for the surface, in the
      order it tries their keys. */
  datatype Criterion = Load | StiffnessCriterion | PhaseAngle | AbsLoadSlope | LoadRate

  function CriterionKey(c: Criterion): string
  {
    match c
    case Load => "load"
    case StiffnessCriterion => "stiffness"
    case PhaseAngle => "phase angle"
    case AbsLoadSlope => "abs(dp/dh)"
    case LoadRate => "dp/dt"
  }

  function Rank(c: Criterion): nat
  {
    match c
    case Load => 0
    case StiffnessCriterion => 1
    case PhaseAngle => 2
    case AbsLoadSlope => 3
    case LoadRate => 4
  }

  /** The first criterion whose key the search dictionary holds. */
  function ChosenCriterion(find: Dict): (r: Option<Criterion>)
    ensures r.None? <==> forall c: Criterion :: CriterionKey(c) !in find
    ensures r.Some? ==> CriterionKey(r.value) in find
    ensures r.Some? ==> forall c: Criterion :: Rank(c) < Rank(r.value) ==> CriterionKey(c) !in find
  {
    if "load" in find then
      assert CriterionKey(Load) in find;
      Some(Load)
    else if "stiffness" in find then
      EarlierKeysAbsent(find, StiffnessCriterion);
      assert CriterionKey(StiffnessCriterion) in find;
      Some(StiffnessCriterion)
    else if "phase angle" in find then
      EarlierKeysAbsent(find, PhaseAngle);
      assert CriterionKey(PhaseAngle) in find;
      Some(PhaseAngle)
    else if "abs(dp/dh)" in find then
      EarlierKeysAbsent(find, AbsLoadSlope);
      assert CriterionKey(AbsLoadSlope) in find;
      Some(AbsLoadSlope)
    else if "dp/dt" in find then
      EarlierKeysAbsent(find, LoadRate);
      assert CriterionKey(LoadRate) in find;
      Some(LoadRate)
    else
      NoCriterionKey(find);
      None
  }

  lemma EarlierKeysAbsent(find: Dict, r: Criterion)
    requires Rank(r) > 0 ==> "load" !in find
    requires Rank(r) > 1 ==> "stiffness" !in find
    requires Rank(r) > 2 ==> "phase angle" !in find
    requires Rank(r) > 3 ==> "abs(dp/dh)" !in find
    ensures forall c: Criterion :: Rank(c) < Rank(r) ==> CriterionKey(c) !in find
  {
    forall c: Criterion | Rank(c) < Rank(r) ensures CriterionKey(c) !in find {
      match c
      case Load =>
      case StiffnessCriterion =>
      case PhaseAngle =>
      case AbsLoadSlope =>
      case LoadRate =>
    }
  }

  lemma NoCriterionKey(find: Dict)
    requires "load" !in find && "stiffness" !in find && "phase angle" !in find
    requires "abs(dp/dh)" !in find && "dp/dt" !in find
    ensures forall c: Criterion :: CriterionKey(c) !in find
  {
    forall c: Criterion ensures CriterionKey(c) !in find {
      match c
      case Load =>
      case StiffnessCriterion =>
      case PhaseAngle =>
      case AbsLoadSlope =>
      case LoadRate =>
    }
  }

  /** numpy's gradient, the NaN interpolation and the three smoothing
      filters; each filter takes its setting from the search dictionary. */
  datatype SurfaceOps = SurfaceOps(
    gradient: (seq<real>, seq<real>) -> seq<Option<real>>,
    interpolate: seq<Option<real>> -> seq<real>,
    median: (seq<real>, Value) -> seq<real>,
    gauss: (seq<real>, Value) -> seq<real>,
    butter: (seq<real>, Value) -> seq<real>)

  function AbsOptions(s: seq<Option<real>>): (r: seq<Option<real>>)
    ensures |r| == |s| && forall k :: 0 <= k < |s| ==> r[k] == (if s[k].Some? then Some(Abs(s[k].value)) else None)
  {
    seq(|s|, k requires 0 <= k < |s| => if s[k].Some? then Some(Abs(s[k].value)) else None)
  }

  /** The signal a criterion compares with its threshold. */
  function CriterionValues(c: Criterion, t: seq<real>, p: seq<real>, h: seq<real>, slope: seq<Option<real>>,
                           phase: seq<Option<real>>, ops: SurfaceOps): seq<Option<real>>
  {
    match c
    case Load => Finite(p)
    case StiffnessCriterion => slope
    case PhaseAngle => phase
    case AbsLoadSlope => AbsOptions(ops.gradient(p, h))
    case LoadRate => ops.gradient(p, t)
  }

  /** The NaN-free signal after the first filter the dictionary names. */
  function Smoothed(find: Dict, v: seq<real>, ops: SurfaceOps): seq<real>
  {
    if "median filter" in find then ops.median(v, find["median filter"])
    else if "gauss filter" in find then ops.gauss(v, find["gauss filter"])
    else if "butterfilter" in find then ops.butter(v, find["butterfilter"])
    else v
  }

  function Crossings(v: seq<real>, threshold: real, below: bool): (r: seq<bool>)
    ensures |r| == |v| && forall k :: 0 <= k < |v| ==> r[k] == (if below then v[k] < threshold else v[k] > threshold)
  {
    seq(|v|, k requires 0 <= k < |v| => if below then v[k] < threshold else v[k] > threshold)
  }

  /** Where the search leaves the depth: unshifted, shifted so that the
      sample `index` is at zero, or an exception (an index outside the
      depths, a threshold that is not a number, no crossing at all). */
  datatype SurfaceOutcome = SurfaceRaised | SurfaceKept | SurfaceAt(index: nat)

  /** The stored surface index of the test, when the configuration has one. */
  function StoredSurface(config: map<string, map<string, int>>, testName: string): Option<int>
  {
    if testName in config && "surfaceIdx" in config[testName] then Some(config[testName]["surfaceIdx"]) else None
  }

  /** The search with criterion c, comparing below or above the threshold. */
  function Search(c: Criterion, below: bool, find: Dict, t: seq<real>, p: seq<real>, h: seq<real>,
                  slope: seq<Option<real>>, phase: seq<Option<real>>, ops: SurfaceOps): (r: SurfaceOutcome)
    requires CriterionKey(c) in find
    ensures r.SurfaceAt? ==> r.index < |h|
  {
    match NumberAt(find, CriterionKey(c))
    case None => SurfaceRaised
    case Some(threshold) =>
      var v := Smoothed(find, ops.interpolate(CriterionValues(c, t, p, h, slope, phase, ops)), ops);
      match FirstCrossing(Crossings(v, threshold, below))
      case None => SurfaceRaised
      case Some(k) => if k < |h| then SurfaceAt(k) else SurfaceRaised
  }

  /** The surface search as written: a stored index wins; otherwise the
      first criterion is searched, and the comparison is "below" whenever
      the dictionary holds a phase-angle key, whichever criterion was
      chosen. */
  function SurfaceAsWritten(config: map<string, map<string, int>>, testName: string, find: Dict,
                            t: seq<real>, p: seq<real>, h: seq<real>, slope: seq<Option<real>>,
                            phase: seq<Option<real>>, ops: SurfaceOps): (r: SurfaceOutcome)
  {
    match StoredSurface(config, testName)
    case Some(i) => if PyIndex(|h|, i).Some? then SurfaceAt(PyIndex(|h|, i).value) else SurfaceRaised
    case None =>
      match ChosenCriterion(find)
      case None => SurfaceKept
      case Some(c) => Search(c, "phase angle" in find, find, t, p, h, slope, phase, ops)
  }

  /** The surface search as intended: only the phase angle, which drops
      on contact, is searched below its threshold. */
  function Surface(config: map<string, map<string, int>>, testName: string, find: Dict,
                   t: seq<real>, p: seq<real>, h: seq<real>, slope: seq<Option<real>>,
                   phase: seq<Option<real>>, ops: SurfaceOps): (r: SurfaceOutcome)
    ensures r.SurfaceAt? ==> r.index < |h|
  {
    match StoredSurface(config, testName)
    case Some(i) => if PyIndex(|h|, i).Some? then SurfaceAt(PyIndex(|h|, i).value) else SurfaceRaised
    case None =>
      match ChosenCriterion(find)
      case None => SurfaceKept
      case Some(c) => Search(c, c == PhaseAngle, find, t, p, h, slope, phase, ops)
  }

  /** Whether the search reaches the signal of criterion c: no index is
      stored and c is the first criterion the dictionary names. */
  predicate SearchesWith(config: map<string, map<string, int>>, testName: string, find: Dict, c: Criterion)
  {
    StoredSurface(config, testName).None? && ChosenCriterion(find) == Some(c)
  }

  /** `v[nans] = filled[nans]`: the NaN entries of a signal take the
      interpolated values and the others stay. For the stiffness and the
      phase angle the search's array is the object's own, so this is
      what the object holds afterwards. */
  function FilledIn(v: seq<Option<real>>, filled: seq<real>): (r: seq<Option<real>>)
    ensures |r| == |v|
    ensures forall k :: 0 <= k < |v| ==> r[k] == (if v[k].None? && k < |filled| then Some(filled[k]) else v[k])
  {
    seq(|v|, k requires 0 <= k < |v| => if v[k].None? && k < |filled| then Some(filled[k]) else v[k])
  }

  /** The law of the NaN interpolation: one value per sample, and every
      finite sample kept. */
  ghost predicate FillsGaps(ops: SurfaceOps)
  {
    forall v: seq<Option<real>> ::
      |ops.interpolate(v)| == |v| && forall k :: 0 <= k < |v| && v[k].Some? ==> ops.interpolate(v)[k] == v[k].value
  }

  /** Written back, the signal is the interpolated one the search
      compares: it has no NaN left. */
  lemma FilledInIsInterpolated(v: seq<Option<real>>, ops: SurfaceOps)
    requires FillsGaps(ops)
    ensures var r := FilledIn(v, ops.interpolate(v));
            forall k :: 0 <= k < |v| ==> r[k] == Some(ops.interpolate(v)[k])
  {
    var filled := ops.interpolate(v);
    assert |filled| == |v|;
    forall k | 0 <= k < |v|
      ensures FilledIn(v, filled)[k] == Some(filled[k])
    {
      if v[k].Some? {
        assert filled[k] == v[k].value;
      }
    }
  }

  /** Without a stored index, the surface found by a criterion is the
      first sample of its smoothed signal beyond the threshold (below it
      for the phase angle), and the searched signal is that of the first
      criterion the dictionary names. */
  lemma SurfaceIsFirstCrossing(config: map<string, map<string, int>>, testName: string, find: Dict,
                               t: seq<real>, p: seq<real>, h: seq<real>, slope: seq<Option<real>>,
                               phase: seq<Option<real>>, ops: SurfaceOps)
    requires StoredSurface(config, testName).None?
    requires Surface(config, testName, find, t, p, h, slope, phase, ops).SurfaceAt?
    ensures var k := Surface(config, testName, find, t, p, h, slope, phase, ops).index;
      exists c: Criterion, threshold: real ::
        && ChosenCriterion(find) == Some(c) && NumberAt(find, CriterionKey(c)) == Some(threshold)
        && var v := Smoothed(find, ops.interpolate(CriterionValues(c, t, p, h, slope, phase, ops)), ops);
        && k < |v| && (if c == PhaseAngle then v[k] < threshold else v[k] > threshold)
        && forall j :: 0 <= j < k ==> (if c == PhaseAngle then v[j] >= threshold else v[j] <= threshold)
  {
    var c := ChosenCriterion(find).value;
    var threshold := NumberAt(find, CriterionKey(c)).value;
    var v := Smoothed(find, ops.interpolate(CriterionValues(c, t, p, h, slope, phase, ops)), ops);
    var crossed := Crossings(v, threshold, c == PhaseAngle);
    var k := FirstCrossing(crossed).value;
    assert forall j :: 0 <= j < k ==> !crossed[j];
  }

  /** A stored index is used as Python indexes: negative values count
      from the end, anything outside the depths raises. */
  lemma StoredSurfaceWins(config: map<string, map<string, int>>, testName: string, find: Dict,
                          t: seq<real>, p: seq<real>, h: seq<real>, slope: seq<Option<real>>,
                          phase: seq<Option<real>>, ops: SurfaceOps)
    requires StoredSurface(config, testName).Some?
    ensures var i := StoredSurface(config, testName).value;
      var r := Surface(config, testName, find, t, p, h, slope, phase, ops);
      (r.SurfaceAt? <==> -|h| <= i < |h|) &&
      (r.SurfaceAt? ==> (r.index == i || r.index == i + |h|)) &&
      r == SurfaceAsWritten(config, testName, find, t, p, h, slope, phase, ops)
  {
  }

  /** The searches with and without the defect agree unless a criterion
      ranked before the phase angle is searched while the dictionary
      also names the phase angle. */
  lemma SurfaceAsWrittenAgrees(config: map<string, map<string, int>>, testName: string, find: Dict,
                               t: seq<real>, p: seq<real>, h: seq<real>, slope: seq<Option<real>>,
                               phase: seq<Option<real>>, ops: SurfaceOps)
    requires "phase angle" !in find || ChosenCriterion(find) == Some(PhaseAngle)
    ensures SurfaceAsWritten(config, testName, find, t, p, h, slope, phase, ops)
         == Surface(config, testName, find, t, p, h, slope, phase, ops)
  {
  }

  function ZeroFilled(v: seq<Option<real>>): (r: seq<real>)
    ensures |r| == |v| && forall k :: 0 <= k < |v| && v[k].Some? ==> r[k] == v[k].value
  {
    seq(|v|, k requires 0 <= k < |v| => if v[k].Some? then v[k].value else 0.0)
  }

  /** Operations for a signal without NaN and without smoothing. */
  const UnfilteredOps := SurfaceOps((y: seq<real>, x: seq<real>) => [], ZeroFilled,
                                    (v: seq<real>, _: Value) => v, (v: seq<real>, _: Value) => v,
                                    (v: seq<real>, _: Value) => v)

  /** A force search for 0.1 mN whose dictionary also names a phase-angle
      threshold: as written the first force BELOW 0.1 mN is taken, the
      first sample, instead of the first force above it. */
  lemma PhaseAngleKeyFlipsLoadSearch()
    ensures var find := map["load" := Num(0.1), "phase angle" := Num(5.0)];
      var p := [0.0, 0.05, 0.2, 0.3];
      var ops := UnfilteredOps;
      && SurfaceAsWritten(map[], "test", find, p, p, p, [], [], ops) == SurfaceAt(0)
      && Surface(map[], "test", find, p, p, p, [], [], ops) == SurfaceAt(2)
  {
    var find := map["load" := Num(0.1), "phase angle" := Num(5.0)];
    var p := [0.0, 0.05, 0.2, 0.3];
    var ops := UnfilteredOps;
    var v := ops.interpolate(Finite(p));
    assert v == p;
    assert Smoothed(find, v, ops) == p;
    var above := Crossings(p, 0.1, false);
    assert above == [false, false, true, true];
    assert FirstCrossing(above) == Some(2);
    var below := Crossings(p, 0.1, true);
    assert below[0];
    assert FirstCrossing(below) == Some(0);
  }

  /** The depths with the frame's share removed: each lowered by the
      frame compliance times its force. */
  function ComplianceRemoved(h: seq<real>, p: seq<real>, compliance: real): (r: seq<real>)
    requires |p| == |h|
    ensures |r| == |h| && forall j :: 0 <= j < |r| ==> r[j] == h[j] - compliance * p[j]
  {
    seq(|h|, j requires 0 <= j < |h| => h[j] - compliance * p[j])
  }

  class Indentation {
    var t: seq<real>
    var p: seq<real>
    var h: seq<real>
    var valid: seq<bool>
    var testMethod: Method
    var vendor: Option<Vendor>
    var fileType: Option<FileType>
    var iLHU: seq<Cycle>
    var iDrift: DriftRange
    var testName: string
    var testList: seq<string>
    var newFileRead: bool
    /** The `successTest` list of the output dictionary, when it has one. */
    var successTest: Option<seq<string>>
    /** The model dictionary; the object may share it with others. */
    var model: ParameterTable
    var modelUserChoice: Dict
    var surface: Dict
    /** Results per evaluated point; `None` stands for numpy's NaN or
        infinity. */
    var slope: seq<Option<real>>
    var k2p: seq<Option<real>>
    var hc: seq<Option<real>>
    var Ac: seq<Option<real>>
    var modulus: seq<Option<real>>
    var modulusRed: seq<Option<real>>
    var hardness: seq<Option<real>>
    /** The phase angle a CSM reader stores; the readers are not part of
        this model, so only the surface search writes it. */
    var phase: seq<Option<real>>
    /** `slope` and `valid` hold Python's `None`, as an unloading fit that
        returned its tuple of Nones leaves them; the two sequences then
        stand for nothing. */
    var fitCleared: bool
    var nuMat: real
    var metaUser: map<string, Meta>

    /** The signals of a test are sampled together. */
    predicate Valid()
      reads this`t, this`p, this`h, this`valid
    {
      |t| == |p| == |h| == |valid|
    }

    /** The attributes every constructor sets before a file is read. */
    predicate Initial()
      reads this
    {
      && testMethod == ISO && newFileRead
      && iLHU == [Cycle(-1, -1, -1, -1)] && iDrift == DriftRange(-1, -1)
      && t == [] && p == [] && h == [] && valid == []
      && slope == [] && k2p == [] && hc == [] && Ac == [] && modulus == [] && modulusRed == [] && hardness == []
      && !fitCleared
      && testList == [] && metaUser == map[]
    }

    // ----- Construction -----

    /** The constructor as evidently intended: the model starts from a copy
        of the default model updated with the user's choices, the surface
        dictionary from the default surface updated with the user's
        entries, the extension chain picks the vendor, and only that
        vendor's defaults fill the model. Reading the signals is left to
        the vendor readers, which are not part of this model. */
    constructor (fileName: string, fileExists: bool, nuMat: real, defaults: ParameterTable, modelUser: Dict,
                 surfaceUser: Dict, successTestUser: Option<seq<string>>, load: Vendor -> bool)
      ensures Initial() && Valid()
      ensures fresh(model) && modelUserChoice == modelUser && surface == DefaultSurface + surfaceUser
      ensures this.nuMat == nuMat && successTest == successTestUser
      ensures vendor == Chosen(Tried(fileName, fileExists), load)
      ensures fileType == if vendor.Some? then Some(FileTypeFor(vendor.value, fileName)) else None
      ensures model.entries == FillChosen(defaults.entries + modelUser, modelUser, Tried(fileName, fileExists), load)
    {
      this.nuMat := nuMat;
      testMethod := ISO;
      var table := new ParameterTable(defaults.entries + modelUser);
      modelUserChoice := modelUser;
      surface := DefaultSurface + surfaceUser;
      successTest := successTestUser;
      newFileRead := true;
      iLHU, iDrift := [Cycle(-1, -1, -1, -1)], DriftRange(-1, -1);
      metaUser := map[];
      testName, testList := "", [];
      t, p, h, valid := [], [], [], [];
      slope, k2p, hc, Ac := [], [], [], [];
      fitCleared := false;
      modulus, modulusRed, hardness := [], [], [];
      var chosen := ChooseVendor(Tried(fileName, fileExists), load);
      vendor := chosen;
      fileType := if chosen.Some? then Some(FileTypeFor(chosen.value, fileName)) else None;
      if chosen.Some? {
        table.FillDefaults(modelUser, VendorDefaults(chosen.value));
      }
      model := table;
    }

    /** The constructor's set-up as written: the object's model is the
        shared default dictionary itself, which the user's choices then
        update for every later object too. */
    constructor AsWritten(nuMat: real, defaults: ParameterTable, modelUser: Dict, surfaceUser: Dict,
                          successTestUser: Option<seq<string>>)
      modifies defaults
      ensures Initial() && Valid()
      ensures model == defaults && defaults.entries == old(defaults.entries) + modelUser
      ensures modelUserChoice == modelUser && surface == DefaultSurface + surfaceUser
      ensures this.nuMat == nuMat && successTest == successTestUser && vendor.None? && fileType.None?
    {
      this.nuMat := nuMat;
      testMethod := ISO;
      model := defaults;
      modelUserChoice := modelUser;
      surface := DefaultSurface + surfaceUser;
      successTest := successTestUser;
      newFileRead := true;
      iLHU, iDrift := [Cycle(-1, -1, -1, -1)], DriftRange(-1, -1);
      metaUser := map[];
      testName, testList := "", [];
      t, p, h, valid := [], [], [], [];
      slope, k2p, hc, Ac := [], [], [], [];
      fitCleared := false;
      modulus, modulusRed, hardness := [], [], [];
      vendor, fileType := None, None;
      defaults.entries := defaults.entries + modelUser;
    }

    /** The extension chain of the constructor as written: every branch
        reached sets the vendor and fills that vendor's defaults before its
        reader is tried, and the HDF5 branch names a vendor the enumeration
        lacks and raises. */
    method ReadFileAsWritten(fileName: string, fileExists: bool, load: Vendor -> bool) returns (reply: Reply)
      modifies this`vendor, this`fileType, model
      ensures !fileExists && fileName != "" ==>
        reply == ReturnedNone && model.entries == old(model.entries) && vendor == old(vendor)
      ensures fileExists || fileName == "" ==>
        match ChainAsWritten(old(model.entries), modelUserChoice, fileName, load)
        case ChainRaised => reply == Threw && model.entries == old(model.entries) && vendor == old(vendor)
        case ChainEnded(entries, chosen) =>
          reply == ReturnedNone && model.entries == entries && vendor == (if chosen.None? then old(vendor) else chosen)
    {
      if !fileExists && fileName != "" {
        return ReturnedNone;
      }
      var r := FillAlongChain(model, modelUserChoice, fileName, load);
      if r.ChainRaised? {
        return Threw;
      }
      if r.chosen.Some? {
        vendor, fileType := r.chosen, Some(FileTypeFor(r.chosen.value, fileName));
      }
      reply := ReturnedNone;
    }

    /** fillVendorDefaults for the object's vendor. */
    method FillVendorDefaults()
      requires vendor.Some?
      modifies model
      ensures model.entries == Filled(old(model.entries), modelUserChoice, VendorDefaults(vendor.value))
    {
      model.FillDefaults(modelUserChoice, VendorDefaults(vendor.value));
    }

    // ----- Iteration over the tests of a file -----

    /** __iter__: the reader restarts at the file's first test and the
        object notes that this test was just read. */
    method Iter(firstTest: string)
      modifies this
      ensures newFileRead && testName == firstTest
      ensures testList == old(testList) && t == old(t) && p == old(p) && h == old(h) && valid == old(valid)
    {
      testName := firstTest;
      newFileRead := true;
    }

    /** __next__ of the newest package; `read` is the outcome of
        nextTest: the next test's name, or `None` for a falsy reply. */
    method Next(read: Option<string>) returns (step: Step)
      modifies this
      ensures (step, newFileRead, testName) == NextStep(|testList| > 0, old(newFileRead), read, old(testName))
      ensures testList == old(testList)
    {
      if |testList| > 0 {
        if newFileRead {
          newFileRead := false;
        } else if read.None? {
          return Stop;
        } else {
          testName := read.value;
        }
      } else {
        return Stop;
      }
      return Yield(testName);
    }

    /** __next__ of the split package: the reply of nextTest is ignored. */
    method NextSplit(read: Option<string>) returns (step: Step)
      modifies this
      ensures (step, newFileRead, testName) == NextStepSplit(|testList| > 0, old(newFileRead), read, old(testName))
      ensures testList == old(testList)
    {
      if |testList| > 0 {
        if newFileRead {
          newFileRead := false;
        } else if read.Some? {
          testName := read.value;
        }
      } else {
        return Stop;
      }
      return Yield(testName);
    }

    /** Stores the cycles and drift window a segmentation found; more
        than one entry makes the test MULTI. */
    method Record(s: Segments)
      modifies this`iLHU, this`iDrift, this`testMethod
      ensures iLHU == s.cycles && iDrift == s.drift
      ensures testMethod == (if |s.cycles| > 1 then MULTI else old(testMethod))
    {
      iLHU := s.cycles;
      if |iLHU| > 1 {
        testMethod := MULTI;
      }
      iDrift := s.drift;
    }

    // ----- Evaluation of the newest package -----

    /** The results `analyse` evaluates from the current stiffness and
        the samples it marks valid. */
    function CurrentResults(area: real -> real, m: Maths): Option<Results>
      requires Valid() && Lawful(m) && HasEvaluationConstants(model.entries)
      reads this`t, this`p, this`h, this`valid, this`slope, this`model, this`nuMat, model
    {
      EvaluateAll(slope, Select(p, valid), Select(h, valid), NumberAt(model.entries, "nonMetal").value,
                  NumberAt(model.entries, "beta").value, TipOf(model.entries), nuMat, area, m)
    }

    /** The metadata `saveToUserMeta` would write from the current results. */
    function PendingMeta(): Option<map<string, Meta>>
      requires Valid()
      reads this`t, this`p, this`h, this`valid, this`testMethod, this`slope
      reads this`modulusRed, this`Ac, this`hc, this`modulus, this`hardness
    {
      MetaOf(testMethod == CSM, slope, Select(h, valid), Select(p, valid), modulusRed, Ac, hc, modulus, hardness)
    }

    /** analyse: every depth is lowered by the frame compliance times the
        force. For CSM the stiffness loses the frame compliance;
        otherwise it comes from the unloading fit with the thresholds of
        the model, each read by the fit where it needs it. The evaluation
        then runs on the valid samples. An exception of the fit, a missing
        key among them, propagates; a tuple of Nones from the fit ends the
        call early. */
    method Analyse(compliance: real, area: real -> real, m: Maths, fit: Fitter) returns (outcome: AnalyseOutcome)
      requires Valid() && Lawful(m) && HasEvaluationConstants(model.entries)
      modifies this`h, this`slope, this`valid, this`fitCleared, this`k2p, this`hc, this`Ac, this`modulus
      modifies this`modulusRed, this`hardness, this`metaUser
      ensures Valid()
      ensures h == ComplianceRemoved(old(h), p, compliance)
      ensures testMethod == CSM ==>
        valid == old(valid) && |slope| == |old(slope)| &&
        (forall j :: 0 <= j < |slope| ==> slope[j] == FrameCorrected(old(slope)[j], compliance)) &&
        Stored(outcome, area, m, old(metaUser))
      ensures testMethod != CSM ==>
        var s := UnloadingSettings(model.entries);
        var r := Stiffness.Evaluate(Newest, testMethod, s.atMax, p, h, iLHU, s.pMax, s.pMin, fit, m);
          (r.Raised? ==> outcome == AnalyseRaised && metaUser == old(metaUser)) &&
          (r.Nones? ==> outcome == Skipped && metaUser == old(metaUser) && fitCleared) &&
          (r.Stiffnesses? ==> slope == r.stiffness && valid == r.validMask && !fitCleared &&
                              Stored(outcome, area, m, old(metaUser)))
    {
      RemoveCompliance(compliance);
      if testMethod != CSM {
        outcome := FitAndStore(area, m, fit);
      } else {
        outcome := StoreResults(area, m);
      }
    }

    /** The part of analyse after the compliance correction for a test
        that is not CSM: the unloading fit with the model's settings, and
        the evaluation when the fit completed. */
    method FitAndStore(area: real -> real, m: Maths, fit: Fitter) returns (outcome: AnalyseOutcome)
      requires Valid() && Lawful(m) && HasEvaluationConstants(model.entries) && testMethod != CSM
      modifies this`slope, this`valid, this`fitCleared, this`k2p, this`hc, this`Ac, this`modulus
      modifies this`modulusRed, this`hardness, this`metaUser
      ensures Valid()
      ensures var s := UnloadingSettings(model.entries);
        var r := Stiffness.Evaluate(Newest, testMethod, s.atMax, p, h, iLHU, s.pMax, s.pMin, fit, m);
          (r.Raised? ==> outcome == AnalyseRaised && metaUser == old(metaUser)) &&
          (r.Nones? ==> outcome == Skipped && metaUser == old(metaUser) && fitCleared) &&
          (r.Stiffnesses? ==> slope == r.stiffness && valid == r.validMask && !fitCleared &&
                              Stored(outcome, area, m, old(metaUser)))
    {
      var settings := UnloadingSettings(model.entries);
      var r := FitStiffness(settings.pMax, settings.pMin, settings.atMax, fit, m);
      if r.Raised? {
        return AnalyseRaised;
      } else if r.Nones? {
        return Skipped;
      }
      outcome := StoreResults(area, m);
    }

    /** The frame compliance taken out of the depths, and for CSM out of
        the stiffness. */
    method RemoveCompliance(compliance: real)
      requires Valid()
      modifies this`h, this`slope
      ensures Valid()
      ensures h == ComplianceRemoved(old(h), p, compliance)
      ensures testMethod == CSM ==>
        |slope| == |old(slope)| && forall j :: 0 <= j < |slope| ==> slope[j] == FrameCorrected(old(slope)[j], compliance)
      ensures testMethod != CSM ==> slope == old(slope)
    {
      h := ComplianceRemoved(h, p, compliance);
      if testMethod == CSM {
        var s0 := slope;
        slope := seq(|s0|, j requires 0 <= j < |s0| => FrameCorrected(s0[j], compliance));
      }
    }

    /** The unloading fit of a test that is not CSM; a completed fit
        replaces the stiffness and the valid samples, a tuple of Nones
        sets both to `None`, and a raise leaves them as they were. */
    method FitStiffness(pMax: Option<real>, pMin: Option<real>, atMax: Option<bool>, fit: Fitter, m: Maths) returns (r: Outcome)
      requires Valid() && testMethod != CSM
      modifies this`slope, this`valid, this`fitCleared
      ensures Valid()
      ensures r == Stiffness.Evaluate(Newest, testMethod, atMax, p, h, iLHU, pMax, pMin, fit, m)
      ensures r.Stiffnesses? ==> slope == r.stiffness && valid == r.validMask && !fitCleared
      ensures r.Nones? ==> fitCleared
      ensures r.Raised? ==> slope == old(slope) && valid == old(valid) && fitCleared == old(fitCleared)
    {
      r := StiffnessFromUnloading(Newest, testMethod, atMax, p, h, iLHU, pMax, pMin, fit, m);
      if r.Stiffnesses? {
        StepsInside(Newest, atMax, p, h, iLHU, pMax, pMin, fit, m);
        slope, valid, fitCleared := r.stiffness, r.validMask, false;
      } else if r.Nones? {
        fitCleared := true;
      }
    }

    /** What a completed evaluation leaves: S²/P and the point results
        from the evaluation, and the user metadata written from them. */
    predicate Evaluates(area: real -> real, m: Maths, metaBefore: map<string, Meta>)
      requires Valid() && Lawful(m) && HasEvaluationConstants(model.entries)
      reads this, model
    {
      var e := CurrentResults(area, m);
      && e.Some? && k2p == e.value.k2p
      && |modulusRed| == |Ac| == |hc| == |modulus| == |hardness| == |e.value.points|
      && (forall i :: 0 <= i < |e.value.points| ==>
            e.value.points[i] == PointResult(modulusRed[i], Ac[i], hc[i], modulus[i], hardness[i]))
      && PendingMeta().Some? && metaUser == metaBefore + PendingMeta().value
    }

    /** How the second half of analyse ends: skipped exactly when the
        stiffness does not broadcast against the valid samples, raised
        by an `IndexError` of saveToUserMeta with the metadata untouched,
        or evaluated. */
    predicate Stored(outcome: AnalyseOutcome, area: real -> real, m: Maths, metaBefore: map<string, Meta>)
      requires Valid() && Lawful(m) && HasEvaluationConstants(model.entries)
      reads this, model
    {
      && (CurrentResults(area, m).None? <==> outcome == Skipped)
      && (outcome == Evaluated ==> Evaluates(area, m, metaBefore))
      && (outcome == AnalyseRaised ==> CurrentResults(area, m).Some? && PendingMeta().None? && metaUser == metaBefore)
    }

    /** The second half of analyse: the evaluation and the metadata. */
    method StoreResults(area: real -> real, m: Maths) returns (outcome: AnalyseOutcome)
      requires Valid() && Lawful(m) && HasEvaluationConstants(model.entries)
      modifies this`k2p, this`hc, this`Ac, this`modulus, this`modulusRed, this`hardness, this`metaUser
      ensures Stored(outcome, area, m, old(metaUser))
    {
      var e := CurrentResults(area, m);
      if e.None? {
        return Skipped;
      }
      k2p := e.value.k2p;
      StorePoints(e.value.points);
      assert CurrentResults(area, m) == e;
      var reply := SaveToUserMeta();
      assert CurrentResults(area, m) == e;
      outcome := if reply == Threw then AnalyseRaised else Evaluated;
    }

    /** Stores each result of the evaluated points in its own attribute. */
    method StorePoints(points: seq<PointResult>)
      modifies this`modulusRed, this`Ac, this`hc, this`modulus, this`hardness
      ensures |modulusRed| == |Ac| == |hc| == |modulus| == |hardness| == |points|
      ensures forall i :: 0 <= i < |points| ==> points[i] == PointResult(modulusRed[i], Ac[i], hc[i], modulus[i], hardness[i])
    {
      modulusRed := seq(|points|, i requires 0 <= i < |points| => points[i].modulusRed);
      Ac := seq(|points|, i requires 0 <= i < |points| => points[i].ac);
      hc := seq(|points|, i requires 0 <= i < |points| => points[i].hc);
      modulus := seq(|points|, i requires 0 <= i < |points| => points[i].modulus);
      hardness := seq(|points|, i requires 0 <= i < |points| => points[i].hardness);
    }

    /** saveToUserMeta: the results are added to the user metadata; an
        `IndexError` leaves it unchanged. */
    method SaveToUserMeta() returns (reply: Reply)
      requires Valid()
      modifies this`metaUser
      ensures if PendingMeta().None? then reply == Threw && metaUser == old(metaUser)
        else reply == ReturnedNone && metaUser == old(metaUser) + PendingMeta().value
    {
      var meta := MetaOf(testMethod == CSM, slope, Select(h, valid), Select(p, valid),
                         modulusRed, Ac, hc, modulus, hardness);
      if meta.None? {
        return Threw;
      }
      metaUser := metaUser + meta.value;
      reply := ReturnedNone;
    }

    /** The surface search at the end of the split package's nextTest,
        with the comparison as evidently intended (`Surface`; the code as
        written is `SurfaceAsWritten`, and `SurfaceAsWrittenAgrees` says
        where the two differ): the depth is shifted to zero at the surface
        and the force is left alone. The stiffness and the phase angle are
        searched through the object's own arrays, so their NaN entries
        take the interpolated values even when the search then raises.
        `success` is what reading the next test gave; it is returned
        unless the search raises. */
    method FindSurface(success: bool, config: map<string, map<string, int>>, find: Dict, ops: SurfaceOps)
      returns (reply: Reply)
      requires Valid()
      modifies this`h, this`slope, this`phase
      ensures Valid()
      ensures match Surface(config, testName, find, t, p, old(h), old(slope), old(phase), ops)
        case SurfaceRaised => reply == Threw && h == old(h)
        case SurfaceKept => reply == Returned(success) && h == old(h)
        case SurfaceAt(k) => reply == Returned(success) && h == ShiftedTo(old(h), k)
      ensures slope == if SearchesWith(config, testName, find, StiffnessCriterion)
                       then FilledIn(old(slope), ops.interpolate(old(slope))) else old(slope)
      ensures phase == if SearchesWith(config, testName, find, PhaseAngle)
                       then FilledIn(old(phase), ops.interpolate(old(phase))) else old(phase)
    {
      var outcome := Surface(config, testName, find, t, p, h, slope, phase, ops);
      if SearchesWith(config, testName, find, StiffnessCriterion) {
        slope := FilledIn(slope, ops.interpolate(slope));
      } else if SearchesWith(config, testName, find, PhaseAngle) {
        phase := FilledIn(phase, ops.interpolate(phase));
      }
      match outcome
      case SurfaceRaised => reply := Threw;
      case SurfaceKept => reply := Returned(success);
      case SurfaceAt(k) =>
        h := ShiftedTo(h, k);
        reply := Returned(success);
    }

    /** The timestamp filter at the start of both segmentations: the
        samples whose time step does not exceed the 80th percentile of
        all steps are kept, in all four signals alike. */
    method FilterTimestamps(o: SignalOps)
      requires Valid() && |t| >= 2
      modifies this`t, this`p, this`h, this`valid
      ensures Valid()
      ensures var keep := TimeKeep(old(t), o.percentile80(Increments(old(t))));
        t == Thin(old(t), keep) && p == Thin(old(p), keep) && h == Thin(old(h), keep) && valid == Thin(old(valid), keep)
    {
      var keep := TimeKeep(t, o.percentile80(Increments(t)));
      t, p, h, valid := Thin(t, keep), Thin(p, keep), Thin(h, keep), Thin(valid, keep);
    }

    // ----- Segmentation of the newest package -----

    /** identifyLoadHoldUnloadCSM: the CSM segmentation with the force
        level `unloadPMax`; a failed histogram empties the cycles and
        returns False, a broken chain is repaired, and success returns
        True. A missing `unloadPMax` raises. */
    method IdentifyLoadHoldUnloadCSM(o: SignalOps) returns (reply: Reply)
      requires Valid()
      modifies this`iLHU, this`iDrift
      ensures Valid()
      ensures NumberAt(model.entries, "unloadPMax").None? ==>
        reply == Threw && iLHU == old(iLHU) && iDrift == old(iDrift)
      ensures NumberAt(model.entries, "unloadPMax").Some? ==>
        CsmRecorded(CsmNewest(p, h, NumberAt(model.entries, "unloadPMax").value, o.driftForce),
                    old(iLHU), old(iDrift), iLHU, iDrift, reply, Returned(false), Returned(true))
      ensures reply == Returned(true) ==>
        |iLHU| == 1 && iLHU[0].Cycle? && iDrift.DriftRange? &&
        (iLHU[0].loadEnd < |p| - 1 ==>
           iLHU[0].loadEnd < iLHU[0].unloadStart < iLHU[0].unloadEnd == iDrift.start < iDrift.end < |p|)
    {
      var level := NumberAt(model.entries, "unloadPMax");
      if level.None? {
        return Threw;
      }
      var r := CsmNewest(p, h, level.value, o.driftForce);
      CsmNewestOrdered(p, h, level.value, o.driftForce);
      match r {
        case CsmRaised =>
          reply := Threw;
        case HistogramFailed =>
          iLHU, iDrift := [], NoDrift;
          reply := Returned(false);
        case Points(s, l, hold, ds, de) =>
          iLHU, iDrift := [Cycle(s, l, hold, ds)], DriftRange(ds, de);
          reply := Returned(true);
      }
    }

    /** identifyLoadHoldUnload: CSM tests are delegated. Otherwise the
        timestamp filter thins all four signals alike, the force-rate
        masks are cleaned, their edges trimmed and paired into bounded,
        ordered cycles; a matched edge count records the test as a
        success, more than one entry makes the test MULTI, and the drift
        window follows the last unloading. */
    method IdentifyLoadHoldUnload(o: SignalOps) returns (reply: Reply)
      requires Valid() && LawfulOps(o)
      modifies this`t, this`p, this`h, this`valid, this`iLHU, this`iDrift, this`testMethod, this`successTest
      ensures Valid()
      ensures old(testMethod) == CSM ==> t == old(t) && p == old(p) && h == old(h) && valid == old(valid)
      ensures old(testMethod) == CSM && NumberAt(model.entries, "unloadPMax").Some? ==>
        CsmRecorded(CsmNewest(p, h, NumberAt(model.entries, "unloadPMax").value, o.driftForce),
                    old(iLHU), old(iDrift), iLHU, iDrift, reply, Returned(false), Returned(true))
      ensures old(testMethod) != CSM && |old(t)| < 2 ==> reply == Threw && t == old(t) && iLHU == old(iLHU)
      ensures old(testMethod) != CSM && |old(t)| >= 2 ==>
        var keep := TimeKeep(old(t), o.percentile80(Increments(old(t))));
        t == Thin(old(t), keep) && p == Thin(old(p), keep) && h == Thin(old(h), keep) && valid == Thin(old(valid), keep)
      ensures old(testMethod) != CSM && |old(t)| >= 2 && NewestStage(t, p, model.entries, o).StageRaised? ==>
        reply == Threw && iLHU == old(iLHU) && iDrift == old(iDrift) && testMethod == old(testMethod) && successTest == old(successTest)
      ensures old(testMethod) != CSM && |old(t)| >= 2 && NewestStage(t, p, model.entries, o).StageDone? ==>
        var s := NewestStage(t, p, model.entries, o).segments;
        if !Recordable(s, old(successTest)) then
          reply == Threw && iLHU == [] && iDrift == old(iDrift) && testMethod == old(testMethod)
        else
          reply == Returned(true) && iLHU == s.cycles && iDrift == s.drift &&
          testMethod == (if |s.cycles| > 1 then MULTI else old(testMethod)) &&
          successTest == (if s.matched then Some(old(successTest).value + [testName]) else old(successTest))
      ensures old(testMethod) != CSM && reply == Returned(true) ==>
        (forall j :: 0 <= j < |iLHU| && iLHU[j].Cycle? ==>
           0 < iLHU[j].loadStart < iLHU[j].loadEnd <= iLHU[j].unloadStart < iLHU[j].unloadEnd < |h|) &&
        (iDrift == DriftRange(-1, -1) || (iDrift.DriftRange? && iDrift.start < iDrift.end == |p| - 1))
    {
      if testMethod == CSM {
        reply := IdentifyLoadHoldUnloadCSM(o);
      } else {
        reply := IdentifyLoadHoldUnloadStaged(o);
      }
    }

    /** identifyLoadHoldUnload of the newest package for a test that is
        not CSM: the timestamps are thinned, then the segmentation runs. */
    method IdentifyLoadHoldUnloadStaged(o: SignalOps) returns (reply: Reply)
      requires Valid() && LawfulOps(o) && testMethod != CSM
      modifies this`t, this`p, this`h, this`valid, this`iLHU, this`iDrift, this`testMethod, this`successTest
      ensures Valid()
      ensures |old(t)| < 2 ==> reply == Threw && t == old(t) && iLHU == old(iLHU)
      ensures |old(t)| >= 2 ==>
        var keep := TimeKeep(old(t), o.percentile80(Increments(old(t))));
        t == Thin(old(t), keep) && p == Thin(old(p), keep) && h == Thin(old(h), keep) && valid == Thin(old(valid), keep)
      ensures |old(t)| >= 2 && NewestStage(t, p, model.entries, o).StageRaised? ==>
        reply == Threw && iLHU == old(iLHU) && iDrift == old(iDrift) && testMethod == old(testMethod) && successTest == old(successTest)
      ensures |old(t)| >= 2 && NewestStage(t, p, model.entries, o).StageDone? ==>
        var s := NewestStage(t, p, model.entries, o).segments;
        if !Recordable(s, old(successTest)) then
          reply == Threw && iLHU == [] && iDrift == old(iDrift) && testMethod == old(testMethod)
        else
          reply == Returned(true) && iLHU == s.cycles && iDrift == s.drift &&
          testMethod == (if |s.cycles| > 1 then MULTI else old(testMethod)) &&
          successTest == (if s.matched then Some(old(successTest).value + [testName]) else old(successTest))
      ensures reply == Returned(true) ==>
        (forall j :: 0 <= j < |iLHU| && iLHU[j].Cycle? ==>
           0 < iLHU[j].loadStart < iLHU[j].loadEnd <= iLHU[j].unloadStart < iLHU[j].unloadEnd < |h|) &&
        (iDrift == DriftRange(-1, -1) || (iDrift.DriftRange? && iDrift.start < iDrift.end == |p| - 1))
    {
      if |t| < 2 {
        return Threw;
      }
      FilterTimestamps(o);
      var r := FindNewestStage(t, p, model.entries, o);
      NewestStageOrdered(t, p, model.entries, o);
      if !r.StageDone? {
        return Threw;
      }
      reply := RecordNewest(r.segments);
    }

    /** The end of the newest segmentation: the cycles are cleared, a
        matched edge count appends the test to `successTest` (a
        `KeyError` without that list), and the segments are stored. */
    method RecordNewest(s: Segments) returns (reply: Reply)
      modifies this`iLHU, this`iDrift, this`testMethod, this`successTest
      ensures if !Recordable(s, old(successTest)) then
          reply == Threw && iLHU == [] && iDrift == old(iDrift) && testMethod == old(testMethod)
        else
          reply == Returned(true) && iLHU == s.cycles && iDrift == s.drift &&
          testMethod == (if |s.cycles| > 1 then MULTI else old(testMethod)) &&
          successTest == (if s.matched then Some(old(successTest).value + [testName]) else old(successTest))
    {
      iLHU := [];
      if s.matched {
        if successTest.None? {
          return Threw;
        }
        successTest := Some(successTest.value + [testName]);
      }
      Record(s);
      reply := Returned(true);
    }

    // ----- Segmentation of the split package -----

    /** identifyLoadHoldUnloadCSM of the split package: the force level is
        the attribute `unloadPMax`, a failed histogram empties the cycles,
        and a broken chain is only reported. The method returns nothing. */
    method IdentifyLoadHoldUnloadCSMSplit(o: SignalOps, unloadPMax: real) returns (reply: Reply)
      requires Valid()
      modifies this`iLHU, this`iDrift
      ensures Valid()
      ensures CsmRecorded(CsmFound(p, h, unloadPMax, o.driftForce, true),
                          old(iLHU), old(iDrift), iLHU, iDrift, reply, ReturnedNone, ReturnedNone)
    {
      match CsmFound(p, h, unloadPMax, o.driftForce, true) {
        case CsmRaised =>
          reply := Threw;
        case HistogramFailed =>
          iLHU, iDrift := [], NoDrift;
          reply := ReturnedNone;
        case Points(s, l, hold, ds, de) =>
          iLHU, iDrift := [Cycle(s, l, hold, ds)], DriftRange(ds, de);
          reply := ReturnedNone;
      }
    }

    /** identifyLoadHoldUnload of the split package: a CSM test is
        delegated and the method returns False. Otherwise the same filter,
        the force smoothed by the median filter exactly when
        `zeroGradFilter` is "median", masks against `±zeroGradDelta`, the
        same trimming, and pairing without the bounds check and without
        recording a success. */
    method IdentifyLoadHoldUnloadSplit(o: SignalOps, zeroGradDelta: real, zeroGradFilter: string, unloadPMax: real)
      returns (reply: Reply)
      requires Valid() && LawfulOps(o)
      modifies this`t, this`p, this`h, this`valid, this`iLHU, this`iDrift, this`testMethod
      ensures Valid()
      ensures old(testMethod) == CSM ==>
        t == old(t) && p == old(p) && h == old(h) &&
        CsmRecorded(CsmFound(p, h, unloadPMax, o.driftForce, true),
                    old(iLHU), old(iDrift), iLHU, iDrift, if reply == Threw then Threw else ReturnedNone,
                    ReturnedNone, ReturnedNone) &&
        reply != ReturnedNone && (reply != Threw ==> reply == Returned(false))
      ensures old(testMethod) != CSM && |old(t)| < 2 ==> reply == Threw && t == old(t) && iLHU == old(iLHU)
      ensures old(testMethod) != CSM && |old(t)| >= 2 ==>
        var keep := TimeKeep(old(t), o.percentile80(Increments(old(t))));
        t == Thin(old(t), keep) && p == Thin(old(p), keep) && h == Thin(old(h), keep) && valid == Thin(old(valid), keep)
      ensures old(testMethod) != CSM && |old(t)| >= 2 ==>
        var r := SplitStage(t, p, zeroGradDelta, zeroGradFilter == "median", o);
        (r.StageRaised? ==> reply == Threw && iLHU == old(iLHU) && iDrift == old(iDrift) && testMethod == old(testMethod)) &&
        (r.StageDone? ==>
           reply == Returned(true) && iLHU == r.segments.cycles && iDrift == r.segments.drift &&
           testMethod == (if |iLHU| > 1 then MULTI else old(testMethod)))
    {
      if testMethod == CSM {
        reply := IdentifyLoadHoldUnloadCSMSplit(o, unloadPMax);
        if reply != Threw {
          reply := Returned(false);
        }
        return;
      }
      if |t| < 2 {
        return Threw;
      }
      FilterTimestamps(o);
      var r := FindSplitStage(t, p, zeroGradDelta, zeroGradFilter == "median", o);
      if !r.StageDone? {
        return Threw;
      }
      Record(r.segments);
      reply := Returned(true);
    }

    // ----- Segmentation of the monolithic versions -----

    /** identifyLoadHoldUnloadCSM of the monolithic versions: the force
        level is fixed at 0.999, a histogram failure is not caught and a
        broken chain is only reported. */
    method IdentifyLoadHoldUnloadCSMMonolith(o: SignalOps) returns (reply: Reply)
      requires Valid()
      modifies this`iLHU, this`iDrift
      ensures Valid()
      ensures CsmRecorded(CsmFound(p, h, 0.999, o.driftForce, false),
                          old(iLHU), old(iDrift), iLHU, iDrift, reply, ReturnedNone, ReturnedNone)
    {
      match CsmFound(p, h, 0.999, o.driftForce, false) {
        case CsmRaised =>
          reply := Threw;
        case Points(s, l, hold, ds, de) =>
          iLHU, iDrift := [Cycle(s, l, hold, ds)], DriftRange(ds, de);
          reply := ReturnedNone;
      }
    }

    /** identifyLoadHoldUnload of the monolith (`g == Monolith`) and of the
        documented version (`g == Documentation`): histogram masks on the
        unfiltered force increments, three trimming loops, every quadruple
        stored, the CSM segmentation as fallback, and the drift window
        after the last stored round. */
    method IdentifyLoadHoldUnloadMonolith(g: Generation, o: SignalOps) returns (reply: Reply)
      requires g == Monolith || g == Documentation
      requires Valid() && LawfulOps(o) && vendor.Some?
      modifies this`iLHU, this`iDrift, this`testMethod
      ensures Valid()
      ensures old(testMethod) == CSM ==>
        CsmRecorded(CsmFound(p, h, 0.999, o.driftForce, false),
                    old(iLHU), old(iDrift), iLHU, iDrift, reply, ReturnedNone, ReturnedNone)
      ensures old(testMethod) != CSM ==>
        var r := HistogramStage(g, p, old(vendor).value, old(testMethod), o);
        (r.StageRaised? ==>
           var stored := HistogramCycles(g, p, old(vendor).value, old(testMethod), o);
           reply == Threw && iLHU == (if stored.Some? then stored.value else old(iLHU)) &&
           iDrift == old(iDrift) && testMethod == old(testMethod)) &&
        (r.StageFallback? ==>
           CsmRecorded(CsmFound(p, h, 0.999, o.driftForce, false),
                       old(iLHU), old(iDrift), iLHU, iDrift, reply, ReturnedNone, ReturnedNone)) &&
        (r.StageDone? ==>
           reply == Returned(true) && iLHU == r.segments.cycles && iDrift == r.segments.drift &&
           testMethod == (if |iLHU| > 1 then MULTI else old(testMethod)))
    {
      if testMethod == CSM {
        reply := IdentifyLoadHoldUnloadCSMMonolith(o);
      } else {
        reply := IdentifyLoadHoldUnloadHistogram(g, o);
      }
    }

    /** identifyLoadHoldUnload of the monolithic and documentation
        packages for a test that is not CSM: the histogram segmentation,
        falling back to the CSM search when it fails. A raise after the
        cycle list was reset leaves the rounds stored so far in `iLHU`. */
    method IdentifyLoadHoldUnloadHistogram(g: Generation, o: SignalOps) returns (reply: Reply)
      requires g == Monolith || g == Documentation
      requires Valid() && LawfulOps(o) && vendor.Some? && testMethod != CSM
      modifies this`iLHU, this`iDrift, this`testMethod
      ensures Valid()
      ensures var r := HistogramStage(g, p, old(vendor).value, old(testMethod), o);
        (r.StageRaised? ==>
           var stored := HistogramCycles(g, p, old(vendor).value, old(testMethod), o);
           reply == Threw && iLHU == (if stored.Some? then stored.value else old(iLHU)) &&
           iDrift == old(iDrift) && testMethod == old(testMethod)) &&
        (r.StageFallback? ==>
           CsmRecorded(CsmFound(p, h, 0.999, o.driftForce, false),
                       old(iLHU), old(iDrift), iLHU, iDrift, reply, ReturnedNone, ReturnedNone)) &&
        (r.StageDone? ==>
           reply == Returned(true) && iLHU == r.segments.cycles && iDrift == r.segments.drift &&
           testMethod == (if |iLHU| > 1 then MULTI else old(testMethod)))
    {
      var r := FindHistogramStage(g, p, vendor.value, testMethod, o);
      match r {
        case StageRaised =>
          var stored := HistogramCycles(g, p, vendor.value, testMethod, o);
          if stored.Some? {
            iLHU := stored.value;
          }
          return Threw;
        case StageFallback =>
          reply := IdentifyLoadHoldUnloadCSMMonolith(o);
        case StageDone(segments) =>
          Record(segments);
          reply := Returned(true);
      }
    }
  }

  /** Two objects built as written from the same default dictionary: the
      first user's beta of 0.5 reaches the second object, whose user
      chose nothing. */
  method SharedDefaultsLeak() returns (beta: Option<real>)
    ensures beta == Some(0.5)
  {
    var defaults := new ParameterTable(DefaultModel);
    var first := new Indentation.AsWritten(0.3, defaults, map["beta" := Num(0.5)], map[], None);
    var second := new Indentation.AsWritten(0.3, defaults, map[], map[], None);
    beta := NumberAt(second.model.entries, "beta");
  }

  /** The same two objects built with a model of their own: the second
      keeps the default beta of 0.75. */
  method IndependentDefaults() returns (beta: Option<real>)
    ensures beta == Some(0.75)
  {
    var defaults := new ParameterTable(DefaultModel);
    var first := new Indentation("missing.xls", false, 0.3, defaults, map["beta" := Num(0.5)], map[], None, _ => true);
    var second := new Indentation("missing.xls", false, 0.3, defaults, map[], map[], None, _ => true);
    DefaultModelValues();
    beta := NumberAt(second.model.entries, "beta");
  }
}
