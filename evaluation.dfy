/** The element-wise evaluation `analyse` runs after the segmentation:
    removing the frame compliance, the stiffness-squared-over-force ratio,
    and per evaluated point the Oliver-Pharr contact, Young's modulus and
    hardness. Arrays combine as numpy broadcasts one-dimensional arrays;
    a NaN or infinite entry is `None`. */
module Evaluation {
  import opened Numerics
  import opened Definitions
  import opened Theory

  /** The length numpy gives two one-dimensional arrays combined element
      by element: equal lengths, or one array of length 1 stretched to
      the other's length; `None` is the `ValueError` for any other pair. */
  function Broadcast(n: nat, k: nat): (r: Option<nat>)
    ensures r.Some? <==> n == k || n == 1 || k == 1
    ensures r.Some? && n != 1 ==> r.value == n
    ensures r.Some? && k != 1 ==> r.value == k
  {
    if n == k then Some(n) else if n == 1 then Some(k) else if k == 1 then Some(n) else None
  }

  /** Entry i of an array as broadcasting reads it: a one-entry array
      repeats its entry. */
  function Stretch<T>(s: seq<T>, i: nat): T
    requires i < |s| || |s| == 1
  {
    if |s| == 1 then s[0] else s[i]
  }

  /** A stiffness with the frame compliance c taken out:
      1/(1/S - c). A NaN stays NaN, S = 0 gives 1/inf = 0, and a zero
      denominator gives an infinity. */
  function FrameCorrected(s: Option<real>, c: real): (r: Option<real>)
    ensures s.None? ==> r.None?
    ensures s == Some(0.0) ==> r == Some(0.0)
    ensures s.Some? && s.value != 0.0 ==> (r.Some? <==> 1.0 / s.value != c)
    ensures r.Some? && r.value != 0.0 ==> s.Some? && s.value != 0.0 && 1.0 / r.value == 1.0 / s.value - c
  {
    match s
    case None => None
    case Some(x) =>
      if x == 0.0 then Some(0.0)
      else if 1.0 / x == c then None
      else
        var d := 1.0 / x - c;
        assert 1.0 / (1.0 / d) == d;
        Some(1.0 / d)
  }

  /** Removing a compliance and adding it back returns the stiffness. */
  lemma FrameCorrectionRoundTrip(s: Option<real>, c: real)
    requires FrameCorrected(s, c).Some? && FrameCorrected(s, c).value != 0.0
    ensures FrameCorrected(FrameCorrected(s, c), -c) == s
  {
    var r := FrameCorrected(s, c).value;
    var x := s.value;
    assert 1.0 / r + c == 1.0 / x;
    assert 1.0 / (1.0 / x) == x;
  }

  /** S²/P for one evaluated point; a zero force gives an infinity or NaN. */
  function StiffnessSquaredOverForce(s: Option<real>, p: real): (r: Option<real>)
    ensures r.Some? <==> s.Some? && p != 0.0
    ensures r.Some? ==> r.value * p == s.value * s.value
    ensures r.Some? && p > 0.0 ==> r.value >= 0.0
  {
    if s.None? || p == 0.0 then None else Some(s.value * s.value / p)
  }

  /** The results at one evaluated point. */
  datatype PointResult = PointResult(modulusRed: Option<real>, ac: Option<real>, hc: Option<real>,
                                     modulus: Option<real>, hardness: Option<real>)

  const NotANumber := PointResult(None, None, None, None, None)

  /** The contact area at a contact depth of -inf: the tip's area
      function floors every depth below 1 pm, so it is its area at
      depth 0, raised to the area floor as the Oliver-Pharr method does. */
  function AreaAtFloor(area: real -> real): (ac: real)
    ensures AreaFloor <= ac
    ensures area(0.0) >= AreaFloor ==> ac == area(0.0)
  {
    if area(0.0) < AreaFloor then AreaFloor else area(0.0)
  }

  /** The results at a zero stiffness whose nonMetal·β·P over 0 is +inf:
      the contact depth is -inf, the area the floored one, both moduli 0
      and the hardness finite. */
  function ZeroStiffnessPoint(pMax: real, area: real -> real): (r: PointResult)
    ensures r.hc.None? && r.modulusRed == Some(0.0) && r.modulus == Some(0.0)
    ensures r.ac == Some(AreaAtFloor(area))
    ensures r.hardness.Some? && r.hardness.value * r.ac.value == pMax
  {
    var ac := AreaAtFloor(area);
    assert pMax / ac * ac == pMax;
    PointResult(Some(0.0), Some(ac), None, Some(0.0), Some(pMax / ac))
  }

  /** Oliver-Pharr, Young's modulus (with the material's own Poisson
      ratio) and hardness P/Ac at one point. A NaN stiffness makes every
      result NaN. A zero stiffness is divided by as numpy does with its
      errors ignored: a positive nonMetal·β·P over 0 puts the contact
      depth at -inf, so the area is the floored one, the reduced modulus
      is 0/Ac = 0, Young's modulus (1-ν²)/(1/0 - tip term) = 0, and the
      hardness P/Ac is finite; nonMetal·β·P = 0 gives 0/0, NaN everywhere. */
  function EvaluatePoint(s: Option<real>, pMax: real, h: real, nonMetal: real, beta: real,
                         tip: TipElastic, nuMat: real, area: real -> real, m: Maths): (r: PointResult)
    requires Lawful(m) && ValidTip(tip)
    ensures s.None? ==> r == NotANumber
    ensures s == Some(0.0) && nonMetal * beta * pMax <= 0.0 ==> r == NotANumber
    ensures s == Some(0.0) && nonMetal * beta * pMax > 0.0 ==> r == ZeroStiffnessPoint(pMax, area)
    ensures s.Some? && s.value != 0.0 ==>
      && r.modulusRed.Some? && r.ac.Some? && r.hc.Some? && r.hardness.Some?
      && r.hc.value == h - nonMetal * beta * pMax / s.value
      && AreaFloor <= r.ac.value
      && r.hardness.value * r.ac.value == pMax
      && 2.0 * m.sqrt(r.ac.value) * r.modulusRed.value == s.value * m.sqrt(m.pi)
      && r.modulus == YoungsModulus(tip, nuMat, r.modulusRed.value, -1.0)
  {
    if s.None? then NotANumber
    else if s.value == 0.0 then
      if nonMetal * beta * pMax <= 0.0 then NotANumber else ZeroStiffnessPoint(pMax, area)
    else
      var c := OliverPharr(s.value, pMax, h, nonMetal, beta, area, m);
      PointResult(Some(c.modulusRed), Some(c.ac), Some(c.hc),
                  YoungsModulus(tip, nuMat, c.modulusRed, -1.0), Some(pMax / c.ac))
  }

  /** Where Young's modulus is finite and not zero, converting it back
      gives the reduced modulus the Oliver-Pharr method produced; a zero
      Young's modulus comes only from a zero stiffness, with a zero
      reduced modulus. */
  lemma ModulusConvertsBack(s: Option<real>, pMax: real, h: real, nonMetal: real, beta: real,
                            tip: TipElastic, nuMat: real, area: real -> real, m: Maths)
    requires Lawful(m) && ValidTip(tip) && nuMat != 1.0 && nuMat != -1.0
    requires EvaluatePoint(s, pMax, h, nonMetal, beta, tip, nuMat, area, m).modulus.Some?
    ensures var r := EvaluatePoint(s, pMax, h, nonMetal, beta, tip, nuMat, area, m);
      r.modulus.value != 0.0 ==> ReducedModulus(tip, nuMat, r.modulus.value, -1.0) == r.modulusRed
    ensures var r := EvaluatePoint(s, pMax, h, nonMetal, beta, tip, nuMat, area, m);
      r.modulus.value == 0.0 <==> s == Some(0.0)
    ensures var r := EvaluatePoint(s, pMax, h, nonMetal, beta, tip, nuMat, area, m);
      r.modulus.value == 0.0 ==> r.modulusRed == Some(0.0)
  {
    var r := EvaluatePoint(s, pMax, h, nonMetal, beta, tip, nuMat, area, m);
    if s != Some(0.0) {
      SquareNotOne(nuMat);
      ReducedUndoesYoungs(tip, nuMat, r.modulusRed.value, -1.0);
    }
  }

  /** The ratio and the point results over the broadcast of the stiffness
      list with the forces and depths at the valid samples. */
  datatype Results = Results(k2p: seq<Option<real>>, points: seq<PointResult>)

  function EvaluateAll(slope: seq<Option<real>>, pv: seq<real>, hv: seq<real>, nonMetal: real, beta: real,
                       tip: TipElastic, nuMat: real, area: real -> real, m: Maths): (r: Option<Results>)
    requires |pv| == |hv|
    requires Lawful(m) && ValidTip(tip)
    ensures r.Some? <==> Broadcast(|slope|, |pv|).Some?
    ensures r.Some? ==>
      var n := Broadcast(|slope|, |pv|).value;
      |r.value.k2p| == n && |r.value.points| == n &&
      forall i :: 0 <= i < n ==>
        r.value.k2p[i] == StiffnessSquaredOverForce(Stretch(slope, i), Stretch(pv, i)) &&
        r.value.points[i] == EvaluatePoint(Stretch(slope, i), Stretch(pv, i), Stretch(hv, i),
                                           nonMetal, beta, tip, nuMat, area, m)
  {
    match Broadcast(|slope|, |pv|)
    case None => None
    case Some(n) =>
      Some(Results(
        seq(n, i requires 0 <= i < n => StiffnessSquaredOverForce(Stretch(slope, i), Stretch(pv, i))),
        seq(n, i requires 0 <= i < n =>
          EvaluatePoint(Stretch(slope, i), Stretch(pv, i), Stretch(hv, i), nonMetal, beta, tip, nuMat, area, m))))
  }

  /** The hardness at every evaluated point times its contact area is
      the force there, and every contact area is above the floor. */
  lemma HardnessIsForcePerArea(slope: seq<Option<real>>, pv: seq<real>, hv: seq<real>, nonMetal: real, beta: real,
                               tip: TipElastic, nuMat: real, area: real -> real, m: Maths, i: nat)
    requires |pv| == |hv| && |slope| == |pv|
    requires Lawful(m) && ValidTip(tip)
    requires i < |pv| && slope[i].Some? && slope[i].value != 0.0
    ensures var r := EvaluateAll(slope, pv, hv, nonMetal, beta, tip, nuMat, area, m);
      r.Some? && r.value.points[i].hardness.Some? && r.value.points[i].ac.Some? &&
      r.value.points[i].hardness.value * r.value.points[i].ac.value == pv[i] &&
      AreaFloor <= r.value.points[i].ac.value
  {
    assert Stretch(slope, i) == slope[i] && Stretch(pv, i) == pv[i] && Stretch(hv, i) == hv[i];
    var e := EvaluatePoint(slope[i], pv[i], hv[i], nonMetal, beta, tip, nuMat, area, m);
    assert e.hardness.value * e.ac.value == pv[i];
  }

  /** A single stiffness against several valid samples is evaluated at
      each of them. */
  lemma SingleStiffnessStretches(s: Option<real>, pv: seq<real>, hv: seq<real>, nonMetal: real, beta: real,
                                 tip: TipElastic, nuMat: real, area: real -> real, m: Maths)
    requires |pv| == |hv|
    requires Lawful(m) && ValidTip(tip)
    ensures var r := EvaluateAll([s], pv, hv, nonMetal, beta, tip, nuMat, area, m);
      r.Some? && |r.value.points| == |pv| &&
      forall i :: 0 <= i < |pv| ==>
        r.value.points[i] == EvaluatePoint(s, pv[i], hv[i], nonMetal, beta, tip, nuMat, area, m)
  {
  }

  /** Python truthiness of a dictionary value. */
  predicate Truthy(v: Value)
  {
    match v
    case Num(r) => r != 0.0
    case Flag(b) => b
    case Text(s) => s != ""
    case Indices(m) => m != map[]
  }

  /** The model entries `analyse` reads: the tip constants, beta and the
      metal factor. */
  predicate HasEvaluationConstants(model: Dict)
  {
    && NumberAt(model, "nuTip").Some? && NumberAt(model, "modulusTip").Some?
    && NumberAt(model, "beta").Some? && NumberAt(model, "nonMetal").Some?
    && ValidTip(TipElastic(NumberAt(model, "nuTip").value, NumberAt(model, "modulusTip").value))
  }

  function TipOf(model: Dict): (t: TipElastic)
    requires HasEvaluationConstants(model)
    ensures ValidTip(t)
  {
    TipElastic(NumberAt(model, "nuTip").value, NumberAt(model, "modulusTip").value)
  }

  /** The default model satisfies what `analyse` needs. */
  lemma DefaultModelEvaluates()
    ensures HasEvaluationConstants(DefaultModel)
    ensures TipOf(DefaultModel) == TipElastic(0.07, 1140.0)
  {
    DefaultModelValues();
  }

  /** The settings of the unloading fit as the model holds them: the two
      force levels and the evaluation point, each absent where its key is
      missing. The fit reads each one only where it needs it, and a
      missing key raises `KeyError` there. */
  datatype UnloadSettings = UnloadSettings(pMax: Option<real>, pMin: Option<real>, atMax: Option<bool>)

  function UnloadingSettings(model: Dict): (r: UnloadSettings)
    ensures r.pMax.Some? <==> "unloadPMax" in model && model["unloadPMax"].Num?
    ensures r.pMax.Some? ==> model["unloadPMax"] == Num(r.pMax.value)
    ensures r.pMin.Some? <==> "unloadPMin" in model && model["unloadPMin"].Num?
    ensures r.pMin.Some? ==> model["unloadPMin"] == Num(r.pMin.value)
    ensures r.atMax.Some? <==> "evaluateSAtMax" in model
    ensures r.atMax.Some? ==> r.atMax.value == Truthy(model["evaluateSAtMax"])
  {
    UnloadSettings(NumberAt(model, "unloadPMax"), NumberAt(model, "unloadPMin"),
                   if "evaluateSAtMax" in model then Some(Truthy(model["evaluateSAtMax"])) else None)
  }

  /** A model built only from the defaults and a vendor table holds an
      ordered force window but no evaluation point: no default table names
      `evaluateSAtMax`. */
  lemma DefaultsLackEvaluationPoint(k: VendorKey)
    requires k in DefaultVendorDependent
    ensures var s := UnloadingSettings(DefaultModel + DefaultVendorDependent[k]);
            && s.atMax.None? && s.pMax.Some? && s.pMin.Some?
            && 0.0 < s.pMin.value < s.pMax.value < 1.0
  {
    SegmentationKeysNotDefaulted(k);
    VendorWindowsOrdered(k);
    var merged := DefaultModel + DefaultVendorDependent[k];
    assert merged["unloadPMax"] == DefaultVendorDependent[k]["unloadPMax"];
    assert merged["unloadPMin"] == DefaultVendorDependent[k]["unloadPMin"];
  }
}
