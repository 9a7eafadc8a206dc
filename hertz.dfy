/** The Hertzian start of an indentation and the pop-in search: the
    force law 4/3·E·√(R·(h-h0)³) of a sphere on a flat, its fit to the
    forces below the peak, and the search for the largest jump in the
    depth increments. The curve fits (scipy `curve_fit`, numpy
    `polyfit`) are supplied by the caller. */
module Hertz {
  import opened Numerics
  import I = Indentation

  /** The depth past the offset, with the shallower depths set to zero. */
  function Penetration(x: real, h0: real): (d: real)
    ensures 0.0 <= d && (x - h0 >= 0.0 ==> d == x - h0)
  {
    if x - h0 < 0.0 then 0.0 else x - h0
  }

  /** The Hertz force at depth x for modulus e and tip radius r. */
  function HertzForce(x: real, h0: real, e: real, r: real, m: Maths): real
  {
    ForceAt(Penetration(x, h0), e, r, m)
  }

  /** The Hertz force at penetration d. */
  function ForceAt(d: real, e: real, r: real, m: Maths): real
  {
    4.0 / 3.0 * e * m.sqrt(r * Cube(d))
  }

  function Cube(d: real): real
  {
    d * d * d
  }

  /** The depths are offset and clamped in the caller's own array, and
      the forces are computed from the clamped depths. */
  method HertzEquation(h: array<real>, h0: real, e: real, r: real, m: Maths) returns (p: seq<real>)
    modifies h
    ensures |p| == h.Length
    ensures forall i :: 0 <= i < h.Length ==> h[i] == Penetration(old(h[i]), h0)
    ensures forall i :: 0 <= i < h.Length ==> p[i] == HertzForce(old(h[i]), h0, e, r, m)
  {
    for i := 0 to h.Length
      invariant forall j :: 0 <= j < i ==> h[j] == Penetration(old(h[j]), h0)
      invariant forall j :: i <= j < h.Length ==> h[j] == old(h[j])
    {
      h[i] := h[i] - h0;
      if h[i] < 0.0 {
        h[i] := 0.0;
      }
    }
    p := [];
    for i := 0 to h.Length
      invariant |p| == i
      invariant forall j :: 0 <= j < h.Length ==> h[j] == Penetration(old(h[j]), h0)
      invariant forall j :: 0 <= j < i ==> p[j] == HertzForce(old(h[j]), h0, e, r, m)
    {
      p := p + [ForceAt(h[i], e, r, m)];
    }
  }

  /** The square root of zero is zero. */
  lemma SqrtZero(sqrt: real -> real)
    requires SqrtLaw(sqrt)
    ensures sqrt(0.0) == 0.0
  {
    var s := sqrt(0.0);
    assert 0.0 <= s && s * s == 0.0;
    if s != 0.0 {
      calc {
        0.0;
      < { PositiveProduct(s, s); }
        s * s;
      ==
        0.0;
      }
    }
  }

  /** The square root is strictly increasing. */
  lemma SqrtMonotone(sqrt: real -> real, a: real, b: real)
    requires SqrtLaw(sqrt)
    requires 0.0 <= a < b
    ensures sqrt(a) < sqrt(b)
  {
    var x, y := sqrt(a), sqrt(b);
    assert x * x == a && y * y == b;
    if y < x {
      SquareMonotone(y, x);
    }
  }

  /** Cubing is strictly increasing on the non-negative reals. */
  lemma CubeMonotone(a: real, b: real)
    requires 0.0 <= a < b
    ensures a * a * a < b * b * b
  {
    SquareMonotone(a, b);
    assert a * a * a <= a * a * b by {
      assert 0.0 <= a * a;
    }
    assert a * a * b < b * b * b by {
      PositiveProduct(b * b - a * a, b);
    }
  }

  /** No force at or above the surface offset. */
  lemma HertzForceVanishes(x: real, h0: real, e: real, r: real, m: Maths)
    requires Lawful(m) && x <= h0
    ensures HertzForce(x, h0, e, r, m) == 0.0
  {
    assert Penetration(x, h0) == 0.0;
    SqrtZero(m.sqrt);
  }

  /** For a positive modulus and radius the force grows strictly with the
      depth past the offset. */
  lemma HertzForceIncreasing(x: real, y: real, h0: real, e: real, r: real, m: Maths)
    requires Lawful(m) && 0.0 < e && 0.0 < r
    requires h0 <= x < y
    ensures HertzForce(x, h0, e, r, m) < HertzForce(y, h0, e, r, m)
  {
    var a, b := Penetration(x, h0), Penetration(y, h0);
    CubeMonotone(a, b);
    var ca, cb := a * a * a, b * b * b;
    assert 0.0 <= ca by {
      assert 0.0 <= a * a;
    }
    assert r * ca < r * cb by {
      PositiveProduct(r, cb - ca);
    }
    assert 0.0 <= r * ca;
    SqrtMonotone(m.sqrt, r * ca, r * cb);
    var k := 4.0 / 3.0 * e;
    PositiveProduct(k, m.sqrt(r * cb) - m.sqrt(r * ca));
  }

  /** The force law read backwards: (3F/(4E))² = R·d³. */
  lemma HertzForceSquared(x: real, h0: real, e: real, r: real, m: Maths)
    requires Lawful(m) && e != 0.0 && 0.0 <= r
    ensures var d := Penetration(x, h0);
      var q := 3.0 * HertzForce(x, h0, e, r, m) / (4.0 * e);
      q * q == r * (d * d * d)
  {
    var d := Penetration(x, h0);
    var c := Cube(d);
    assert 0.0 <= c by {
      assert 0.0 <= d * d;
    }
    assert 0.0 <= r * c;
    var s := m.sqrt(r * c);
    assert HertzForce(x, h0, e, r, m) == 4.0 / 3.0 * e * s;
    ForceRecovered(e, s);
    assert s * s == r * c;
  }

  /** Undoing the factor 4/3·e. */
  lemma ForceRecovered(e: real, s: real)
    requires e != 0.0
    ensures 3.0 * (4.0 / 3.0 * e * s) / (4.0 * e) == s
  {
    assert 3.0 * (4.0 / 3.0 * e * s) == (4.0 * e) * s;
  }

  // ----- hertzFit -----

  /** The samples the Hertz fit uses: force strictly inside the range and
      before the index of the peak force. */
  function FitMask(p: seq<real>, lo: real, hi: real): (mask: seq<bool>)
    requires |p| > 0
    ensures |mask| == |p|
  {
    seq(|p|, i requires 0 <= i < |p| => lo < p[i] < hi && i < ArgMax(p))
  }

  /** Every fitted sample lies strictly inside the force range and below
      the peak force. */
  lemma FittedBelowPeak(p: seq<real>, lo: real, hi: real, i: nat)
    requires |p| > 0 && i < |p| && FitMask(p, lo, hi)[i]
    ensures lo < p[i] < hi && p[i] < Max(p)
  {
  }

  /** `curve_fit` with bounds: the fitted (h0, E) from the start (0, 5000)
      within [lower, upper], or `None` where the fit does not converge. */
  type HertzFitter = (seq<real>, seq<real>, (real, real), (real, real)) -> Option<(real, real)>

  /** What the fit is relied on for: a result inside its bounds. */
  ghost predicate HertzFitterLaw(fit: HertzFitter)
  {
    forall hs: seq<real>, ps: seq<real>, lower: (real, real), upper: (real, real) ::
      fit(hs, ps, lower, upper).Some? ==>
        && lower.0 <= fit(hs, ps, lower, upper).value.0 <= upper.0
        && lower.1 <= fit(hs, ps, lower, upper).value.1 <= upper.1
  }

  datatype HertzFailure =
    | EmptyTrace          // argmax of an empty force signal
    | NoSampleInRange     // min of the empty depth selection
    | InvertedBounds      // curve_fit demands lower < upper: the smallest depth is not positive
    | NoConvergence       // curve_fit raises RuntimeError

  datatype HertzFit =
    | HertzRaised(why: HertzFailure)
    | HertzFitted(h0: real, modulus: real, minDepth: real, maxDepth: real)

  /** The Hertz fit: the depth range of the fitted samples and the
      bounded fit, h0 within ±(smallest fitted depth) and the prefactor
      within [0, 50000]. */
  function HertzFitOf(h: seq<real>, p: seq<real>, lo: real, hi: real, fit: HertzFitter): (r: HertzFit)
    requires |h| == |p| && HertzFitterLaw(fit)
    ensures r == HertzRaised(EmptyTrace) <==> |p| == 0
    ensures r.HertzFitted? ==>
      && |p| > 0 && 0.0 < r.minDepth <= r.maxDepth
      && -r.minDepth <= r.h0 <= r.minDepth && 0.0 <= r.modulus <= 50000.0
      && Count(FitMask(p, lo, hi)) > 0
      && r.minDepth == Min(Select(h, FitMask(p, lo, hi)))
      && r.maxDepth == Max(Select(h, FitMask(p, lo, hi)))
  {
    if |p| == 0 then HertzRaised(EmptyTrace)
    else
      var mask := FitMask(p, lo, hi);
      if Count(mask) == 0 then HertzRaised(NoSampleInRange)
      else
        var hs, ps := Select(h, mask), Select(p, mask);
        var d0, d1 := Min(hs), Max(hs);
        if !(-d0 < d0) then HertzRaised(InvertedBounds)
        else
          match fit(hs, ps, (-d0, 0.0), (d0, 50000.0))
          case None => HertzRaised(NoConvergence)
          case Some((h0, e)) => HertzFitted(h0, e, d0, d1)
  }

  /** Every depth lowered by the same offset. */
  function Lowered(h: seq<real>, d: real): (r: seq<real>)
    ensures |r| == |h| && forall i :: 0 <= i < |h| ==> r[i] + d == h[i]
  {
    seq(|h|, i requires 0 <= i < |h| => h[i] - d)
  }

  /** Every depth of the test lowered by d. */
  method LowerDepths(ind: I.Indentation, d: real)
    requires ind.Valid()
    modifies ind`h
    ensures ind.Valid() && ind.h == Lowered(old(ind.h), d)
  {
    ind.h := Lowered(ind.h, d);
  }

  /** The Hertz fit on a test; with `correctH` every depth is lowered by
      the fitted offset. */
  method HertzFitOn(ind: I.Indentation, lo: real, hi: real, correctH: bool, fit: HertzFitter)
    returns (r: HertzFit)
    requires ind.Valid() && HertzFitterLaw(fit)
    modifies ind`h
    ensures ind.Valid()
    ensures r == HertzFitOf(old(ind.h), old(ind.p), lo, hi, fit)
    ensures ind.h == if r.HertzFitted? && correctH then Lowered(old(ind.h), r.h0) else old(ind.h)
  {
    r := HertzFitOf(ind.h, ind.p, lo, hi, fit);
    if r.HertzFitted? && correctH {
      LowerDepths(ind, r.h0);
    }
  }

  // ----- popIn -----

  /** The second-jump search: the largest entry is deleted while its
      position in the shrinking list is less than three past the jump;
      the largest remaining entry is the second rate. Positions are those
      of the list after the deletions. `None` is the `ValueError` of
      argmax once the list is empty. */
  function SecondRate(rates: seq<real>, iJump: int): Option<real>
    decreases |rates|
  {
    if |rates| == 0 then None
    else
      var k := ArgMax(rates);
      if k - iJump < 3 then SecondRate(rates[..k] + rates[k + 1..], iJump)
      else Some(rates[k])
  }

  /** The second rate is one of the increments. */
  lemma {:induction false} SecondRateIsEntry(rates: seq<real>, iJump: int)
    requires SecondRate(rates, iJump).Some?
    ensures SecondRate(rates, iJump).value in rates
    decreases |rates|
  {
    var k := ArgMax(rates);
    if k - iJump < 3 {
      var rest := rates[..k] + rates[k + 1..];
      SecondRateIsEntry(rest, iJump);
      assert forall x :: x in rest ==> x in rates[..k] || x in rates[k + 1..];
    }
  }

  /** Where the largest entry already sits three or more past the jump,
      it is the second rate. */
  lemma SecondRateWithoutDeletion(rates: seq<real>, iJump: int)
    requires |rates| > 0 && ArgMax(rates) - iJump >= 3
    ensures SecondRate(rates, iJump) == Some(Max(rates))
  {
  }

  /** The second rate is at most the largest increment. */
  lemma SecondRateBounded(rates: seq<real>, iJump: int)
    requires SecondRate(rates, iJump).Some?
    ensures SecondRate(rates, iJump).value <= Max(rates)
  {
  }

  /** Deleting shifts the later entries towards the jump: with the jump at
      position 0, the 9 at position 3 moves to position 2 once the 10 is
      deleted and is deleted in turn, so the second rate is 8. */
  lemma SecondRateShifts()
    ensures SecondRate([10.0, 0.0, 0.0, 9.0, 0.0, 8.0], 0) == Some(8.0)
  {
    FirstDeletion();
    SecondDeletion();
    ArgMaxIs([0.0, 0.0, 0.0, 8.0], 3);
  }

  lemma FirstDeletion()
    ensures SecondRate([10.0, 0.0, 0.0, 9.0, 0.0, 8.0], 0) == SecondRate([0.0, 0.0, 9.0, 0.0, 8.0], 0)
  {
    var s0 := [10.0, 0.0, 0.0, 9.0, 0.0, 8.0];
    assert s0[..0] + s0[1..] == [0.0, 0.0, 9.0, 0.0, 8.0];
    DeletionStep(s0, 0, 0, [0.0, 0.0, 9.0, 0.0, 8.0]);
  }

  lemma SecondDeletion()
    ensures SecondRate([0.0, 0.0, 9.0, 0.0, 8.0], 0) == SecondRate([0.0, 0.0, 0.0, 8.0], 0)
  {
    var s1 := [0.0, 0.0, 9.0, 0.0, 8.0];
    assert s1[..2] + s1[3..] == [0.0, 0.0, 0.0, 8.0];
    DeletionStep(s1, 2, 0, [0.0, 0.0, 0.0, 8.0]);
  }

  /** One turn of the deletion loop: the largest entry at k, fewer than
      three past the jump, is deleted. */
  lemma DeletionStep(s: seq<real>, k: nat, iJump: int, rest: seq<real>)
    requires k < |s| && k - iJump < 3
    requires forall j :: 0 <= j < |s| ==> s[j] <= s[k]
    requires forall j :: 0 <= j < k ==> s[j] < s[k]
    requires rest == s[..k] + s[k + 1..]
    ensures SecondRate(s, iJump) == SecondRate(rest, iJump)
  {
    ArgMaxIs(s, k);
  }

  /** argmax is the first index holding the largest entry. */
  lemma ArgMaxIs(s: seq<real>, k: nat)
    requires k < |s|
    requires forall j :: 0 <= j < |s| ==> s[j] <= s[k]
    requires forall j :: 0 <= j < k ==> s[j] < s[k]
    ensures ArgMax(s) == k
  {
  }

  /** The deletion loop of `popIn`. */
  method SecondJump(rates: seq<real>, iJump: int) returns (r: Option<real>)
    requires |rates| > 0
    ensures r == SecondRate(rates, iJump)
  {
    var list := rates;
    var k := ArgMax(list);
    while k - iJump < 3
      invariant |list| > 0 && k == ArgMax(list)
      invariant SecondRate(list, iJump) == SecondRate(rates, iJump)
      decreases |list|
    {
      list := list[..k] + list[k + 1..];
      if |list| == 0 {
        return None;
      }
      k := ArgMax(list);
    }
    r := Some(list[k]);
  }

  /** The detrended depth increments: the increment minus the quadratic
      a·i² + b·i + c fitted to the increments over their index. */
  function Detrended(h: seq<real>, coeffs: (real, real, real)): (rates: seq<real>)
    requires |h| >= 1
    ensures |rates| == |h| - 1
    ensures forall i :: 0 <= i < |rates| ==>
      rates[i] + (coeffs.0 * (i as real) * (i as real) + coeffs.1 * (i as real) + coeffs.2) == h[i + 1] - h[i]
  {
    seq(|h| - 1, i requires 0 <= i < |h| - 1 =>
      h[i + 1] - h[i] - (coeffs.0 * (i as real) * (i as real) + coeffs.1 * (i as real) + coeffs.2))
  }

  /** The fits `popIn` calls: the quadratic trend of the increments, the
      quadratic plastic fit (a2, a1, a0), and the elastic fit
      (prefactor, h0, variance of the prefactor), `None` where it does not
      converge. */
  datatype PopInFits = PopInFits(
    trend: seq<real> -> (real, real, real),
    plastic: (seq<real>, seq<real>) -> (real, real, real),
    elastic: (seq<real>, seq<real>) -> Option<(real, real, real)>)

  /** The elastic law prefactor·max(d - h0, 0)^(3/2). */
  function ElasticLaw(d: real, prefactor: real, h0: real, m: Maths): real
  {
    prefactor * m.pow(Penetration(d, h0), 1.5)
  }

  /** Above the offset the elastic law does not change, and for a
      non-negative prefactor it is never negative. */
  lemma ElasticLawClamped(d1: real, d2: real, prefactor: real, h0: real, m: Maths)
    requires Lawful(m) && d1 <= h0 && d2 <= h0
    ensures ElasticLaw(d1, prefactor, h0, m) == ElasticLaw(d2, prefactor, h0, m)
    ensures 0.0 <= prefactor ==> 0.0 <= ElasticLaw(d1, prefactor, h0, m)
  {
    assert Penetration(d1, h0) == Penetration(d2, h0) == 0.0;
    var q := m.pow(0.0, 1.5);
    assert 0.0 <= q;
    if 0.0 < prefactor && 0.0 < q {
      PositiveProduct(prefactor, q);
    }
  }

  /** The pop-in indicators; `deltaSlope` is `None` where the elastic
      slope divides by a zero depth. */
  datatype Certainty = Certainty(deltaRate: real, prefactor: real, h0: real, deltaSlope: Option<real>,
                                 deltaH: real, covElast: real, secondRate: real)

  datatype PopInFailure =
    | NoValidSample         // min of the empty valid depths
    | TooFewIncrements      // polyfit of an empty increment list
    | NoElasticForce        // no force above 0.01 mN
    | EmptyPlasticWindow    // polyfit of an empty plastic window
    | ElasticWindowTooShort // curve_fit needs two samples for two parameters
    | ElasticFitFailed      // curve_fit raises RuntimeError
    | NoSecondJump          // argmax of the emptied list

  /** Everything but the second rate: the jump, the windows and the fits. */
  datatype Candidate =
    | CandidateRaised(why: PopInFailure)
    | Candidate(force: real, rates: seq<real>, iJump: nat, iMin: nat, iMax: nat, certainty: Certainty)

  /** The samples `popIn` works on: the valid samples more than
      removeInitialNM nm deeper than the shallowest valid one. */
  function Kept(h: seq<real>, valid: seq<bool>, removeInitialNM: real): (keep: seq<bool>)
    requires |h| == |valid| && Count(valid) > 0
    ensures |keep| == Count(valid)
  {
    var hv := Select(h, valid);
    seq(|hv|, i requires 0 <= i < |hv| => hv[i] - Min(hv) > removeInitialNM / 1000.0)
  }

  /** Every depth `popIn` keeps is more than removeInitialNM nm below
      the shallowest valid depth. */
  lemma KeptAreDeep(h: seq<real>, valid: seq<bool>, removeInitialNM: real, i: nat)
    requires |h| == |valid| && Count(valid) > 0
    requires i < Count(Kept(h, valid, removeInitialNM))
    ensures var hv := Select(h, valid);
      Select(hv, Kept(h, valid, removeInitialNM))[i] - Min(hv) > removeInitialNM / 1000.0
  {
    var hv := Select(h, valid);
    var keep := Kept(h, valid, removeInitialNM);
    SelectAt(hv, keep, i);
  }

  /** The search up to the second rate: on no valid sample `min`
      raises, on fewer than two kept samples the trend fit of the empty
      increments raises; otherwise the search runs on the kept samples. */
  function PopInCandidate(h: seq<real>, p: seq<real>, valid: seq<bool>, removeInitialNM: real,
                          fits: PopInFits, m: Maths): (r: Candidate)
    requires |h| == |p| == |valid|
    ensures Count(valid) == 0 <==> r == CandidateRaised(NoValidSample)
    ensures r.Candidate? ==> Count(valid) > 0 && Count(Kept(h, valid, removeInitialNM)) >= 2 && |r.rates| > 0
  {
    if Count(valid) == 0 then CandidateRaised(NoValidSample)
    else
      var hv, pv := Select(h, valid), Select(p, valid);
      var keep := Kept(h, valid, removeInitialNM);
      var hs, ps := Select(hv, keep), Select(pv, keep);
      if |hs| < 2 then CandidateRaised(TooFewIncrements)
      else CandidateOn(hs, ps, IncrementRates(hs, fits), fits, m)
  }

  /** The depth increments with their fitted quadratic trend removed. */
  function IncrementRates(hs: seq<real>, fits: PopInFits): (rates: seq<real>)
    requires |hs| >= 1
    ensures |rates| == |hs| - 1
    ensures var c := fits.trend(Detrended(hs, (0.0, 0.0, 0.0)));
      forall i :: 0 <= i < |rates| ==>
        rates[i] + (c.0 * (i as real) * (i as real) + c.1 * (i as real) + c.2) == hs[i + 1] - hs[i]
  {
    Detrended(hs, fits.trend(Detrended(hs, (0.0, 0.0, 0.0))))
  }

  /** The jump, the windows and the fits on the kept depths hs, forces
      ps and detrended increments rates: the search fails only in its
      own steps, and on success the force at the jump is the pop-in force
      and the indicators are the jump's rate and depth step. */
  function CandidateOn(hs: seq<real>, ps: seq<real>, rates: seq<real>, fits: PopInFits, m: Maths): (r: Candidate)
    requires |hs| == |ps| == |rates| + 1 && |rates| > 0
    ensures r.CandidateRaised? ==>
      r.why in {NoElasticForce, EmptyPlasticWindow, ElasticWindowTooShort, ElasticFitFailed}
    ensures r.Candidate? ==>
      && PopInWindows(ps, rates) == Windows(r.iJump, r.iMin, r.iMax)
      && r.rates == rates && r.force == ps[r.iJump]
      && r.certainty.deltaH == hs[r.iJump + 1] - hs[r.iJump]
      && r.certainty.deltaRate == rates[r.iJump]
  {
    match PopInWindows(ps, rates)
    case WindowsRaised(why) => CandidateRaised(why)
    case Windows(iJump, iMin, iMax) =>
      match FitWindows(hs, ps, iJump, iMin, iMax, fits, m)
      case WindowRaised(why) => CandidateRaised(why)
      case WindowFit(prefactor, h0, deltaSlope, cov) =>
        Candidate(ps[iJump], rates, iJump, iMin, iMax,
                  Certainty(rates[iJump], prefactor, h0, deltaSlope, hs[iJump + 1] - hs[iJump], cov, 0.0))
  }

  /** The jump and the two fit windows. */
  datatype Windows =
    | WindowsRaised(why: PopInFailure)
    | Windows(iJump: nat, iMin: nat, iMax: nat)

  /** The jump is the largest rate; the plastic window runs from past the
      jump to at most 150 samples on and not past the peak force, and the
      elastic window starts at the first force above 0.01 mN, two or more
      samples before the jump. */
  function PopInWindows(ps: seq<real>, rates: seq<real>): (w: Windows)
    requires |ps| == |rates| + 1 && |rates| > 0
    ensures w.WindowsRaised? ==> w.why in {NoElasticForce, EmptyPlasticWindow, ElasticWindowTooShort}
    ensures w.Windows? ==>
      && w.iJump < |rates| && (forall j :: 0 <= j < |rates| ==> rates[j] <= rates[w.iJump])
      && w.iJump + 1 < w.iMax && w.iMax <= w.iJump + 150 && w.iMax <= ArgMax(ps)
      && w.iMin + 2 <= w.iJump && 0.01 < ps[w.iMin]
      && (forall j :: 0 <= j < w.iMin ==> ps[j] <= 0.01)
  {
    var iJump := ArgMax(rates);
    var iMax := if ArgMax(ps) < iJump + 150 then ArgMax(ps) else iJump + 150;
    if Count(Exceeds(ps, 0.01)) == 0 then WindowsRaised(NoElasticForce)
    else
      var iMin := FirstAbove(ps, 0.01);
      if iMax <= iJump + 1 then WindowsRaised(EmptyPlasticWindow)
      else if iJump < iMin + 2 then WindowsRaised(ElasticWindowTooShort)
      else Windows(iJump, iMin, iMax)
  }

  /** The outcome of the two window fits: the elastic prefactor and
      offset, the slope difference and the prefactor's variance. */
  datatype WindowFit =
    | WindowRaised(why: PopInFailure)
    | WindowFit(prefactor: real, h0: real, deltaSlope: Option<real>, cov: real)

  /** The plastic fit past the jump and the elastic fit from iMin up to
      the jump; a failed elastic fit is the only error. */
  function FitWindows(hs: seq<real>, ps: seq<real>, iJump: nat, iMin: nat, iMax: nat,
                      fits: PopInFits, m: Maths): (r: WindowFit)
    requires |hs| == |ps| && iMin <= iJump && iJump + 1 < iMax <= |ps|
    ensures r.WindowRaised? <==> fits.elastic(hs[iMin..iJump], ps[iMin..iJump]).None?
    ensures r.WindowRaised? ==> r.why == ElasticFitFailed
  {
    var slopePlast := PlasticSlope(fits.plastic(hs[iJump + 1..iMax], ps[iJump + 1..iMax]), hs[iJump + 1]);
    match fits.elastic(hs[iMin..iJump], ps[iMin..iJump])
    case None => WindowRaised(ElasticFitFailed)
    case Some((prefactor, h0, cov)) =>
      var slopeElast := ElasticSlope(hs[iJump], prefactor, h0, m);
      var deltaSlope := if slopeElast.None? then None else Some(slopeElast.value - slopePlast);
      WindowFit(prefactor, h0, deltaSlope, cov)
  }

  /** The slope 2·a2·x + a1 of the plastic quadratic at depth x. */
  function PlasticSlope(coeffs: (real, real, real), x: real): real
  {
    2.0 * coeffs.0 * x + coeffs.1
  }

  /** The secant slope of the elastic law between 0.9·x and x; `None`
      where x is zero and the division has no value. */
  function ElasticSlope(x: real, prefactor: real, h0: real, m: Maths): (r: Option<real>)
    ensures r.None? <==> x == 0.0
    ensures r.Some? ==> r.value * (x * 0.1) == ElasticLaw(x, prefactor, h0, m) - ElasticLaw(x * 0.9, prefactor, h0, m)
  {
    if x == 0.0 then None
    else Some((ElasticLaw(x, prefactor, h0, m) - ElasticLaw(x * 0.9, prefactor, h0, m)) / (x * 0.1))
  }

  datatype PopIn = PopInRaised(why: PopInFailure) | PopInFound(force: real, certainty: Certainty)

  /** The pop-in force and its indicators. */
  function PopInOf(h: seq<real>, p: seq<real>, valid: seq<bool>, removeInitialNM: real,
                   fits: PopInFits, m: Maths): (r: PopIn)
    requires |h| == |p| == |valid|
    ensures r.PopInFound? ==>
      var c := PopInCandidate(h, p, valid, removeInitialNM, fits, m);
      && c.Candidate? && r.force == c.force
      && r.certainty == c.certainty.(secondRate := r.certainty.secondRate)
      && SecondRate(c.rates, c.iJump) == Some(r.certainty.secondRate)
  {
    match PopInCandidate(h, p, valid, removeInitialNM, fits, m)
    case CandidateRaised(why) => PopInRaised(why)
    case Candidate(force, rates, iJump, _, _, certainty) =>
      match SecondRate(rates, iJump)
      case None => PopInRaised(NoSecondJump)
      case Some(second) => PopInFound(force, certainty.(secondRate := second))
  }

  /** The search of `popIn` on the trace, with its deletion loop. */
  method PopInSearch(h: seq<real>, p: seq<real>, valid: seq<bool>, removeInitialNM: real, fits: PopInFits, m: Maths)
    returns (r: PopIn)
    requires |h| == |p| == |valid|
    ensures r == PopInOf(h, p, valid, removeInitialNM, fits, m)
  {
    var c := PopInCandidate(h, p, valid, removeInitialNM, fits, m);
    if c.CandidateRaised? {
      return PopInRaised(c.why);
    }
    var second := SecondJump(c.rates, c.iJump);
    if second.None? {
      return PopInRaised(NoSecondJump);
    }
    r := PopInFound(c.force, c.certainty.(secondRate := second.value));
  }

  /** `popIn` on a test; with `correctH` every depth, not only the kept
      ones, is lowered by the elastic fit's offset. */
  method PopInOn(ind: I.Indentation, correctH: bool, removeInitialNM: real, fits: PopInFits, m: Maths)
    returns (r: PopIn)
    requires ind.Valid()
    modifies ind`h
    ensures ind.Valid()
    ensures r == PopInOf(old(ind.h), old(ind.p), old(ind.valid), removeInitialNM, fits, m)
    ensures ind.h == if r.PopInFound? && correctH then Lowered(old(ind.h), r.certainty.h0) else old(ind.h)
  {
    r := PopInSearch(ind.h, ind.p, ind.valid, removeInitialNM, fits, m);
    if r.PopInFound? && correctH {
      var h0 := r.certainty.h0;
      LowerDepths(ind, h0);
    }
  }
}
