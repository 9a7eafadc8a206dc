/** The contact-mechanics formulas of the indentation evaluation: the
    conversion between Young's modulus and the reduced modulus of the
    tip/sample pair, and the Oliver-Pharr method (J. Mater. Res. 7, 1992)
    together with its inverse. A division by zero, which raises in
    Python, is a `None` result here. */
module Theory {
  import opened Numerics
  import opened IndenterTip

  /** Poisson's ratio and Young's modulus [GPa] of the indenter. */
  datatype TipElastic = TipElastic(nu: real, modulus: real)

  /** An indenter with a positive modulus and a Poisson ratio in (-1, 1). */
  predicate ValidTip(t: TipElastic)
  {
    0.0 < t.modulus && t.nu * t.nu < 1.0
  }

  /** The tip's share of the contact compliance, (1 - ν_tip²)/E_tip. */
  function TipTerm(t: TipElastic): (r: real)
    requires ValidTip(t)
    ensures 0.0 < r
  {
    (1.0 - t.nu * t.nu) / t.modulus
  }

  /** A positive `nuThis` replaces the material's Poisson ratio. */
  function Poisson(nuMat: real, nuThis: real): real
  {
    if nuThis > 0.0 then nuThis else nuMat
  }

  /** Reduced modulus 1/((1-ν²)/E + (1-ν_tip²)/E_tip). */
  function ReducedModulus(t: TipElastic, nuMat: real, modulus: real, nuThis: real): (r: Option<real>)
    requires ValidTip(t)
    ensures r.Some? <==> modulus != 0.0 && (1.0 - Poisson(nuMat, nuThis) * Poisson(nuMat, nuThis)) / modulus + TipTerm(t) != 0.0
    ensures r.Some? ==> r.value != 0.0 && 1.0 / r.value == (1.0 - Poisson(nuMat, nuThis) * Poisson(nuMat, nuThis)) / modulus + TipTerm(t)
  {
    var nu := Poisson(nuMat, nuThis);
    if modulus == 0.0 then None
    else
      var d := (1.0 - nu * nu) / modulus + TipTerm(t);
      if d == 0.0 then None else InvInv(d); Some(1.0 / d)
  }

  /** Young's modulus (1-ν²)/(1/E* - (1-ν_tip²)/E_tip). */
  function YoungsModulus(t: TipElastic, nuMat: real, modulusRed: real, nuThis: real): (r: Option<real>)
    requires ValidTip(t)
    ensures r.Some? <==> modulusRed != 0.0 && 1.0 / modulusRed - TipTerm(t) != 0.0
    ensures r.Some? ==> r.value * (1.0 / modulusRed - TipTerm(t)) == 1.0 - Poisson(nuMat, nuThis) * Poisson(nuMat, nuThis)
  {
    var nu := Poisson(nuMat, nuThis);
    if modulusRed == 0.0 then None
    else
      var d := 1.0 / modulusRed - TipTerm(t);
      if d == 0.0 then None else Some((1.0 - nu * nu) / d)
  }

  lemma InvInv(d: real)
    requires d != 0.0
    ensures 1.0 / d != 0.0 && 1.0 / (1.0 / d) == d
  {
  }

  lemma DivDiv(n: real, e: real)
    requires n != 0.0 && e != 0.0
    ensures n / e != 0.0 && n / (n / e) == e
  {
  }

  /** Only a Poisson ratio of ±1 makes 1 - ν² vanish. */
  lemma SquareNotOne(nu: real)
    requires nu != 1.0 && nu != -1.0
    ensures nu * nu != 1.0
  {
    assert nu * nu - 1.0 == (nu - 1.0) * (nu + 1.0);
    PositiveOrNegativeProduct(nu - 1.0, nu + 1.0);
  }

  lemma PositiveOrNegativeProduct(a: real, b: real)
    requires a != 0.0 && b != 0.0
    ensures a * b != 0.0
  {
  }

  /** Converting a Young's modulus to the reduced modulus and back gives
      the modulus again, for the same Poisson ratio. */
  lemma YoungsUndoesReduced(t: TipElastic, nuMat: real, modulus: real, nuThis: real)
    requires ValidTip(t)
    requires Poisson(nuMat, nuThis) != 1.0 && Poisson(nuMat, nuThis) != -1.0
    requires ReducedModulus(t, nuMat, modulus, nuThis).Some?
    ensures YoungsModulus(t, nuMat, ReducedModulus(t, nuMat, modulus, nuThis).value, nuThis) == Some(modulus)
  {
    SquareNotOne(Poisson(nuMat, nuThis));
    var nu := Poisson(nuMat, nuThis);
    var n := 1.0 - nu * nu;
    var er := ReducedModulus(t, nuMat, modulus, nuThis).value;
    DivDiv(n, modulus);
    var d := 1.0 / er - TipTerm(t);
    assert d == n / modulus;
    assert d != 0.0;
    assert er != 0.0;
    assert YoungsModulus(t, nuMat, er, nuThis).Some?;
    assert YoungsModulus(t, nuMat, er, nuThis).value == n / d;
  }

  /** Converting a reduced modulus to Young's modulus and back gives the
      reduced modulus again. */
  lemma ReducedUndoesYoungs(t: TipElastic, nuMat: real, modulusRed: real, nuThis: real)
    requires ValidTip(t)
    requires Poisson(nuMat, nuThis) != 1.0 && Poisson(nuMat, nuThis) != -1.0
    requires YoungsModulus(t, nuMat, modulusRed, nuThis).Some?
    ensures ReducedModulus(t, nuMat, YoungsModulus(t, nuMat, modulusRed, nuThis).value, nuThis) == Some(modulusRed)
  {
    var nu := Poisson(nuMat, nuThis);
    var n := 1.0 - nu * nu;
    assert n != 0.0 by {
      SquareNotOne(nu);
    }
    var d := 1.0 / modulusRed - TipTerm(t);
    var e := YoungsModulus(t, nuMat, modulusRed, nuThis).value;
    assert e == n / d;
    DivDiv(n, d);
    InvInv(modulusRed);
    var d2 := n / e + TipTerm(t);
    assert d2 == 1.0 / modulusRed;
    assert d2 != 0.0;
    assert e != 0.0;
    assert ReducedModulus(t, nuMat, e, nuThis).Some?;
    assert ReducedModulus(t, nuMat, e, nuThis).value == 1.0 / d2;
  }

  /** For a physical material the reduced modulus is positive and below
      both the sample's plane-strain modulus and the tip's. */
  lemma ReducedModulusBounds(t: TipElastic, nuMat: real, modulus: real, nuThis: real)
    requires ValidTip(t)
    requires 0.0 < modulus && Poisson(nuMat, nuThis) * Poisson(nuMat, nuThis) < 1.0
    ensures ReducedModulus(t, nuMat, modulus, nuThis).Some?
    ensures 0.0 < ReducedModulus(t, nuMat, modulus, nuThis).value
    ensures ReducedModulus(t, nuMat, modulus, nuThis).value < 1.0 / TipTerm(t)
    ensures ReducedModulus(t, nuMat, modulus, nuThis).value
            < modulus / (1.0 - Poisson(nuMat, nuThis) * Poisson(nuMat, nuThis))
  {
    var nu := Poisson(nuMat, nuThis);
    var n := 1.0 - nu * nu;
    var k := TipTerm(t);
    assert 0.0 < n / modulus + k by {
      assert 0.0 < n / modulus;
    }
    BoundsArith(n, modulus, k, ReducedModulus(t, nuMat, modulus, nuThis).value);
  }

  /** If 1/r = n/E + k, then r is positive and below both 1/k and E/n. */
  lemma BoundsArith(n: real, e: real, k: real, r: real)
    requires 0.0 < n && 0.0 < e && 0.0 < k
    requires r != 0.0 && 1.0 / r == n / e + k
    ensures 0.0 < r < 1.0 / k
    ensures r < e / n
  {
    var s := n / e;
    assert 0.0 < s;
    InvInv(r);
    assert r == 1.0 / (s + k);
    ReciprocalDecreasing(k, s + k);
    ReciprocalDecreasing(s, s + k);
    DivDiv(n, e);
    assert e / n == 1.0 / s;
  }

  lemma ReciprocalDecreasing(a: real, b: real)
    requires 0.0 < a < b
    ensures 0.0 < 1.0 / b < 1.0 / a
  {
  }

  /** The elastic constants of the default model form a valid tip. */
  lemma DefaultTipValid()
    ensures ValidTip(TipElastic(0.07, 1140.0))
  {
  }

  /** The result of the Oliver-Pharr method for one measurement. */
  datatype Contact = Contact(modulusRed: real, ac: real, hc: real)

  /** Area floor of 1 pm² (in µm²) that keeps the square root away from zero. */
  const AreaFloor: real := 0.000000000001

  /** hc = h - nonMetal·β·P/S; Ac = area(hc) raised to the floor;
      E* = S/(2√Ac/√π). `area` is the tip's area function. */
  function OliverPharr(s: real, pMax: real, h: real, nonMetal: real, beta: real,
                       area: real -> real, m: Maths): (r: Contact)
    requires Lawful(m)
    requires s != 0.0
    ensures r.hc + nonMetal * beta * pMax / s == h
    ensures AreaFloor <= r.ac
    ensures area(r.hc) >= AreaFloor ==> r.ac == area(r.hc)
    ensures area(r.hc) < AreaFloor ==> r.ac == AreaFloor
    ensures 2.0 * m.sqrt(r.ac) * r.modulusRed == s * m.sqrt(m.pi)
  {
    var hc := h - nonMetal * beta * pMax / s;
    var a := area(hc);
    var ac := if a < AreaFloor then AreaFloor else a;
    SqrtPositive(m.sqrt, ac);
    SqrtPositive(m.sqrt, m.pi);
    var e := s / (2.0 * m.sqrt(ac) / m.sqrt(m.pi));
    SneddonRelation(s, m.sqrt(ac), m.sqrt(m.pi));
    Contact(e, ac, hc)
  }

  lemma SneddonRelation(s: real, sa: real, sp: real)
    requires 0.0 < sa && 0.0 < sp
    ensures 2.0 * sa * (s / (2.0 * sa / sp)) == s * sp
  {
    var q := 2.0 * sa / sp;
    assert q * sp == 2.0 * sa;
    assert s / q * q == s;
    calc {
      2.0 * sa * (s / q);
      q * sp * (s / q);
      sp * (s / q * q);
    }
  }

  /** Total depth for a stiffness, a force and a reduced modulus:
      Ac = (S·√π/(2·E*))², hc from the tip's inverse area function started at
      the perfect-Berkovich depth √(Ac/24.494), h = hc + nonMetal·β·P/S.
      `None` where Python raises: a zero divisor, or a tip with no inverse. */
  function InverseOliverPharr(s: real, pMax: real, modulusRed: real, nonMetal: real, beta: real,
                              pf: seq<Entry>, m: Maths, newton: (real -> real, real) -> real): (r: Option<real>)
    requires Lawful(m) && WellFormed(pf) && CosNonZero(m)
    ensures r.Some? <==> s != 0.0 && modulusRed != 0.0 && KindOf(pf) in {Iso, Perfect}
    ensures r.Some? ==>
              var ac := m.pow(s / (2.0 * modulusRed / m.sqrt(m.pi)), 2.0);
              InverseArea(pf, ac, m.sqrt(ac / 24.494), m, newton) == Depth(r.value - nonMetal * beta * pMax / s)
  {
    if s == 0.0 || modulusRed == 0.0 then None
    else
      SqrtPositive(m.sqrt, m.pi);
      var ac := m.pow(s / (2.0 * modulusRed / m.sqrt(m.pi)), 2.0);
      match InverseArea(pf, ac, m.sqrt(ac / 24.494), m, newton)
      case Depth(hc) => Some(hc + nonMetal * beta * pMax / s)
      case _ => None
  }

  /** The inverse method recovers the total depth the Oliver-Pharr method
      started from, for the perfect Berkovich tip and a contact depth from
      the 1 pm floor on (so the area floor is not reached). */
  lemma OliverPharrRoundTrip(s: real, pMax: real, h: real, nonMetal: real, beta: real,
                             m: Maths, newton: (real -> real, real) -> real)
    requires Lawful(m) && CosNonZero(m)
    requires s != 0.0
    requires h - nonMetal * beta * pMax / s >= 0.000001
    ensures var c := OliverPharr(s, pMax, h, nonMetal, beta, hc => Area(PerfectTip, hc, m), m);
            InverseOliverPharr(s, pMax, c.modulusRed, nonMetal, beta, PerfectTip, m, newton) == Some(h)
  {
    var area := hc => Area(PerfectTip, hc, m);
    var c := OliverPharr(s, pMax, h, nonMetal, beta, area, m);
    PerfectArea(c.hc, m);
    if 0.000001 < c.hc { SquareMonotone(0.000001, c.hc); }
    assert c.ac == Area(PerfectTip, c.hc, m);
    var sa := m.sqrt(c.ac);
    var sp := m.sqrt(m.pi);
    SqrtPositive(m.sqrt, c.ac);
    SqrtPositive(m.sqrt, m.pi);
    assert c.modulusRed == s / (2.0 * sa / sp);
    StiffnessRatio(s, sa, sp);
    assert s / (2.0 * c.modulusRed / sp) == sa;
    assert m.pow(sa, 2.0) == c.ac;
    PerfectInverseRoundTrip(c.hc, m.sqrt(c.ac / 24.494), m, newton);
    var ac := m.pow(s / (2.0 * c.modulusRed / sp), 2.0);
    assert ac == c.ac;
    assert InverseArea(PerfectTip, ac, m.sqrt(ac / 24.494), m, newton) == Depth(c.hc);
  }

  lemma StiffnessRatio(s: real, sa: real, sp: real)
    requires s != 0.0 && 0.0 < sa && 0.0 < sp
    ensures s / (2.0 * sa / sp) != 0.0
    ensures s / (2.0 * (s / (2.0 * sa / sp)) / sp) == sa
  {
    var q := 2.0 * sa / sp;
    var e := s / q;
    assert e * q == s;
    assert e != 0.0;
    assert 2.0 * e / sp * sa == e * q by {
      assert q == 2.0 * sa / sp;
    }
  }

  /** The unloading power law P = B·(h - hf)^m. */
  function UnloadingPower(h: real, b: real, hf: real, exponent: real, m: Maths): real
  {
    b * m.pow(h - hf, exponent)
  }

  /** With exponent 1 the unloading law is the line of slope B through (hf, 0). */
  lemma UnloadingPowerLinear(h: real, b: real, hf: real, m: Maths)
    requires Lawful(m)
    ensures UnloadingPower(h, b, hf, 1.0, m) == b * (h - hf)
    ensures UnloadingPower(hf, b, hf, 1.0, m) == 0.0
  {
    assert m.pow(h - hf, 1.0) == h - hf;
    assert m.pow(hf - hf, 1.0) == hf - hf;
  }
}
