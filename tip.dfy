/** The indenter tip: its projected contact area as a function of contact
    depth, the inverse of that function, and the frame compliance stored
    with it. Depths are given in µm and areas returned in µm²; inside,
    the area function works in nm and nm². */
module IndenterTip {
  import opened Numerics

  /** One entry of a prefactor list: a coefficient, or the trailing tag
      that says how the coefficients are read. */
  datatype Entry = Num(v: real) | Tag(kind: Kind)

  /** The tags "iso", "isoPlusConstant", "perfect" and "sphere"; `Unknown`
      stands for any other text. */
  datatype Kind = Iso | IsoPlusConstant | Perfect | Sphere | Unknown

  /** A prefactor list as the caller owns it. Python lists are shared by
      reference, so the tip keeps the caller's list rather than a copy. */
  class PrefactorList {
    var items: seq<Entry>

    constructor (items: seq<Entry>)
      ensures this.items == items
    {
      this.items := items;
    }
  }

  /** The `shape` argument of the tip: a prefactor list, or anything else
      (a name such as "perfect"), which the constructor reads as a perfect
      Berkovich tip. */
  datatype ShapeArg = ListShape(list: PrefactorList) | NamedShape(name: string)

  /** The shape argument is indexable from the end: it is not empty. */
  predicate Indexable(shape: ShapeArg)
    reads if shape.ListShape? then {shape.list} else {}
  {
    match shape
    case ListShape(list) => |list.items| > 0
    case NamedShape(name) => |name| > 0
  }

  /** The tag at the end of a prefactor list; a list that ends in a
      number reads as an unknown tag. */
  function KindOf(pf: seq<Entry>): Kind
  {
    if |pf| > 0 && pf[|pf| - 1].Tag? then pf[|pf| - 1].kind else Unknown
  }

  predicate AllNumbers(pf: seq<Entry>)
  {
    forall i :: 0 <= i < |pf| ==> pf[i].Num?
  }

  /** The entries the area function multiplies are numbers. An unknown or
      missing tag is allowed: the area function then yields zero. */
  predicate WellFormed(pf: seq<Entry>)
  {
    && |pf| > 0
    && (KindOf(pf) == Iso ==> AllNumbers(pf[..|pf| - 1]))
    && (KindOf(pf) == IsoPlusConstant ==> |pf| >= 2 && AllNumbers(pf[..|pf| - 1]))
    && (KindOf(pf) == Sphere ==> |pf| >= 3 && pf[0].Num? && pf[1].Num?)
  }

  /** The exponent of the i-th iso term, 2/2^i: 2, 1, 1/2, 1/4, ... */
  function Exponent(i: nat): (e: real)
    ensures 0.0 < e <= 2.0
  {
    if i == 0 then 2.0 else Exponent(i - 1) / 2.0
  }

  /** Depth in nm with the 1 pm floor applied. */
  function DepthNm(hUm: real): (x: real)
    ensures 0.001 <= x
    ensures 1000.0 * hUm >= 0.001 ==> x == 1000.0 * hUm
    ensures 1000.0 * hUm < 0.001 ==> x == 0.001
  {
    if 1000.0 * hUm < 0.001 then 0.001 else 1000.0 * hUm
  }

  /** Every depth below the 1 pm floor has the area of depth 0: the
      floor, not the depth, is evaluated. */
  lemma AreaBelowFloor(pf: seq<Entry>, hUm: real, m: Maths)
    requires WellFormed(pf) && CosNonZero(m)
    requires 1000.0 * hUm < 0.001
    ensures Area(pf, hUm, m) == Area(pf, 0.0, m)
  {
  }

  /** Σ c_i · x^(2/2^i) over the coefficients c. */
  function IsoSum(c: seq<Entry>, x: real, m: Maths): real
    requires AllNumbers(c)
  {
    if c == [] then 0.0
    else IsoSum(c[..|c| - 1], x, m) + c[|c| - 1].v * m.pow(x, Exponent(|c| - 1))
  }

  lemma {:induction false} IsoSumStep(c: seq<Entry>, i: nat, x: real, m: Maths)
    requires AllNumbers(c) && i < |c|
    ensures IsoSum(c[..i + 1], x, m) == IsoSum(c[..i], x, m) + c[i].v * m.pow(x, Exponent(i))
  {
    assert c[..i + 1][..i] == c[..i];
  }

  /** Radius of the contact circle of a sphere-tipped cone, in nm. */
  function SphereContactRadius(radiusUm: real, angle: real, x: real, m: Maths): real
    requires m.cosDeg(angle) != 0.0
  {
    var radius := radiusUm * 1000.0;
    if radius - x > radius * m.sinDeg(angle) then m.sqrt(radius * radius - (radius - x) * (radius - x))
    else radius / m.cosDeg(angle) - m.tanDeg(angle) * (radius - x)
  }

  /** The area in nm² at a clamped depth of x nm, before the final
      clamp to zero. */
  function AreaNm(pf: seq<Entry>, x: real, m: Maths): real
    requires WellFormed(pf)
    requires CosNonZero(m)
  {
    match KindOf(pf)
    case Iso => IsoSum(pf[..|pf| - 1], x, m)
    case IsoPlusConstant => IsoSum(pf[..|pf| - 2], x + pf[|pf| - 2].v, m)
    case Perfect => 24.494 * m.pow(x, 2.0)
    case Sphere =>
      var r := SphereContactRadius(pf[0].v, pf[1].v, x, m);
      m.pi * r * r
    case Unknown => 0.0
  }

  /** `math.cos` of a float angle never returns exactly zero. */
  ghost predicate CosNonZero(m: Maths)
  {
    forall a: real :: m.cosDeg(a) != 0.0
  }

  /** Projected contact area in µm² at contact depth hUm µm for a tip
      described by prefactors. */
  function Area(pf: seq<Entry>, hUm: real, m: Maths): real
    requires WellFormed(pf)
    requires CosNonZero(m)
  {
    var a := AreaNm(pf, DepthNm(hUm), m);
    (if a < 0.0 then 0.0 else a) / 1000000.0
  }

  /** The result of the inverse area function; `Unbound` is the tip whose
      tag is neither "iso" nor "perfect", for which no depth is bound and
      the call raises; `NoPrefactors` is the `TypeError` of indexing the
      absent prefactor list of a tip with an interpolation function. */
  datatype Inverse = Depth(h: real) | Unbound | NoPrefactors

  /** Contact depth for a given area. For "iso" it is whatever Newton's
      method finds from hc0 for area(h) - target; for "perfect" it is the
      closed form. */
  function InverseArea(pf: seq<Entry>, area: real, hc0: real, m: Maths,
                       newton: (real -> real, real) -> real): Inverse
    requires WellFormed(pf)
    requires CosNonZero(m)
  {
    match KindOf(pf)
    case Iso => Depth(newton(height => Area(pf, height, m) - area, hc0))
    case Perfect => Depth(m.sqrt(area / 24.494))
    case _ => Unbound
  }

  const PerfectTip: seq<Entry> := [Tag(Perfect)]

  /** Areas of tips given by prefactors are never negative. */
  lemma AreaNonNegative(pf: seq<Entry>, hUm: real, m: Maths)
    requires WellFormed(pf) && CosNonZero(m)
    ensures 0.0 <= Area(pf, hUm, m)
  {
  }

  /** The perfect Berkovich tip has area 24.494·hc² µm² from the 1 pm
      floor on, and the floor's area below it. */
  lemma PerfectArea(hUm: real, m: Maths)
    requires Lawful(m) && CosNonZero(m)
    ensures 0.000001 <= hUm ==> Area(PerfectTip, hUm, m) == 24.494 * hUm * hUm
    ensures hUm < 0.000001 ==> Area(PerfectTip, hUm, m) == 24.494 * 0.000001 * 0.000001
  {
    var x := DepthNm(hUm);
    assert KindOf(PerfectTip) == Perfect;
    assert AreaNm(PerfectTip, x, m) == 24.494 * (x * x);
    assert 0.0 <= x * x by { PositiveProduct(x, x); }
    if 0.000001 <= hUm {
      assert x == 1000.0 * hUm;
      assert x * x == 1000000.0 * (hUm * hUm);
    }
  }

  /** The perfect tip's area is non-decreasing in the contact depth. */
  lemma PerfectAreaMonotone(h1: real, h2: real, m: Maths)
    requires Lawful(m) && CosNonZero(m)
    requires h1 <= h2
    ensures Area(PerfectTip, h1, m) <= Area(PerfectTip, h2, m)
  {
    PerfectArea(h1, m);
    PerfectArea(h2, m);
    var a := if h1 < 0.000001 then 0.000001 else h1;
    var b := if h2 < 0.000001 then 0.000001 else h2;
    if a < b { SquareMonotone(a, b); }
    assert 24.494 * a * a <= 24.494 * b * b;
  }

  /** The perfect tip's inverse undoes its area function from the 1 pm
      floor on. */
  lemma PerfectInverseRoundTrip(hc: real, hc0: real, m: Maths, newton: (real -> real, real) -> real)
    requires Lawful(m) && CosNonZero(m)
    requires 0.000001 <= hc
    ensures InverseArea(PerfectTip, Area(PerfectTip, hc, m), hc0, m, newton) == Depth(hc)
  {
    PerfectArea(hc, m);
    assert Area(PerfectTip, hc, m) / 24.494 == hc * hc;
    SqrtOfSquare(m.sqrt, hc);
  }

  /** An iso list with the single coefficient 24.494 is the perfect tip. */
  lemma IsoWithBerkovichCoefficient(hUm: real, m: Maths)
    requires Lawful(m) && CosNonZero(m)
    ensures Area([Num(24.494), Tag(Iso)], hUm, m) == Area(PerfectTip, hUm, m)
  {
    var pf := [Num(24.494), Tag(Iso)];
    var x := DepthNm(hUm);
    assert pf[..1] == [Num(24.494)];
    assert IsoSum(pf[..1], x, m) == 24.494 * m.pow(x, 2.0) by {
      assert pf[..1][..0] == [];
    }
  }

  lemma IsoShapesWellFormed(coeffs: seq<real>, c: real)
    ensures WellFormed(Nums(coeffs) + [Num(c), Tag(IsoPlusConstant)])
    ensures WellFormed(Nums(coeffs) + [Tag(Iso)])
  {
    var plus := Nums(coeffs) + [Num(c), Tag(IsoPlusConstant)];
    var iso := Nums(coeffs) + [Tag(Iso)];
    assert plus[|plus| - 1] == Tag(IsoPlusConstant) && iso[|iso| - 1] == Tag(Iso);
    assert plus[..|plus| - 1] == Nums(coeffs) + [Num(c)];
    assert iso[..|iso| - 1] == Nums(coeffs);
  }

  /** "isoPlusConstant" reads the entry before its tag as a depth offset
      in nm and the entries before that as iso coefficients: it is the iso
      tip evaluated c/1000 µm deeper, as long as the shifted depth is not
      below the 1 pm floor. */
  lemma IsoPlusConstantShifts(coeffs: seq<real>, c: real, hUm: real, m: Maths)
    requires CosNonZero(m)
    requires DepthNm(hUm) + c >= 0.001
    ensures WellFormed(Nums(coeffs) + [Num(c), Tag(IsoPlusConstant)])
    ensures WellFormed(Nums(coeffs) + [Tag(Iso)])
    ensures Area(Nums(coeffs) + [Num(c), Tag(IsoPlusConstant)], hUm, m)
         == Area(Nums(coeffs) + [Tag(Iso)], (DepthNm(hUm) + c) / 1000.0, m)
  {
    IsoShapesWellFormed(coeffs, c);
    var plus := Nums(coeffs) + [Num(c), Tag(IsoPlusConstant)];
    var iso := Nums(coeffs) + [Tag(Iso)];
    var x := DepthNm(hUm);
    assert plus[..|plus| - 2] == Nums(coeffs) == iso[..|iso| - 1];
    assert plus[|plus| - 2] == Num(c);
    assert AreaNm(plus, x, m) == IsoSum(Nums(coeffs), x + c, m);
    assert DepthNm((x + c) / 1000.0) == x + c;
    assert AreaNm(iso, x + c, m) == IsoSum(Nums(coeffs), x + c, m);
  }

  function Nums(coeffs: seq<real>): (pf: seq<Entry>)
    ensures |pf| == |coeffs| && AllNumbers(pf)
    ensures forall i :: 0 <= i < |coeffs| ==> pf[i] == Num(coeffs[i])
  {
    seq(|coeffs|, i requires 0 <= i < |coeffs| => Num(coeffs[i]))
  }

  /** The tip: a prefactor list (absent when an interpolation function
      gives the area), that function, and the frame compliance in µm/mN. */
  class Tip {
    var prefactors: PrefactorList?
    var interpFunction: Option<real -> real>
    var compliance: real

    /** The area function this tip evaluates can be evaluated. */
    predicate Evaluable()
      reads this, prefactors
    {
      if prefactors == null then interpFunction.Some? else WellFormed(prefactors.items)
    }

    /** An interpolation function supersedes the shape; a list that already
        ends in "sphere" or "iso" is kept as it is; any other list is taken
        as iso coefficients and the tag is appended to the caller's own
        list; anything else is the perfect Berkovich tip. */
    constructor (shape: ShapeArg, interp: Option<real -> real>, compliance: real)
      requires interp.None? ==> Indexable(shape)
      modifies if shape.ListShape? then {shape.list} else {}
      ensures this.compliance == compliance
      ensures interp.Some? ==> prefactors == null && interpFunction == interp
      ensures interp.Some? && shape.ListShape? ==> shape.list.items == old(shape.list.items)
      ensures interp.None? ==> interpFunction.None?
      ensures interp.None? && shape.ListShape? ==> prefactors == shape.list
      ensures interp.None? && shape.ListShape? ==>
                shape.list.items == if KindOf(old(shape.list.items)) in {Sphere, Iso}
                                    then old(shape.list.items)
                                    else old(shape.list.items) + [Tag(Iso)]
      ensures interp.None? && shape.NamedShape? ==> fresh(prefactors) && prefactors.items == PerfectTip
    {
      this.compliance := compliance;
      if interp.Some? {
        prefactors := null;
        interpFunction := interp;
      } else if shape.ListShape? {
        interpFunction := None;
        var list := shape.list;
        prefactors := list;
        if KindOf(list.items) !in {Sphere, Iso} {
          list.items := list.items + [Tag(Iso)];
        }
      } else {
        interpFunction := None;
        prefactors := new PrefactorList(PerfectTip);
      }
    }

    /** An interpolation function supersedes the prefactors. */
    method SetInterpolationFunction(f: real -> real)
      modifies this
      ensures prefactors == null && interpFunction == Some(f) && compliance == old(compliance)
    {
      interpFunction := Some(f);
      prefactors := null;
    }

    /** Areas in µm² for contact depths in µm, one per depth. The caller's
        depths are copied before the floor is applied. */
    method AreaFunction(h: seq<real>, m: Maths) returns (area: seq<real>)
      requires Evaluable() && CosNonZero(m)
      ensures |area| == |h|
      ensures prefactors == null ==>
                forall k :: 0 <= k < |h| ==> area[k] == interpFunction.value(DepthNm(h[k]) / 1000.0)
      ensures prefactors != null ==>
                forall k :: 0 <= k < |h| ==> area[k] == Area(prefactors.items, h[k], m)
    {
      var x := new real[|h|];
      for k := 0 to |h|
        invariant forall j :: 0 <= j < k ==> x[j] == DepthNm(h[j])
      {
        x[k] := h[k] * 1000.0;
        if x[k] < 0.001 {
          x[k] := 0.001;
        }
      }
      if prefactors == null {
        var f := interpFunction.value;
        area := [];
        for k := 0 to |h|
          invariant |area| == k
          invariant forall j :: 0 <= j < k ==> area[j] == f(DepthNm(h[j]) / 1000.0)
        {
          area := area + [f(x[k] / 1000.0)];
        }
        return;
      }
      var pf := prefactors.items;
      var a := RawAreas(pf, x, m);
      area := [];
      for k := 0 to |h|
        invariant |area| == k
        invariant forall j :: 0 <= j < k ==> area[j] == Area(pf, h[j], m)
      {
        var v := a[k];
        if v < 0.0 {
          v := 0.0;
        }
        area := area + [v / 1000000.0];
      }
    }

    /** Contact depth for an area: Newton's method from hc0 for "iso", the
        closed form for "perfect", no result otherwise; a tip without
        prefactors cannot be inverted. */
    method AreaFunctionInverse(area: real, hc0: real, m: Maths,
                               newton: (real -> real, real) -> real) returns (h: Inverse)
      requires prefactors != null ==> WellFormed(prefactors.items)
      requires CosNonZero(m)
      ensures prefactors == null <==> h == NoPrefactors
      ensures prefactors != null ==> h == InverseArea(prefactors.items, area, hc0, m, newton)
    {
      if prefactors == null {
        return NoPrefactors;
      }
      var pf := prefactors.items;
      var kind := KindOf(pf);
      if kind == Iso {
        h := Depth(newton(height => Area(pf, height, m) - area, hc0));
      } else if kind == Perfect {
        h := Depth(m.sqrt(area / 24.494));
      } else {
        h := Unbound;
      }
    }
  }

  /** The areas in nm² at the floored depths x, before the clamp to zero;
      the caller's depths x are left as they are. */
  method RawAreas(pf: seq<Entry>, x: array<real>, m: Maths) returns (a: array<real>)
    requires WellFormed(pf) && CosNonZero(m)
    ensures fresh(a) && a.Length == x.Length
    ensures forall j :: 0 <= j < a.Length ==> a[j] == AreaNm(pf, x[j], m)
  {
    var kind := KindOf(pf);
    if kind == Iso {
      a := IsoAreas(pf[..|pf| - 1], x, 0.0, m);
      assert forall j :: 0 <= j < a.Length ==> x[j] + 0.0 == x[j];
    } else if kind == IsoPlusConstant {
      a := IsoAreas(pf[..|pf| - 2], x, pf[|pf| - 2].v, m);
    } else {
      a := new real[x.Length];
      for k := 0 to x.Length
        invariant forall j :: 0 <= j < k ==> a[j] == AreaNm(pf, x[j], m)
      {
        if kind == Perfect {
          a[k] := 24.494 * m.pow(x[k], 2.0);
        } else if kind == Sphere {
          var r := SphereContactRadius(pf[0].v, pf[1].v, x[k], m);
          a[k] := m.pi * r * r;
        } else {
          a[k] := 0.0;
        }
      }
    }
  }

  /** Iso areas Σ c_i·(x + shift)^(2/2^i), accumulated term by term. */
  method IsoAreas(c: seq<Entry>, x: array<real>, shift: real, m: Maths) returns (a: array<real>)
    requires AllNumbers(c)
    ensures fresh(a) && a.Length == x.Length
    ensures forall j :: 0 <= j < a.Length ==> a[j] == IsoSum(c, x[j] + shift, m)
  {
    var y := Shifted(x, shift);
    a := new real[x.Length](_ => 0.0);
    for i := 0 to |c|
      invariant forall j :: 0 <= j < a.Length ==> a[j] == IsoSum(c[..i], y[j], m)
      invariant forall j :: 0 <= j < x.Length ==> y[j] == x[j] + shift
    {
      AddTerm(a, y, c, i, m);
    }
    assert c[..|c|] == c;
  }

  /** Every depth moved by `shift`, in a new array. */
  method Shifted(x: array<real>, shift: real) returns (y: array<real>)
    ensures fresh(y) && y.Length == x.Length
    ensures forall j :: 0 <= j < y.Length ==> y[j] == x[j] + shift
  {
    y := new real[x.Length];
    for k := 0 to x.Length
      invariant forall j :: 0 <= j < k ==> y[j] == x[j] + shift
    {
      y[k] := x[k] + shift;
    }
  }

  /** Adds the i-th iso term c_i·y^(2/2^i) to every accumulated area. */
  method AddTerm(a: array<real>, y: array<real>, c: seq<Entry>, i: nat, m: Maths)
    requires a.Length == y.Length && a != y
    requires AllNumbers(c) && i < |c|
    requires forall j :: 0 <= j < a.Length ==> a[j] == IsoSum(c[..i], y[j], m)
    modifies a
    ensures forall j :: 0 <= j < a.Length ==> a[j] == IsoSum(c[..i + 1], y[j], m)
  {
    for k := 0 to a.Length
      invariant forall j :: 0 <= j < k ==> a[j] == IsoSum(c[..i + 1], y[j], m)
      invariant forall j :: k <= j < a.Length ==> a[j] == IsoSum(c[..i], y[j], m)
    {
      IsoSumStep(c, i, y[k], m);
      a[k] := a[k] + c[i].v * m.pow(y[k], Exponent(i));
    }
  }
}
