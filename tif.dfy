// Bookkeeping of the SEM image class `Tif`: units of the Zeiss header,
// the automatic scale bar and its placement, the name a saved image gets,
// cropping, and the column/row levelling of `topology`. Pixels are grey
// levels 0..255; image decoding, fonts and drawing are not modelled.

module Tif {
  import opened Numerics
  import S = Stiffness

  // ---------------------------------------------------------------------
  // Units of the Zeiss header (all sizes of a Tif are in micrometres)
  // ---------------------------------------------------------------------

  /** The micro sign as the header spells it in "µm". */
  const Micrometre: string := "\U{00B5}m"

  /** The picture width in µm from the header's value and unit: millimetres
      and nanometres are converted, any other unit is taken as µm. */
  function ZeissWidth(value: real, unit: string): (w: real)
  {
    if unit == "mm" then value * 1000.0
    else if unit == "nm" then value / 1000.0
    else value
  }

  /** The pixel size in µm from the header's value and unit; a unit other
      than nm or µm aborts the header reading. */
  function ZeissPixelSize(value: real, unit: string): (r: Option<real>)
    ensures r.None? <==> unit != "nm" && unit != Micrometre
  {
    var size := value / 1000.0;
    if unit == "nm" then Some(size)
    else if unit == Micrometre then Some(size * 1000.0)
    else None
  }

  /** The same physical length read in any accepted unit gives the same
      value in µm. */
  lemma ZeissUnitsAgree(v: real)
    ensures ZeissWidth(v, "mm") == ZeissWidth(v * 1000.0, Micrometre) == ZeissWidth(v * 1000000.0, "nm")
    ensures ZeissPixelSize(v * 1000.0, "nm") == ZeissPixelSize(v, Micrometre) == Some(v)
  {
    assert Micrometre != "mm" && Micrometre != "nm";
  }

  /** The consistency check of the header: `None` is the division by a zero
      width; otherwise whether widthPixel·pixelSize misses the width by more
      than one per cent of it. */
  function WidthMismatch(widthPixel: int, pixelSize: real, width: real): (r: Option<bool>)
    ensures r.None? <==> width == 0.0
    ensures 0.0 < width && r.Some? ==> (r.value <==> Abs(widthPixel as real * pixelSize - width) > 0.01 * width)
    ensures width < 0.0 && r.Some? ==> !r.value
  {
    if width == 0.0 then None
    else
      var ratio := Abs(widthPixel as real * pixelSize - width) / width;
      assert 0.0 < width ==> (ratio > 0.01 <==> ratio * width > 0.01 * width);
      Some(ratio > 0.01)
  }

  /** A width derived from the pixel count and size, as conventional
      images and `setData` and `crop` derive it, never trips the check. */
  lemma DerivedWidthMatches(widthPixel: int, pixelSize: real)
    requires widthPixel as real * pixelSize != 0.0
    ensures WidthMismatch(widthPixel, pixelSize, widthPixel as real * pixelSize) == Some(false)
  {
  }

  // ---------------------------------------------------------------------
  // Scale bar
  // ---------------------------------------------------------------------

  /** `int(math.log10(q))` for a positive integer q: the power of ten of
      its leading digit. */
  function Log10Floor(q: int): (d: nat)
    requires 1 <= q
    ensures Pow10(d) <= q < Pow10(d + 1)
  {
    if q < 10 then 0 else 1 + Log10Floor(q / 10)
  }

  /** The same exponent is one less than the number of decimal digits. */
  lemma {:induction false} Log10FloorCountsDigits(q: int)
    requires 1 <= q
    ensures |NatToString(q)| == Log10Floor(q) + 1
  {
    if q >= 10 {
      Log10FloorCountsDigits(q / 10);
    }
  }

  /** The power of ten of the leading digit of round(width/4). */
  function LeadingUnit(width: real): (u: nat)
    requires RoundHalfEven(width / 4.0) >= 1
    ensures 1 <= u
  {
    Pow10(Log10Floor(RoundHalfEven(width / 4.0)))
  }

  /** A quarter of the width rounded to a multiple of its leading unit,
      counted in those units. */
  function LeadingDigit(width: real): int
    requires RoundHalfEven(width / 4.0) >= 1
  {
    RoundHalfEven(width / 4.0 / LeadingUnit(width) as real)
  }

  /** The automatic bar length: a quarter of the width rounded at its
      leading decimal digit, or 0.1 µm when that quarter rounds below 1. */
  function AutomaticLength(width: real): real
  {
    if RoundHalfEven(width / 4.0) >= 1 then LeadingDigit(width) as real * LeadingUnit(width) as real
    else 0.1
  }

  /** The length of the bar; an explicit length is used as given. */
  function BarLength(width: real, length: Option<real>): (r: real)
    ensures length.Some? ==> r == length.value
    ensures length.None? && RoundHalfEven(width / 4.0) < 1 ==> r == 0.1
  {
    if length.Some? then length.value else AutomaticLength(width)
  }

  /** The automatic length has a single significant digit k (1 ≤ k ≤ 10,
      10 when the quarter rounds up to the next power) and lies within half
      a unit of that digit of a quarter of the width. */
  lemma AutomaticLengthOneDigit(width: real)
    requires RoundHalfEven(width / 4.0) >= 1
    ensures 1 <= LeadingDigit(width) <= 10
    ensures AutomaticLength(width) == LeadingDigit(width) as real * LeadingUnit(width) as real
    ensures Abs(AutomaticLength(width) - width / 4.0) <= LeadingUnit(width) as real / 2.0
  {
    AutomaticLengthIs(width);
    LeadingDigitRange(width);
    AutomaticLengthNear(width);
  }

  lemma LeadingDigitRange(width: real)
    requires RoundHalfEven(width / 4.0) >= 1
    ensures 1 <= LeadingDigit(width) <= 10
  {
    LeadingUnitBounds(width);
    LeadingDigitBounds(width);
    DigitBetween(width / 4.0, RoundHalfEven(width / 4.0) as real, LeadingUnit(width) as real, LeadingDigit(width) as real);
  }

  lemma AutomaticLengthNear(width: real)
    requires RoundHalfEven(width / 4.0) >= 1
    ensures Abs(AutomaticLength(width) - width / 4.0) <= LeadingUnit(width) as real / 2.0
  {
    LeadingDigitBounds(width);
    AutomaticLengthIs(width);
    DigitNearQuarter(width / 4.0, LeadingUnit(width) as real, LeadingDigit(width) as real, AutomaticLength(width));
  }

  /** The leading unit is the power of ten at or just below the rounded
      quarter. */
  lemma LeadingUnitBounds(width: real)
    requires RoundHalfEven(width / 4.0) >= 1
    ensures var x := width / 4.0;
      var q := RoundHalfEven(x) as real;
      var u := LeadingUnit(width) as real;
      && (u == 1.0 || u >= 10.0) && q - 0.5 <= x <= q + 0.5 && u <= q < 10.0 * u && (u == 1.0 ==> x > 0.5)
  {
    var x := width / 4.0;
    var q := RoundHalfEven(x);
    var d := Log10Floor(q);
    if d == 0 {
      RoundsAboveHalf(x);
    } else {
      assert Pow10(d) == 10 * Pow10(d - 1);
    }
    assert LeadingUnit(width) <= q < 10 * LeadingUnit(width);
  }

  /** The leading digit is the quarter, counted in leading units, rounded. */
  lemma LeadingDigitBounds(width: real)
    requires RoundHalfEven(width / 4.0) >= 1
    ensures var k := LeadingDigit(width) as real;
      k - 0.5 <= width / 4.0 / LeadingUnit(width) as real <= k + 0.5
  {
  }

  lemma AutomaticLengthIs(width: real)
    requires RoundHalfEven(width / 4.0) >= 1
    ensures AutomaticLength(width) == LeadingDigit(width) as real * LeadingUnit(width) as real
  {
  }

  /** The arithmetic of the leading digit: x rounds to q in [u, 10u), and k
      is x/u rounded, so k lies in 1..10. */
  lemma DigitBetween(x: real, q: real, u: real, k: real)
    requires u == 1.0 || u >= 10.0
    requires q - 0.5 <= x <= q + 0.5 && u <= q < 10.0 * u
    requires u == 1.0 ==> x > 0.5
    requires k - 0.5 <= x / u <= k + 0.5
    ensures 0.0 < k < 11.0
  {
    QuarterInUnits(x, q, u);
    UnitsBounds(x, u);
  }

  /** k·u, with k the rounded x/u, lies within half a unit of x. */
  lemma DigitNearQuarter(x: real, u: real, k: real, len: real)
    requires u >= 1.0
    requires k - 0.5 <= x / u <= k + 0.5
    requires len == k * u
    ensures Abs(len - x) <= u / 2.0
  {
    DigitNear(k, x / u, u, x);
  }

  /** Python's round(x) is 1 or more only for x above one half. */
  lemma RoundsAboveHalf(x: real)
    requires RoundHalfEven(x) >= 1
    ensures x > 0.5
  {
  }

  /** A quarter x rounding to q in [u, 10u) lies between half a unit and
      ten and a half units. */
  lemma QuarterInUnits(x: real, q: real, u: real)
    requires u == 1.0 || u >= 10.0
    requires q - 0.5 <= x <= q + 0.5
    requires u <= q < 10.0 * u
    requires u == 1.0 ==> x > 0.5
    ensures 0.5 * u < x < 10.5 * u
  {
  }

  lemma PositiveFactor(z: real, u: real)
    requires 0.0 < u && 0.0 < z * u
    ensures 0.0 < z
  {
  }

  lemma UnitsBounds(x: real, u: real)
    requires 0.0 < u && 0.5 * u < x < 10.5 * u
    ensures 0.5 < x / u < 10.5
  {
    var y := x / u;
    PositiveFactor(10.5 - y, u);
    PositiveFactor(y - 0.5, u);
  }

  /** The digit k nearest to y = x/u gives k·u within u/2 of x. */
  lemma DigitNear(k: real, y: real, u: real, x: real)
    requires 0.0 < u && y == x / u && -0.5 <= k - y <= 0.5
    ensures Abs(k * u - x) <= u / 2.0
  {
    assert x == y * u;
    assert k * u - x == (k - y) * u;
    assert -0.5 * u <= (k - y) * u <= 0.5 * u;
  }

  /** n ≤ p/w < n + 1 for a positive w bounds p between n·w and n·w + w. */
  lemma QuotientBounds(p: real, w: real, n: real)
    requires 0.0 < w && n <= p / w < n + 1.0
    ensures n * w <= p < n * w + w
  {
    var q := p / w;
    assert q * w == p;
    if n < q {
      PositiveProduct(q - n, w);
    }
    assert (q - n) * w == p - n * w;
    var z := n + 1.0 - q;
    PositiveProduct(z, w);
    assert 0.0 < z * w;
    assert z * w == n * w + w - p;
  }

  /** `int(widthPixel·bestLength/width)`; `None` is the division by a zero
      width. The bar covers at most bestLength, and one pixel more would
      cover more than it. */
  function BarPixels(widthPixel: int, bestLength: real, width: real): (r: Option<int>)
    ensures r.None? <==> width == 0.0
    ensures r.Some? && 0.0 < width && 0.0 <= widthPixel as real * bestLength ==>
      0 <= r.value
      && r.value as real * width <= widthPixel as real * bestLength < r.value as real * width + width
  {
    if width == 0.0 then None
    else
      var x := widthPixel as real * bestLength / width;
      var n := Trunc(x);
      if 0.0 < width && 0.0 <= widthPixel as real * bestLength then
        assert 0.0 <= x;
        QuotientBounds(widthPixel as real * bestLength, width, n as real);
        Some(n)
      else Some(n)
  }

  /** Python's `str` of an integer. */
  function IntToString(n: int): (s: string)
  {
    if n < 0 then "-" + NatToString(-n) else NatToString(n)
  }

  /** The text of the bar: the length in whole nm below half a µm,
      otherwise in whole µm. */
  function Label(bestLength: real): (s: string)
  {
    if bestLength < 0.5 then IntToString(Trunc(bestLength * 1000.0)) + " nm"
    else IntToString(Trunc(bestLength)) + " \U{03BC}m"
  }

  /** For a non-negative length the label is a number and a unit, and the
      number is the length in that unit, truncated. */
  lemma LabelReadsBack(bestLength: real)
    requires 0.0 <= bestLength
    ensures var s := Label(bestLength);
      var n := |s| - 3;
      0 < n && (forall i :: 0 <= i < n ==> '0' <= s[i] <= '9')
      && (bestLength < 0.5 ==>
            s[n..] == " nm" && DigitsValue(s[..n]) as real <= 1000.0 * bestLength < DigitsValue(s[..n]) as real + 1.0)
      && (0.5 <= bestLength ==>
            s[n..] == " \U{03BC}m" && DigitsValue(s[..n]) as real <= bestLength < DigitsValue(s[..n]) as real + 1.0)
  {
    var v := if bestLength < 0.5 then bestLength * 1000.0 else bestLength;
    var k := Trunc(v);
    NatToStringRoundTrip(k);
    var s := Label(bestLength);
    assert s[..|s| - 3] == NatToString(k);
  }

  /** `scale` of `addScaleBar`: a negative value selects widthPixel/16. */
  function BarScale(scale: real, widthPixel: int): (r: real)
    ensures scale < 0.0 ==> 16.0 * r == widthPixel as real
    ensures 0.0 <= scale ==> r == scale
  {
    if scale < 0.0 then widthPixel as real / 16.0 else scale
  }

  /** Top-left corner of the bar's box, which is barPixel + scale/5 wide
      and scale high: flush with the right edge for "BR" and "TR",
      centred for "B", at the left edge otherwise; at the top for "TL" and
      "TR", at the bottom otherwise. */
  function BarOrigin(site: string, widthPixel: int, heightPixel: int, barPixel: int, scale: real): (o: (real, real))
    ensures var boxWidth := barPixel as real + scale / 5.0;
      (site == "BR" || site == "TR" ==> o.0 + boxWidth == widthPixel as real)
      && (site == "B" ==> o.0 + boxWidth / 2.0 == widthPixel as real / 2.0)
      && (site != "BR" && site != "TR" && site != "B" ==> o.0 == 0.0)
      && (site == "TL" || site == "TR" ==> o.1 == 0.0)
      && (site != "TL" && site != "TR" ==> o.1 + scale == heightPixel as real)
  {
    var right := widthPixel as real - barPixel as real - scale / 5.0;
    var bottom := heightPixel as real - scale;
    if site == "BR" then (right, bottom)
    else if site == "TL" then (0.0, 0.0)
    else if site == "TR" then (right, 0.0)
    else if site == "B" then (right / 2.0, bottom)
    else (0.0, bottom)
  }

  /** What `addScaleBar` draws: the box's corner, the scale and the label. */
  datatype Layout = Layout(x: real, y: real, scale: real, text: string)

  // ---------------------------------------------------------------------
  // Names of saved images
  // ---------------------------------------------------------------------

  /** The last index holding c, or -1. */
  function LastIndexOf(p: string, c: char): (i: int)
    ensures -1 <= i < |p|
    ensures 0 <= i ==> p[i] == c
    ensures forall j :: i < j < |p| ==> p[j] != c
  {
    if |p| == 0 then -1
    else if p[|p| - 1] == c then |p| - 1
    else LastIndexOf(p[..|p| - 1], c)
  }

  /** Appending text without c leaves the last c where it was. */
  lemma {:induction false} LastIndexOfAppend(p: string, q: string, c: char)
    requires forall j :: 0 <= j < |q| ==> q[j] != c
    ensures LastIndexOf(p + q, c) == LastIndexOf(p, c)
  {
    if |q| > 0 {
      var q' := q[..|q| - 1];
      assert (p + q)[..|p + q| - 1] == p + q';
      LastIndexOfAppend(p, q', c);
    } else {
      assert p + q == p;
    }
  }

  /** Where `os.path.splitext` (POSIX) cuts a path: at the last '.' of the
      last path component, unless only dots precede it in that component. */
  function RootEnd(p: string): (k: nat)
    ensures k <= |p|
    ensures k < |p| ==> p[k] == '.' && forall j :: k < j < |p| ==> p[j] != '.' && p[j] != '/'
  {
    var sep := LastIndexOf(p, '/');
    var dot := LastIndexOf(p, '.');
    if dot > sep && exists j :: sep < j < dot && p[j] != '.' then dot else |p|
  }

  /** The extensions `save` appends to the base name. */
  predicate KnownFileType(fileType: string) {
    fileType == "png" || fileType == "jpg" || fileType == "eps"
  }

  /** The name `save` writes to: the base name of the image's file plus
      the extension; any other fileType is the whole name. */
  function SavedName(fileName: string, fileType: string): (r: string)
    ensures KnownFileType(fileType) ==> r == fileName[..RootEnd(fileName)] + "." + fileType
    ensures !KnownFileType(fileType) ==> r == fileType
  {
    var base := fileName[..RootEnd(fileName)];
    if fileType == "png" then base + ".png"
    else if fileType == "jpg" then base + ".jpg"
    else if fileType == "eps" then base + ".eps"
    else fileType
  }

  /** Splitting the saved name again gives back the base name and the new
      extension, whenever the base name ends in a component with some
      character other than a dot. */
  lemma SavedNameSplitsBack(fileName: string, fileType: string)
    requires KnownFileType(fileType)
    requires var base := fileName[..RootEnd(fileName)];
      exists j :: LastIndexOf(base, '/') < j < |base| && base[j] != '.'
    ensures var base := fileName[..RootEnd(fileName)];
      var saved := SavedName(fileName, fileType);
      saved[..RootEnd(saved)] == base && saved[RootEnd(saved)..] == "." + fileType
  {
    var base := fileName[..RootEnd(fileName)];
    var saved := SavedName(fileName, fileType);
    var ext := "." + fileType;
    assert saved == base + ext;
    assert ext == ['.'] + fileType;
    assert saved == (base + ['.']) + fileType;
    LastIndexOfAppend(base, ext, '/');
    LastIndexOfAppend(base + ['.'], fileType, '.');
    assert LastIndexOf(base + ['.'], '.') == |base|;
    var j :| LastIndexOf(base, '/') < j < |base| && base[j] != '.';
    assert saved[j] == base[j];
    assert RootEnd(saved) == |base|;
  }

  // ---------------------------------------------------------------------
  // Images, cropping and levelling
  // ---------------------------------------------------------------------

  /** A grey image: its rows of pixels and its number of columns. */
  datatype Gray = Gray(columns: nat, rows: seq<seq<int>>)

  predicate Shaped(g: Gray) {
    forall r :: 0 <= r < |g.rows| ==> |g.rows[r]| == g.columns
  }

  /** The range kept along one axis by `crop`: a bound of -1 is unset;
      if both bounds are set, or one is set and the other -1, they slice as
      Python does; any other combination keeps the axis whole. */
  function CropRange(lo: int, hi: int, n: nat): (r: (nat, nat))
    ensures r.0 <= r.1 <= n
    ensures lo == -1 && hi == -1 ==> r == (0, n)
    ensures 0 <= lo && 0 <= hi ==> r.1 - r.0 == (if lo < hi then Min2(hi, n) - Min2(lo, n) else 0)
  {
    var ends :=
      if lo > -1 && hi > -1 then (S.SliceBound(lo, n), S.SliceBound(hi, n))
      else if lo == -1 && hi > -1 then (0, S.SliceBound(hi, n))
      else if lo > -1 && hi == -1 then (S.SliceBound(lo, n), n)
      else (0, n);
    if ends.0 <= ends.1 then ends else (ends.0, ends.0)
  }

  function Min2(a: int, b: int): (m: int) {
    if a < b then a else b
  }

  /** The image `crop` leaves: the columns of the x range of the rows of
      the y range, each pixel taken from its place in the original. */
  function Cropped(g: Gray, xMin: int, xMax: int, yMin: int, yMax: int): (r: Gray)
    requires Shaped(g)
    ensures Shaped(r)
    ensures var cs := CropRange(xMin, xMax, g.columns);
      var rs := CropRange(yMin, yMax, |g.rows|);
      r.columns == cs.1 - cs.0 && |r.rows| == rs.1 - rs.0
      && forall i, j :: 0 <= i < |r.rows| && 0 <= j < r.columns ==> r.rows[i][j] == g.rows[rs.0 + i][cs.0 + j]
  {
    var cs := CropRange(xMin, xMax, g.columns);
    var rs := CropRange(yMin, yMax, |g.rows|);
    Gray(cs.1 - cs.0, seq(rs.1 - rs.0, i requires 0 <= i < rs.1 - rs.0 =>
      seq(cs.1 - cs.0, j requires 0 <= j < cs.1 - cs.0 => g.rows[rs.0 + i][cs.0 + j])))
  }

  /** Cropping keeps grey levels grey levels. */
  lemma CroppedGreyLevels(g: Gray, xMin: int, xMax: int, yMin: int, yMax: int)
    requires Shaped(g) && GreyLevels(g)
    ensures GreyLevels(Cropped(g, xMin, xMax, yMin, yMax))
  {
    var r := Cropped(g, xMin, xMax, yMin, yMax);
    var cs := CropRange(xMin, xMax, g.columns);
    var rs := CropRange(yMin, yMax, |g.rows|);
    forall i, j | 0 <= i < |r.rows| && 0 <= j < |r.rows[i]|
      ensures 0 <= r.rows[i][j] < 256
    {
      assert r.rows[i][j] == g.rows[rs.0 + i][cs.0 + j];
    }
  }

  /** With no bound set, cropping changes nothing. */
  lemma CropUnsetKeeps(g: Gray)
    requires Shaped(g)
    ensures Cropped(g, -1, -1, -1, -1) == g
  {
    var r := Cropped(g, -1, -1, -1, -1);
    forall i | 0 <= i < |g.rows|
      ensures r.rows[i] == g.rows[i]
    {
      assert forall j :: 0 <= j < g.columns ==> r.rows[i][j] == g.rows[i][j];
    }
  }

  function Sum(s: seq<real>): (t: real) {
    if |s| == 0 then 0.0 else s[0] + Sum(s[1..])
  }

  /** A grey level stretched by g.0 and shifted by g.1. */
  function Apply(x: real, g: (real, real)): (y: real) {
    x * g.0 + g.1
  }

  /** Summing an affine image of a sequence. */
  lemma {:induction false} SumAffine(x: seq<real>, y: seq<real>, g: (real, real))
    requires |x| == |y|
    requires forall i :: 0 <= i < |x| ==> y[i] == Apply(x[i], g)
    ensures Sum(y) == g.0 * Sum(x) + |x| as real * g.1
  {
    if |x| > 0 {
      SumAffine(x[1..], y[1..], g);
    }
  }

  /** The image as numpy floats: each grey level divided by 255. */
  function Scaled(g: Gray): (a: seq<seq<real>>)
    requires Shaped(g)
    ensures |a| == |g.rows| && forall r :: 0 <= r < |a| ==> |a[r]| == g.columns
  {
    seq(|g.rows|, r requires 0 <= r < |g.rows| =>
      seq(g.columns, c requires 0 <= c < g.columns => g.rows[r][c] as real / 255.0))
  }

  function Column(a: seq<seq<real>>, c: nat): (col: seq<real>)
    requires forall r :: 0 <= r < |a| ==> c < |a[r]|
    ensures |col| == |a|
  {
    seq(|a|, r requires 0 <= r < |a| => a[r][c])
  }

  function RowSums(a: seq<seq<real>>): (s: seq<real>)
    ensures |s| == |a|
  {
    seq(|a|, r requires 0 <= r < |a| => Sum(a[r]))
  }

  /** numpy's `mean` over all pixels of a rows × columns array. */
  function Mean(a: seq<seq<real>>, columns: nat): (mean: real)
    requires |a| > 0 && columns > 0
  {
    Sum(RowSums(a)) / (|a| * columns) as real
  }

  /** The average of column k (vertical) or row k, as `topology` computes
      it: the sum divided by the image's height or width. */
  function Average(a: seq<seq<real>>, columns: nat, vertical: bool, k: nat): (avg: real)
    requires |a| > 0 && columns > 0
    requires forall r :: 0 <= r < |a| ==> |a[r]| == columns
    requires k < (if vertical then columns else |a|)
  {
    if vertical then Sum(Column(a, k)) / |a| as real else Sum(a[k]) / columns as real
  }

  /** The contrast factor of one column or row: mean/average clamped below
      at 1 and above at upperEnd (a zero average makes numpy's quotient
      infinite, which the upper clamp catches). */
  function EffScale(mean: real, average: real, upperEnd: real): (e: real)
    ensures 1.0 <= upperEnd ==> 1.0 <= e <= upperEnd
    ensures average != 0.0 && 1.0 <= mean / average <= upperEnd ==> e == mean / average
    ensures average != 0.0 && mean / average < 1.0 ==> e == 1.0
  {
    if average == 0.0 then upperEnd
    else
      var s := mean / average;
      if s < 1.0 then 1.0 else if s > upperEnd then upperEnd else s
  }

  /** The stretch and shift of column (vertical) or row k: the contrast
      factor, and the shift that brings the stretched average back to the
      mean. */
  function Factor(a: seq<seq<real>>, columns: nat, vertical: bool, upperEnd: real, k: nat): (f: (real, real))
    requires |a| > 0 && columns > 0
    requires forall r :: 0 <= r < |a| ==> |a[r]| == columns
    requires k < (if vertical then columns else |a|)
  {
    var mean := Mean(a, columns);
    var average := Average(a, columns, vertical, k);
    var e := EffScale(mean, average, upperEnd);
    (e, mean - average * e)
  }

  /** The factor keeps the contrast within [1, upperEnd] and maps the
      average of its column (row) to the mean. */
  lemma FactorRestoresMean(a: seq<seq<real>>, columns: nat, vertical: bool, upperEnd: real, k: nat)
    requires |a| > 0 && columns > 0
    requires forall r :: 0 <= r < |a| ==> |a[r]| == columns
    requires k < (if vertical then columns else |a|)
    ensures var f := Factor(a, columns, vertical, upperEnd, k);
      (1.0 <= upperEnd ==> 1.0 <= f.0 <= upperEnd)
      && Apply(Average(a, columns, vertical, k), f) == Mean(a, columns)
  {
  }

  /** The factors of all columns (vertical) or rows, computed from the
      image before any is changed. */
  function Gains(a: seq<seq<real>>, columns: nat, vertical: bool, upperEnd: real): (gs: seq<(real, real)>)
    requires |a| > 0 && columns > 0
    requires forall r :: 0 <= r < |a| ==> |a[r]| == columns
    ensures |gs| == if vertical then columns else |a|
  {
    seq(if vertical then columns else |a|, k requires 0 <= k < (if vertical then columns else |a|) =>
      Factor(a, columns, vertical, upperEnd, k))
  }

  /** The stretch and shift pixel (r, c) undergoes when the indices
      lo..hi-1 are treated: its column's (row's) gain, or none at all. */
  function Gain(gains: seq<(real, real)>, vertical: bool, lo: nat, hi: nat, r: nat, c: nat): (g: (real, real))
    requires (if vertical then c else r) < |gains|
  {
    var k := if vertical then c else r;
    if lo <= k < hi then gains[k] else (1.0, 0.0)
  }

  /** The levelled image: every column (vertical) or row with index in
      lo..hi-1 stretched and shifted by its gain, the rest unchanged. */
  function Levelled(a: seq<seq<real>>, columns: nat, vertical: bool, gains: seq<(real, real)>, lo: nat, hi: nat)
    : (b: seq<seq<real>>)
    requires forall r :: 0 <= r < |a| ==> |a[r]| == columns
    requires |gains| == if vertical then columns else |a|
    ensures Partly(a, b, columns, vertical, gains, lo, hi)
  {
    seq(|a|, r requires 0 <= r < |a| =>
      seq(columns, c requires 0 <= c < columns => Apply(a[r][c], Gain(gains, vertical, lo, hi, r, c))))
  }

  /** b is a levelled with the indices lo..i-1 treated. */
  predicate Partly(a: seq<seq<real>>, b: seq<seq<real>>, columns: nat, vertical: bool, gains: seq<(real, real)>,
                   lo: nat, i: nat)
    requires forall r :: 0 <= r < |a| ==> |a[r]| == columns
    requires |gains| == if vertical then columns else |a|
  {
    |b| == |a| && (forall r :: 0 <= r < |b| ==> |b[r]| == columns)
    && forall r, c :: 0 <= r < |a| && 0 <= c < columns ==>
      b[r][c] == Apply(a[r][c], Gain(gains, vertical, lo, i, r, c))
  }

  /** An empty range of indices leaves the image as it is. */
  lemma LevelledNothing(a: seq<seq<real>>, columns: nat, vertical: bool, gains: seq<(real, real)>, lo: nat, hi: nat)
    requires forall r :: 0 <= r < |a| ==> |a[r]| == columns
    requires |gains| == if vertical then columns else |a|
    requires hi <= lo
    ensures Levelled(a, columns, vertical, gains, lo, hi) == a
  {
    var b := Levelled(a, columns, vertical, gains, lo, hi);
    forall r | 0 <= r < |a|
      ensures b[r] == a[r]
    {
      forall c | 0 <= c < columns
        ensures b[r][c] == a[r][c]
      {
        assert Gain(gains, vertical, lo, hi, r, c) == (1.0, 0.0);
      }
    }
  }

  /** An image agreeing pixel by pixel with the levelled one is it. */
  lemma LevelledEqual(a: seq<seq<real>>, b: seq<seq<real>>, columns: nat, vertical: bool, gains: seq<(real, real)>,
                      lo: nat, hi: nat)
    requires forall r :: 0 <= r < |a| ==> |a[r]| == columns
    requires |gains| == if vertical then columns else |a|
    requires Partly(a, b, columns, vertical, gains, lo, hi)
    ensures b == Levelled(a, columns, vertical, gains, lo, hi)
  {
    var l := Levelled(a, columns, vertical, gains, lo, hi);
    forall r | 0 <= r < |a|
      ensures b[r] == l[r]
    {
      assert forall c :: 0 <= c < columns ==> b[r][c] == l[r][c];
    }
  }

  /** Averages of an affine image of a column or row. */
  lemma AffineAverage(sx: real, sy: real, n: real, g: (real, real))
    requires 0.0 < n && sy == g.0 * sx + n * g.1
    ensures sy / n == Apply(sx / n, g)
  {
    assert sy / n == g.0 * sx / n + n * g.1 / n;
  }

  /** Stretching and shifting column (row) k of an image stretches and
      shifts its average alike. */
  lemma AverageOfAffine(a: seq<seq<real>>, b: seq<seq<real>>, columns: nat, vertical: bool, k: nat, g: (real, real))
    requires |a| > 0 && columns > 0 && |b| == |a|
    requires forall r :: 0 <= r < |a| ==> |a[r]| == columns && |b[r]| == columns
    requires k < (if vertical then columns else |a|)
    requires vertical ==> forall r :: 0 <= r < |a| ==> b[r][k] == Apply(a[r][k], g)
    requires !vertical ==> forall c :: 0 <= c < columns ==> b[k][c] == Apply(a[k][c], g)
    ensures Average(b, columns, vertical, k) == Apply(Average(a, columns, vertical, k), g)
  {
    var n := if vertical then |a| else columns;
    var x, y;
    if vertical {
      x, y := Column(a, k), Column(b, k);
    } else {
      x, y := a[k], b[k];
    }
    SumAffine(x, y, g);
    AffineAverage(Sum(x), Sum(y), n as real, g);
  }

  /** After levelling, every treated column (or row) has the image's
      original mean as its average; the others keep their average. */
  lemma LevelledAverage(a: seq<seq<real>>, columns: nat, vertical: bool, upperEnd: real, lo: nat, hi: nat, k: nat)
    requires |a| > 0 && columns > 0
    requires forall r :: 0 <= r < |a| ==> |a[r]| == columns
    requires k < (if vertical then columns else |a|)
    ensures var b := Levelled(a, columns, vertical, Gains(a, columns, vertical, upperEnd), lo, hi);
      Average(b, columns, vertical, k) == if lo <= k < hi then Mean(a, columns) else Average(a, columns, vertical, k)
  {
    var gains := Gains(a, columns, vertical, upperEnd);
    var b := Levelled(a, columns, vertical, gains, lo, hi);
    var g := if lo <= k < hi then gains[k] else (1.0, 0.0);
    if vertical {
      assert forall r :: 0 <= r < |a| ==> Gain(gains, vertical, lo, hi, r, k) == g;
    } else {
      assert forall c :: 0 <= c < columns ==> Gain(gains, vertical, lo, hi, k, c) == g;
    }
    AverageOfAffine(a, b, columns, vertical, k, g);
    if lo <= k < hi {
      FactorRestoresMean(a, columns, vertical, upperEnd, k);
    }
  }

  /** The grey levels numpy's `astype(uint8)` makes of 255 times the
      floats; the conversion itself is a parameter. */
  function Bytes(a: seq<seq<real>>, columns: nat, toByte: real -> int): (g: Gray)
    requires forall r :: 0 <= r < |a| ==> |a[r]| == columns
    ensures Shaped(g) && |g.rows| == |a|
  {
    Gray(columns, seq(|a|, r requires 0 <= r < |a| =>
      seq(columns, c requires 0 <= c < columns => toByte(a[r][c] * 255.0))))
  }

  /** The conversion keeps every grey level 0..255. */
  ghost predicate ByteLaw(toByte: real -> int) {
    forall b: int {:trigger toByte(b as real)} :: 0 <= b < 256 ==> toByte(b as real) == b
  }

  /** `astype(uint8)` gives a grey level 0..255 for every float. */
  ghost predicate ByteRange(toByte: real -> int) {
    forall x :: 0 <= toByte(x) < 256
  }

  predicate GreyLevels(g: Gray) {
    forall r, c :: 0 <= r < |g.rows| && 0 <= c < |g.rows[r]| ==> 0 <= g.rows[r][c] < 256
  }

  /** Converting to floats and back gives the image again. */
  lemma BytesOfScaled(g: Gray, toByte: real -> int)
    requires Shaped(g) && GreyLevels(g) && ByteLaw(toByte)
    ensures Bytes(Scaled(g), g.columns, toByte) == g
  {
    var b := Bytes(Scaled(g), g.columns, toByte);
    forall r | 0 <= r < |g.rows|
      ensures b.rows[r] == g.rows[r]
    {
      forall c | 0 <= c < g.columns
        ensures b.rows[r][c] == g.rows[r][c]
      {
        var v := g.rows[r][c];
        assert v as real / 255.0 * 255.0 == v as real;
        assert toByte(v as real) == v;
      }
    }
  }

  /** Column c of every row stretched and shifted by g. */
  function StretchColumn(b: seq<seq<real>>, columns: nat, c: nat, g: (real, real)): (b': seq<seq<real>>)
    requires c < columns && forall r :: 0 <= r < |b| ==> |b[r]| == columns
    ensures |b'| == |b| && forall r :: 0 <= r < |b'| ==> |b'[r]| == columns
    ensures forall r, j :: 0 <= r < |b| && 0 <= j < columns ==>
      b'[r][j] == if j == c then Apply(b[r][j], g) else b[r][j]
  {
    seq(|b|, r requires 0 <= r < |b| => b[r][c := Apply(b[r][c], g)])
  }

  /** Row k stretched and shifted by g. */
  function StretchRow(b: seq<seq<real>>, columns: nat, k: nat, g: (real, real)): (b': seq<seq<real>>)
    requires k < |b| && forall r :: 0 <= r < |b| ==> |b[r]| == columns
    ensures |b'| == |b| && forall r :: 0 <= r < |b'| ==> |b'[r]| == columns
    ensures forall r, j :: 0 <= r < |b| && 0 <= j < columns ==>
      b'[r][j] == if r == k then Apply(b[r][j], g) else b[r][j]
  {
    b[k := seq(columns, j requires 0 <= j < columns => Apply(b[k][j], g))]
  }

  /** Treating index i next extends the treated range by one. */
  lemma StretchStep(a: seq<seq<real>>, b: seq<seq<real>>, b': seq<seq<real>>, columns: nat, vertical: bool,
                    gains: seq<(real, real)>, lo: nat, i: nat)
    requires forall r :: 0 <= r < |a| ==> |a[r]| == columns
    requires |gains| == if vertical then columns else |a|
    requires lo <= i < |gains|
    requires Partly(a, b, columns, vertical, gains, lo, i)
    requires b' == if vertical then StretchColumn(b, columns, i, gains[i]) else StretchRow(b, columns, i, gains[i])
    ensures Partly(a, b', columns, vertical, gains, lo, i + 1)
  {
    forall r, c | 0 <= r < |a| && 0 <= c < columns
      ensures b'[r][c] == Apply(a[r][c], Gain(gains, vertical, lo, i + 1, r, c))
    {
      var k := if vertical then c else r;
      if k == i {
        assert Gain(gains, vertical, lo, i, r, c) == (1.0, 0.0);
        assert b[r][c] == a[r][c];
        assert b'[r][c] == Apply(a[r][c], gains[i]);
      } else {
        assert Gain(gains, vertical, lo, i + 1, r, c) == Gain(gains, vertical, lo, i, r, c);
      }
    }
  }

  /** The loop of `topology`: the columns (rows) lo..hi-1 are stretched
      and shifted one after the other. */
  method Level(a: seq<seq<real>>, columns: nat, vertical: bool, gains: seq<(real, real)>, lo: nat, hi: nat)
    returns (b: seq<seq<real>>)
    requires forall r :: 0 <= r < |a| ==> |a[r]| == columns
    requires |gains| == if vertical then columns else |a|
    requires lo < hi ==> hi <= |gains|
    ensures b == Levelled(a, columns, vertical, gains, lo, hi)
  {
    b := a;
    if hi <= lo {
      LevelledNothing(a, columns, vertical, gains, lo, hi);
      return;
    }
    var i := lo;
    while i < hi
      invariant lo <= i <= hi
      invariant Partly(a, b, columns, vertical, gains, lo, i)
    {
      var b' := if vertical then StretchColumn(b, columns, i, gains[i]) else StretchRow(b, columns, i, gains[i]);
      StretchStep(a, b, b', columns, vertical, gains, lo, i);
      b, i := b', i + 1;
    }
    LevelledEqual(a, b, columns, vertical, gains, lo, hi);
  }

  /** The outcome of `topology`. */
  datatype Levelling =
    | Done
      /** the loop reaches past the last column (row): its IndexError */
    | LevelIndexError
      /** an all-black image: numpy's 0/0 makes every treated pixel NaN */
    | LevelUndefined

  // ---------------------------------------------------------------------
  // The image object
  // ---------------------------------------------------------------------

  class Tif {
    var fileName: string
    var image: Gray
    var pixelSize: real
    var width: real
    var widthPixel: int
    var heightPixel: int
    var bestLength: real
    var barPixel: int

    /** An image is loaded and the pixel counts are its size. */
    predicate Valid()
      reads this
    {
      Shaped(image) && GreyLevels(image)
      && widthPixel == image.columns && heightPixel == |image.rows|
    }

    /** The defaults before a file is read: sizes -1 and no image. */
    constructor (fileName: string)
      ensures this.fileName == fileName && image == Gray(0, [])
      ensures pixelSize == -1.0 && width == -1.0 && widthPixel == -1 && heightPixel == -1
      ensures bestLength == -1.0 && barPixel == -1
    {
      this.fileName := fileName;
      image := Gray(0, []);
      pixelSize := -1.0;
      width := -1.0;
      widthPixel := -1;
      heightPixel := -1;
      bestLength := -1.0;
      barPixel := -1;
    }

    /** `initConventional` and `setData`: the image with a given pixel
        size, the width derived from it. */
    method SetData(img: Gray, size: real)
      requires Shaped(img) && GreyLevels(img)
      modifies this`image, this`pixelSize, this`width, this`widthPixel, this`heightPixel
      ensures Valid() && image == img && pixelSize == size
      ensures width == widthPixel as real * pixelSize
    {
      image := img;
      widthPixel, heightPixel := img.columns, |img.rows|;
      pixelSize := size;
      width := pixelSize * widthPixel as real;
    }

    /** `initZeiss` after the header is parsed: the width and the pixel
        size in µm, then the pixel counts and the one per cent check. An
        unknown pixel-size unit stops after the width and the raw size
        (in the header's value / 1000) are stored. */
    method InitZeiss(img: Gray, widthValue: real, widthUnit: string, sizeValue: real, sizeUnit: string,
                     storedWidth: int, storedHeight: int)
      returns (r: Option<Option<bool>>)
      requires Shaped(img) && GreyLevels(img)
      modifies this`image, this`pixelSize, this`width, this`widthPixel, this`heightPixel
      ensures image == img && width == ZeissWidth(widthValue, widthUnit)
      ensures r.None? <==> ZeissPixelSize(sizeValue, sizeUnit).None?
      ensures r.None? ==>
        pixelSize == sizeValue / 1000.0 && widthPixel == old(widthPixel) && heightPixel == old(heightPixel)
      ensures r.Some? ==>
        Some(pixelSize) == ZeissPixelSize(sizeValue, sizeUnit) && widthPixel == storedWidth
        && heightPixel == storedHeight && r.value == WidthMismatch(widthPixel, pixelSize, width)
    {
      image := img;
      width := ZeissWidth(widthValue, widthUnit);
      pixelSize := sizeValue / 1000.0;
      var size := ZeissPixelSize(sizeValue, sizeUnit);
      if size.None? {
        return None;
      }
      pixelSize := size.value;
      widthPixel, heightPixel := storedWidth, storedHeight;
      r := Some(WidthMismatch(widthPixel, pixelSize, width));
    }

    /** `findScaleBar`: the bar length and its size in pixels. With a zero
        width the length is stored and the pixel count raises. */
    method FindScaleBar(length: Option<real>) returns (ok: bool)
      modifies this`bestLength, this`barPixel
      ensures bestLength == BarLength(width, length)
      ensures ok <==> width != 0.0
      ensures ok ==> Some(barPixel) == BarPixels(widthPixel, bestLength, width)
      ensures !ok ==> barPixel == old(barPixel)
    {
      bestLength := BarLength(width, length);
      var pixels := BarPixels(widthPixel, bestLength, width);
      if pixels.None? {
        return false;
      }
      barPixel := pixels.value;
      ok := true;
    }

    /** `addScaleBar` up to the drawing: the bar is recomputed when none
        exists yet or a length is given, then placed and labelled. `None`
        is the ZeroDivisionError of a recomputation with a zero width. */
    method AddScaleBar(site: string, length: Option<real>, scale: real) returns (r: Option<Layout>)
      modifies this`bestLength, this`barPixel
      ensures var recompute := old(bestLength) < 0.0 || length.Some?;
        (r.None? <==> recompute && width == 0.0)
        && (recompute ==> bestLength == BarLength(width, length))
        && (!recompute ==> bestLength == old(bestLength) && barPixel == old(barPixel))
        && (recompute && r.Some? ==> Some(barPixel) == BarPixels(widthPixel, bestLength, width))
      ensures r.Some? ==>
        var s := BarScale(scale, widthPixel);
        var o := BarOrigin(site, widthPixel, heightPixel, barPixel, s);
        r.value == Layout(o.0, o.1, s, Label(bestLength))
    {
      if bestLength < 0.0 || length.Some? {
        var ok := FindScaleBar(length);
        if !ok {
          return None;
        }
      }
      var s := BarScale(scale, widthPixel);
      var o := BarOrigin(site, widthPixel, heightPixel, barPixel, s);
      r := Some(Layout(o.0, o.1, s, Label(bestLength)));
    }

    /** `save`: the name the image is written to. */
    method Save(fileType: string) returns (name: string)
      ensures name == SavedName(fileName, fileType)
    {
      var base := fileName[..RootEnd(fileName)];
      if fileType == "png" {
        name := base + ".png";
      } else if fileType == "jpg" {
        name := base + ".jpg";
      } else if fileType == "eps" {
        name := base + ".eps";
      } else {
        name := fileType;
      }
    }

    /** `crop`: the image is cut and the width follows the new pixel count. */
    method Crop(xMin: int, xMax: int, yMin: int, yMax: int)
      requires Valid()
      modifies this`image, this`widthPixel, this`heightPixel, this`width
      ensures Valid() && image == Cropped(old(image), xMin, xMax, yMin, yMax)
      ensures width == widthPixel as real * pixelSize
    {
      CroppedGreyLevels(image, xMin, xMax, yMin, yMax);
      image := Cropped(image, xMin, xMax, yMin, yMax);
      widthPixel, heightPixel := image.columns, |image.rows|;
      width := widthPixel as real * pixelSize;
    }

    /** `topology`: stretch and shift the columns (axis "V") or rows in
        start..end-1 so that each has the image's mean as its average; a
        negative start counts from 0 and a negative end means all. An
        empty range runs no iteration, so an end past the last column
        raises only when the loop reaches it, and leaves the image as it
        is. The cast to grey levels is `toByte`, with numpy's laws. */
    method Topology(axis: string, upperEnd: real, start: int, end: int, toByte: real -> int)
      returns (r: Levelling)
      requires Valid() && widthPixel > 0 && heightPixel > 0
      requires ByteRange(toByte) && ByteLaw(toByte)
      modifies this`image
      ensures Valid()
      ensures var count := if axis == "V" then widthPixel else heightPixel;
        (if end < 0 then count else end) <= (if start < 0 then 0 else start) ==> r == Done && image == old(image)
      ensures var a := Scaled(old(image));
        var vertical := axis == "V";
        var count := if vertical then widthPixel else heightPixel;
        var lo := if start < 0 then 0 else start;
        var hi := if end < 0 then count else end;
        (r == LevelIndexError <==> lo < hi && hi > count)
        && (r == LevelUndefined <==> hi <= count && lo < hi && Mean(a, widthPixel) == 0.0)
        && (r == Done ==>
              image == Bytes(Levelled(a, widthPixel, vertical, Gains(a, widthPixel, vertical, upperEnd), lo, hi),
                             widthPixel, toByte))
        && (r != Done ==> image == old(image))
    {
      var a := Scaled(image);
      var vertical := axis == "V";
      var count := if vertical then widthPixel else heightPixel;
      var lo := if start < 0 then 0 else start;
      var hi := if end < 0 then count else end;
      if lo < hi && hi > count {
        return LevelIndexError;
      }
      var mean := Mean(a, widthPixel);
      if lo < hi && mean == 0.0 {
        return LevelUndefined;
      }
      var gains := Gains(a, widthPixel, vertical, upperEnd);
      var b := Level(a, widthPixel, vertical, gains, lo, hi);
      if hi <= lo {
        LevelledNothing(a, widthPixel, vertical, gains, lo, hi);
        BytesOfScaled(image, toByte);
      }
      image := Bytes(b, widthPixel, toByte);
      r := Done;
    }
  }
}
