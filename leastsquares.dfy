/** The straight line numpy's `polyfit(x, y, 1)` fits, in closed form:
    the slope and intercept solving the normal equations, `None` where
    their matrix is singular. The fitted line has the least squared error
    of all lines, and samples on a line give back that line. */
module LeastSquares {
  import opened Numerics

  /** The sums a straight-line fit needs: the count, Σx, Σy, Σx² and Σxy. */
  datatype Moments = Moments(n: real, sx: real, sy: real, sxx: real, sxy: real)

  const NoMoments := Moments(0.0, 0.0, 0.0, 0.0, 0.0)

  /** The sums with one more sample. */
  function AddSample(m: Moments, x: real, y: real): Moments
  {
    Moments(m.n + 1.0, m.sx + x, m.sy + y, m.sxx + x * x, m.sxy + x * y)
  }

  function MomentsOf(x: seq<real>, y: seq<real>): (m: Moments)
    requires |x| == |y|
    ensures m.n == |x| as real
  {
    if x == [] then NoMoments
    else AddSample(MomentsOf(x[..|x| - 1], y[..|y| - 1]), x[|x| - 1], y[|y| - 1])
  }

  lemma MomentsSnoc(x: seq<real>, y: seq<real>, k: nat)
    requires k + 1 == |x| == |y|
    ensures MomentsOf(x, y) == AddSample(MomentsOf(x[..k], y[..k]), x[k], y[k])
  {
    assert y[..|y| - 1] == y[..k];
  }

  datatype Line = Line(slope: real, intercept: real)

  /** The determinant n·Σx² - (Σx)² of the normal equations. */
  function Spread(m: Moments): real
  {
    m.n * m.sxx - m.sx * m.sx
  }

  /** The intercept that, with slope a, puts the line through the mean of
      the samples. */
  function InterceptThrough(m: Moments, a: real): real
    requires m.n != 0.0
  {
    (m.sy - a * m.sx) / m.n
  }

  /** The slope solving the normal equations: (n·Σxy - Σx·Σy)/spread. */
  function SlopeOf(m: Moments): real
    requires Spread(m) != 0.0
  {
    (m.n * m.sxy - m.sx * m.sy) / Spread(m)
  }

  /** The line solving the normal equations, `None` where they are singular. */
  function FitMoments(m: Moments): (r: Option<Line>)
    ensures r.Some? ==> Spread(m) != 0.0 && m.n != 0.0
  {
    if Spread(m) == 0.0 || m.n == 0.0 then None
    else Some(Line(SlopeOf(m), InterceptThrough(m, SlopeOf(m))))
  }

  /** The normal equations of least squares: Σy = a·Σx + n·b and
      Σxy = a·Σx² + b·Σx. */
  predicate NormalEquationsHold(m: Moments, l: Line)
  {
    m.sy == l.slope * m.sx + m.n * l.intercept && m.sxy == l.slope * m.sxx + l.intercept * m.sx
  }

  /** The fitted line solves the normal equations. */
  lemma NormalEquations(m: Moments)
    requires FitMoments(m).Some?
    ensures NormalEquationsHold(m, FitMoments(m).value)
  {
    var l := FitMoments(m).value;
    var d := Spread(m);
    assert l.intercept == InterceptThrough(m, l.slope);
    assert l.slope * d == m.n * m.sxy - m.sx * m.sy;
    assert m.n * l.intercept == m.sy - l.slope * m.sx;
    assert m.n * (l.slope * m.sxx + l.intercept * m.sx) == l.slope * (m.n * m.sxx) + (m.n * l.intercept) * m.sx;
  }

  /** Sums that satisfy the normal equations of a line with a non-zero
      spread give back that line. */
  lemma NormalEquationsDetermineLine(m: Moments, l: Line)
    requires Spread(m) != 0.0 && m.n != 0.0 && NormalEquationsHold(m, l)
    ensures FitMoments(m) == Some(l)
  {
    SolveArith(m.n, m.sx, m.sy, m.sxx, m.sxy, Spread(m), l.slope, l.intercept);
    assert SlopeOf(m) == l.slope;
    assert InterceptThrough(m, l.slope) == l.intercept;
  }

  /** Over the scalars: the closed form returns the solution. */
  lemma SolveArith(n: real, sx: real, sy: real, sxx: real, sxy: real, d: real, a: real, b: real)
    requires n != 0.0 && d == n * sxx - sx * sx && d != 0.0
    requires sy == a * sx + n * b && sxy == a * sxx + b * sx
    ensures (n * sxy - sx * sy) / d == a
    ensures (sy - a * sx) / n == b
  {
    assert n * (a * sxx + b * sx) - sx * (a * sx + n * b) == a * (n * sxx - sx * sx);
  }

  /** `np.polyfit(x, y, 1, cov=True)` over the reals; `None` where the
      normal matrix is singular and its inversion raises: no samples, or
      every x the same. */
  function LineFit(x: seq<real>, y: seq<real>): (r: Option<Line>)
    requires |x| == |y|
    ensures r.Some? <==> Spread(MomentsOf(x, y)) != 0.0
    ensures r.Some? <==> !AllEqual(x)
  {
    var m := MomentsOf(x, y);
    assert x == [] ==> m == NoMoments;
    SpreadZeroIffAllEqual(x, y);
    FitMoments(m)
  }

  predicate AllEqual(x: seq<real>)
  {
    forall i, j :: 0 <= i < |x| && 0 <= j < |x| ==> x[i] == x[j]
  }

  lemma LineFitOfMoments(x: seq<real>, y: seq<real>)
    requires |x| == |y|
    ensures LineFit(x, y) == FitMoments(MomentsOf(x, y))
  {
  }

  /** What a line misses sample (x, y) by. */
  function Residual(l: Line, x: real, y: real): real
  {
    y - (l.slope * x + l.intercept)
  }

  function Square(r: real): (q: real)
    ensures q >= 0.0
  {
    r * r
  }

  /** Σ (y - (a·x + b))² over the samples. */
  function SquaredError(x: seq<real>, y: seq<real>, l: Line): (e: real)
    requires |x| == |y|
    ensures e >= 0.0
  {
    if x == [] then 0.0
    else SquaredError(x[..|x| - 1], y[..|y| - 1], l) + Square(Residual(l, x[|x| - 1], y[|y| - 1]))
  }

  lemma SquaredErrorSnoc(x: seq<real>, y: seq<real>, l: Line, k: nat)
    requires k + 1 == |x| == |y|
    ensures SquaredError(x, y, l) == SquaredError(x[..k], y[..k], l) + Square(Residual(l, x[k], y[k]))
  {
    assert y[..|y| - 1] == y[..k];
  }

  /** The squared error of line k through the sums of the data, the
      squared error of line l, and the difference of the two lines. */
  function ExpandedError(m: Moments, e: real, l: Line, k: Line): real
  {
    ExpandedTerms(e, m.n, m.sx, m.sy, m.sxx, m.sxy, l, k)
  }

  /** ExpandedError over the five sums written out. */
  function ExpandedTerms(e: real, n: real, sx: real, sy: real, sxx: real, sxy: real, l: Line, k: Line): real
  {
    var da, db := l.slope - k.slope, l.intercept - k.intercept;
    e + 2.0 * da * (sxy - l.slope * sxx - l.intercept * sx)
      + 2.0 * db * (sy - l.slope * sx - n * l.intercept)
      + (da * da * sxx + 2.0 * da * db * sx + n * db * db)
  }

  /** One sample more in ExpandedError, over the scalars: with r the
      residual of l and d = da·x + db the gap between the lines,
      (r + d)² = r² + 2·d·r + d², and each sum gains the sample's share. */
  lemma ErrorArith(e: real, n: real, sx: real, sy: real, sxx: real, sxy: real,
                   n1: real, sx1: real, sy1: real, sxx1: real, sxy1: real, l: Line, k: Line, x: real, y: real)
    requires n1 == n + 1.0 && sx1 == sx + x && sy1 == sy + y && sxx1 == sxx + x * x && sxy1 == sxy + x * y
    ensures ExpandedTerms(e, n, sx, sy, sxx, sxy, l, k) + Square(Residual(k, x, y))
         == ExpandedTerms(e + Square(Residual(l, x, y)), n1, sx1, sy1, sxx1, sxy1, l, k)
  {
    var a, b := l.slope, l.intercept;
    var da, db := l.slope - k.slope, l.intercept - k.intercept;
    var r := y - (a * x + b);
    var p, q := 2.0 * da * (x * y - a * (x * x) - b * x), 2.0 * db * (y - a * x - b);
    var dd := da * da * (x * x) + 2.0 * da * db * x + db * db;
    assert Residual(k, x, y) == r + (da * x + db);
    SquareSplit(r, da * x + db, da, db, x, y, a, b);
    SlopeTermGains(da, a, b, sxy, sxx, sx, x, y);
    InterceptTermGains(db, a, b, sy, sx, n, x, y);
    QuadraticTermGains(da, db, sxx, sx, n, x);
    CombineTerms(e, r * r, p, q, dd,
                 2.0 * da * (sxy - a * sxx - b * sx), 2.0 * db * (sy - a * sx - n * b),
                 da * da * sxx + 2.0 * da * db * sx + n * db * db,
                 2.0 * da * (sxy1 - a * sxx1 - b * sx1), 2.0 * db * (sy1 - a * sx1 - n1 * b),
                 da * da * sxx1 + 2.0 * da * db * sx1 + n1 * db * db,
                 ExpandedTerms(e, n, sx, sy, sxx, sxy, l, k), Square(Residual(k, x, y)),
                 ExpandedTerms(e + Square(Residual(l, x, y)), n1, sx1, sy1, sxx1, sxy1, l, k));
  }

  /** (r + d)² with d = da·x + db split into the terms the sums gain. */
  lemma SquareSplit(r: real, d: real, da: real, db: real, x: real, y: real, a: real, b: real)
    requires r == y - (a * x + b) && d == da * x + db
    ensures (r + d) * (r + d) == r * r + 2.0 * da * (x * y - a * (x * x) - b * x) + 2.0 * db * (y - a * x - b)
                                 + (da * da * (x * x) + 2.0 * da * db * x + db * db)
  {
    assert (r + d) * (r + d) == r * r + 2.0 * d * r + d * d;
    assert d * r == da * (x * y - a * (x * x) - b * x) + db * (y - a * x - b);
    assert d * d == da * da * (x * x) + 2.0 * da * db * x + db * db;
  }

  lemma SlopeTermGains(da: real, a: real, b: real, sxy: real, sxx: real, sx: real, x: real, y: real)
    ensures 2.0 * da * ((sxy + x * y) - a * (sxx + x * x) - b * (sx + x))
         == 2.0 * da * (sxy - a * sxx - b * sx) + 2.0 * da * (x * y - a * (x * x) - b * x)
  {
  }

  lemma InterceptTermGains(db: real, a: real, b: real, sy: real, sx: real, n: real, x: real, y: real)
    ensures 2.0 * db * ((sy + y) - a * (sx + x) - (n + 1.0) * b)
         == 2.0 * db * (sy - a * sx - n * b) + 2.0 * db * (y - a * x - b)
  {
  }

  lemma QuadraticTermGains(da: real, db: real, sxx: real, sx: real, n: real, x: real)
    ensures da * da * (sxx + x * x) + 2.0 * da * db * (sx + x) + (n + 1.0) * db * db
         == da * da * sxx + 2.0 * da * db * sx + n * db * db + (da * da * (x * x) + 2.0 * da * db * x + db * db)
  {
  }

  /** The bookkeeping of ErrorArith, over opaque terms. */
  lemma CombineTerms(e: real, rr: real, p: real, q: real, dd: real, t1: real, t2: real, t3: real,
                     u1: real, u2: real, u3: real, before: real, sample: real, after: real)
    requires before == e + t1 + t2 + t3 && after == e + rr + u1 + u2 + u3
    requires sample == rr + p + q + dd
    requires u1 == t1 + p && u2 == t2 + q && u3 == t3 + dd
    ensures before + sample == after
  {
  }

  lemma ExpandedErrorStep(m: Moments, e: real, l: Line, k: Line, x: real, y: real,
                          m1: Moments, e1: real, ek: real, ek1: real)
    requires m1 == AddSample(m, x, y) && e1 == e + Square(Residual(l, x, y))
    requires ek == ExpandedError(m, e, l, k) && ek1 == ek + Square(Residual(k, x, y))
    ensures ek1 == ExpandedError(m1, e1, l, k)
  {
    ErrorArith(e, m.n, m.sx, m.sy, m.sxx, m.sxy, m1.n, m1.sx, m1.sy, m1.sxx, m1.sxy, l, k, x, y);
  }

  /** The squared error of any line k, expanded around the line l. */
  lemma {:induction false} ErrorOfOtherLine(x: seq<real>, y: seq<real>, l: Line, k: Line)
    requires |x| == |y|
    ensures SquaredError(x, y, k) == ExpandedError(MomentsOf(x, y), SquaredError(x, y, l), l, k)
  {
    if x != [] {
      var n := |x| - 1;
      ErrorOfOtherLine(x[..n], y[..n], l, k);
      MomentsSnoc(x, y, n);
      SquaredErrorSnoc(x, y, l, n);
      SquaredErrorSnoc(x, y, k, n);
      ExpandedErrorStep(MomentsOf(x[..n], y[..n]), SquaredError(x[..n], y[..n], l), l, k, x[n], y[n],
                        MomentsOf(x, y), SquaredError(x, y, l), SquaredError(x[..n], y[..n], k), SquaredError(x, y, k));
    }
  }

  /** The gap term da²·Σx² + 2·da·db·Σx + n·db² is Σ (da·x + db)². */
  function GapSquares(m: Moments, da: real, db: real): real
  {
    da * da * m.sxx + 2.0 * da * db * m.sx + m.n * db * db
  }

  lemma GapStep(m: Moments, da: real, db: real, x: real, y: real, m1: Moments)
    requires m1 == AddSample(m, x, y)
    ensures GapSquares(m1, da, db) == GapSquares(m, da, db) + Square(da * x + db)
    ensures GapSquares(m1, da, db) >= GapSquares(m, da, db)
  {
    assert da * da * m1.sxx == da * da * m.sxx + da * da * (x * x);
    assert 2.0 * da * db * m1.sx == 2.0 * da * db * m.sx + 2.0 * da * db * x;
    assert m1.n * db * db == m.n * db * db + db * db;
  }

  lemma {:induction false} GapSquaresNonNegative(x: seq<real>, y: seq<real>, da: real, db: real)
    requires |x| == |y|
    ensures GapSquares(MomentsOf(x, y), da, db) >= 0.0
  {
    if x != [] {
      var n := |x| - 1;
      GapSquaresNonNegative(x[..n], y[..n], da, db);
      MomentsSnoc(x, y, n);
      GapStep(MomentsOf(x[..n], y[..n]), da, db, x[n], y[n], MomentsOf(x, y));
    }
  }

  /** A sample x raises the spread by Σ (xᵢ - x)² over the samples
      before it. */
  lemma SpreadStep(m: Moments, x: real, y: real, m1: Moments)
    requires m1 == AddSample(m, x, y)
    ensures Spread(m1) == Spread(m) + GapSquares(m, 1.0, -x)
  {
    assert GapSquares(m, 1.0, -x) == m.sxx - 2.0 * x * m.sx + m.n * (x * x);
    assert (m.n + 1.0) * (m.sxx + x * x) == m.n * m.sxx + m.n * (x * x) + m.sxx + x * x;
    assert (m.sx + x) * (m.sx + x) == m.sx * m.sx + 2.0 * x * m.sx + x * x;
  }

  /** Sums of samples whose x all equal c: Σx = n·c and Σx² = n·c². */
  predicate ConstantSums(m: Moments, c: real)
  {
    m.sx == m.n * c && m.sxx == m.n * (c * c)
  }

  lemma ConstantSumsStep(m: Moments, c: real, y: real, m1: Moments)
    requires ConstantSums(m, c) && m1 == AddSample(m, c, y)
    ensures ConstantSums(m1, c)
  {
    assert (m.n + 1.0) * c == m.n * c + c;
    assert (m.n + 1.0) * (c * c) == m.n * (c * c) + c * c;
  }

  lemma {:induction false} ConstantMoments(x: seq<real>, y: seq<real>, c: real)
    requires |x| == |y|
    requires forall i :: 0 <= i < |x| ==> x[i] == c
    ensures ConstantSums(MomentsOf(x, y), c)
  {
    if x != [] {
      var n := |x| - 1;
      ConstantMoments(x[..n], y[..n], c);
      MomentsSnoc(x, y, n);
      assert x[n] == c;
      ConstantSumsStep(MomentsOf(x[..n], y[..n]), c, y[n], MomentsOf(x, y));
    }
  }

  /** Over samples whose x all equal c, Σ (xᵢ - z)² is n·(c - z)². */
  lemma GapOfConstant(x: seq<real>, y: seq<real>, c: real, z: real)
    requires |x| == |y|
    requires forall i :: 0 <= i < |x| ==> x[i] == c
    ensures GapSquares(MomentsOf(x, y), 1.0, -z) == Scaled(|x| as real, Square(c - z))
  {
    ConstantMoments(x, y, c);
    ConstantGapArith(MomentsOf(x, y), |x| as real, c, z);
  }

  function Scaled(n: real, q: real): real
  {
    n * q
  }

  lemma ConstantGapArith(m: Moments, n: real, c: real, z: real)
    requires ConstantSums(m, c) && m.n == n
    ensures GapSquares(m, 1.0, -z) == Scaled(n, Square(c - z))
  {
    assert m.n * Square(c - z) == m.n * (c * c) - 2.0 * z * (m.n * c) + m.n * (z * z);
  }

  /** The spread n·Σx² - (Σx)² is never negative. */
  lemma {:induction false} SpreadNonNegative(x: seq<real>, y: seq<real>)
    requires |x| == |y|
    ensures Spread(MomentsOf(x, y)) >= 0.0
  {
    if x != [] {
      var n := |x| - 1;
      SpreadNonNegative(x[..n], y[..n]);
      MomentsSnoc(x, y, n);
      GapSquaresNonNegative(x[..n], y[..n], 1.0, -x[n]);
      SpreadStep(MomentsOf(x[..n], y[..n]), x[n], y[n], MomentsOf(x, y));
    }
  }

  /** The normal equations are singular exactly when every x is the same
      (in particular with no samples or one). */
  lemma {:induction false} SpreadZeroIffAllEqual(x: seq<real>, y: seq<real>)
    requires |x| == |y|
    ensures Spread(MomentsOf(x, y)) == 0.0 <==> AllEqual(x)
  {
    if x != [] {
      var n := |x| - 1;
      SpreadSnoc(x, y, n);
      SpreadZeroIffAllEqual(x[..n], y[..n]);
      SpreadNonNegative(x[..n], y[..n]);
      GapSquaresNonNegative(x[..n], y[..n], 1.0, -x[n]);
      if AllEqual(x[..n]) {
        ExtendAllEqual(x, y, n);
      } else {
        ExtendNotAllEqual(x, n);
      }
    }
  }

  lemma SpreadSnoc(x: seq<real>, y: seq<real>, n: nat)
    requires n + 1 == |x| == |y|
    ensures Spread(MomentsOf(x, y)) == Spread(MomentsOf(x[..n], y[..n])) + GapSquares(MomentsOf(x[..n], y[..n]), 1.0, -x[n])
  {
    MomentsSnoc(x, y, n);
    SpreadStep(MomentsOf(x[..n], y[..n]), x[n], y[n], MomentsOf(x, y));
  }

  /** Past samples that all share one x, the last sample adds no spread
      exactly when it shares that x too. */
  lemma ExtendAllEqual(x: seq<real>, y: seq<real>, n: nat)
    requires n + 1 == |x| == |y| && AllEqual(x[..n])
    ensures GapSquares(MomentsOf(x[..n], y[..n]), 1.0, -x[n]) == 0.0 <==> AllEqual(x)
  {
    assert forall i :: 0 <= i < n ==> x[..n][i] == x[0];
    GapOfConstant(x[..n], y[..n], x[0], x[n]);
    ScaledSign(n as real, x[0] - x[n]);
    if x[0] == x[n] {
      assert forall i :: 0 <= i < |x| ==> x[i] == x[0];
    }
  }

  lemma ExtendNotAllEqual(x: seq<real>, n: nat)
    requires n + 1 == |x| && !AllEqual(x[..n])
    ensures !AllEqual(x)
  {
    var i, j :| 0 <= i < n && 0 <= j < n && x[..n][i] != x[..n][j];
    assert x[i] != x[j];
  }

  /** n·r² is zero for r = 0 and positive for n > 0 and r ≠ 0. */
  lemma ScaledSign(n: real, r: real)
    requires 0.0 <= n
    ensures r == 0.0 ==> Scaled(n, Square(r)) == 0.0
    ensures r != 0.0 && n > 0.0 ==> Scaled(n, Square(r)) > 0.0
  {
    if r != 0.0 && n > 0.0 {
      SquarePositive(r);
      calc {
        Scaled(n, Square(r));
        n * Square(r);
      > { PositiveProduct(n, Square(r)); }
        0.0;
      }
    }
  }

  /** The square of a non-zero number is positive. */
  lemma SquarePositive(r: real)
    requires r != 0.0
    ensures 0.0 < Square(r)
  {
    calc {
      Square(r);
      r * r;
    >
      0.0;
    }
  }

  /** With the normal equations the cross terms vanish. */
  lemma OptimumArith(m: Moments, e: real, l: Line, k: Line)
    requires NormalEquationsHold(m, l)
    requires GapSquares(m, l.slope - k.slope, l.intercept - k.intercept) >= 0.0
    ensures e <= ExpandedError(m, e, l, k)
  {
    assert m.sxy - l.slope * m.sxx - l.intercept * m.sx == 0.0;
    assert m.sy - l.slope * m.sx - m.n * l.intercept == 0.0;
  }

  /** A line solving the normal equations has the least squared error of
      all lines. */
  lemma SolutionIsLeastSquares(x: seq<real>, y: seq<real>, l: Line, k: Line)
    requires |x| == |y| && NormalEquationsHold(MomentsOf(x, y), l)
    ensures SquaredError(x, y, l) <= SquaredError(x, y, k)
  {
    ErrorOfOtherLine(x, y, l, k);
    GapSquaresNonNegative(x, y, l.slope - k.slope, l.intercept - k.intercept);
    OptimumArith(MomentsOf(x, y), SquaredError(x, y, l), l, k);
  }

  /** The fitted line has the least squared error of all lines. */
  lemma LineFitIsLeastSquares(x: seq<real>, y: seq<real>, k: Line)
    requires |x| == |y| && LineFit(x, y).Some?
    ensures SquaredError(x, y, LineFit(x, y).value) <= SquaredError(x, y, k)
  {
    LineFitOfMoments(x, y);
    NormalEquations(MomentsOf(x, y));
    SolutionIsLeastSquares(x, y, LineFit(x, y).value, k);
  }

  /** Sample (x, y) lies on line l. */
  predicate OnLine(l: Line, x: real, y: real)
  {
    y == l.slope * x + l.intercept
  }

  lemma LineSumsStep(m: Moments, l: Line, x: real, y: real, m1: Moments)
    requires NormalEquationsHold(m, l) && OnLine(l, x, y) && m1 == AddSample(m, x, y)
    ensures NormalEquationsHold(m1, l)
  {
    assert x * y == l.slope * (x * x) + l.intercept * x;
  }

  /** On samples that lie on a line, the sums satisfy that line's normal
      equations. */
  lemma {:induction false} LineSums(x: seq<real>, y: seq<real>, l: Line)
    requires |x| == |y|
    requires forall i :: 0 <= i < |x| ==> OnLine(l, x[i], y[i])
    ensures NormalEquationsHold(MomentsOf(x, y), l)
  {
    if x != [] {
      var n := |x| - 1;
      LineSums(x[..n], y[..n], l);
      MomentsSnoc(x, y, n);
      LineSumsStep(MomentsOf(x[..n], y[..n]), l, x[n], y[n], MomentsOf(x, y));
    }
  }

  /** Samples on a line with not all x equal are fitted by that line. */
  lemma ExactLineRecovered(x: seq<real>, y: seq<real>, l: Line)
    requires |x| == |y| && Spread(MomentsOf(x, y)) != 0.0
    requires forall i :: 0 <= i < |x| ==> OnLine(l, x[i], y[i])
    ensures LineFit(x, y) == Some(l)
  {
    LineSums(x, y, l);
    NormalEquationsDetermineLine(MomentsOf(x, y), l);
  }
}
