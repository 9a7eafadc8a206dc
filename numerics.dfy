/** Shared vocabulary: optional values, the real-valued library routines the
    analysis borrows from `math`/`numpy`, Python's integer conversions, and a
    few sequence helpers (numpy `argmax`, boolean selection, `any`). */
module Numerics {

  datatype Option<+T> = None | Some(value: T)

  /** The transcendental routines the analysis calls. They are not computed
      here: a caller supplies them, and `Lawful` states the few laws the
      proofs rely on. `pi` is `math.pi`; `sin`, `cos` and `tan` take degrees
      as the sphere tip uses them. */
  datatype Maths = Maths(
    sqrt: real -> real,
    pow: (real, real) -> real,
    pi: real,
    sinDeg: real -> real,
    cosDeg: real -> real,
    tanDeg: real -> real)

  /** `sqrt(x)` is the non-negative square root of a non-negative `x`. */
  ghost predicate SqrtLaw(sqrt: real -> real) {
    forall x: real :: 0.0 <= x ==> 0.0 <= sqrt(x) && sqrt(x) * sqrt(x) == x
  }

  /** `pow(x, e)` agrees with repeated multiplication for the integer
      exponents 0, 1 and 2 and is non-negative for a non-negative base. */
  ghost predicate PowLaw(pow: (real, real) -> real) {
    && (forall x: real :: pow(x, 0.0) == 1.0 && pow(x, 1.0) == x && pow(x, 2.0) == x * x)
    && (forall x: real, e: real :: 0.0 <= x ==> 0.0 <= pow(x, e))
  }

  ghost predicate Lawful(m: Maths) {
    SqrtLaw(m.sqrt) && PowLaw(m.pow) && 3.14 < m.pi < 3.15
  }

  lemma PositiveProduct(a: real, b: real)
    requires 0.0 < a && 0.0 < b
    ensures 0.0 < a * b
  {
  }

  /** Squaring is strictly increasing on the non-negative reals. */
  lemma SquareMonotone(a: real, b: real)
    requires 0.0 <= a < b
    ensures a * a < b * b
  {
    PositiveProduct(b - a, b + a);
    assert (b - a) * (b + a) == b * b - a * a;
  }

  /** A square root is determined by its square. */
  lemma SqrtOfSquare(sqrt: real -> real, x: real)
    requires SqrtLaw(sqrt)
    requires 0.0 <= x
    ensures sqrt(x * x) == x
  {
    var s := sqrt(x * x);
    if x > 0.0 { SquareMonotone(0.0, x); }
    assert 0.0 <= s && s * s == x * x;
    if s > x {
      SquareMonotone(x, s);
    } else if s < x {
      SquareMonotone(s, x);
    }
  }

  /** The square root of a positive number is positive. */
  lemma SqrtPositive(sqrt: real -> real, x: real)
    requires SqrtLaw(sqrt)
    requires 0.0 < x
    ensures 0.0 < sqrt(x)
  {
    assert sqrt(x) * sqrt(x) == x;
  }

  /** Python's `int(x)`: truncation toward zero. */
  function Trunc(x: real): (r: int)
    ensures 0.0 <= x ==> r as real <= x < r as real + 1.0
    ensures x < 0.0 ==> r as real - 1.0 < x <= r as real
  {
    if 0.0 <= x then x.Floor else -((-x).Floor)
  }

  /** Python's `round(x)`: nearest integer, ties to the even neighbour. */
  function RoundHalfEven(x: real): (r: int)
    ensures r as real - 0.5 <= x <= r as real + 0.5
    ensures x == r as real - 0.5 || x == r as real + 0.5 ==> r % 2 == 0
  {
    var f := x.Floor;
    var d := x - f as real;
    if d < 0.5 then f
    else if d > 0.5 then f + 1
    else if f % 2 == 0 then f
    else f + 1
  }

  /** 10 to a natural power. */
  function Pow10(d: nat): (r: nat)
    ensures 1 <= r
  {
    if d == 0 then 1 else 10 * Pow10(d - 1)
  }

  /** numpy `argmax`: the first index holding the largest value. */
  function ArgMax(s: seq<real>): (k: nat)
    requires |s| > 0
    ensures k < |s|
    ensures forall j :: 0 <= j < |s| ==> s[j] <= s[k]
    ensures forall j :: 0 <= j < k ==> s[j] < s[k]
  {
    if |s| == 1 then 0
    else
      var k' := ArgMax(s[1..]);
      if s[0] >= s[1..][k'] then 0 else k' + 1
  }

  function Max(s: seq<real>): (r: real)
    requires |s| > 0
    ensures forall j :: 0 <= j < |s| ==> s[j] <= r
    ensures exists j :: 0 <= j < |s| && s[j] == r
  {
    s[ArgMax(s)]
  }

  function Min(s: seq<real>): (r: real)
    requires |s| > 0
    ensures forall j :: 0 <= j < |s| ==> r <= s[j]
    ensures exists j :: 0 <= j < |s| && s[j] == r
  {
    if |s| == 1 then s[0]
    else
      var r' := Min(s[1..]);
      assert forall j :: 1 <= j < |s| ==> s[j] == s[1..][j - 1];
      if s[0] <= r' then s[0] else r'
  }

  /** numpy `np.any`. */
  predicate Any(m: seq<bool>) {
    exists k :: 0 <= k < |m| && m[k]
  }

  /** Number of `true` entries of a mask. */
  function Count(m: seq<bool>): (n: nat)
    ensures n <= |m|
  {
    if m == [] then 0 else Count(m[..|m| - 1]) + (if m[|m| - 1] then 1 else 0)
  }

  /** numpy boolean indexing `s[m]`: the entries of `s` where `m` holds, in order. */
  function Select<T>(s: seq<T>, m: seq<bool>): (r: seq<T>)
    requires |s| == |m|
    ensures |r| == Count(m)
  {
    if m == [] then [] else Select(s[..|s| - 1], m[..|m| - 1]) + (if m[|m| - 1] then [s[|s| - 1]] else [])
  }

  /** Every selected entry comes from a position the mask admits, in order. */
  lemma {:induction false} SelectFrom<T>(s: seq<T>, m: seq<bool>, i: nat)
    requires |s| == |m|
    requires i < Count(m)
    ensures exists k :: 0 <= k < |s| && m[k] && Select(s, m)[i] == s[k]
  {
    var n := |m| - 1;
    if m[n] && i == Count(m[..n]) {
      assert Select(s, m)[i] == s[n];
    } else {
      SelectFrom(s[..n], m[..n], i);
      var k :| 0 <= k < n && m[..n][k] && Select(s[..n], m[..n])[i] == s[..n][k];
      assert Select(s, m)[i] == s[k];
    }
  }

  /** A mask with a `true` entry selects something. */
  lemma {:induction false} CountPositive(m: seq<bool>, k: nat)
    requires k < |m| && m[k]
    ensures 0 < Count(m)
  {
    if k < |m| - 1 {
      CountPositive(m[..|m| - 1], k);
    }
  }

  /** A mask with no `true` entry counts zero. */
  lemma {:induction false} CountNone(m: seq<bool>)
    requires forall j :: 0 <= j < |m| ==> !m[j]
    ensures Count(m) == 0
  {
    if m != [] {
      CountNone(m[..|m| - 1]);
    }
  }

  /** A mask that counts zero has no `true` entry. */
  lemma CountZero(m: seq<bool>)
    requires Count(m) == 0
    ensures forall j :: 0 <= j < |m| ==> !m[j]
  {
    forall j | 0 <= j < |m|
      ensures !m[j]
    {
      if m[j] {
        CountPositive(m, j);
      }
    }
  }

  /** numpy `np.where(m)[0][0]`: the first index where the mask holds. */
  function FirstTrue(m: seq<bool>): (k: nat)
    requires Count(m) > 0
    ensures k < |m| && m[k]
    ensures forall j :: 0 <= j < k ==> !m[j]
  {
    var n := |m| - 1;
    if Count(m[..n]) > 0 then FirstTrue(m[..n])
    else
      CountZero(m[..n]);
      assert forall j :: 0 <= j < n ==> m[j] == m[..n][j];
      n
  }

  /** The first selected entry is the entry at the first admitted index. */
  lemma {:induction false} FirstSelected<T>(s: seq<T>, m: seq<bool>)
    requires |s| == |m| && Count(m) > 0
    ensures Select(s, m)[0] == s[FirstTrue(m)]
  {
    var n := |m| - 1;
    if Count(m[..n]) > 0 {
      FirstSelected(s[..n], m[..n]);
    } else {
      assert Select(s[..n], m[..n]) == [];
    }
  }
  /** numpy `np.where(m)[0][-1]`: the last index where the mask holds. */
  function LastTrue(m: seq<bool>): (k: nat)
    requires Count(m) > 0
    ensures k < |m| && m[k]
    ensures forall j :: k < j < |m| ==> !m[j]
  {
    var n := |m| - 1;
    if m[n] then n else LastTrue(m[..n])
  }

  /** The position in `m` of the i-th admitted entry. */
  function SelectedIndex(m: seq<bool>, i: nat): (k: nat)
    requires i < Count(m)
    ensures k < |m| && m[k]
    ensures Count(m[..k]) == i
  {
    var n := |m| - 1;
    if i < Count(m[..n]) then
      var k := SelectedIndex(m[..n], i);
      assert m[..n][..k] == m[..k];
      k
    else
      assert m[..n] == m[..|m| - 1];
      n
  }

  /** Boolean indexing with one mask keeps signals aligned: the i-th
      selected entry of any signal comes from the same position. */
  lemma {:induction false} SelectAt<T>(s: seq<T>, m: seq<bool>, i: nat)
    requires |s| == |m|
    requires i < Count(m)
    ensures Select(s, m)[i] == s[SelectedIndex(m, i)]
  {
    var n := |m| - 1;
    if i < Count(m[..n]) {
      SelectAt(s[..n], m[..n], i);
    }
  }

  /** An admitted position k appears in the selection, after the
      Count(m[..k]) admitted entries before it. */
  lemma {:induction false} SelectedPosition<T>(s: seq<T>, m: seq<bool>, k: nat)
    requires |s| == |m|
    requires k < |m| && m[k]
    ensures Count(m[..k]) < Count(m) && Select(s, m)[Count(m[..k])] == s[k]
  {
    var n := |m| - 1;
    assert m[..n] == m[..|m| - 1];
    if k < n {
      SelectedPosition(s[..n], m[..n], k);
      assert m[..n][..k] == m[..k];
    }
  }

  /** numpy `argmin` over the admitted entries of `v`: the first admitted
      index holding the smallest admitted value. */
  function ArgMinOver(v: seq<real>, m: seq<bool>): (k: nat)
    requires |v| == |m| && Count(m) > 0
    ensures k < |m| && m[k]
    ensures forall j :: 0 <= j < |m| && m[j] ==> v[k] <= v[j]
    ensures forall j :: 0 <= j < k && m[j] ==> v[k] < v[j]
  {
    var n := |m| - 1;
    if Count(m[..n]) == 0 then
      CountZero(m[..n]);
      assert forall j :: 0 <= j < n ==> m[j] == m[..n][j];
      n
    else
      var k := ArgMinOver(v[..n], m[..n]);
      assert forall j :: 0 <= j < n ==> m[j] == m[..n][j] && v[j] == v[..n][j];
      if m[n] && v[n] < v[k] then n else k
  }

  /** The mask of the entries above a level. */
  function Exceeds(s: seq<real>, level: real): (mask: seq<bool>)
    ensures |mask| == |s|
    ensures forall i :: 0 <= i < |s| ==> (mask[i] <==> s[i] > level)
  {
    seq(|s|, i requires 0 <= i < |s| => s[i] > level)
  }

  /** The first entry above a level. */
  function FirstAbove(s: seq<real>, level: real): (k: nat)
    requires Count(Exceeds(s, level)) > 0
    ensures k < |s| && s[k] > level
    ensures forall j :: 0 <= j < k ==> s[j] <= level
  {
    var above := Exceeds(s, level);
    var k := FirstTrue(above);
    assert forall j :: 0 <= j < k ==> !above[j];
    k
  }

  /** No entry above the level exactly when the mask counts none. */
  lemma NoneAbove(s: seq<real>, level: real)
    ensures Count(Exceeds(s, level)) == 0 <==> forall j :: 0 <= j < |s| ==> s[j] <= level
  {
    if Count(Exceeds(s, level)) == 0 {
      CountZero(Exceeds(s, level));
    } else {
      var k := FirstAbove(s, level);
    }
  }

  /** The distance of every entry from a target. */
  function Distances(t: seq<real>, target: real): (d: seq<real>)
    ensures |d| == |t| && forall j :: 0 <= j < |t| ==> d[j] == Abs(t[j] - target)
  {
    seq(|t|, j requires 0 <= j < |t| => Abs(t[j] - target))
  }

  /** The mask admitting every entry. */
  function Everywhere(n: nat): (m: seq<bool>)
    ensures |m| == n && forall j :: 0 <= j < n ==> m[j]
    ensures n > 0 ==> Count(m) > 0
  {
    var m := seq(n, j requires 0 <= j < n => true);
    if n > 0 then CountPositive(m, 0); m else m
  }

  /** numpy `argmin(abs(t - target))`: the first entry nearest the target. */
  function Nearest(t: seq<real>, target: real): (k: nat)
    requires |t| > 0
    ensures k < |t|
    ensures forall j :: 0 <= j < |t| ==> Abs(t[k] - target) <= Abs(t[j] - target)
    ensures forall j :: 0 <= j < k ==> Abs(t[k] - target) < Abs(t[j] - target)
  {
    ArgMinOver(Distances(t, target), Everywhere(|t|))
  }

  function Abs(x: real): (r: real)
    ensures 0.0 <= r && (r == x || r == -x)
  {
    if x < 0.0 then -x else x
  }

  /** The decimal digit d. */
  function DigitChar(d: nat): (c: char)
    requires d < 10
    ensures '0' <= c <= '9' && c as int - '0' as int == d
  {
    "0123456789"[d]
  }

  /** Python's `str` of a natural number: its decimal digits. */
  function NatToString(n: nat): (s: string)
    ensures |s| > 0 && forall i :: 0 <= i < |s| ==> '0' <= s[i] <= '9'
  {
    if n < 10 then [DigitChar(n)] else NatToString(n / 10) + [DigitChar(n % 10)]
  }

  /** The value of a string of decimal digits. */
  function DigitsValue(s: string): nat
    requires forall i :: 0 <= i < |s| ==> '0' <= s[i] <= '9'
  {
    if |s| == 0 then 0 else 10 * DigitsValue(s[..|s| - 1]) + (s[|s| - 1] as int - '0' as int)
  }

  /** Reading the digits back gives the number, so distinct numbers have
      distinct strings. */
  lemma {:induction false} NatToStringRoundTrip(n: nat)
    ensures DigitsValue(NatToString(n)) == n
  {
    if n >= 10 {
      NatToStringRoundTrip(n / 10);
      var s := NatToString(n);
      assert s[..|s| - 1] == NatToString(n / 10);
    }
  }
}
