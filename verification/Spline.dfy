/** The natural cubic spline behind spline and areaspline series: the in-place
    tridiagonal solver of `SplineHelper`, its interval search and its sampling. */
module Spline {
  import opened Wrappers
  import opened Reals

  datatype Point = Point(plotX: real, plotY: real)

  // ---------- What a natural spline is ----------

  ghost predicate Increasing(xs: seq<real>) {
    forall i, j :: 0 <= i < j < |xs| ==> xs[i] < xs[j]
  }

  /** The quotient, known by its product with the divisor only. */
  ghost function Div(a: real, d: real): (q: real)
    requires d != 0.0
    ensures q * d == a
  {
    assert IsQuotient(a / d, a, d);
    var q :| IsQuotient(q, a, d);
    q
  }

  ghost predicate IsQuotient(q: real, a: real, d: real) {
    q * d == a
  }

  lemma DivUnique(a: real, d: real, q: real)
    requires d != 0.0 && q * d == a
    ensures Div(a, d) == q
  {
    CancelFactor(Div(a, d), q, d);
  }

  lemma DivIsQuotient(a: real, d: real)
    requires d != 0.0
    ensures Div(a, d) == a / d
  {
    DivUnique(a, d, a / d);
  }

  /** Slope of the chord from knot i to knot i + 1. */
  ghost function Chord(xs: seq<real>, ys: seq<real>, i: nat): real
    requires i + 1 < |xs| == |ys| && Increasing(xs)
  {
    Div(ys[i+1] - ys[i], xs[i+1] - xs[i])
  }

  /** Six times the change of slope of the polyline at interior knot i. */
  ghost function Bend(xs: seq<real>, ys: seq<real>, i: nat): real
    requires 1 <= i < |xs| - 1 && |xs| == |ys| && Increasing(xs)
  {
    6.0 * (Chord(xs, ys, i) - Chord(xs, ys, i - 1))
  }

  /** The continuity equation of the first derivative at interior knot i, for
      second derivatives m at the knots. */
  ghost predicate KnotEquation(xs: seq<real>, ys: seq<real>, m: seq<real>, i: nat)
    requires |xs| == |ys| == |m| && 1 <= i < |xs| - 1 && Increasing(xs)
  {
    Row(xs[i] - xs[i-1], xs[i+1] - xs[i], m[i-1], m[i], m[i+1], Bend(xs, ys, i))
  }

  ghost predicate Row(h0: real, h1: real, m0: real, m1: real, m2: real, k: real) {
    h0 * m0 + 2.0 * (h0 + h1) * m1 + h1 * m2 == k
  }

  ghost predicate Knots(xs: seq<real>, ys: seq<real>) {
    2 <= |xs| == |ys| && Increasing(xs)
  }

  ghost predicate NaturalSpline(xs: seq<real>, ys: seq<real>, m: seq<real>)
    requires Knots(xs, ys)
  {
    && |m| == |xs|
    && m[0] == 0.0 && m[|m|-1] == 0.0
    && forall i :: 1 <= i < |xs| - 1 ==> KnotEquation(xs, ys, m, i)
  }

  // ---------- Forward elimination ----------

  /** One step of the first loop never divides by anything near zero: from a
      stored coefficient c in (-1, 0] it gets a pivot above 1 and stores another
      coefficient in (-1, 0]. */
  lemma StepInRange(h0: real, h1: real, c: real)
    requires h0 > 0.0 && h1 > 0.0 && -1.0 < c <= 0.0
    ensures 0.0 < Share(h0, h1) < 1.0
    ensures Pivot(h0, h1, c) > 1.0
    ensures -1.0 < Div(Share(h0, h1) - 1.0, Pivot(h0, h1, c)) <= 0.0
  {
    var s := Share(h0, h1);
    DivInUnit(h0, h0 + h1);
    var p := Pivot(h0, h1, c);
    assert s * c > -1.0;
    var q := Div(s - 1.0, p);
    assert q <= -1.0 ==> (q + 1.0) * p <= 0.0;
    assert q > 0.0 ==> q * p > 0.0;
  }

  lemma DivInUnit(a: real, d: real)
    requires 0.0 < a < d
    ensures 0.0 < Div(a, d) < 1.0
  {
    var q := Div(a, d);
    assert q <= 0.0 ==> q * d <= 0.0;
    assert q >= 1.0 ==> (q - 1.0) * d >= 0.0;
  }

  /** The share of the left interval in the two intervals around a knot. */
  ghost function Share(h0: real, h1: real): real
    requires h0 > 0.0 && h1 > 0.0
  {
    Div(h0, h0 + h1)
  }

  ghost function Pivot(h0: real, h1: real, c: real): real
    requires h0 > 0.0 && h1 > 0.0
  {
    Share(h0, h1) * c + 2.0
  }

  /** The first loop went from (c, r) to (q, e) at a knot with bend k. */
  ghost predicate Step(h0: real, h1: real, k: real, c: real, r: real, q: real, e: real) {
    && h0 > 0.0 && h1 > 0.0
    && -1.0 < c <= 0.0
    && q * Pivot(h0, h1, c) == Share(h0, h1) - 1.0
    && e * Pivot(h0, h1, c) == Div(k, h0 + h1) - Share(h0, h1) * r
  }

  ghost predicate Reduced(m1: real, q: real, m2: real, e: real) {
    m1 == q * m2 + e
  }

  /** One elimination step is an equivalence: given the reduced row above, a row
      of the original system holds exactly when its reduced form does. */
  lemma EliminateStep(h0: real, h1: real, k: real, c: real, r: real, q: real, e: real,
                      m0: real, m1: real, m2: real)
    requires Step(h0, h1, k, c, r, q, e)
    requires Reduced(m0, c, m1, r)
    ensures Row(h0, h1, m0, m1, m2, k) <==> Reduced(m1, q, m2, e)
  {
    StepInRange(h0, h1, c);
    var s, p, kd := Share(h0, h1), Pivot(h0, h1, c), Div(k, h0 + h1);
    RowResidual(h0, h1, k, kd, s, m0, m1, m2);
    ReducedResidual(s, p, c, r, q, e, kd, m0, m1, m2);
  }

  ghost function Residual(s: real, m0: real, m1: real, m2: real, kd: real): real {
    s * m0 + 2.0 * m1 + (1.0 - s) * m2 - kd
  }

  lemma RowResidual(h0: real, h1: real, k: real, kd: real, s: real, m0: real, m1: real, m2: real)
    requires h0 + h1 > 0.0 && s * (h0 + h1) == h0 && kd * (h0 + h1) == k
    ensures Row(h0, h1, m0, m1, m2, k) <==> Residual(s, m0, m1, m2, kd) == 0.0
  {
    var d := h0 + h1;
    assert h1 == (1.0 - s) * d;
    assert h0 * m0 + 2.0 * d * m1 + h1 * m2 - k == Residual(s, m0, m1, m2, kd) * d;
    CancelFactor(Residual(s, m0, m1, m2, kd), 0.0, d);
  }

  lemma ReducedResidual(s: real, p: real, c: real, r: real, q: real, e: real, kd: real,
                        m0: real, m1: real, m2: real)
    requires p == s * c + 2.0 && p != 0.0 && q * p == s - 1.0 && e * p == kd - s * r
    requires Reduced(m0, c, m1, r)
    ensures Reduced(m1, q, m2, e) <==> Residual(s, m0, m1, m2, kd) == 0.0
  {
    calc {
      (m1 - (q * m2 + e)) * p;
      p * m1 - (q * p) * m2 - e * p;
      (s * c + 2.0) * m1 - (s - 1.0) * m2 - (kd - s * r);
      Residual(s, c * m1 + r, m1, m2, kd);
    }
    CancelFactor(m1 - (q * m2 + e), 0.0, p);
  }

  /** The first two divisions of one pass through the first loop. */
  lemma PivotComputed(h0: real, h1: real, c: real, s: real, p: real)
    requires h0 > 0.0 && h1 > 0.0 && -1.0 < c <= 0.0
    requires s == h0 / (h0 + h1) && p == s * c + 2.0
    ensures s == Share(h0, h1) && p == Pivot(h0, h1, c) && p > 1.0
  {
    DivIsQuotient(h0, h0 + h1);
    StepInRange(h0, h1, c);
  }

  /** The remaining divisions of that pass make a Step. */
  lemma StepComputed(h0: real, h1: real, dy0: real, dy1: real, c: real, r: real,
                     s: real, p: real, q: real, g: real, e: real)
    requires h0 > 0.0 && h1 > 0.0 && -1.0 < c <= 0.0
    requires s == Share(h0, h1) && p == Pivot(h0, h1, c) && p > 1.0
    requires q == (s - 1.0) / p
    requires g == dy1 / h1 - dy0 / h0 && e == (6.0 * g / (h0 + h1) - s * r) / p
    ensures Step(h0, h1, 6.0 * (Div(dy1, h1) - Div(dy0, h0)), c, r, q, e) && -1.0 < q <= 0.0
  {
    DivIsQuotient(dy0, h0);
    DivIsQuotient(dy1, h1);
    var k := 6.0 * g;
    DivIsQuotient(k, h0 + h1);
    DivIsQuotient(s - 1.0, p);
    DivIsQuotient(k / (h0 + h1) - s * r, p);
    StepInRange(h0, h1, c);
  }

  // ---------- The whole system ----------

  /** c and r are what the first loop leaves in y2 and delta below index n. */
  ghost predicate Eliminated(xs: seq<real>, ys: seq<real>, c: seq<real>, r: seq<real>, n: nat)
    requires Knots(xs, ys) && 1 <= n < |xs| && n <= |c| && n <= |r|
  {
    && c[0] == 0.0 && r[0] == 0.0
    && forall i :: 1 <= i < n ==>
      Step(xs[i] - xs[i-1], xs[i+1] - xs[i], Bend(xs, ys, i), c[i-1], r[i-1], c[i], r[i])
  }

  /** One pass of the first loop, as its six assignments compute it, extends the
      eliminated rows by one. */
  lemma PassComputed(xs: seq<real>, ys: seq<real>, c: seq<real>, r: seq<real>, i: nat,
                     s: real, p: real, q: real, g: real, e: real)
    requires Knots(xs, ys) && 1 <= i < |xs| - 1 && |c| == |r| == i && Eliminated(xs, ys, c, r, i)
    requires -1.0 < c[i-1] <= 0.0
    requires s == (xs[i] - xs[i-1]) / (xs[i+1] - xs[i-1]) && p == s * c[i-1] + 2.0 && p > 1.0
    requires q == (s - 1.0) / p
    requires g == (ys[i+1] - ys[i]) / (xs[i+1] - xs[i]) - (ys[i] - ys[i-1]) / (xs[i] - xs[i-1])
    requires e == (6.0 * g / (xs[i+1] - xs[i-1]) - s * r[i-1]) / p
    ensures Eliminated(xs, ys, c + [q], r + [e], i + 1)
    ensures -1.0 < q <= 0.0
  {
    var h0, h1 := xs[i] - xs[i-1], xs[i+1] - xs[i];
    PivotComputed(h0, h1, c[i-1], s, p);
    StepComputed(h0, h1, ys[i] - ys[i-1], ys[i+1] - ys[i], c[i-1], r[i-1], s, p, q, g, e);
  }

  ghost predicate ReducedFrom(c: seq<real>, r: seq<real>, m: seq<real>, j: nat) {
    |c| == |r| == |m| - 1 && forall k :: j <= k < |c| ==> Reduced(m[k], c[k], m[k+1], r[k])
  }

  lemma ExtendReduced(c: seq<real>, r: seq<real>, m: seq<real>, j: nat, v: real)
    requires ReducedFrom(c, r, m, j + 1) && j < |c| && v == c[j] * m[j+1] + r[j]
    ensures ReducedFrom(c, r, m[j := v], j)
  {
    var m' := m[j := v];
    forall k | j <= k < |c| ensures Reduced(m'[k], c[k], m'[k+1], r[k]) {
      assert k > j ==> Reduced(m[k], c[k], m[k+1], r[k]);
    }
  }

  /** Back substitution through the eliminated rows solves the original system. */
  lemma BackSubstituted(xs: seq<real>, ys: seq<real>, c: seq<real>, r: seq<real>, m: seq<real>)
    requires Knots(xs, ys) && |c| == |r| == |xs| - 1 && |m| == |xs| && m[|m|-1] == 0.0
    requires Eliminated(xs, ys, c, r, |xs| - 1)
    requires ReducedFrom(c, r, m, 0)
    ensures NaturalSpline(xs, ys, m)
  {
    assert Reduced(m[0], c[0], m[1], r[0]);
    forall i | 1 <= i < |xs| - 1 ensures KnotEquation(xs, ys, m, i) {
      assert Reduced(m[i-1], c[i-1], m[i], r[i-1]) && Reduced(m[i], c[i], m[i+1], r[i]);
      EliminateStep(xs[i] - xs[i-1], xs[i+1] - xs[i], Bend(xs, ys, i), c[i-1], r[i-1], c[i], r[i],
                    m[i-1], m[i], m[i+1]);
    }
  }

  /** There is at most one natural spline through given knots: the difference of
      two vanishes where it is largest, because the middle weight of each row is
      twice the sum of the outer ones. */
  lemma UniqueNaturalSpline(xs: seq<real>, ys: seq<real>, m: seq<real>, m': seq<real>)
    requires Knots(xs, ys) && NaturalSpline(xs, ys, m) && NaturalSpline(xs, ys, m')
    ensures m == m'
  {
    var w := seq(|m|, i requires 0 <= i < |m| => m[i] - m'[i]);
    var i := LargestIndex(w, |w|);
    if 1 <= i < |w| - 1 {
      assert KnotEquation(xs, ys, m, i) && KnotEquation(xs, ys, m', i);
      RowDifference(xs[i] - xs[i-1], xs[i+1] - xs[i], Bend(xs, ys, i),
                    m[i-1], m[i], m[i+1], m'[i-1], m'[i], m'[i+1]);
      DominantMiddle(xs[i] - xs[i-1], xs[i+1] - xs[i], w[i-1], w[i], w[i+1]);
    }
    assert w[i] == 0.0;
    forall j | 0 <= j < |m| ensures m[j] == m'[j] { assert Abs(w[j]) <= Abs(w[i]); }
  }

  lemma {:induction false} LargestIndex(w: seq<real>, n: nat) returns (i: nat)
    requires 1 <= n <= |w|
    ensures i < n && forall j :: 0 <= j < n ==> Abs(w[j]) <= Abs(w[i])
  {
    if n == 1 {
      i := 0;
    } else {
      i := LargestIndex(w, n - 1);
      if Abs(w[i]) < Abs(w[n-1]) { i := n - 1; }
    }
  }

  lemma RowDifference(h0: real, h1: real, k: real, a0: real, a1: real, a2: real, b0: real, b1: real, b2: real)
    requires Row(h0, h1, a0, a1, a2, k) && Row(h0, h1, b0, b1, b2, k)
    ensures Row(h0, h1, a0 - b0, a1 - b1, a2 - b2, 0.0)
  {
  }

  lemma DominantMiddle(h0: real, h1: real, w0: real, w1: real, w2: real)
    requires h0 > 0.0 && h1 > 0.0 && Row(h0, h1, w0, w1, w2, 0.0)
    requires Abs(w0) <= Abs(w1) && Abs(w2) <= Abs(w1)
    ensures w1 == 0.0
  {
    if w1 >= 0.0 {
      DominantNonNegative(h0, h1, w0, w1, w2);
    } else {
      RowDifference(h0, h1, 0.0, 0.0, 0.0, 0.0, w0, w1, w2);
      DominantNonNegative(h0, h1, 0.0 - w0, 0.0 - w1, 0.0 - w2);
    }
  }

  lemma DominantNonNegative(h0: real, h1: real, w0: real, w1: real, w2: real)
    requires h0 > 0.0 && h1 > 0.0 && Row(h0, h1, w0, w1, w2, 0.0)
    requires w1 >= 0.0 && -w1 <= w0 && -w1 <= w2
    ensures w1 == 0.0
  {
    var p, q, r := h0 * (w0 + w1), h1 * (w2 + w1), (h0 + h1) * w1;
    assert p >= 0.0 && q >= 0.0;
    assert p + q + r == h0 * w0 + 2.0 * (h0 + h1) * w1 + h1 * w2;
    assert w1 > 0.0 ==> r > 0.0;
  }

  // ---------- One cubic piece and its derivatives ----------

  /** The cubic in barycentric form: a and b are the weights of the two ends,
      h the width of the interval. */
  function Cubic(a: real, b: real, h: real, y0: real, y1: real, m0: real, m1: real): real {
    a * y0 + b * y1 + ((a * a * a - a) * m0 + (b * b * b - b) * m1) * (h * h) / 6.0
  }

  /** The value at x of the cubic over [x0, x1]. */
  ghost function Piece(x0: real, x1: real, y0: real, y1: real, m0: real, m1: real, x: real): real
    requires x0 != x1
  {
    Cubic(Div(x1 - x, x1 - x0), Div(x - x0, x1 - x0), x1 - x0, y0, y1, m0, m1)
  }

  ghost function CubicSlope(a: real, b: real, h: real, w: real, m0: real, m1: real): real {
    w + ((3.0 * b * b - 1.0) * m1 - (3.0 * a * a - 1.0) * m0) * h / 6.0
  }

  ghost function PieceSlope(x0: real, x1: real, y0: real, y1: real, m0: real, m1: real, x: real): real
    requires x0 != x1
  {
    CubicSlope(Div(x1 - x, x1 - x0), Div(x - x0, x1 - x0), x1 - x0, Div(y1 - y0, x1 - x0), m0, m1)
  }

  ghost function PieceCurvature(x0: real, x1: real, m0: real, m1: real, x: real): real
    requires x0 != x1
  {
    CubicCurvature(Div(x1 - x, x1 - x0), Div(x - x0, x1 - x0), m0, m1)
  }

  ghost function CubicCurvature(a: real, b: real, m0: real, m1: real): real {
    a * m0 + b * m1
  }

  /** c0 + c1 t + c2 t^2 / 2 + c3 t^3 / 6. */
  ghost function Taylor(c0: real, c1: real, c2: real, c3: real, t: real): real {
    c0 + c1 * t + c2 * (t * t) / 2.0 + c3 * (t * t * t) / 6.0
  }

  /** PieceSlope and PieceCurvature are the first and second derivative of Piece:
      they are its Taylor coefficients at every point. */
  lemma PieceTaylor(x0: real, x1: real, y0: real, y1: real, m0: real, m1: real, x: real, t: real)
    requires x0 != x1
    ensures Piece(x0, x1, y0, y1, m0, m1, x + t)
         == Taylor(Piece(x0, x1, y0, y1, m0, m1, x),
                   PieceSlope(x0, x1, y0, y1, m0, m1, x),
                   PieceCurvature(x0, x1, m0, m1, x),
                   Div(m1 - m0, x1 - x0), t)
  {
    var h := x1 - x0;
    var a, b, u, v, w := Div(x1 - x, h), Div(x - x0, h), Div(t, h), Div(m1 - m0, h), Div(y1 - y0, h);
    assert Piece(x0, x1, y0, y1, m0, m1, x + t) == Cubic(a - u, b + u, h, y0, y1, m0, m1) by {
      WeightShift(x0, x1, x, t, h, u);
    }
    CubicTaylor(a, b, u, h, y0, y1, m0, m1);
    TaylorRescale(a, b, u, h, t, Cubic(a, b, h, y0, y1, m0, m1), y1 - y0, m0, m1, v, w);
  }

  lemma WeightShift(x0: real, x1: real, x: real, t: real, h: real, u: real)
    requires h != 0.0 && u == Div(t, h)
    ensures Div(x1 - (x + t), h) == Div(x1 - x, h) - u
    ensures Div(x + t - x0, h) == Div(x - x0, h) + u
  {
    DivUnique(x1 - (x + t), h, Div(x1 - x, h) - u);
    DivUnique(x + t - x0, h, Div(x - x0, h) + u);
  }

  lemma CubicTaylor(a: real, b: real, u: real, h: real, y0: real, y1: real, m0: real, m1: real)
    ensures Cubic(a - u, b + u, h, y0, y1, m0, m1)
         == UnitTaylor(a, b, u, h, Cubic(a, b, h, y0, y1, m0, m1), y1 - y0, m0, m1)
  {
    CubeShift(a, -u); CubeShift(b, u);
  }

  /** The expansion in the rescaled step u = t / h. */
  ghost function UnitTaylor(a: real, b: real, u: real, h: real, c0: real, dy: real, m0: real, m1: real): real {
    c0 + dy * u + ((3.0 * b * b - 1.0) * m1 - (3.0 * a * a - 1.0) * m0) * (h * h) * u / 6.0
    + (a * m0 + b * m1) * (h * h) * (u * u) / 2.0 + (m1 - m0) * (h * h) * (u * u * u) / 6.0
  }

  lemma CubeShift(a: real, u: real)
    ensures (a + u) * (a + u) * (a + u) - (a + u)
         == (a * a * a - a) + (3.0 * a * a - 1.0) * u + 3.0 * a * (u * u) + u * u * u
  {
  }

  lemma TaylorRescale(a: real, b: real, u: real, h: real, t: real, c0: real, dy: real,
                      m0: real, m1: real, v: real, w: real)
    requires u * h == t && v * h == m1 - m0 && w * h == dy
    ensures Taylor(c0, CubicSlope(a, b, h, w, m0, m1), CubicCurvature(a, b, m0, m1), v, t)
         == UnitTaylor(a, b, u, h, c0, dy, m0, m1)
  {
    assert t * t == (h * h) * (u * u);
    assert t * t * t == h * ((h * h) * (u * u * u));
  }

  // ---------- The spline as one function ----------

  /** The interval x is looked up in: the last one that starts at or below x,
      found by a linear scan from the right. */
  ghost function Interval(xs: seq<real>, x: real, i: nat): (k: nat)
    ensures k <= i
  {
    if i == 0 || (i < |xs| && xs[i] <= x) then i else Interval(xs, x, i - 1)
  }

  lemma {:induction false} IntervalIs(xs: seq<real>, x: real, i: nat, k: nat)
    requires Increasing(xs) && k <= i < |xs|
    requires k == 0 || xs[k] <= x
    requires forall j :: k < j <= i ==> xs[j] > x
    ensures Interval(xs, x, i) == k
  {
    if k < i { IntervalIs(xs, x, i - 1, k); }
  }

  ghost function PieceOf(xs: seq<real>, ys: seq<real>, m: seq<real>, i: nat, x: real): real
    requires Knots(xs, ys) && |m| == |xs| && i < |xs| - 1
  {
    Piece(xs[i], xs[i+1], ys[i], ys[i+1], m[i], m[i+1], x)
  }

  ghost function SlopeOf(xs: seq<real>, ys: seq<real>, m: seq<real>, i: nat, x: real): real
    requires Knots(xs, ys) && |m| == |xs| && i < |xs| - 1
  {
    PieceSlope(xs[i], xs[i+1], ys[i], ys[i+1], m[i], m[i+1], x)
  }

  ghost function CurvatureOf(xs: seq<real>, m: seq<real>, i: nat, x: real): real
    requires Increasing(xs) && |m| == |xs| && i < |xs| - 1
  {
    PieceCurvature(xs[i], xs[i+1], m[i], m[i+1], x)
  }

  ghost function SplineValue(xs: seq<real>, ys: seq<real>, m: seq<real>, x: real): real
    requires Knots(xs, ys) && |m| == |xs|
  {
    PieceOf(xs, ys, m, Interval(xs, x, |xs| - 2), x)
  }

  lemma PieceEnds(x0: real, x1: real, y0: real, y1: real, m0: real, m1: real)
    requires x0 < x1
    ensures Piece(x0, x1, y0, y1, m0, m1, x0) == y0 && Piece(x0, x1, y0, y1, m0, m1, x1) == y1
    ensures PieceCurvature(x0, x1, m0, m1, x0) == m0 && PieceCurvature(x0, x1, m0, m1, x1) == m1
    ensures PieceSlope(x0, x1, y0, y1, m0, m1, x0) == Div(y1 - y0, x1 - x0) - (2.0 * m0 + m1) * (x1 - x0) / 6.0
    ensures PieceSlope(x0, x1, y0, y1, m0, m1, x1) == Div(y1 - y0, x1 - x0) + (m0 + 2.0 * m1) * (x1 - x0) / 6.0
  {
    DivUnique(x1 - x0, x1 - x0, 1.0);
    DivUnique(x0 - x0, x1 - x0, 0.0);
    DivUnique(x1 - x1, x1 - x0, 0.0);
  }

  /** The spline passes through every knot. */
  lemma PassesThroughKnots(xs: seq<real>, ys: seq<real>, m: seq<real>, i: nat)
    requires Knots(xs, ys) && |m| == |xs| && i < |xs|
    ensures SplineValue(xs, ys, m, xs[i]) == ys[i]
  {
    var k := if i == |xs| - 1 then i - 1 else i;
    IntervalIs(xs, xs[i], |xs| - 2, k);
    PieceEnds(xs[k], xs[k+1], ys[k], ys[k+1], m[k], m[k+1]);
  }

  /** Any m makes the curve continuous with continuous curvature; its slope is
      continuous at an interior knot exactly when m satisfies the knot equation. */
  lemma SmoothAtKnot(xs: seq<real>, ys: seq<real>, m: seq<real>, i: nat)
    requires Knots(xs, ys) && |m| == |xs| && 1 <= i < |xs| - 1
    ensures PieceOf(xs, ys, m, i - 1, xs[i]) == ys[i] == PieceOf(xs, ys, m, i, xs[i])
    ensures CurvatureOf(xs, m, i - 1, xs[i]) == m[i] == CurvatureOf(xs, m, i, xs[i])
    ensures SlopeOf(xs, ys, m, i - 1, xs[i]) == SlopeOf(xs, ys, m, i, xs[i])
            <==> KnotEquation(xs, ys, m, i)
  {
    PieceEnds(xs[i-1], xs[i], ys[i-1], ys[i], m[i-1], m[i]);
    PieceEnds(xs[i], xs[i+1], ys[i], ys[i+1], m[i], m[i+1]);
    SlopesMeet(xs[i] - xs[i-1], xs[i+1] - xs[i], Chord(xs, ys, i - 1), Chord(xs, ys, i), m[i-1], m[i], m[i+1]);
  }

  lemma SlopesMeet(h0: real, h1: real, w0: real, w1: real, m0: real, m1: real, m2: real)
    ensures w0 + (m0 + 2.0 * m1) * h0 / 6.0 == w1 - (2.0 * m1 + m2) * h1 / 6.0
            <==> Row(h0, h1, m0, m1, m2, 6.0 * (w1 - w0))
  {
  }

  /** A spline solved for collinear knots is the line itself, everywhere. */
  lemma CollinearIsLine(xs: seq<real>, ys: seq<real>, m: seq<real>, p: real, q: real, x: real)
    requires Knots(xs, ys) && NaturalSpline(xs, ys, m)
    requires forall i :: 0 <= i < |xs| ==> ys[i] == p * xs[i] + q
    ensures SplineValue(xs, ys, m, x) == p * x + q
  {
    var flat := seq(|xs|, _ => 0.0);
    forall i | 1 <= i < |xs| - 1 ensures KnotEquation(xs, ys, flat, i) {
      ChordOfLine(xs, ys, p, q, i - 1);
      ChordOfLine(xs, ys, p, q, i);
    }
    UniqueNaturalSpline(xs, ys, m, flat);
    var i := Interval(xs, x, |xs| - 2);
    LineInWeights(xs[i], xs[i+1], p, q, x);
  }

  lemma ChordOfLine(xs: seq<real>, ys: seq<real>, p: real, q: real, i: nat)
    requires Knots(xs, ys) && i + 1 < |xs|
    requires ys[i] == p * xs[i] + q && ys[i+1] == p * xs[i+1] + q
    ensures Chord(xs, ys, i) == p
  {
    DivUnique(ys[i+1] - ys[i], xs[i+1] - xs[i], p);
  }

  lemma LineInWeights(x0: real, x1: real, p: real, q: real, x: real)
    requires x0 < x1
    ensures Piece(x0, x1, p * x0 + q, p * x1 + q, 0.0, 0.0, x) == p * x + q
  {
    var h := x1 - x0;
    var b := Div(x - x0, h);
    DivUnique(x1 - x, h, 1.0 - b) by { assert (1.0 - b) * h == h - b * h; }
    calc {
      (1.0 - b) * (p * x0 + q) + b * (p * x1 + q);
      p * (x0 + b * h) + q;
      p * x + q;
    }
  }

  // ---------- Powers of two, for the halving search ----------

  ghost function Pow2(t: nat): (p: nat)
    ensures p >= 1
  {
    if t == 0 then 1 else 2 * Pow2(t - 1)
  }

  ghost predicate PowerOfTwo(k: nat) {
    exists t: nat :: k == Pow2(t)
  }

  lemma {:induction false} Pow2Increasing(s: nat, t: nat)
    requires s < t
    ensures 2 * Pow2(s) <= Pow2(t)
  {
    if s + 1 < t { Pow2Increasing(s, t - 1); }
  }

  /** k halved t times. */
  ghost function Halved(k: nat, t: nat): real {
    if t == 0 then k as real else Halved(k, t - 1) / 2.0
  }

  lemma {:induction false} HalvedAgainstPower(k: nat, t: nat, e: nat)
    ensures Halved(k, t) < Pow2(e) as real <==> k < Pow2(t + e)
    ensures Halved(k, t) > Pow2(e) as real <==> k > Pow2(t + e)
  {
    if t > 0 { HalvedAgainstPower(k, t - 1, e + 1); }
  }

  /** Halving k until it lies in (1/2, 1] meets 1 exactly for a power of two. */
  lemma HalvedToOne(k: nat, t: nat)
    requires 1 <= k && 0.5 < Halved(k, t) <= 1.0
    ensures Halved(k, t) == 1.0 <==> PowerOfTwo(k)
  {
    HalvedAgainstPower(k, t, 0);
    if Halved(k, t) < 1.0 {
      HalvedAgainstPower(k, t - 1, 0);
      if PowerOfTwo(k) {
        var s: nat :| k == Pow2(s);
        if s < t - 1 { Pow2Increasing(s, t - 1); } else if t < s { Pow2Increasing(t, s); }
        assert false;
      }
    }
  }

  // ---------- SplineHelper ----------

  class SplineHelper {
    const n: nat
    const xdata: array<real>
    const ydata: array<real>
    const y2: array<real>

    ghost predicate Valid()
      reads xdata, ydata, y2
    {
      && n == xdata.Length == ydata.Length == y2.Length
      && Knots(xdata[..], ydata[..])
      && NaturalSpline(xdata[..], ydata[..], y2[..])
    }

    constructor (data: seq<Point>)
      requires 2 <= |data|
      requires forall i, j :: 0 <= i < j < |data| ==> data[i].plotX < data[j].plotX
      ensures Valid() && n == |data|
      ensures forall i :: 0 <= i < n ==> xdata[i] == data[i].plotX && ydata[i] == data[i].plotY
      ensures fresh(xdata) && fresh(ydata) && fresh(y2)
    {
      n := |data|;
      xdata := new real[|data|];
      ydata := new real[|data|];
      y2 := new real[|data|];
      new;
      for i := 0 to n
        invariant forall k :: 0 <= k < i ==> xdata[k] == data[k].plotX && ydata[k] == data[k].plotY
      {
        xdata[i] := data[i].plotX;
        ydata[i] := data[i].plotY;
      }
      var delta := new real[n];
      ghost var c, r := Eliminate(delta);
      BackSubstitute(delta, c, r);
    }

    ghost predicate Ready(delta: array<real>)
      reads xdata, ydata
    {
      && n == xdata.Length == ydata.Length == y2.Length == delta.Length && Knots(xdata[..], ydata[..])
      && y2 !in {xdata, ydata, delta} && delta !in {xdata, ydata}
    }

    /** The first loop: y2 holds the elimination coefficients after it. */
    method Eliminate(delta: array<real>) returns (ghost c: seq<real>, ghost r: seq<real>)
      requires Ready(delta)
      modifies y2, delta
      ensures Ready(delta) && |c| == |r| == n - 1
      ensures y2[..n-1] == c && y2[n-1] == 0.0 && delta[..n-1] == r
      ensures Eliminated(xdata[..], ydata[..], c, r, n - 1)
    {
      y2[0] := 0.0;
      y2[n-1] := 0.0;
      delta[0] := 0.0;
      c, r := [0.0], [0.0];
      for i := 1 to n - 1
        invariant |c| == |r| == i && y2[..i] == c && delta[..i] == r
        invariant y2[n-1] == 0.0 && -1.0 < c[i-1] <= 0.0
        invariant Eliminated(xdata[..], ydata[..], c, r, i)
      {
        c, r := EliminateAt(delta, i, c, r);
      }
    }

    /** The body of the first loop. */
    method EliminateAt(delta: array<real>, i: nat, ghost c: seq<real>, ghost r: seq<real>)
      returns (ghost c': seq<real>, ghost r': seq<real>)
      requires Ready(delta) && 1 <= i < n - 1
      requires |c| == |r| == i && y2[..i] == c && delta[..i] == r
      requires Eliminated(xdata[..], ydata[..], c, r, i) && -1.0 < c[i-1] <= 0.0
      modifies y2, delta
      ensures |c'| == |r'| == i + 1 && y2[..i+1] == c' && delta[..i+1] == r'
      ensures Eliminated(xdata[..], ydata[..], c', r', i + 1) && -1.0 < c'[i] <= 0.0
      ensures forall k :: i < k < n ==> y2[k] == old(y2[k])
    {
      ghost var xs, ys := xdata[..], ydata[..];
      var d := xdata[i+1] - xdata[i-1];
      var s := (xdata[i] - xdata[i-1]) / d;
      var p := s * y2[i-1] + 2.0;
      PivotComputed(xs[i] - xs[i-1], xs[i+1] - xs[i], c[i-1], s, p);
      y2[i] := (s - 1.0) / p;
      delta[i] := (ydata[i+1] - ydata[i]) / (xdata[i+1] - xdata[i])
                  - (ydata[i] - ydata[i-1]) / (xdata[i] - xdata[i-1]);
      ghost var g := delta[i];
      delta[i] := (6.0 * delta[i] / (xdata[i+1] - xdata[i-1]) - s * delta[i-1]) / p;
      PassComputed(xs, ys, c, r, i, s, p, y2[i], g, delta[i]);
      c', r' := c + [y2[i]], r + [delta[i]];
    }

    /** The second loop: y2 holds the second derivatives after it. */
    method BackSubstitute(delta: array<real>, ghost c: seq<real>, ghost r: seq<real>)
      requires Ready(delta) && |c| == |r| == n - 1
      requires y2[..n-1] == c && y2[n-1] == 0.0 && delta[..n-1] == r
      requires Eliminated(xdata[..], ydata[..], c, r, n - 1)
      modifies y2
      ensures Valid()
    {
      for j := n - 1 downto 0
        invariant y2[n-1] == 0.0
        invariant forall k :: 0 <= k < j ==> y2[k] == c[k]
        invariant ReducedFrom(c, r, y2[..], j)
      {
        ghost var m := y2[..];
        assert y2[j] == c[j] && delta[j] == r[j];
        y2[j] := y2[j] * y2[j+1] + delta[j];
        ExtendReduced(c, r, m, j, y2[j]);
        assert y2[..] == m[j := y2[j]];
      }
      BackSubstituted(xdata[..], ydata[..], c, r, y2[..]);
    }

    /** The halving search: from the first knot on its floored bounds are the interval
        of the linear scan, and before it the first interval or an empty one. */
    method Search(xpoint: real) returns (intMin: nat, intMax: nat)
      requires Valid()
      ensures intMin <= n - 2 && intMin == Interval(xdata[..], xpoint, n - 2)
      ensures intMax == if xpoint >= xdata[0] || PowerOfTwo(n - 1) then intMin + 1 else intMin
    {
      ghost var xs := xdata[..];
      var max, min := (n - 1) as real, 0.0;
      ghost var t: nat := 0;
      while max - min > 1.0
        invariant 0.0 <= min < max <= (n - 1) as real && max - min > 0.5
        invariant max == (n - 1) as real || xdata[max.Floor] > xpoint
        invariant min == 0.0 || xdata[min.Floor] <= xpoint
        invariant xpoint < xdata[0] ==> min == 0.0
        invariant max - min == Halved(n - 1, t)
        decreases (2.0 * (max - min)).Floor
      {
        var k := (max + min) / 2.0;
        assert k.Floor <= n - 1;
        if xdata[k.Floor] > xpoint {
          max := k;
        } else {
          assert xpoint >= xdata[0];
          min := k;
        }
        t := t + 1;
      }
      intMax, intMin := max.Floor, min.Floor;
      if xpoint >= xdata[0] {
        assert xdata[intMin] <= xpoint;
        assert intMax == intMin + 1;
        IntervalIs(xs, xpoint, n - 2, intMin);
      } else {
        HalvedToOne(n - 1, t);
        IntervalIs(xs, xpoint, n - 2, 0);
      }
    }

    /** Below the first knot the search can end in an empty interval, and the division
        by its zero width leaves no number. */
    method Interpolate(xpoint: real) returns (r: Option<real>)
      requires Valid()
      ensures r.Some? <==> xpoint >= xdata[0] || PowerOfTwo(n - 1)
      ensures r.Some? ==> r.value == SplineValue(xdata[..], ydata[..], y2[..], xpoint)
    {
      var intMin, intMax := Search(xpoint);
      var h := xdata[intMax] - xdata[intMin];
      if h == 0.0 { return None; }
      var a := (xdata[intMax] - xpoint) / h;
      var b := (xpoint - xdata[intMin]) / h;
      DivIsQuotient(xdata[intMax] - xpoint, h);
      DivIsQuotient(xpoint - xdata[intMin], h);
      r := Some(Cubic(a, b, h, ydata[intMin], ydata[intMax], y2[intMin], y2[intMax]));
    }

    /** Evenly spaced samples of the spline from the first knot to the last;
        zero asks for fifty. */
    method Get(num: nat) returns (data: seq<Point>)
      requires Valid()
      ensures |data| == if num == 0 then 50 else num
      ensures data[0] == Point(xdata[0], ydata[0])
      ensures |data| > 1 ==> data[|data|-1] == Point(xdata[n-1], ydata[n-1])
      ensures Samples(xdata[..], ydata[..], y2[..], |data|, data)
    {
      var count := if num == 0 then 50 else num;
      ghost var xs, ys, m := xdata[..], ydata[..], y2[..];
      data := [Point(xdata[0], ydata[0])];
      PassesThroughKnots(xs, ys, m, 0);
      PassesThroughKnots(xs, ys, m, n - 1);
      if count == 1 { return; }
      var step := (xdata[n-1] - xdata[0]) / (count - 1) as real;
      for j := 1 to count
        invariant |data| == j && data[0] == Point(xs[0], ys[0])
        invariant Samples(xs, ys, m, count, data)
      {
        SampleInRange(xs, count, j, step);
        var x := xdata[0] + j as real * step;
        var y := Interpolate(x);
        data := data + [Point(x, y.value)];
      }
      SampleInRange(xs, count, count - 1, step);
    }
  }

  lemma ThreeIsNoPowerOfTwo()
    ensures !PowerOfTwo(3)
  {
    forall t: nat ensures Pow2(t) != 3 {
      if t >= 2 { Pow2Increasing(1, t); }
    }
  }

  /** Left of four knots the search ends in an interval of width zero. */
  method FailsLeftOfData() returns (r: Option<real>)
    ensures r == None
  {
    var helper := new SplineHelper([Point(0.0, 0.0), Point(1.0, 0.0), Point(2.0, 0.0), Point(3.0, 0.0)]);
    ThreeIsNoPowerOfTwo();
    r := helper.Interpolate(-1.0);
  }

  /** data holds the first of count evenly spaced samples of the spline. */
  ghost predicate Samples(xs: seq<real>, ys: seq<real>, m: seq<real>, count: nat, data: seq<Point>)
    requires Knots(xs, ys) && |m| == |xs|
  {
    count >= 1 && forall k :: 0 <= k < |data| ==>
      data[k] == Point(SampleX(xs, count, k), SplineValue(xs, ys, m, SampleX(xs, count, k)))
  }

  ghost function SampleX(xs: seq<real>, count: nat, j: nat): real
    requires |xs| >= 1 && count >= 1
  {
    if count == 1 then xs[0] else xs[0] + j as real * ((xs[|xs|-1] - xs[0]) / (count - 1) as real)
  }

  lemma SampleInRange(xs: seq<real>, count: nat, j: nat, step: real)
    requires |xs| >= 2 && Increasing(xs) && 1 <= j < count
    requires step == (xs[|xs|-1] - xs[0]) / (count - 1) as real
    ensures SampleX(xs, count, j) == xs[0] + j as real * step
    ensures SampleX(xs, count, j) >= xs[0]
    ensures j == count - 1 ==> SampleX(xs, count, j) == xs[|xs|-1]
  {
    var w, c := xs[|xs|-1] - xs[0], (count - 1) as real;
    assert step * c == w;
    assert step >= 0.0;
    assert j as real * step >= 0.0;
  }
}
