/** What multilateration minimises: the steps of the search are steps down the sum of squared differences
    between distances and ranges. */
module Objective {
  import opened Arithmetic
  import opened Localization

  /** Where the code sees the true distance. */
  ghost predicate Clear(lib: Maths, anchors: seq<Point>, p: Point) {
    forall i :: 0 <= i < |anchors| ==> lib.hypot(p.x - anchors[i].x, p.y - anchors[i].y) >= NEAREST
  }

  // ---------------------------------------------------------------- one anchor

  /** The inner product of two vectors is at most the product of their lengths. */
  lemma Cauchy(vx: real, vy: real, wx: real, wy: real, d: real, e: real)
    requires d >= 0.0 && e >= 0.0 && Sq(d) == Sq(vx) + Sq(vy) && Sq(e) == Sq(wx) + Sq(wy)
    ensures vx * wx + vy * wy <= d * e
  {
    var dot, cross, de := vx * wx + vy * wy, vx * wy - vy * wx, d * e;
    Lagrange(vx, vy, wx, wy);
    SquareOfProduct(d, e);
    SqSign(cross);
    Positive(d, e);
    if dot > de { Larger(dot, de); }
  }

  lemma Lagrange(vx: real, vy: real, wx: real, wy: real)
    ensures Sq(vx * wx + vy * wy) + Sq(vx * wy - vy * wx) == (Sq(vx) + Sq(vy)) * (Sq(wx) + Sq(wy))
  {
    var a, b, c, e := vx * wx, vy * wy, vx * wy, vy * wx;
    assert Sq(a + b) == Sq(a) + 2.0 * (a * b) + Sq(b);
    assert Sq(c - e) == Sq(c) - 2.0 * (c * e) + Sq(e);
    assert a * b == c * e;
    SquareOfProduct(vx, wx);
    SquareOfProduct(vy, wy);
    SquareOfProduct(vx, wy);
    SquareOfProduct(vy, wx);
  }

  lemma SquareOfProduct(x: real, y: real)
    ensures Sq(x * y) == Sq(x) * Sq(y)
  {
  }

  lemma Larger(x: real, y: real)
    requires x > y >= 0.0
    ensures Sq(x) > Sq(y)
  {
    var d := x - y;
    SqSign(d);
    Positive(d, y);
    assert Sq(x) == Sq(d) + 2.0 * (d * y) + Sq(y);
  }

  /** By how much the distance to an anchor bends away from its slope, times the distance. */
  lemma Bends(vx: real, vy: real, sx: real, sy: real, d: real, e: real)
    requires d >= 0.0 && e >= 0.0 && Sq(d) == Sq(vx) + Sq(vy) && Sq(e) == Sq(vx + sx) + Sq(vy + sy)
    ensures 0.0 <= Prod(d, e) - Sq(d) - (Prod(vx, sx) + Prod(vy, sy)) <= (Sq(sx) + Sq(sy)) / 2.0
    ensures Sq(e) == Sq(d) + 2.0 * (Prod(vx, sx) + Prod(vy, sy)) + (Sq(sx) + Sq(sy))
  {
    Cauchy(vx, vy, vx + sx, vy + sy, d, e);
    SumSquared(vx, sx);
    SumSquared(vy, sy);
    MeanSquare(d, e);
  }

  lemma SumSquared(x: real, y: real)
    ensures Sq(x + y) == Sq(x) + 2.0 * (x * y) + Sq(y) && x * (x + y) == Sq(x) + x * y
  {
  }

  lemma MeanSquare(d: real, e: real)
    ensures d * e <= (Sq(d) + Sq(e)) / 2.0
  {
    SqSign(d - e);
    assert Sq(d - e) == Sq(d) - 2.0 * (d * e) + Sq(e);
  }

  /** What one anchor adds to the bend of the objective. */
  function BendOf(range: real, d: real): real
    requires d > 0.0
  {
    1.0 + Quot(Abs(range), d)
  }

  /** One squared residual follows twice residual times row of J, up to a term of second order. */
  lemma TermSlope(lib: Maths, anchor: Point, range: real, p: Point, q: Point)
    requires Euclidean(lib) && lib.hypot(p.x - anchor.x, p.y - anchor.y) >= NEAREST
    ensures var d, e := lib.hypot(p.x - anchor.x, p.y - anchor.y), lib.hypot(q.x - anchor.x, q.y - anchor.y);
            var t, sx, sy := TermAt(lib, anchor, range, p), q.x - p.x, q.y - p.y;
            Abs(Sq(e - range) - Sq(d - range) - 2.0 * (Prod(Prod(t.j0, t.f), sx) + Prod(Prod(t.j1, t.f), sy)))
            <= Prod(BendOf(range, d), Sq(sx) + Sq(sy))
  {
    hide Euclidean, Prod, Sq, Quot, BendOf, TermAt, Abs;
    var vx, vy, sx, sy := p.x - anchor.x, p.y - anchor.y, q.x - p.x, q.y - p.y;
    var d, e := lib.hypot(vx, vy), lib.hypot(q.x - anchor.x, q.y - anchor.y);
    var dot, s := Prod(vx, sx) + Prod(vy, sy), Sq(sx) + Sq(sy);
    Lengths(lib, vx, vy);
    Lengths(lib, q.x - anchor.x, q.y - anchor.y);
    Bends(vx, vy, sx, sy, d, e);
    var w := e - d - Quot(dot, d);
    DividedBend(d, e, dot, s, w);
    TermIs(lib, anchor, range, p, d);
    SlopeTerm(vx, vy, sx, sy, d, d - range);
    ResidualChange(d, e, range, dot, s, w);
    SqSign(sx);
    SqSign(sy);
    BendBound(range, d, w, s);
  }

  lemma TermIs(lib: Maths, anchor: Point, range: real, p: Point, d: real)
    requires d == lib.hypot(p.x - anchor.x, p.y - anchor.y) && d >= NEAREST
    ensures TermAt(lib, anchor, range, p) == Term(Quot(p.x - anchor.x, d), Quot(p.y - anchor.y, d), d - range)
  {
  }

  lemma Lengths(lib: Maths, x: real, y: real)
    requires Euclidean(lib)
    ensures lib.hypot(x, y) >= 0.0 && Sq(lib.hypot(x, y)) == Sq(x) + Sq(y)
  {
  }

  lemma DividedBend(d: real, e: real, dot: real, s: real, w: real)
    requires d > 0.0 && w == e - d - Quot(dot, d) && 0.0 <= Prod(d, e) - Sq(d) - dot <= s / 2.0
    ensures 0.0 <= Prod(d, w) <= s / 2.0 && w >= 0.0
  {
    assert d * (dot / d) == dot;
    assert d * w == d * e - Sq(d) - dot;
    Positive(d, w);
  }

  lemma SlopeTerm(vx: real, vy: real, sx: real, sy: real, d: real, f: real)
    requires d > 0.0
    ensures Prod(Prod(Quot(vx, d), f), sx) + Prod(Prod(Quot(vy, d), f), sy)
            == Prod(f, Quot(Prod(vx, sx) + Prod(vy, sy), d))
  {
    var a, b := vx / d, vy / d;
    assert a * d == vx && b * d == vy;
    var k := (vx * sx + vy * sy) / d;
    assert k * d == vx * sx + vy * sy;
    assert (a * sx + b * sy) * d == vx * sx + vy * sy;
    Cancel(d, a * sx + b * sy, k);
  }

  lemma ResidualChange(d: real, e: real, r: real, dot: real, s: real, w: real)
    requires d > 0.0 && w == e - d - Quot(dot, d) && Sq(e) == Sq(d) + 2.0 * dot + s
    ensures Sq(e - r) - Sq(d - r) - 2.0 * Prod(d - r, Quot(dot, d)) == s - 2.0 * Prod(r, w)
  {
    var k := dot / d;
    assert d * k == dot;
    assert Sq(e - r) == Sq(e) - 2.0 * (r * e) + r * r;
    assert Sq(d - r) == Sq(d) - 2.0 * (r * d) + r * r;
    assert (d - r) * k == dot - r * k;
    assert r * w == r * e - r * d - r * k;
  }

  lemma BendBound(r: real, d: real, w: real, s: real)
    requires d > 0.0 && 0.0 <= Prod(d, w) <= s / 2.0 && w >= 0.0 && s >= 0.0
    ensures Abs(s - 2.0 * Prod(r, w)) <= Prod(BendOf(r, d), s)
  {
    var m := Abs(r) / d;
    assert m * d == Abs(r);
    NotNegative(Abs(r), d, m);
    assert Abs(r) * w == m * (d * w);
    Positive(m, s / 2.0 - d * w);
    assert m * (s / 2.0 - d * w) == m * s / 2.0 - m * (d * w);
    Positive(Abs(r), w);
    assert Abs(r) * w == r * w || Abs(r) * w == -(r * w);
    assert (1.0 + m) * s == s + m * s;
  }

  lemma NotNegative(x: real, d: real, m: real)
    requires x >= 0.0 && d > 0.0 && m * d == x
    ensures m >= 0.0
  {
    Positive(d, m);
  }

  // ---------------------------------------------------------------- all anchors

  /** How much the objective can bend at `p`. */
  function Bend(lib: Maths, anchors: seq<Point>, ranges: seq<real>, p: Point, k: nat): real
    requires k <= |anchors| == |ranges|
  {
    if k == 0 then 0.0
    else
      var d := lib.hypot(p.x - anchors[k - 1].x, p.y - anchors[k - 1].y);
      Bend(lib, anchors, ranges, p, k - 1) + if d > 0.0 then BendOf(ranges[k - 1], d) else 0.0
  }

  /** The vector `g` of the normal equations is half the gradient of the sum of squared residuals: away from
      the anchors that sum follows `2 g` up to a term of second order. */
  lemma {:induction false} GradientIs(lib: Maths, anchors: seq<Point>, ranges: seq<real>, p: Point, q: Point, k: nat)
    requires Euclidean(lib) && k <= |anchors| == |ranges| && Clear(lib, anchors, p)
    ensures var n, sx, sy := Sums(lib, anchors, ranges, p, k), q.x - p.x, q.y - p.y;
            Abs(Residuals(lib, anchors, ranges, q, k) - Residuals(lib, anchors, ranges, p, k)
                - 2.0 * (Prod(n.g0, sx) + Prod(n.g1, sy)))
            <= Prod(Bend(lib, anchors, ranges, p, k), Sq(sx) + Sq(sy))
  {
    hide Euclidean, TermAt, BendOf, Sq, Prod, Plus, Residuals;
    var sx, sy := q.x - p.x, q.y - p.y;
    if k == 0 {
      NothingAtAll(lib, anchors, ranges, p, q, sx, sy, Sq(sx) + Sq(sy));
    } else {
      var a, r := anchors[k - 1], ranges[k - 1];
      var t, n := TermAt(lib, a, r, p), Sums(lib, anchors, ranges, p, k - 1);
      var d := lib.hypot(p.x - a.x, p.y - a.y);
      GradientIs(lib, anchors, ranges, p, q, k - 1);
      TermSlope(lib, a, r, p, q);
      ResidualStep(lib, anchors, ranges, p, k);
      ResidualStep(lib, anchors, ranges, q, k);
      PlusSlope(n, t, sx, sy);
      ProdAdds(Bend(lib, anchors, ranges, p, k - 1), BendOf(r, d), Sq(sx) + Sq(sy));
    }
  }

  lemma NothingAtAll(lib: Maths, anchors: seq<Point>, ranges: seq<real>, p: Point, q: Point, x: real, y: real, s: real)
    requires |anchors| == |ranges|
    ensures Prod(0.0, x) == 0.0 && Prod(0.0, y) == 0.0 && Prod(0.0, s) == 0.0
    ensures Residuals(lib, anchors, ranges, p, 0) == 0.0 == Residuals(lib, anchors, ranges, q, 0)
  {
  }

  lemma ResidualStep(lib: Maths, anchors: seq<Point>, ranges: seq<real>, p: Point, k: nat)
    requires 0 < k <= |anchors| == |ranges|
    ensures Residuals(lib, anchors, ranges, p, k)
            == Residuals(lib, anchors, ranges, p, k - 1)
               + Sq(lib.hypot(p.x - anchors[k - 1].x, p.y - anchors[k - 1].y) - ranges[k - 1])
  {
  }

  lemma PlusSlope(n: Normal, t: Term, x: real, y: real)
    ensures Prod(Plus(n, t).g0, x) == Prod(n.g0, x) + Prod(Prod(t.j0, t.f), x)
    ensures Prod(Plus(n, t).g1, y) == Prod(n.g1, y) + Prod(Prod(t.j1, t.f), y)
  {
  }

  lemma ProdAdds(x: real, y: real, z: real)
    ensures Prod(x + y, z) == Prod(x, z) + Prod(y, z)
  {
  }

  /** The step of the search, or any shorter part of it that the bend allows, lowers the objective. */
  lemma StepLowers(lib: Maths, anchors: seq<Point>, ranges: seq<real>, p: Point, t: real)
    requires Euclidean(lib) && |anchors| == |ranges| && Clear(lib, anchors, p) && t > 0.0
    ensures Det(Sums(lib, anchors, ranges, p, |anchors|)) != 0.0
    ensures var n := Sums(lib, anchors, ranges, p, |anchors|);
            var s, b := Delta(n), Bend(lib, anchors, ranges, p, |anchors|);
            Prod(t, Prod(b, Sq(s.x) + Sq(s.y))) < -2.0 * Slope(n) ==>
              Residuals(lib, anchors, ranges, Point(p.x + Prod(t, s.x), p.y + Prod(t, s.y)), |anchors|)
              < Residuals(lib, anchors, ranges, p, |anchors|)
  {
    hide Euclidean, Sums, Det, Delta, Residuals, Bend, Sq, Prod, Slope;
    var n := Sums(lib, anchors, ranges, p, |anchors|);
    DetBound(lib, anchors, ranges, p);
    var s, b := Delta(n), Bend(lib, anchors, ranges, p, |anchors|);
    var q := Point(p.x + Prod(t, s.x), p.y + Prod(t, s.y));
    GradientIs(lib, anchors, ranges, p, q, |anchors|);
    SlopeIs(n);
    if Prod(t, Prod(b, Sq(s.x) + Sq(s.y))) < -2.0 * Slope(n) {
      PartOfStep(n.g0, n.g1, s.x, s.y, b, t);
    }
  }

  lemma SlopeIs(n: Normal)
    requires Det(n) != 0.0
    ensures Slope(n) == Prod(n.g0, Delta(n).x) + Prod(n.g1, Delta(n).y)
  {
    hide Det, Delta;
  }

  lemma PartOfStep(g0: real, g1: real, x: real, y: real, b: real, t: real)
    requires t > 0.0 && Prod(t, Prod(b, Sq(x) + Sq(y))) < -2.0 * (Prod(g0, x) + Prod(g1, y))
    ensures 2.0 * (Prod(g0, Prod(t, x)) + Prod(g1, Prod(t, y))) + Prod(b, Sq(Prod(t, x)) + Sq(Prod(t, y))) < 0.0
  {
    var slope, bend := g0 * x + g1 * y, b * (Sq(x) + Sq(y));
    SlopeScaled(g0, x, g1, y, t);
    BendScaled(b, x, y, t);
    hide *;
    ScaledBelow(t, bend, slope);
  }

  lemma SlopeScaled(g0: real, x: real, g1: real, y: real, t: real)
    ensures Prod(g0, Prod(t, x)) + Prod(g1, Prod(t, y)) == t * (g0 * x + g1 * y)
    ensures Prod(g0, x) + Prod(g1, y) == g0 * x + g1 * y
  {
  }

  lemma BendScaled(b: real, x: real, y: real, t: real)
    ensures Prod(b, Sq(Prod(t, x)) + Sq(Prod(t, y))) == t * (t * (b * (Sq(x) + Sq(y))))
    ensures Prod(t, Prod(b, Sq(x) + Sq(y))) == t * (b * (Sq(x) + Sq(y)))
  {
    SquareOfProduct(t, x);
    SquareOfProduct(t, y);
  }

  lemma ScaledBelow(t: real, bend: real, slope: real)
    requires t > 0.0 && t * bend < -2.0 * slope
    ensures 2.0 * (t * slope) + t * (t * bend) < 0.0
  {
    Positive(t, -2.0 * slope - t * bend);
  }
}
