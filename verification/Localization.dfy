/** Multilateration by damped Gauss-Newton (olympus_link/localization.py), over exact reals. */
module Localization {
  import opened Wrappers

  const DAMPING := 0.001
  const SINGULAR := 0.000000001
  const NEAREST := 0.000001
  const CONVERGED := 0.001

  datatype Point = Point(x: real, y: real)

  /** The library functions; nothing below depends on their values. */
  datatype Maths = Maths(hypot: (real, real) -> real, sqrt: real -> real)

  /** What an anchor and the range to it contribute at a point: a row of J and a residual. */
  datatype Term = Term(j0: real, j1: real, f: real)

  function TermAt(lib: Maths, anchor: Point, range: real, p: Point): Term {
    var dx, dy := p.x - anchor.x, p.y - anchor.y;
    var d := if lib.hypot(dx, dy) < NEAREST then NEAREST else lib.hypot(dx, dy);
    Term(dx / d, dy / d, d - range)
  }

  /** `J^T J` and `J^T f`. */
  datatype Normal = Normal(a: real, b: real, c: real, g0: real, g1: real)

  /** The five `+=` of one anchor. */
  function Plus(n: Normal, t: Term): Normal {
    Normal(n.a + t.j0 * t.j0, n.b + t.j0 * t.j1, n.c + t.j1 * t.j1, n.g0 + t.j0 * t.f, n.g1 + t.j1 * t.f)
  }

  /** The sums over the first `k` anchors. */
  function Sums(lib: Maths, anchors: seq<Point>, ranges: seq<real>, p: Point, k: nat): Normal
    requires k <= |anchors| == |ranges|
  {
    if k == 0 then Normal(0.0, 0.0, 0.0, 0.0, 0.0)
    else Plus(Sums(lib, anchors, ranges, p, k - 1), TermAt(lib, anchors[k - 1], ranges[k - 1], p))
  }

  /** The determinant of the damped matrix. */
  function Det(n: Normal): real {
    (n.a + DAMPING) * (n.c + DAMPING) - n.b * n.b
  }

  function FirstNumerator(n: Normal): real {
    -((n.c + DAMPING) * n.g0 - n.b * n.g1)
  }

  function SecondNumerator(n: Normal): real {
    -((n.a + DAMPING) * n.g1 - n.b * n.g0)
  }

  /** The step the code takes. */
  function Delta(n: Normal): Point
    requires Det(n) != 0.0
  {
    Point(FirstNumerator(n) / Det(n), SecondNumerator(n) / Det(n))
  }

  // ---------------------------------------------------------------- the matrix

  /** `J^T J` as a quadratic form. */
  function Form(n: Normal, u: real, v: real): real {
    n.a * (u * u) + 2.0 * (n.b * (u * v)) + n.c * (v * v)
  }

  lemma Square(x: real)
    ensures x * x >= 0.0
  {
  }

  lemma PlusForm(n: Normal, t: Term, u: real, v: real)
    ensures Form(Plus(n, t), u, v) == Form(n, u, v) + (t.j0 * u + t.j1 * v) * (t.j0 * u + t.j1 * v)
  {
    var x, y := t.j0 * u, t.j1 * v;
    assert (t.j0 * t.j0) * (u * u) == x * x;
    assert (t.j0 * t.j1) * (u * v) == x * y;
    assert (t.j1 * t.j1) * (v * v) == y * y;
    assert (x + y) * (x + y) == x * x + 2.0 * (x * y) + y * y;
  }

  /** It is a sum of squares. */
  lemma {:induction false} FormNonneg(lib: Maths, anchors: seq<Point>, ranges: seq<real>, p: Point, k: nat, u: real,
                                      v: real)
    requires k <= |anchors| == |ranges|
    ensures Form(Sums(lib, anchors, ranges, p, k), u, v) >= 0.0
  {
    hide Form, TermAt, Plus;
    if k == 0 {
      ZeroForm(u, v);
    } else {
      var t := TermAt(lib, anchors[k - 1], ranges[k - 1], p);
      FormNonneg(lib, anchors, ranges, p, k - 1, u, v);
      PlusForm(Sums(lib, anchors, ranges, p, k - 1), t, u, v);
      Square(t.j0 * u + t.j1 * v);
    }
  }

  lemma ZeroForm(u: real, v: real)
    ensures Form(Normal(0.0, 0.0, 0.0, 0.0, 0.0), u, v) == 0.0
  {
  }

  /** A form that is never negative. */
  ghost predicate Definite(n: Normal) {
    forall u, v :: Form(n, u, v) >= 0.0
  }

  lemma SumsDefinite(lib: Maths, anchors: seq<Point>, ranges: seq<real>, p: Point)
    requires |anchors| == |ranges|
    ensures Definite(Sums(lib, anchors, ranges, p, |anchors|))
  {
    hide Form, Sums;
    forall u, v ensures Form(Sums(lib, anchors, ranges, p, |anchors|), u, v) >= 0.0 {
      FormNonneg(lib, anchors, ranges, p, |anchors|, u, v);
    }
  }

  lemma Positive(x: real, y: real)
    ensures (x > 0.0 && y < 0.0) || (x < 0.0 && y > 0.0) ==> x * y < 0.0
    ensures x >= 0.0 && y >= 0.0 ==> x * y >= 0.0
    ensures (x > 0.0 && y > 0.0) || (x < 0.0 && y < 0.0) ==> x * y > 0.0
  {
  }

  lemma DefiniteAt(n: Normal, u: real, v: real)
    requires Definite(n)
    ensures Form(n, u, v) >= 0.0
  {
  }

  lemma CornerForms(n: Normal)
    ensures Form(n, 1.0, 0.0) == n.a && Form(n, 0.0, 1.0) == n.c
    ensures Form(n, n.c, -n.b) == n.c * (n.a * n.c - n.b * n.b)
    ensures n.c == 0.0 ==> Form(n, n.b, -(n.a + 1.0) / 2.0) == -(n.b * n.b)
  {
    var d := n.b * n.b;
    assert n.b * (n.c * -n.b) == -(n.c * d);
    assert n.a * (n.c * n.c) == n.c * (n.a * n.c);
    var s := -(n.a + 1.0) / 2.0;
    assert n.b * (n.b * s) == d * s;
    assert n.a * d + 2.0 * (d * s) == -d;
    assert -n.b * -n.b == d;
  }

  /** Cauchy-Schwarz for the two columns of J. */
  lemma Discriminant(n: Normal)
    requires Definite(n)
    ensures n.a >= 0.0 && n.c >= 0.0 && n.a * n.c - n.b * n.b >= 0.0
  {
    hide Definite, Form;
    CornerForms(n);
    DefiniteAt(n, 1.0, 0.0);
    DefiniteAt(n, 0.0, 1.0);
    DefiniteAt(n, n.c, -n.b);
    DefiniteAt(n, n.b, -(n.a + 1.0) / 2.0);
    Positive(n.c, n.a * n.c - n.b * n.b);
    if n.c == 0.0 { Vanishes(n.a, n.b); }
  }

  lemma Vanishes(a: real, b: real)
    requires -(b * b) >= 0.0
    ensures a * 0.0 - b * b >= 0.0
  {
  }

  /** The damped determinant never comes near the singularity guard. */
  lemma DetBound(lib: Maths, anchors: seq<Point>, ranges: seq<real>, p: Point)
    requires |anchors| == |ranges|
    ensures var n := Sums(lib, anchors, ranges, p, |anchors|);
            Det(n) >= DAMPING * DAMPING + DAMPING * (n.a + n.c) && n.a + n.c >= 0.0 && Det(n) > SINGULAR
  {
    hide Sums;
    var n := Sums(lib, anchors, ranges, p, |anchors|);
    SumsDefinite(lib, anchors, ranges, p);
    Discriminant(n);
    hide *;
    DetExpands(n);
  }

  lemma DetExpands(n: Normal)
    ensures Det(n) == (n.a * n.c - n.b * n.b) + DAMPING * (n.a + n.c) + DAMPING * DAMPING
  {
  }

  // ---------------------------------------------------------------- the step

  lemma Quotients(x: real, y: real, d: real)
    requires d != 0.0
    ensures d * (x / d) == x && d * (y / d) == y
  {
  }

  lemma Cancel(d: real, s: real, t: real)
    requires d != 0.0 && d * s == d * t
    ensures s == t
  {
    assert d * (s - t) == 0.0;
  }

  /** The step solves the damped normal equations. */
  lemma StepSolves(n: Normal)
    requires Det(n) != 0.0
    ensures var s := Delta(n);
            (n.a + DAMPING) * s.x + n.b * s.y == -n.g0 && n.b * s.x + (n.c + DAMPING) * s.y == -n.g1
  {
    hide Delta;
    var a, b, c, s := n.a + DAMPING, n.b, n.c + DAMPING, Delta(n);
    DeltaScaled(n);
    CramerFirst(a, b, c, n.g0, n.g1, Det(n), s.x, s.y);
    CramerSecond(a, b, c, n.g0, n.g1, Det(n), s.x, s.y);
  }

  lemma CramerFirst(a: real, b: real, c: real, g0: real, g1: real, d: real, x: real, y: real)
    requires d == a * c - b * b && d != 0.0 && d * x == -(c * g0 - b * g1) && d * y == -(a * g1 - b * g0)
    ensures a * x + b * y == -g0
  {
    assert d * (a * x + b * y) == a * (d * x) + b * (d * y);
    assert a * (c * g0 - b * g1) + b * (a * g1 - b * g0) == d * g0;
    Cancel(d, a * x + b * y, -g0);
  }

  lemma CramerSecond(a: real, b: real, c: real, g0: real, g1: real, d: real, x: real, y: real)
    requires d == a * c - b * b && d != 0.0 && d * x == -(c * g0 - b * g1) && d * y == -(a * g1 - b * g0)
    ensures b * x + c * y == -g1
  {
    assert d * (b * x + c * y) == b * (d * x) + c * (d * y);
    assert b * (c * g0 - b * g1) + c * (a * g1 - b * g0) == d * g1;
    Cancel(d, b * x + c * y, -g1);
  }

  /** The slope of the sum of squared residuals along the step, halved: gradient times step. */
  function Slope(n: Normal): real
    requires Det(n) != 0.0
  {
    n.g0 * Delta(n).x + n.g1 * Delta(n).y
  }

  lemma SlopeForm(n: Normal)
    requires Det(n) != 0.0
    ensures Det(n) * Slope(n) == -(Form(n, n.g1, -n.g0) + DAMPING * (Sq(n.g0) + Sq(n.g1)))
  {
    hide Form, Sq, Det, Delta;
    var s := Delta(n);
    DeltaScaled(n);
    SlopeExpand(n, Det(n), s.x, s.y, FirstNumerator(n), SecondNumerator(n));
  }

  lemma DeltaScaled(n: Normal)
    requires Det(n) != 0.0
    ensures Det(n) * Delta(n).x == FirstNumerator(n) && Det(n) * Delta(n).y == SecondNumerator(n)
  {
    Quotients(FirstNumerator(n), SecondNumerator(n), Det(n));
    hide Det;
  }

  lemma SlopeExpand(n: Normal, d: real, x: real, y: real, p: real, q: real)
    requires d * x == p && d * y == q && p == FirstNumerator(n) && q == SecondNumerator(n)
    ensures d * (n.g0 * x + n.g1 * y) == -(Form(n, n.g1, -n.g0) + DAMPING * (Sq(n.g0) + Sq(n.g1)))
  {
    hide *;
    Distribute(d, n.g0, x, n.g1, y, p, q);
    Numerators(n);
  }

  lemma Distribute(d: real, g0: real, x: real, g1: real, y: real, p: real, q: real)
    requires d * x == p && d * y == q
    ensures d * (g0 * x + g1 * y) == g0 * p + g1 * q
  {
    assert d * (g0 * x) == g0 * (d * x);
    assert d * (g1 * y) == g1 * (d * y);
  }

  lemma Numerators(n: Normal)
    ensures n.g0 * FirstNumerator(n) + n.g1 * SecondNumerator(n)
            == -(Form(n, n.g1, -n.g0) + DAMPING * (Sq(n.g0) + Sq(n.g1)))
  {
    hide *;
    var y := n.g0 * n.g1;
    FirstExpand(n, y);
    SecondExpand(n, y);
    FormAt(n, y);
    Combine(n.g0 * FirstNumerator(n), n.g1 * SecondNumerator(n), Form(n, n.g1, -n.g0), n.c * Sq(n.g0), n.a * Sq(n.g1),
            n.b * y, Sq(n.g0), Sq(n.g1));
  }

  lemma Combine(f: real, g: real, form: real, cx: real, az: real, mixed: real, x: real, z: real)
    requires f == -cx - DAMPING * x + mixed && g == -az - DAMPING * z + mixed && form == az - 2.0 * mixed + cx
    ensures f + g == -(form + DAMPING * (x + z))
  {
  }

  lemma FirstExpand(n: Normal, y: real)
    requires y == n.g0 * n.g1
    ensures n.g0 * FirstNumerator(n) == -(n.c * Sq(n.g0)) - DAMPING * Sq(n.g0) + n.b * y
  {
  }

  lemma SecondExpand(n: Normal, y: real)
    requires y == n.g0 * n.g1
    ensures n.g1 * SecondNumerator(n) == -(n.a * Sq(n.g1)) - DAMPING * Sq(n.g1) + n.b * y
  {
  }

  lemma FormAt(n: Normal, y: real)
    requires y == n.g0 * n.g1
    ensures Form(n, n.g1, -n.g0) == n.a * Sq(n.g1) - 2.0 * (n.b * y) + n.c * Sq(n.g0)
  {
    assert n.g1 * -n.g0 == -y;
    assert n.b * -y == -(n.b * y);
    assert -n.g0 * -n.g0 == n.g0 * n.g0;
  }

  /** Every step goes downhill, strictly so unless the gradient is zero. */
  lemma StepDescends(lib: Maths, anchors: seq<Point>, ranges: seq<real>, p: Point)
    requires |anchors| == |ranges|
    ensures var n := Sums(lib, anchors, ranges, p, |anchors|);
            Det(n) != 0.0 && Slope(n) <= 0.0 && (Slope(n) == 0.0 <==> n.g0 == 0.0 && n.g1 == 0.0)
  {
    hide Sums, Form, Det, Slope, Definite, Delta, Sq;
    var n := Sums(lib, anchors, ranges, p, |anchors|);
    DetBound(lib, anchors, ranges, p);
    SumsDefinite(lib, anchors, ranges, p);
    DefiniteAt(n, n.g1, -n.g0);
    SlopeForm(n);
    FormAtZero(n);
    Falls(n, Det(n), Slope(n), Form(n, n.g1, -n.g0));
  }

  lemma FormAtZero(n: Normal)
    ensures n.g0 == 0.0 && n.g1 == 0.0 ==> Form(n, n.g1, -n.g0) == 0.0
  {
  }

  lemma Strict(y: real, h: real)
    requires y != 0.0 && y == 2.0 * h
    ensures Sq(y) > 0.0
  {
    Positive(y, h);
    assert Sq(y) == 2.0 * (y * h);
  }

  lemma ZeroTimes(x: real, y: real)
    requires x == 0.0
    ensures x * y == 0.0
  {
  }

  function Sq(x: real): real {
    x * x
  }

  lemma SqSign(x: real)
    ensures Sq(x) >= 0.0 && (x != 0.0 ==> Sq(x) > 0.0) && (x == 0.0 ==> Sq(x) == 0.0)
  {
    Square(x);
    if x != 0.0 { Strict(x, 0.5 * x); } else { ZeroTimes(x, x); }
  }

  lemma Falls(n: Normal, d: real, s: real, q: real)
    requires d > 0.0 && q >= 0.0 && d * s == -(q + DAMPING * (Sq(n.g0) + Sq(n.g1)))
    requires n.g0 == 0.0 && n.g1 == 0.0 ==> q == 0.0
    ensures s <= 0.0 && (s == 0.0 <==> n.g0 == 0.0 && n.g1 == 0.0)
  {
    hide Sq;
    SqSign(n.g0);
    SqSign(n.g1);
    SignOf(d, s, d * s, q + DAMPING * (Sq(n.g0) + Sq(n.g1)));
  }

  lemma SignOf(d: real, s: real, w: real, r: real)
    requires d > 0.0 && w == d * s && w == -r && r >= 0.0
    ensures s <= 0.0 && (s == 0.0 <==> r == 0.0)
  {
    Positive(d, s);
    if s == 0.0 { ZeroTimes(s, d); }
  }

  // ---------------------------------------------------------------- the iteration

  /** From `p`, at most `k` steps, stopping after a short one. */
  function Iterate(lib: Maths, anchors: seq<Point>, ranges: seq<real>, p: Point, k: nat): Point
    requires |anchors| == |ranges|
    decreases k
  {
    if k == 0 then p
    else
      DetBound(lib, anchors, ranges, p);
      var s := Delta(Sums(lib, anchors, ranges, p, |anchors|));
      var q := Point(p.x + s.x, p.y + s.y);
      if lib.hypot(s.x, s.y) < CONVERGED then q else Iterate(lib, anchors, ranges, q, k - 1)
  }

  function Residuals(lib: Maths, anchors: seq<Point>, ranges: seq<real>, p: Point, k: nat): real
    requires k <= |anchors| == |ranges|
  {
    if k == 0 then 0.0
    else
      var e := lib.hypot(p.x - anchors[k - 1].x, p.y - anchors[k - 1].y) - ranges[k - 1];
      Residuals(lib, anchors, ranges, p, k - 1) + e * e
  }

  function SumX(anchors: seq<Point>, k: nat): real
    requires k <= |anchors|
  {
    if k == 0 then 0.0 else SumX(anchors, k - 1) + anchors[k - 1].x
  }

  function SumY(anchors: seq<Point>, k: nat): real
    requires k <= |anchors|
  {
    if k == 0 then 0.0 else SumY(anchors, k - 1) + anchors[k - 1].y
  }

  /** Where the search starts: the guess, or the middle of the anchors. */
  function Start(anchors: seq<Point>, guess: Option<Point>): Point
    requires |anchors| > 0
  {
    if guess.Some? then guess.value
    else Point(SumX(anchors, |anchors|) / |anchors| as real, SumY(anchors, |anchors|) / |anchors| as real)
  }

  /** Without a guess the search starts where the offsets to the anchors balance. */
  lemma StartBalanced(anchors: seq<Point>)
    requires |anchors| > 0
    ensures var p := Start(anchors, None);
            OffX(anchors, p, |anchors|) == 0.0 == OffY(anchors, p, |anchors|)
  {
    var n, p := |anchors| as real, Start(anchors, None);
    Offsets(anchors, p, |anchors|);
    Shared(SumX(anchors, |anchors|), n);
    Shared(SumY(anchors, |anchors|), n);
    hide *;
  }

  function OffX(anchors: seq<Point>, p: Point, k: nat): real
    requires k <= |anchors|
  {
    if k == 0 then 0.0 else OffX(anchors, p, k - 1) + (anchors[k - 1].x - p.x)
  }

  function OffY(anchors: seq<Point>, p: Point, k: nat): real
    requires k <= |anchors|
  {
    if k == 0 then 0.0 else OffY(anchors, p, k - 1) + (anchors[k - 1].y - p.y)
  }

  lemma {:induction false} Offsets(anchors: seq<Point>, p: Point, k: nat)
    requires k <= |anchors|
    ensures OffX(anchors, p, k) == SumX(anchors, k) - k as real * p.x
    ensures OffY(anchors, p, k) == SumY(anchors, k) - k as real * p.y
  {
    if k > 0 {
      Offsets(anchors, p, k - 1);
      assert k as real == (k - 1) as real + 1.0;
    }
  }

  lemma Shared(x: real, n: real)
    requires n > 0.0
    ensures n * (x / n) == x
  {
  }

  /** One step of the search and how long it is. */
  function StepFrom(lib: Maths, anchors: seq<Point>, ranges: seq<real>, p: Point): Point
    requires |anchors| == |ranges|
  {
    DetBound(lib, anchors, ranges, p);
    var s := Delta(Sums(lib, anchors, ranges, p, |anchors|));
    Point(p.x + s.x, p.y + s.y)
  }

  predicate Short(lib: Maths, p: Point, q: Point) {
    lib.hypot(q.x - p.x, q.y - p.y) < 0.001
  }

  /** The search goes from step to step and ends after the last iteration or with the first step shorter than
      a millimetre, whichever is first. */
  lemma {:induction false} SearchPath(lib: Maths, anchors: seq<Point>, ranges: seq<real>, p: Point, iters: nat)
    returns (path: seq<Point>)
    requires |anchors| == |ranges|
    ensures 0 < |path| <= iters + 1 && path[0] == p
    ensures path[|path| - 1] == Iterate(lib, anchors, ranges, p, iters)
    ensures forall i :: 0 <= i < |path| - 1 ==> path[i + 1] == StepFrom(lib, anchors, ranges, path[i])
    ensures forall i :: 0 <= i < |path| - 2 ==> !Short(lib, path[i], path[i + 1])
    ensures |path| == iters + 1 || (|path| >= 2 && Short(lib, path[|path| - 2], path[|path| - 1]))
    decreases iters
  {
    hide Sums, Delta, Det;
    path := [p];
    if iters > 0 {
      var q := StepFrom(lib, anchors, ranges, p);
      if Short(lib, p, q) {
        path := [p, q];
      } else {
        var later := SearchPath(lib, anchors, ranges, q, iters - 1);
        path := [p] + later;
      }
    }
  }

  datatype Fix = Fix(at: Point, rms: real)

  /** The loop that builds the normal equations at `p`. */
  method BuildNormal(lib: Maths, anchors: seq<Point>, ranges: seq<real>, p: Point) returns (n: Normal)
    requires |anchors| == |ranges|
    ensures n == Sums(lib, anchors, ranges, p, |anchors|)
  {
    hide TermAt, Plus;
    n := Normal(0.0, 0.0, 0.0, 0.0, 0.0);
    for i := 0 to |anchors|
      invariant n == Sums(lib, anchors, ranges, p, i)
    {
      n := Plus(n, TermAt(lib, anchors[i], ranges[i], p));
    }
  }

  // ---------------------------------------------------------------- where all ranges fit

  /** The point is at every anchor's range; anchors the code cannot tell from the point must be at it. */
  ghost predicate Fits(lib: Maths, anchors: seq<Point>, ranges: seq<real>, p: Point)
    requires |anchors| == |ranges|
  {
    forall i :: 0 <= i < |anchors| ==>
      var d := lib.hypot(p.x - anchors[i].x, p.y - anchors[i].y); d == ranges[i] && (d >= NEAREST || d == 0.0)
  }

  lemma FitTerm(lib: Maths, anchor: Point, range: real, p: Point)
    requires Euclidean(lib)
    requires var d := lib.hypot(p.x - anchor.x, p.y - anchor.y); d == range && (d >= NEAREST || d == 0.0)
    ensures var t := TermAt(lib, anchor, range, p); t.j0 * t.f == 0.0 && t.j1 * t.f == 0.0
  {
    var dx, dy := p.x - anchor.x, p.y - anchor.y;
    if lib.hypot(dx, dy) == 0.0 {
      assert Sq(lib.hypot(dx, dy)) == Sq(dx) + Sq(dy);
      BothZero(dx, dy, lib.hypot(dx, dy));
    }
  }

  lemma BothZero(x: real, y: real, h: real)
    requires h == 0.0 && Sq(h) == Sq(x) + Sq(y)
    ensures x == 0.0 && y == 0.0
  {
    hide Sq;
    SqSign(x);
    SqSign(y);
    SqSign(h);
  }

  lemma {:induction false} FitSums(lib: Maths, anchors: seq<Point>, ranges: seq<real>, p: Point, k: nat)
    requires Euclidean(lib) && k <= |anchors| == |ranges| && Fits(lib, anchors, ranges, p)
    ensures var n := Sums(lib, anchors, ranges, p, k); n.g0 == 0.0 && n.g1 == 0.0
    ensures Residuals(lib, anchors, ranges, p, k) == 0.0
  {
    hide TermAt, Euclidean;
    if k > 0 {
      FitSums(lib, anchors, ranges, p, k - 1);
      FitTerm(lib, anchors[k - 1], ranges[k - 1], p);
    }
  }

  lemma NoStep(n: Normal)
    requires Det(n) != 0.0 && n.g0 == 0.0 && n.g1 == 0.0
    ensures Delta(n) == Point(0.0, 0.0)
  {
    hide Det;
    ZeroTimes(0.0, n.c);
  }

  /** The search does not leave such a point. */
  lemma FitStays(lib: Maths, anchors: seq<Point>, ranges: seq<real>, p: Point, k: nat)
    requires Euclidean(lib) && |anchors| == |ranges| && Fits(lib, anchors, ranges, p)
    ensures Iterate(lib, anchors, ranges, p, k) == p && Residuals(lib, anchors, ranges, p, |anchors|) == 0.0
  {
    hide Sums, Det, Delta, Fits;
    FitSums(lib, anchors, ranges, p, |anchors|);
    if k > 0 {
      DetBound(lib, anchors, ranges, p);
      NoStep(Sums(lib, anchors, ranges, p, |anchors|));
      AtZero(lib);
    }
  }

  /** `multilaterate`: a fix for any three or more anchors with matching ranges, and no fix only
      when there are fewer or they do not match. */
  method Multilaterate(lib: Maths, anchors: seq<Point>, ranges: seq<real>, guess: Option<Point>, iters: nat)
    returns (fix: Option<Fix>)
    ensures fix.None? <==> |anchors| < 3 || |anchors| != |ranges|
    ensures fix.Some? ==>
              var p := Iterate(lib, anchors, ranges, Start(anchors, guess), iters);
              fix.value == Fix(p, lib.sqrt(Residuals(lib, anchors, ranges, p, |anchors|) / |anchors| as real))
    // From a point at which all ranges fit, that point, without error.
    ensures Euclidean(lib) && fix.Some? && guess.Some? && Fits(lib, anchors, ranges, guess.value) ==>
              fix.value == Fix(guess.value, lib.sqrt(0.0))
  {
    hide Sums, Det, Delta, Euclidean, Fits;
    if |anchors| == |ranges| && guess.Some? && Euclidean(lib) && Fits(lib, anchors, ranges, guess.value) {
      FitStays(lib, anchors, ranges, guess.value, iters);
    }
    if |anchors| < 3 || |anchors| != |ranges| { return None; }
    var p := Start(anchors, guess);
    for i := 0 to iters
      invariant Iterate(lib, anchors, ranges, p, iters - i)
                == Iterate(lib, anchors, ranges, Start(anchors, guess), iters)
    {
      var n := BuildNormal(lib, anchors, ranges, p);
      DetBound(lib, anchors, ranges, p);
      if -SINGULAR < Det(n) < SINGULAR {
        // The source gives up here; by `DetBound` it never does.
        assert false;
      }
      var s := Delta(n);
      var q := Point(p.x + s.x, p.y + s.y);
      if lib.hypot(s.x, s.y) < CONVERGED {
        p := q;
        break;
      }
      p := q;
    }
    var sq := 0.0;
    for i := 0 to |anchors|
      invariant sq == Residuals(lib, anchors, ranges, p, i)
    {
      var e := lib.hypot(p.x - anchors[i].x, p.y - anchors[i].y) - ranges[i];
      sq := sq + e * e;
    }
    fix := Some(Fix(p, lib.sqrt(sq / |anchors| as real)));
  }

  // ---------------------------------------------------------------- a search that does not converge

  /** `hypot` is the Euclidean length. */
  ghost predicate Euclidean(lib: Maths) {
    forall x, y :: lib.hypot(x, y) >= 0.0 && Sq(lib.hypot(x, y)) == Sq(x) + Sq(y)
  }

  lemma RootUnique(h: real, w: real)
    requires h >= 0.0 && w > 0.0 && Sq(h) == Sq(w)
    ensures h == w
  {
    hide Sq;
    Differences(h, w, h - w, h + w);
    Positive(h - w, h + w);
  }

  lemma Differences(h: real, w: real, d: real, s: real)
    requires d == h - w && s == h + w
    ensures d * s == Sq(h) - Sq(w)
  {
  }

  /** The sides of a right triangle with sides in the ratio 3 to 4. */
  lemma Pythagoras(lib: Maths, s: real)
    requires Euclidean(lib) && s > 0.0
    ensures lib.hypot(3.0 * s, 4.0 * s) == 5.0 * s && lib.hypot(-3.0 * s, -4.0 * s) == 5.0 * s
  {
    assert Sq(3.0 * s) + Sq(4.0 * s) == Sq(5.0 * s) && Sq(-3.0 * s) + Sq(-4.0 * s) == Sq(5.0 * s);
    RootUnique(lib.hypot(3.0 * s, 4.0 * s), 5.0 * s);
    RootUnique(lib.hypot(-3.0 * s, -4.0 * s), 5.0 * s);
  }

  const ORIGIN := Point(0.0, 0.0)

  lemma OriginTerm(lib: Maths, s: real)
    requires Euclidean(lib) && s >= 1.0
    ensures TermAt(lib, ORIGIN, 0.0, Point(3.0 * s, 4.0 * s)) == Term(0.6, 0.8, 5.0 * s)
  {
    Pythagoras(lib, s);
    hide Euclidean;
    var d := 5.0 * s;
    assert 0.6 * d == 3.0 * s && 0.8 * d == 4.0 * s;
    Ratio(3.0 * s, 0.6, d);
    Ratio(4.0 * s, 0.8, d);
  }

  lemma Ratio(x: real, q: real, d: real)
    requires d > 0.0 && x == q * d
    ensures x / d == q
  {
  }

  lemma OriginSums(lib: Maths, anchors: seq<Point>, ranges: seq<real>, s: real)
    requires Euclidean(lib) && s >= 1.0 && anchors == [ORIGIN, ORIGIN, ORIGIN] && ranges == [0.0, 0.0, 0.0]
    ensures Sums(lib, anchors, ranges, Point(3.0 * s, 4.0 * s), 3) == Normal(1.08, 1.44, 1.92, 9.0 * s, 12.0 * s)
  {
    hide TermAt, Euclidean;
    var p := Point(3.0 * s, 4.0 * s);
    OriginTerm(lib, s);
    assert Sums(lib, anchors, ranges, p, 0) == Normal(0.0, 0.0, 0.0, 0.0, 0.0);
    assert Sums(lib, anchors, ranges, p, 1) == Normal(0.36, 0.48, 0.64, 3.0 * s, 4.0 * s);
    assert Sums(lib, anchors, ranges, p, 2) == Normal(0.72, 0.96, 1.28, 6.0 * s, 8.0 * s);
  }

  /** One step covers all but a 3001st of the distance. */
  lemma OriginStep(s: real)
    ensures var n := Normal(1.08, 1.44, 1.92, 9.0 * s, 12.0 * s);
            Det(n) == 0.003001 && Delta(n) == Point(-3.0 * (3000.0 * s / 3001.0), -4.0 * (3000.0 * s / 3001.0))
  {
  }

  function Far(k: nat): (s: real)
    ensures s >= 1.0
  {
    if k == 0 then 1.0 else 3001.0 * Far(k - 1)
  }

  /** From far out every step is long, and the last one still ends five metres off. */
  lemma {:induction false} FarOut(lib: Maths, anchors: seq<Point>, ranges: seq<real>, k: nat)
    requires Euclidean(lib) && anchors == [ORIGIN, ORIGIN, ORIGIN] && ranges == [0.0, 0.0, 0.0]
    ensures Iterate(lib, anchors, ranges, Point(3.0 * Far(k), 4.0 * Far(k)), k) == Point(3.0, 4.0)
    ensures var far := Point(3.0 * Far(k), 4.0 * Far(k));
            k > 0 ==> Iterate(lib, anchors, ranges, far, k - 1) == Point(3.0 * 3001.0, 4.0 * 3001.0)
  {
    hide Euclidean, Sums, Det, Delta;
    if k > 0 {
      var s := Far(k);
      OriginSums(lib, anchors, ranges, s);
      OriginStep(s);
      Pythagoras(lib, 3000.0 * s / 3001.0);
      FarOut(lib, anchors, ranges, k - 1);
    }
  }

  /** However many iterations are allowed, there are anchors, exact ranges and a guess for which the last
      step is still kilometres long, and the point returned is five metres from where all ranges fit. */
  lemma SearchRunsOut(lib: Maths, iters: nat) returns (anchors: seq<Point>, ranges: seq<real>, guess: Point)
    requires Euclidean(lib) && iters > 0
    ensures |anchors| == |ranges| == 3
    ensures forall i :: 0 <= i < 3 ==> lib.hypot(0.0 - anchors[i].x, 0.0 - anchors[i].y) == ranges[i]
    ensures var p := Iterate(lib, anchors, ranges, guess, iters - 1);
            && Det(Sums(lib, anchors, ranges, p, 3)) != 0.0
            && var s := Delta(Sums(lib, anchors, ranges, p, 3)); lib.hypot(s.x, s.y) == 15000.0
    ensures var q := Iterate(lib, anchors, ranges, guess, iters);
            forall i :: 0 <= i < 3 ==> lib.hypot(q.x - anchors[i].x, q.y - anchors[i].y) - ranges[i] == 5.0
  {
    hide Sums, Iterate;
    anchors, ranges := [ORIGIN, ORIGIN, ORIGIN], [0.0, 0.0, 0.0];
    guess := Point(3.0 * Far(iters), 4.0 * Far(iters));
    FarOut(lib, anchors, ranges, iters);
    Pythagoras(lib, 1.0);
    AtZero(lib);
    OriginSums(lib, anchors, ranges, 3001.0);
    OriginStep(3001.0);
    Pythagoras(lib, 3000.0);
  }

  lemma AtZero(lib: Maths)
    requires Euclidean(lib)
    ensures lib.hypot(0.0, 0.0) == 0.0
  {
    SqSign(lib.hypot(0.0, 0.0));
    SqSign(0.0);
  }
}
