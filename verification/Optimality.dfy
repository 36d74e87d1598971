/** Why the scalar update is the right one: of all ways to weigh a measurement against the estimate, the one
    it takes leaves the least variance, in every direction at once. */
module Optimality {
  import opened Arithmetic
  import opened Covariance
  import opened JetsonEkf
  import opened Matrix

  /** The variance along `v` of an estimate that takes up the share `c` of the innovation in that direction:
      what is left of the prior error, and what the measurement of variance `r` along `h` brings in. */
  function ErrorVariance(m: Mat, h: Vec, r: real, v: Vec, c: real): real {
    var w := Comb(1.0, v, -c, h);
    Form(m, w, w) + r * (c * c)
  }

  /** The covariance after the update has in each direction the least of these, and no other share has it. */
  lemma LeastVariance(m: Mat, h: Vec, r: real, v: Vec, c: real)
    requires Symmetric(m) && Form(m, h, h) + r > 0.0
    ensures var s := Form(m, h, h) + r;
            var left := Form(Corrected(m, Apply(m, h), s), v, v);
            && left <= ErrorVariance(m, h, r, v, c)
            && (left == ErrorVariance(m, h, r, v, c) <==> c == Form(m, v, h) / s)
  {
    hide Form, Symmetric, Corrected, Apply, Comb, Prod;
    var A, B, C := Form(m, v, v), Form(m, v, h), Form(m, h, h);
    SquareExpands(m, 1.0, v, -c, h);
    CorrectedForm(m, h, C + r, v);
    ProdOf(B);
    Parabola(A, B, C, r, c);
  }

  lemma ProdOf(x: real)
    ensures Prod(x, x) == x * x
  {
  }

  lemma Parabola(A: real, B: real, C: real, r: real, c: real)
    requires C + r > 0.0
    ensures var s, e := C + r, 1.0 * (1.0 * A + -c * B) + -c * (1.0 * B + -c * C) + r * (c * c);
            && A - B * B / s <= e && (A - B * B / s == e <==> c == B / s)
  {
    var s := C + r;
    var best := B / s;
    var d := c - best;
    assert best * s == B;
    Expanded(A, B, C, r, c);
    Completed(B, s, c, best);
    SquareSign(s, d);
  }

  lemma Expanded(A: real, B: real, C: real, r: real, c: real)
    ensures 1.0 * (1.0 * A + -c * B) + -c * (1.0 * B + -c * C) + r * (c * c) == A - 2.0 * (c * B) + (C + r) * (c * c)
  {
  }

  lemma Completed(B: real, s: real, c: real, best: real)
    requires s > 0.0 && best == B / s
    ensures s * (c * c) - 2.0 * (c * B) == s * Prod(c - best, c - best) - B * B / s
  {
    assert B == best * s;
    assert B * B / s == best * B by { OverProduct(B, s, best); }
    var d := c - best;
    assert d * d == c * c - 2.0 * (c * best) + best * best;
    assert s * (d * d) == s * (c * c) - 2.0 * (c * (best * s)) + best * (best * s);
  }

  lemma OverProduct(B: real, s: real, best: real)
    requires s > 0.0 && best == B / s
    ensures B * B / s == best * B
  {
  }

  lemma SquareSign(s: real, d: real)
    requires s > 0.0
    ensures s * Prod(d, d) >= 0.0 && (s * Prod(d, d) == 0.0 <==> d == 0.0)
  {
    hide Prod;
    Zero(d);
    if d > 0.0 {
      Above(d, d);
      Scaled(s, Prod(d, d));
    } else if d < 0.0 {
      Below(d, d);
      Scaled(s, Prod(d, d));
    }
  }

  lemma Zero(d: real)
    ensures d == 0.0 ==> Prod(d, d) == 0.0
  {
  }

  lemma Above(x: real, y: real)
    requires x > 0.0 && y > 0.0
    ensures Prod(x, y) > 0.0
  {
  }

  lemma Below(x: real, y: real)
    requires x < 0.0 && y < 0.0
    ensures Prod(x, y) > 0.0
  {
    Above(-x, -y);
    assert Prod(-x, -y) == Prod(x, y);
  }

  /** And the share with the least variance is the one the estimate moves by, in every direction. */
  lemma MovesBest(f: Filter, h: Vec, y: real, r: real, v: Vec)
    requires Symmetric(f.p) && Form(f.p, h, h) + r >= TINY
    ensures var g, c := Scalar(f, h, y, r, false), Form(f.p, v, h) / (Form(f.p, h, h) + r);
            && Dot(v, g.x) - Dot(v, f.x) == y * c
            && forall other :: ErrorVariance(f.p, h, r, v, c) <= ErrorVariance(f.p, h, r, v, other)
  {
    hide Dot, Apply, Updated, Gain, Comb, Symmetric, ErrorVariance, Corrected;
    var s := Form(f.p, h, h) + r;
    var k, c := Gain(Apply(f.p, h), s), Form(f.p, v, h) / s;
    DotComb(v, 1.0, f.x, y, k);
    DotGain(v, Apply(f.p, h), s);
    LeastVariance(f.p, h, r, v, c);
    forall other ensures ErrorVariance(f.p, h, r, v, c) <= ErrorVariance(f.p, h, r, v, other) {
      LeastVariance(f.p, h, r, v, other);
    }
  }
}
