/** Five-dimensional vectors and matrices over exact reals, and the facts about symmetric
    positive semidefinite matrices that keep a covariance a covariance. */
module Matrix {
  import opened Arithmetic

  datatype Vec = Vec(a: real, b: real, c: real, d: real, e: real)

  datatype Mat = Mat(r0: Vec, r1: Vec, r2: Vec, r3: Vec, r4: Vec)

  function Dot(u: Vec, v: Vec): real {
    u.a * v.a + u.b * v.b + u.c * v.c + u.d * v.d + u.e * v.e
  }

  function Lin(s: real, x: real, t: real, y: real): real {
    s * x + t * y
  }

  /** `s*u + t*v`. */
  function Comb(s: real, u: Vec, t: real, v: Vec): Vec {
    Vec(Lin(s, u.a, t, v.a), Lin(s, u.b, t, v.b), Lin(s, u.c, t, v.c), Lin(s, u.d, t, v.d), Lin(s, u.e, t, v.e))
  }

  function Col0(m: Mat): Vec { Vec(m.r0.a, m.r1.a, m.r2.a, m.r3.a, m.r4.a) }
  function Col1(m: Mat): Vec { Vec(m.r0.b, m.r1.b, m.r2.b, m.r3.b, m.r4.b) }
  function Col2(m: Mat): Vec { Vec(m.r0.c, m.r1.c, m.r2.c, m.r3.c, m.r4.c) }
  function Col3(m: Mat): Vec { Vec(m.r0.d, m.r1.d, m.r2.d, m.r3.d, m.r4.d) }
  function Col4(m: Mat): Vec { Vec(m.r0.e, m.r1.e, m.r2.e, m.r3.e, m.r4.e) }

  function Transpose(m: Mat): Mat {
    Mat(Col0(m), Col1(m), Col2(m), Col3(m), Col4(m))
  }

  /** `m v`. */
  function Apply(m: Mat, v: Vec): Vec {
    Vec(Dot(m.r0, v), Dot(m.r1, v), Dot(m.r2, v), Dot(m.r3, v), Dot(m.r4, v))
  }

  /** `a b`: row by row, each row of `a` taken through the columns of `b`. */
  function Mul(a: Mat, b: Mat): Mat {
    var t := Transpose(b);
    Mat(Apply(t, a.r0), Apply(t, a.r1), Apply(t, a.r2), Apply(t, a.r3), Apply(t, a.r4))
  }

  /** `a b^T`. */
  function MulAbt(a: Mat, b: Mat): Mat {
    Mat(Apply(b, a.r0), Apply(b, a.r1), Apply(b, a.r2), Apply(b, a.r3), Apply(b, a.r4))
  }

  function Add(m: Mat, n: Mat): Mat {
    Mat(Comb(1.0, m.r0, 1.0, n.r0), Comb(1.0, m.r1, 1.0, n.r1), Comb(1.0, m.r2, 1.0, n.r2),
        Comb(1.0, m.r3, 1.0, n.r3), Comb(1.0, m.r4, 1.0, n.r4))
  }

  /** `m - k h^T`. */
  function Downdate(m: Mat, k: Vec, h: Vec): Mat {
    Mat(Comb(1.0, m.r0, -k.a, h), Comb(1.0, m.r1, -k.b, h), Comb(1.0, m.r2, -k.c, h),
        Comb(1.0, m.r3, -k.d, h), Comb(1.0, m.r4, -k.e, h))
  }

  /** `u^T m v`. */
  function Form(m: Mat, u: Vec, v: Vec): real {
    Dot(u, Apply(m, v))
  }

  predicate Symmetric(m: Mat) {
    Transpose(m) == m
  }

  ghost predicate PSD(m: Mat) {
    forall v :: Form(m, v, v) >= 0.0
  }

  // ---------------------------------------------------------------- bilinearity

  lemma DotSym(u: Vec, v: Vec)
    ensures Dot(u, v) == Dot(v, u)
  {
  }

  lemma Linear4(x: real, s: real, p: real, t: real, q: real)
    ensures x * (s * p + t * q) == s * (x * p) + t * (x * q)
  {
  }

  lemma DotComb(u: Vec, s: real, v: Vec, t: real, w: Vec)
    ensures Dot(u, Comb(s, v, t, w)) == s * Dot(u, v) + t * Dot(u, w)
  {
    Linear4(u.a, s, v.a, t, w.a);
    Linear4(u.b, s, v.b, t, w.b);
    Linear4(u.c, s, v.c, t, w.c);
    Linear4(u.d, s, v.d, t, w.d);
    Linear4(u.e, s, v.e, t, w.e);
  }

  lemma CombDot(s: real, v: Vec, t: real, w: Vec, u: Vec)
    ensures Dot(Comb(s, v, t, w), u) == s * Dot(v, u) + t * Dot(w, u)
  {
    DotComb(u, s, v, t, w);
    DotSym(u, Comb(s, v, t, w));
    DotSym(u, v);
    DotSym(u, w);
  }

  lemma ApplyComb(m: Mat, s: real, v: Vec, t: real, w: Vec)
    ensures Apply(m, Comb(s, v, t, w)) == Comb(s, Apply(m, v), t, Apply(m, w))
  {
    hide Dot;
    DotComb(m.r0, s, v, t, w);
    DotComb(m.r1, s, v, t, w);
    DotComb(m.r2, s, v, t, w);
    DotComb(m.r3, s, v, t, w);
    DotComb(m.r4, s, v, t, w);
  }

  lemma FormRight(m: Mat, u: Vec, s: real, v: Vec, t: real, w: Vec)
    ensures Form(m, u, Comb(s, v, t, w)) == s * Form(m, u, v) + t * Form(m, u, w)
  {
    hide Dot, Comb, Apply;
    ApplyComb(m, s, v, t, w);
    DotComb(u, s, Apply(m, v), t, Apply(m, w));
  }

  lemma FormLeft(m: Mat, s: real, v: Vec, t: real, w: Vec, u: Vec)
    ensures Form(m, Comb(s, v, t, w), u) == s * Form(m, v, u) + t * Form(m, w, u)
  {
    hide Dot, Comb, Apply;
    CombDot(s, v, t, w, Apply(m, u));
  }

  /** Row by row and column by column give the same double sum. */
  lemma Adjoint(m: Mat, u: Vec, v: Vec)
    ensures Dot(u, Apply(m, v)) == Dot(v, Apply(Transpose(m), u))
  {
    RowCells(m.r0, u.a, v); RowCells(m.r1, u.b, v); RowCells(m.r2, u.c, v);
    RowCells(m.r3, u.d, v); RowCells(m.r4, u.e, v);
    var t := Transpose(m);
    RowCells(t.r0, v.a, u); RowCells(t.r1, v.b, u); RowCells(t.r2, v.c, u);
    RowCells(t.r3, v.d, u); RowCells(t.r4, v.e, u);
    hide Dot;
    CellsAgree(m, u, v);
    DotIs(u, Apply(m, v));
    DotIs(v, Apply(t, u));
  }

  /** One row's share of the double sum. */
  function Cells(row: Vec, x: real, v: Vec): real {
    x * (row.a * v.a) + x * (row.b * v.b) + x * (row.c * v.c) + x * (row.d * v.d) + x * (row.e * v.e)
  }

  lemma RowCells(row: Vec, x: real, v: Vec)
    ensures x * Dot(row, v) == Cells(row, x, v)
  {
  }

  lemma DotIs(u: Vec, v: Vec)
    ensures Dot(u, v) == u.a * v.a + u.b * v.b + u.c * v.c + u.d * v.d + u.e * v.e
  {
  }

  lemma CellsAgree(m: Mat, u: Vec, v: Vec)
    ensures var t := Transpose(m);
            Cells(m.r0, u.a, v) + Cells(m.r1, u.b, v) + Cells(m.r2, u.c, v) + Cells(m.r3, u.d, v) + Cells(m.r4, u.e, v)
            == Cells(t.r0, v.a, u) + Cells(t.r1, v.b, u) + Cells(t.r2, v.c, u)
               + Cells(t.r3, v.d, u) + Cells(t.r4, v.e, u)
  {
  }

  lemma FormSym(m: Mat, u: Vec, v: Vec)
    requires Symmetric(m)
    ensures Form(m, u, v) == Form(m, v, u)
  {
    hide Dot, Apply, Transpose;
    Adjoint(m, u, v);
  }

  // ---------------------------------------------------------------- Cauchy-Schwarz

  lemma SquareExpands(m: Mat, s: real, u: Vec, t: real, v: Vec)
    requires Symmetric(m)
    ensures var w := Comb(s, u, t, v);
            Form(m, w, w) == s * (s * Form(m, u, u) + t * Form(m, u, v)) + t * (s * Form(m, u, v) + t * Form(m, v, v))
  {
    hide Form, Comb, Symmetric;
    var w := Comb(s, u, t, v);
    FormLeft(m, s, u, t, v, w);
    FormRight(m, u, s, u, t, v);
    FormRight(m, v, s, u, t, v);
    FormSym(m, u, v);
  }

  /** If `q(s,t) = s^2 A + 2 s t B + t^2 C` is never negative, then `B^2 <= A C`. */
  lemma Discriminant(m: Mat, u: Vec, v: Vec)
    requires Symmetric(m) && PSD(m)
    ensures Prod(Form(m, u, v), Form(m, u, v)) <= Prod(Form(m, u, u), Form(m, v, v))
  {
    hide Form, Symmetric;
    var A, B, C := Form(m, u, u), Form(m, u, v), Form(m, v, v);
    assert A >= 0.0 && C >= 0.0;
    if C > 0.0 {
      var w := Comb(C, u, -B, v);
      SquareExpands(m, C, u, -B, v);
      assert Form(m, w, w) >= 0.0;
      Complete(A, B, C);
    } else {
      var s := -(A + 1.0) / 2.0;
      hide PSD;
      assert Form(m, Comb(B, u, s, v), Comb(B, u, s, v)) >= 0.0 by { Nonnegative(m, Comb(B, u, s, v)); }
      SquareExpands(m, B, u, s, v);
      Degenerate(A, B, C, s);
    }
  }

  lemma Nonnegative(m: Mat, v: Vec)
    requires PSD(m)
    ensures Form(m, v, v) >= 0.0
  {
  }

  lemma Complete(A: real, B: real, C: real)
    requires C > 0.0
    requires C * (C * A + -B * B) + -B * (C * B + -B * C) >= 0.0
    ensures B * B <= A * C
  {
    var d := C * A - B * B;
    assert C * B + -B * C == 0.0;
    assert C * d >= 0.0;
    if d < 0.0 { Scaled(C, -d); }
  }

  lemma Scaled(c: real, d: real)
    requires c > 0.0 && d > 0.0
    ensures c * d > 0.0
  {
  }

  lemma Degenerate(A: real, B: real, C: real, s: real)
    requires C == 0.0 && A + 2.0 * s == -1.0
    requires B * (B * A + s * B) + s * (B * B + s * C) >= 0.0
    ensures B * B <= A * C
  {
    var q := B * B;
    assert s * C == 0.0 && A * C == 0.0;
    assert B * (B * A + s * B) == q * A + q * s;
    assert s * (B * B + s * C) == q * s;
    assert q * A + q * s + q * s == q * (A + 2.0 * s);
    assert q * (A + 2.0 * s) == -q;
  }

  // ---------------------------------------------------------------- the operations of the filters

  /** A rank-one correction takes a square away from the form. */
  lemma DowndateForm(m: Mat, k: Vec, h: Vec, u: Vec, v: Vec)
    ensures Form(Downdate(m, k, h), u, v) == Form(m, u, v) - Prod(Dot(u, k), Dot(h, v))
  {
    DowndateApply(m, k, h, v);
    hide Dot, Comb, Apply, Downdate;
    DotComb(u, 1.0, Apply(m, v), -Dot(h, v), k);
    assert Dot(h, v) * Dot(u, k) == Dot(u, k) * Dot(h, v);
  }

  lemma DowndateApply(m: Mat, k: Vec, h: Vec, v: Vec)
    ensures Apply(Downdate(m, k, h), v) == Comb(1.0, Apply(m, v), -Dot(h, v), k)
  {
    RowDowndate(m.r0, k.a, h, v);
    RowDowndate(m.r1, k.b, h, v);
    RowDowndate(m.r2, k.c, h, v);
    RowDowndate(m.r3, k.d, h, v);
    RowDowndate(m.r4, k.e, h, v);
    hide Dot;
  }

  lemma RowDowndate(row: Vec, x: real, h: Vec, v: Vec)
    ensures Dot(Comb(1.0, row, -x, h), v) == 1.0 * Dot(row, v) + -Dot(h, v) * x
  {
    CombDot(1.0, row, -x, h, v);
  }

  /** The gain of a scalar measurement: `P h / s`. */
  function Gain(ph: Vec, s: real): Vec
    requires s != 0.0
  {
    Vec(Quot(ph.a, s), Quot(ph.b, s), Quot(ph.c, s), Quot(ph.d, s), Quot(ph.e, s))
  }

  lemma DotGain(u: Vec, ph: Vec, s: real)
    requires s != 0.0
    ensures Dot(u, Gain(ph, s)) == Dot(u, ph) / s
  {
    Over(u.a, ph.a, s); Over(u.b, ph.b, s); Over(u.c, ph.c, s); Over(u.d, ph.d, s); Over(u.e, ph.e, s);
    SumOver(u.a * ph.a, u.b * ph.b, u.c * ph.c, u.d * ph.d, u.e * ph.e, s);
  }

  lemma Over(x: real, p: real, s: real)
    requires s != 0.0
    ensures x * (p / s) == x * p / s
  {
  }

  lemma SumOver(a: real, b: real, c: real, d: real, e: real, s: real)
    requires s != 0.0
    ensures a / s + b / s + c / s + d / s + e / s == (a + b + c + d + e) / s
  {
  }

  /** The scalar measurement update: `P - (P h)(P h)^T / s`. */
  function Corrected(m: Mat, ph: Vec, s: real): Mat
    requires s != 0.0
  {
    Downdate(m, Gain(ph, s), ph)
  }

  lemma CorrectedSymmetric(m: Mat, ph: Vec, s: real)
    requires Symmetric(m) && s != 0.0
    ensures Symmetric(Corrected(m, ph, s))
  {
    hide Lin, Quot;
    Cross(m.r0.b, ph.a, ph.b, s); Cross(m.r0.c, ph.a, ph.c, s);
    Cross(m.r0.d, ph.a, ph.d, s); Cross(m.r0.e, ph.a, ph.e, s);
    Cross(m.r1.c, ph.b, ph.c, s); Cross(m.r1.d, ph.b, ph.d, s); Cross(m.r1.e, ph.b, ph.e, s);
    Cross(m.r2.d, ph.c, ph.d, s); Cross(m.r2.e, ph.c, ph.e, s); Cross(m.r3.e, ph.d, ph.e, s);
  }

  lemma Cross(p: real, x: real, y: real, s: real)
    requires s != 0.0
    ensures Lin(1.0, p, -Quot(x, s), y) == Lin(1.0, p, -Quot(y, s), x)
  {
  }

  /** The correction keeps the form nonnegative, and only ever lowers it. */
  lemma CorrectedPSD(m: Mat, h: Vec, r: real)
    requires Symmetric(m) && PSD(m) && r >= 0.0 && Form(m, h, h) + r > 0.0
    ensures var c := Corrected(m, Apply(m, h), Form(m, h, h) + r);
            PSD(c) && forall v :: Form(c, v, v) <= Form(m, v, v)
  {
    hide Form, Apply, Corrected, Prod;
    var s := Form(m, h, h) + r;
    var c := Corrected(m, Apply(m, h), s);
    forall v ensures 0.0 <= Form(c, v, v) <= Form(m, v, v) {
      CorrectedForm(m, h, s, v);
      Discriminant(m, v, h);
      Nonnegative(m, v);
      Shrink(Form(m, v, v), Form(m, v, h), Form(m, h, h), s);
    }
  }

  lemma CorrectedForm(m: Mat, h: Vec, s: real, v: Vec)
    requires s != 0.0
    ensures Form(Corrected(m, Apply(m, h), s), v, v) == Form(m, v, v) - Prod(Form(m, v, h), Form(m, v, h)) / s
  {
    var ph, b := Apply(m, h), Form(m, v, h);
    DowndateForm(m, Gain(ph, s), ph, v, v);
    DotGain(v, ph, s);
    DotSym(v, ph);
    assert b == Dot(v, ph) && Corrected(m, ph, s) == Downdate(m, Gain(ph, s), ph);
    hide *;
    Times(Dot(v, Gain(ph, s)), Dot(ph, v), b, s);
  }

  lemma Times(x: real, y: real, b: real, s: real)
    requires s != 0.0 && x == b / s && y == b
    ensures Prod(x, y) == Prod(b, b) / s
  {
  }

  lemma Shrink(A: real, B: real, C: real, s: real)
    requires A >= 0.0 && Prod(B, B) <= Prod(A, C) && C <= s && s > 0.0
    ensures 0.0 <= A - Prod(B, B) / s <= A
  {
    var q := B * B;
    assert A * C <= A * s;
    DivBound(q, A, s);
    assert q >= 0.0;
    assert q / s >= 0.0;
  }

  lemma DivBound(q: real, a: real, s: real)
    requires s > 0.0 && q <= a * s
    ensures q / s <= a
  {
    assert s * (q / s) == q;
  }
}
