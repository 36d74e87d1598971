/** What both filters do to a covariance matrix, and why it stays one: propagation, process
    noise, conditioning, scalar and two-row measurement updates. */
module Covariance {
  import opened Matrix

  const FLOOR: real := 0.000001

  /** Component and row access by index, as the flat arrays of the source have it. */
  function Get(v: Vec, i: nat): real
    requires i < 5
  {
    if i == 0 then v.a else if i == 1 then v.b else if i == 2 then v.c else if i == 3 then v.d else v.e
  }

  function Row(m: Mat, i: nat): Vec
    requires i < 5
  {
    if i == 0 then m.r0 else if i == 1 then m.r1 else if i == 2 then m.r2 else if i == 3 then m.r3 else m.r4
  }

  function Col(m: Mat, i: nat): Vec
    requires i < 5
  {
    Row(Transpose(m), i)
  }

  function At(m: Mat, i: nat, j: nat): real
    requires i < 5 && j < 5
  {
    Get(Row(m, i), j)
  }

  /** `H` with a single one. */
  function Unit(i: nat): Vec
    requires i < 5
  {
    Vec(if i == 0 then 1.0 else 0.0, if i == 1 then 1.0 else 0.0, if i == 2 then 1.0 else 0.0,
        if i == 3 then 1.0 else 0.0, if i == 4 then 1.0 else 0.0)
  }

  predicate Floored(m: Mat) {
    m.r0.a >= FLOOR && m.r1.b >= FLOOR && m.r2.c >= FLOOR && m.r3.d >= FLOOR && m.r4.e >= FLOOR
  }

  /** A covariance in good order: symmetric, positive semidefinite, no vanishing variance. */
  ghost predicate Sound(m: Mat) {
    Symmetric(m) && PSD(m) && Floored(m)
  }

  function Diag(v: Vec): Mat {
    Mat(Vec(v.a, 0.0, 0.0, 0.0, 0.0), Vec(0.0, v.b, 0.0, 0.0, 0.0), Vec(0.0, 0.0, v.c, 0.0, 0.0),
        Vec(0.0, 0.0, 0.0, v.d, 0.0), Vec(0.0, 0.0, 0.0, 0.0, v.e))
  }

  function Diagonal(m: Mat): Vec {
    Vec(m.r0.a, m.r1.b, m.r2.c, m.r3.d, m.r4.e)
  }

  predicate IsDiagonal(m: Mat) {
    m == Diag(Diagonal(m))
  }

  // ---------------------------------------------------------------- sums and diagonals

  lemma FormAdd(m: Mat, n: Mat, u: Vec, v: Vec)
    ensures Form(Add(m, n), u, v) == Form(m, u, v) + Form(n, u, v)
  {
    AddApply(m, n, v);
    hide Dot, Comb, Apply, Add;
    DotComb(u, 1.0, Apply(m, v), 1.0, Apply(n, v));
  }

  lemma AddApply(m: Mat, n: Mat, v: Vec)
    ensures Apply(Add(m, n), v) == Comb(1.0, Apply(m, v), 1.0, Apply(n, v))
  {
    CombDot(1.0, m.r0, 1.0, n.r0, v);
    CombDot(1.0, m.r1, 1.0, n.r1, v);
    CombDot(1.0, m.r2, 1.0, n.r2, v);
    CombDot(1.0, m.r3, 1.0, n.r3, v);
    CombDot(1.0, m.r4, 1.0, n.r4, v);
    hide Dot;
  }

  lemma Weighted(d: real, x: real)
    requires d >= 0.0
    ensures x * (d * x) >= 0.0
  {
    var q := x * x;
    assert x * (d * x) == d * q && q >= 0.0;
  }

  lemma DiagApply(d: Vec, v: Vec)
    ensures Apply(Diag(d), v) == Vec(d.a * v.a, d.b * v.b, d.c * v.c, d.d * v.d, d.e * v.e)
  {
  }

  lemma DiagPSD(d: Vec)
    requires d.a >= 0.0 && d.b >= 0.0 && d.c >= 0.0 && d.d >= 0.0 && d.e >= 0.0
    ensures PSD(Diag(d)) && Symmetric(Diag(d))
  {
    forall v ensures Form(Diag(d), v, v) >= 0.0 {
      DiagApply(d, v);
      Weighted(d.a, v.a); Weighted(d.b, v.b); Weighted(d.c, v.c); Weighted(d.d, v.d); Weighted(d.e, v.e);
      hide Apply, Diag;
    }
  }

  lemma AddSound(m: Mat, n: Mat)
    requires Symmetric(m) && PSD(m) && Symmetric(n) && PSD(n)
    ensures Symmetric(Add(m, n)) && PSD(Add(m, n))
  {
    assert Symmetric(Add(m, n));
    hide Symmetric, Add, Form;
    forall v ensures Form(Add(m, n), v, v) >= 0.0 {
      FormAdd(m, n, v, v);
      Nonnegative(m, v);
      Nonnegative(n, v);
    }
  }

  // ---------------------------------------------------------------- conditioning

  function Floor(x: real): real {
    if x < FLOOR then FLOOR else x
  }

  function Mean(x: real, y: real): real {
    0.5 * (x + y)
  }

  /** `_condition` and `p_condition`: average the halves, floor the diagonal. */
  function Condition(m: Mat): Mat {
    var ab, ac, ad, ae := Mean(m.r0.b, m.r1.a), Mean(m.r0.c, m.r2.a), Mean(m.r0.d, m.r3.a), Mean(m.r0.e, m.r4.a);
    var bc, bd, be := Mean(m.r1.c, m.r2.b), Mean(m.r1.d, m.r3.b), Mean(m.r1.e, m.r4.b);
    var cd, ce, de := Mean(m.r2.d, m.r3.c), Mean(m.r2.e, m.r4.c), Mean(m.r3.e, m.r4.d);
    Mat(Vec(Floor(m.r0.a), ab, ac, ad, ae), Vec(ab, Floor(m.r1.b), bc, bd, be), Vec(ac, bc, Floor(m.r2.c), cd, ce),
        Vec(ad, bd, cd, Floor(m.r3.d), de), Vec(ae, be, ce, de, Floor(m.r4.e)))
  }

  function Lift(x: real): real {
    Floor(x) - x
  }

  /** On a symmetric matrix conditioning only raises variances. */
  lemma ConditionIsLift(m: Mat)
    requires Symmetric(m)
    ensures var d := Diagonal(m);
            Condition(m) == Add(m, Diag(Vec(Lift(d.a), Lift(d.b), Lift(d.c), Lift(d.d), Lift(d.e))))
  {
  }

  lemma ConditionSound(m: Mat)
    requires Symmetric(m) && PSD(m)
    ensures Sound(Condition(m))
  {
    var d := Diagonal(m);
    ConditionIsLift(m);
    assert Floored(Condition(m));
    hide Condition, Floored;
    var lift := Vec(Lift(d.a), Lift(d.b), Lift(d.c), Lift(d.d), Lift(d.e));
    DiagPSD(lift);
    AddSound(m, Diag(lift));
  }

  // ---------------------------------------------------------------- propagation

  function Propagated(m: Mat, f: Mat): Mat {
    MulAbt(Mul(f, m), f)
  }

  lemma PropagatedRow(m: Mat, f: Mat, i: nat)
    requires Symmetric(m) && i < 5
    ensures Row(Propagated(m, f), i) == Apply(f, Apply(m, Row(f, i)))
  {
    hide Apply;
  }

  lemma PropagatedEntry(m: Mat, f: Mat, i: nat, j: nat)
    requires Symmetric(m) && i < 5 && j < 5
    ensures At(Propagated(m, f), i, j) == Form(m, Row(f, j), Row(f, i))
  {
    PropagatedRow(m, f, i);
    hide Propagated, Dot;
    ApplyEntry(f, Apply(m, Row(f, i)), j);
  }

  lemma ApplyEntry(f: Mat, y: Vec, j: nat)
    requires j < 5
    ensures Get(Apply(f, y), j) == Dot(Row(f, j), y)
  {
    hide Dot;
  }

  lemma PropagatedSymmetric(m: Mat, f: Mat)
    requires Symmetric(m)
    ensures Symmetric(Propagated(m, f))
  {
    hide Propagated, Symmetric;
    forall i: nat, j: nat | i < 5 && j < 5 ensures At(Propagated(m, f), i, j) == At(Propagated(m, f), j, i) {
      PropagatedEntry(m, f, i, j);
      PropagatedEntry(m, f, j, i);
      FormSym(m, Row(f, i), Row(f, j));
    }
    SymmetricByEntries(Propagated(m, f));
  }

  lemma SymmetricByEntries(m: Mat)
    requires forall i: nat, j: nat | i < 5 && j < 5 :: At(m, i, j) == At(m, j, i)
    ensures Symmetric(m)
  {
    assert At(m, 0, 1) == At(m, 1, 0) && At(m, 0, 2) == At(m, 2, 0);
    assert At(m, 0, 3) == At(m, 3, 0) && At(m, 0, 4) == At(m, 4, 0);
    assert At(m, 1, 2) == At(m, 2, 1) && At(m, 1, 3) == At(m, 3, 1) && At(m, 1, 4) == At(m, 4, 1);
    assert At(m, 2, 3) == At(m, 3, 2) && At(m, 2, 4) == At(m, 4, 2) && At(m, 3, 4) == At(m, 4, 3);
  }

  lemma PropagatedRowDot(m: Mat, f: Mat, i: nat, v: Vec)
    requires Symmetric(m) && i < 5
    ensures Dot(Row(Propagated(m, f), i), v) == Dot(Row(f, i), Apply(m, Apply(Transpose(f), v)))
  {
    PropagatedRow(m, f, i);
    var y, w := Apply(m, Row(f, i)), Apply(Transpose(f), v);
    Adjoint(f, v, y);
    DotSym(Apply(f, y), v);
    DotSym(y, w);
    FormSym(m, w, Row(f, i));
    hide Propagated, Dot, Apply, Transpose, Symmetric;
  }

  lemma PropagatedApply(m: Mat, f: Mat, v: Vec)
    requires Symmetric(m)
    ensures Apply(Propagated(m, f), v) == Apply(f, Apply(m, Apply(Transpose(f), v)))
  {
    hide Propagated, Dot, Transpose, Symmetric;
    PropagatedRowDot(m, f, 0, v);
    PropagatedRowDot(m, f, 1, v);
    PropagatedRowDot(m, f, 2, v);
    PropagatedRowDot(m, f, 3, v);
    PropagatedRowDot(m, f, 4, v);
  }

  /** `u^T (F P F^T) u` is the old form at `F^T u`. */
  lemma PropagatedForm(m: Mat, f: Mat, u: Vec)
    requires Symmetric(m)
    ensures var w := Apply(Transpose(f), u); Form(Propagated(m, f), u, u) == Form(m, w, w)
  {
    hide Propagated, Dot, Apply, Transpose, Symmetric;
    var w := Apply(Transpose(f), u);
    PropagatedApply(m, f, u);
    Adjoint(f, u, Apply(m, w));
    DotSym(Apply(m, w), w);
  }

  lemma PropagatedSound(m: Mat, f: Mat)
    requires Symmetric(m) && PSD(m)
    ensures Symmetric(Propagated(m, f)) && PSD(Propagated(m, f))
  {
    PropagatedSymmetric(m, f);
    hide Propagated, Symmetric, Form;
    forall u ensures Form(Propagated(m, f), u, u) >= 0.0 {
      PropagatedForm(m, f, u);
      Nonnegative(m, Apply(Transpose(f), u));
    }
  }

  // ---------------------------------------------------------------- process noise

  /** The white-noise-acceleration block on each axis, and heading noise. */
  function Noise(qpp: real, qpv: real, qvv: real, qpsi: real): Mat {
    Mat(Vec(qpp, 0.0, qpv, 0.0, 0.0), Vec(0.0, qpp, 0.0, qpv, 0.0), Vec(qpv, 0.0, qvv, 0.0, 0.0),
        Vec(0.0, qpv, 0.0, qvv, 0.0), Vec(0.0, 0.0, 0.0, 0.0, qpsi))
  }

  function ProcessNoise(q: real, qYaw: real, dt: real): Mat {
    Noise(q * dt * dt * dt / 3.0, q * dt * dt * 0.5, q * dt, qYaw * dt)
  }

  /** One axis: `q*dt*((dt*x/2 + y)^2 + (dt*x)^2/12)`. */
  lemma AxisNoise(q: real, dt: real, x: real, y: real)
    requires q >= 0.0 && dt >= 0.0
    ensures x * (q * dt * dt * dt / 3.0 * x + q * dt * dt * 0.5 * y) + y * (q * dt * dt * 0.5 * x + q * dt * y) >= 0.0
  {
    var s, z := q * dt, dt * x;
    var g := z * z / 3.0 + z * y + y * y;
    assert s >= 0.0;
    assert g == (0.5 * z + y) * (0.5 * z + y) + z * z / 12.0;
    Square(0.5 * z + y);
    Square(z);
    assert g >= 0.0;
    assert x * (q * dt * dt * dt / 3.0 * x) == s * (z * z) / 3.0;
    assert x * (q * dt * dt * 0.5 * y) == s * (z * y) * 0.5;
    assert y * (q * dt * dt * 0.5 * x) == s * (z * y) * 0.5;
    assert y * (q * dt * y) == s * (y * y);
    assert s * (z * z) / 3.0 + s * (z * y) + s * (y * y) == s * g;
    Nonneg(s, g);
  }

  lemma Square(x: real)
    ensures x * x >= 0.0
  {
  }

  lemma Nonneg(x: real, y: real)
    requires x >= 0.0 && y >= 0.0
    ensures x * y >= 0.0
  {
  }

  lemma NoiseForm(qpp: real, qpv: real, qvv: real, qpsi: real, v: Vec)
    ensures Form(Noise(qpp, qpv, qvv, qpsi), v, v)
            == (v.a * (qpp * v.a + qpv * v.c) + v.c * (qpv * v.a + qvv * v.c))
               + (v.b * (qpp * v.b + qpv * v.d) + v.d * (qpv * v.b + qvv * v.d)) + v.e * (qpsi * v.e)
  {
    NoiseApply(qpp, qpv, qvv, qpsi, v);
    hide Apply, Noise;
  }

  lemma NoiseApply(qpp: real, qpv: real, qvv: real, qpsi: real, v: Vec)
    ensures Apply(Noise(qpp, qpv, qvv, qpsi), v)
            == Vec(qpp * v.a + qpv * v.c, qpp * v.b + qpv * v.d,
                   qpv * v.a + qvv * v.c, qpv * v.b + qvv * v.d, qpsi * v.e)
  {
  }

  lemma NoiseSound(q: real, qYaw: real, dt: real)
    requires q >= 0.0 && qYaw >= 0.0 && dt >= 0.0
    ensures Symmetric(ProcessNoise(q, qYaw, dt)) && PSD(ProcessNoise(q, qYaw, dt))
  {
    forall v ensures Form(ProcessNoise(q, qYaw, dt), v, v) >= 0.0 {
      hide Form;
      NoiseForm(q * dt * dt * dt / 3.0, q * dt * dt * 0.5, q * dt, qYaw * dt, v);
      AxisNoise(q, dt, v.a, v.c);
      AxisNoise(q, dt, v.b, v.d);
      Nonneg(qYaw, dt);
      Weighted(qYaw * dt, v.e);
    }
  }

  /** The time update: propagate, add noise, condition. */
  function Predicted(m: Mat, f: Mat, q: real, qYaw: real, dt: real): Mat {
    Condition(Add(Propagated(m, f), ProcessNoise(q, qYaw, dt)))
  }

  lemma PredictedSound(m: Mat, f: Mat, q: real, qYaw: real, dt: real)
    requires Sound(m) && q >= 0.0 && qYaw >= 0.0 && dt >= 0.0
    ensures Sound(Predicted(m, f, q, qYaw, dt))
  {
    hide Propagated, ProcessNoise, Condition, Symmetric, PSD, Add, Floored;
    PropagatedSound(m, f);
    NoiseSound(q, qYaw, dt);
    AddSound(Propagated(m, f), ProcessNoise(q, qYaw, dt));
    ConditionSound(Add(Propagated(m, f), ProcessNoise(q, qYaw, dt)));
  }

  // ---------------------------------------------------------------- scalar measurements

  const TINY: real := 0.000000001

  /** The measurement update for one row `h` with noise `r`; too small a variance skips it. */
  function Updated(m: Mat, h: Vec, r: real): Mat {
    var s := Form(m, h, h) + r;
    if s < TINY then m else Condition(Corrected(m, Apply(m, h), s))
  }

  lemma UpdatedSound(m: Mat, h: Vec, r: real)
    requires Sound(m) && r >= 0.0
    ensures Sound(Updated(m, h, r))
  {
    hide Form, Symmetric, PSD, Condition, Corrected, Apply;
    var s := Form(m, h, h) + r;
    if s >= TINY {
      CorrectedPSD(m, h, r);
      CorrectedSymmetric(m, Apply(m, h), s);
      ConditionSound(Corrected(m, Apply(m, h), s));
    }
  }

  // ---------------------------------------------------------------- single states

  lemma UnitApply(m: Mat, i: nat)
    requires i < 5
    ensures Apply(m, Unit(i)) == Col(m, i) && Form(m, Unit(i), Unit(i)) == At(m, i, i)
  {
    UnitDot(m.r0, i); UnitDot(m.r1, i); UnitDot(m.r2, i); UnitDot(m.r3, i); UnitDot(m.r4, i);
    hide Dot, Unit;
    var c := Apply(m, Unit(i));
    assert c == Col(m, i);
    DotSym(Unit(i), c);
    UnitDot(c, i);
  }

  /** No variance of a positive semidefinite matrix is negative. */
  lemma VarianceNonneg(m: Mat, i: nat)
    requires PSD(m) && i < 5
    ensures At(m, i, i) >= 0.0
  {
    hide PSD, Form, At, Unit, Apply, Col;
    UnitApply(m, i);
    Nonnegative(m, Unit(i));
  }

  /** Conditioning leaves a matrix in good order as it is. */
  lemma ConditionIdle(m: Mat)
    requires Symmetric(m) && Floored(m)
    ensures Condition(m) == m
  {
  }

  lemma UnitDot(v: Vec, i: nat)
    requires i < 5
    ensures Dot(v, Unit(i)) == Get(v, i)
  {
  }

  lemma DiagonalFloored(m: Mat, i: nat)
    requires Floored(m) && i < 5
    ensures At(m, i, i) >= FLOOR
  {
  }

  /** A measurement never raises any variance. */
  lemma UpdateNeverInflates(m: Mat, h: Vec, r: real, i: nat)
    requires Sound(m) && r >= 0.0 && i < 5
    ensures At(Updated(m, h, r), i, i) <= At(m, i, i)
  {
    var s := Form(m, h, h) + r;
    DiagonalFloored(m, i);
    hide Form, Symmetric, PSD, Condition, Corrected, Apply, At;
    if s >= TINY {
      CorrectedPSD(m, h, r);
      var c := Corrected(m, Apply(m, h), s);
      UnitApply(m, i);
      UnitApply(c, i);
      assert Form(c, Unit(i), Unit(i)) <= Form(m, Unit(i), Unit(i));
      ConditionDiagonal(c, i);
    }
  }

  lemma ConditionDiagonal(m: Mat, i: nat)
    requires i < 5
    ensures At(Condition(m), i, i) == Floor(At(m, i, i))
  {
  }
}
