/** How a stretch of time is cut up makes no difference to the Jetson's prediction. */
module Prediction {
  import opened Covariance
  import opened JetsonEkf
  import opened Matrix

  /** What time does to a term between two positions, and to one between a position and a velocity. */
  function Twice(x: real, y: real, z: real, w: real, dt: real): real {
    x + dt * y + dt * (z + dt * w)
  }

  function Once(x: real, w: real, dt: real): real {
    x + dt * w
  }

  /** `F m F^T`, entry by entry. */
  function Sheared(m: Mat, dt: real): Mat {
    var a, b, c, d, e := m.r0, m.r1, m.r2, m.r3, m.r4;
    Mat(Vec(Twice(a.a, c.a, a.c, c.c, dt), Twice(a.b, c.b, a.d, c.d, dt), Once(a.c, c.c, dt), Once(a.d, c.d, dt),
            Once(a.e, c.e, dt)),
        Vec(Twice(b.a, d.a, b.c, d.c, dt), Twice(b.b, d.b, b.d, d.d, dt), Once(b.c, d.c, dt), Once(b.d, d.d, dt),
            Once(b.e, d.e, dt)),
        Vec(Once(c.a, c.c, dt), Once(c.b, c.d, dt), c.c, c.d, c.e),
        Vec(Once(d.a, d.c, dt), Once(d.b, d.d, dt), d.c, d.d, d.e),
        Vec(Once(e.a, e.c, dt), Once(e.b, e.d, dt), e.c, e.d, e.e))
  }

  lemma ApplyTransition(dt: real, v: Vec)
    ensures Apply(Transition(dt), v) == Vec(Once(v.a, v.c, dt), Once(v.b, v.d, dt), v.c, v.d, v.e)
  {
  }

  lemma PickNorth(m: Mat, dt: real)
    ensures var a, c := m.r0, m.r2;
            Apply(Transpose(m), Vec(1.0, 0.0, dt, 0.0, 0.0))
            == Vec(Once(a.a, c.a, dt), Once(a.b, c.b, dt), Once(a.c, c.c, dt), Once(a.d, c.d, dt), Once(a.e, c.e, dt))
  {
  }

  lemma PickEast(m: Mat, dt: real)
    ensures var b, d := m.r1, m.r3;
            Apply(Transpose(m), Vec(0.0, 1.0, 0.0, dt, 0.0))
            == Vec(Once(b.a, d.a, dt), Once(b.b, d.b, dt), Once(b.c, d.c, dt), Once(b.d, d.d, dt), Once(b.e, d.e, dt))
  {
  }

  lemma PickRow(m: Mat)
    ensures var t := Transpose(m);
            && Apply(t, Vec(0.0, 0.0, 1.0, 0.0, 0.0)) == m.r2
            && Apply(t, Vec(0.0, 0.0, 0.0, 1.0, 0.0)) == m.r3
            && Apply(t, Vec(0.0, 0.0, 0.0, 0.0, 1.0)) == m.r4
  {
  }

  /** The rows of `F m`. */
  lemma RowOf(m: Mat, dt: real)
    ensures var a, b, c, d := m.r0, m.r1, m.r2, m.r3;
            Mul(Transition(dt), m)
            == Mat(Vec(Once(a.a, c.a, dt), Once(a.b, c.b, dt), Once(a.c, c.c, dt), Once(a.d, c.d, dt),
                       Once(a.e, c.e, dt)),
                   Vec(Once(b.a, d.a, dt), Once(b.b, d.b, dt), Once(b.c, d.c, dt), Once(b.d, d.d, dt),
                       Once(b.e, d.e, dt)),
                   m.r2, m.r3, m.r4)
  {
    hide Apply, Transpose, Once;
    PickNorth(m, dt);
    PickEast(m, dt);
    PickRow(m);
  }

  lemma TwiceIs(x: real, y: real, z: real, w: real, dt: real)
    ensures Once(Once(x, y, dt), Once(z, w, dt), dt) == Twice(x, y, z, w, dt)
  {
  }

  lemma ShearedIs(m: Mat, dt: real)
    ensures Propagated(m, Transition(dt)) == Sheared(m, dt)
  {
    var fm := Mul(Transition(dt), m);
    RowOf(m, dt);
    ApplyTransition(dt, fm.r0);
    ApplyTransition(dt, fm.r1);
    ApplyTransition(dt, fm.r2);
    ApplyTransition(dt, fm.r3);
    ApplyTransition(dt, fm.r4);
    var a, b, c, d := m.r0, m.r1, m.r2, m.r3;
    TwiceIs(a.a, c.a, a.c, c.c, dt);
    TwiceIs(a.b, c.b, a.d, c.d, dt);
    TwiceIs(b.a, d.a, b.c, d.c, dt);
    TwiceIs(b.b, d.b, b.d, d.d, dt);
    hide Once, Twice, Mul, Transition, Apply;
  }

  // ---------------------------------------------------------------- the noise

  /** What a stretch of time adds to a position, to its tie to the velocity, and to the velocity. */
  function OfPosition(q: real, dt: real): real {
    q * dt * dt * dt / 3.0
  }

  function OfBoth(q: real, dt: real): real {
    q * dt * dt * 0.5
  }

  function OfVelocity(q: real, dt: real): real {
    q * dt
  }

  lemma TwiceSplits(x: real, y: real, z: real, w: real, q: real, d: real, e: real)
    ensures Twice(Twice(x, y, z, w, d) + OfPosition(q, d), Once(y, w, d) + OfBoth(q, d), Once(z, w, d) + OfBoth(q, d),
                  w + OfVelocity(q, d), e) + OfPosition(q, e)
            == Twice(x, y, z, w, d + e) + OfPosition(q, d + e)
  {
  }

  lemma OnceSplits(x: real, w: real, q: real, d: real, e: real)
    ensures Once(Once(x, w, d) + OfBoth(q, d), w + OfVelocity(q, d), e) + OfBoth(q, e)
            == Once(x, w, d + e) + OfBoth(q, d + e)
  {
  }

  /** The covariance before conditioning. */
  function Grown(m: Mat, q: real, qYaw: real, dt: real): Mat {
    Add(Propagated(m, Transition(dt)), ProcessNoise(q, qYaw, dt))
  }

  lemma GrownIs(m: Mat, q: real, qYaw: real, dt: real)
    ensures var s := Sheared(m, dt);
            Grown(m, q, qYaw, dt)
            == s.(r0 := s.r0.(a := s.r0.a + OfPosition(q, dt), c := s.r0.c + OfBoth(q, dt)),
                  r1 := s.r1.(b := s.r1.b + OfPosition(q, dt), d := s.r1.d + OfBoth(q, dt)),
                  r2 := s.r2.(a := s.r2.a + OfBoth(q, dt), c := s.r2.c + OfVelocity(q, dt)),
                  r3 := s.r3.(b := s.r3.b + OfBoth(q, dt), d := s.r3.d + OfVelocity(q, dt)),
                  r4 := s.r4.(e := s.r4.e + OfVelocity(qYaw, dt)))
  {
    ShearedIs(m, dt);
    hide Propagated, Sheared;
  }

  lemma NoNoise(dt: real)
    ensures OfPosition(0.0, dt) == 0.0 && OfBoth(0.0, dt) == 0.0 && OfVelocity(0.0, dt) == 0.0
  {
  }

  lemma VelocityAdds(q: real, d: real, e: real)
    ensures OfVelocity(q, d) + OfVelocity(q, e) == OfVelocity(q, d + e)
  {
  }

  /** Twice growing over parts of a stretch is growing over the whole. */
  lemma GrowthSplits(m: Mat, q: real, qYaw: real, d: real, e: real)
    ensures Grown(Grown(m, q, qYaw, d), q, qYaw, e) == Grown(m, q, qYaw, d + e)
  {
    hide Grown, Once, Twice, OfPosition, OfBoth, OfVelocity;
    GrownIs(m, q, qYaw, d);
    GrownIs(Grown(m, q, qYaw, d), q, qYaw, e);
    GrownIs(m, q, qYaw, d + e);
    NoNoise(d);
    NoNoise(e);
    NoNoise(d + e);
    VelocityAdds(q, d, e);
    VelocityAdds(qYaw, d, e);
    var r0, r1, r2, r3, r4 := m.r0, m.r1, m.r2, m.r3, m.r4;
    TwiceSplits(r0.a, r2.a, r0.c, r2.c, q, d, e);
    TwiceSplits(r0.b, r2.b, r0.d, r2.d, 0.0, d, e);
    TwiceSplits(r1.a, r3.a, r1.c, r3.c, 0.0, d, e);
    TwiceSplits(r1.b, r3.b, r1.d, r3.d, q, d, e);
    OnceSplits(r0.c, r2.c, q, d, e);
    OnceSplits(r0.d, r2.d, 0.0, d, e);
    OnceSplits(r0.e, r2.e, 0.0, d, e);
    OnceSplits(r1.c, r3.c, 0.0, d, e);
    OnceSplits(r1.d, r3.d, q, d, e);
    OnceSplits(r1.e, r3.e, 0.0, d, e);
    OnceSplits(r2.a, r2.c, q, d, e);
    OnceSplits(r2.b, r2.d, 0.0, d, e);
    OnceSplits(r3.a, r3.c, 0.0, d, e);
    OnceSplits(r3.b, r3.d, q, d, e);
    OnceSplits(r4.a, r4.c, 0.0, d, e);
    OnceSplits(r4.b, r4.d, 0.0, d, e);
  }

  /** Predicting over `d` and then over `e` is predicting over `d + e` at once, estimate and covariance, unless
      a variance had to be floored in between. */
  lemma PredictSplits(f: Filter, d: real, e: real)
    requires f.anchored && Sound(f.p) && d > 0.0 && e > 0.0 && d + e <= 5.0
    requires Floored(Grown(f.p, Q_VEL, Q_YAW, d))
    ensures Predict(Predict(f, d), e) == Predict(f, d + e)
  {
    hide Grown, Propagated, Transition, ProcessNoise, Symmetric, PSD, Floored, Condition, Moved;
    GrownPredicted(f, d);
    GrownPredicted(Predict(f, d), e);
    GrownPredicted(f, d + e);
    GrownSymmetric(f.p, d);
    ConditionIdle(Grown(f.p, Q_VEL, Q_YAW, d));
    GrowthSplits(f.p, Q_VEL, Q_YAW, d, e);
    MovedSplits(f.x, d, e);
  }

  lemma GrownPredicted(f: Filter, dt: real)
    requires f.anchored && 0.0 < dt <= 5.0
    ensures Predict(f, dt) == f.(x := Moved(f.x, dt), p := Condition(Grown(f.p, Q_VEL, Q_YAW, dt)))
  {
    hide Propagated, Transition, ProcessNoise, Condition, Moved, Add;
  }

  lemma GrownSymmetric(m: Mat, dt: real)
    requires Symmetric(m) && PSD(m) && dt >= 0.0
    ensures Symmetric(Grown(m, Q_VEL, Q_YAW, dt))
  {
    hide Propagated, Transition, ProcessNoise, Symmetric, PSD, Add;
    PropagatedSound(m, Transition(dt));
    NoiseSound(Q_VEL, Q_YAW, dt);
    AddSound(Propagated(m, Transition(dt)), ProcessNoise(Q_VEL, Q_YAW, dt));
  }

  lemma MovedSplits(x: Vec, d: real, e: real)
    ensures Moved(Moved(x, d), e) == Moved(x, d + e)
  {
    hide Moved, Once;
    MovedIs(x, d);
    MovedIs(Moved(x, d), e);
    MovedIs(x, d + e);
    InParts(x.a, x.c, d, e);
    InParts(x.b, x.d, d, e);
  }

  lemma MovedIs(x: Vec, dt: real)
    ensures Moved(x, dt) == Vec(Once(x.a, x.c, dt), Once(x.b, x.d, dt), x.c, x.d, x.e)
  {
  }

  lemma InParts(x: real, v: real, d: real, e: real)
    ensures Once(Once(x, v, d), v, e) == Once(x, v, d + e)
  {
  }
}
