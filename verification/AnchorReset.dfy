/** What the firmware's anchor reset does to the covariance (swarm_node/src/ekf.c): two variances are
    overwritten, their cross terms stay. When the result is still a covariance. */
module AnchorReset {
  import opened Arithmetic
  import opened Covariance
  import opened Matrix
  import opened NodeEkf
  import opened TwoRow
  import JetsonEkf

  // ---------------------------------------------------------------- eliminating a state

  /** The variance of a state taken out of the others, as a perfect measurement of it would; a state
      without variance is left alone. */
  function Eliminated(m: Mat, i: nat): Mat
    requires i < 5
  {
    if At(m, i, i) == 0.0 then m else FirstCov(m, i, 0.0)
  }

  lemma EliminatedSymmetric(m: Mat, i: nat)
    requires Symmetric(m) && i < 5
    ensures Symmetric(Eliminated(m, i))
  {
    hide Symmetric, At, Row, Corrected;
    if At(m, i, i) != 0.0 { CorrectedSymmetric(m, Row(m, i), At(m, i, i) + 0.0); }
  }

  /** The form before is the form after plus a square over the variance. */
  lemma EliminatedForm(m: Mat, i: nat, v: Vec)
    requires Symmetric(m) && i < 5 && At(m, i, i) != 0.0
    ensures var b := Form(m, v, Unit(i));
            Form(Eliminated(m, i), v, v) == Form(m, v, v) - Prod(b, b) / At(m, i, i)
  {
    hide Form, Apply, Corrected, Symmetric, At, Row, Col, Unit, Prod;
    UnitApply(m, i);
    SymmetricAccess(m, i, i);
    CorrectedForm(m, Unit(i), At(m, i, i) + 0.0, v);
  }

  lemma SquareOver(b: real, p: real)
    requires p > 0.0
    ensures Prod(b, b) / p >= 0.0
  {
    Square(b);
  }

  /** Taking out a state of positive variance does not decide whether the rest is sound. */
  lemma EliminatedPSD(m: Mat, i: nat)
    requires Symmetric(m) && i < 5 && At(m, i, i) >= 0.0
    ensures PSD(m) <==> PSD(Eliminated(m, i))
  {
    hide Form, At, Symmetric, FirstCov, Unit, Prod;
    if At(m, i, i) != 0.0 {
      if PSD(m) { FirstSound(m, i, 0.0); }
      if PSD(Eliminated(m, i)) {
        forall v ensures Form(m, v, v) >= 0.0 {
          EliminatedForm(m, i, v);
          SquareOver(Form(m, v, Unit(i)), At(m, i, i));
        }
      }
    }
  }

  const NONE := Vec(0.0, 0.0, 0.0, 0.0, 0.0)

  lemma CombCancels(b: real, s: real, h: Vec, j: nat)
    requires s != 0.0
    ensures b == s ==> Comb(1.0, h, -Quot(b, s), h) == NONE
    ensures b == 0.0 ==> Comb(1.0, NONE, -Quot(b, s), h) == NONE
  {
  }

  lemma ZeroRowEntry(m: Mat, i: nat, j: nat)
    requires Symmetric(m) && i < 5 && j < 5 && Row(m, j) == NONE
    ensures At(m, i, j) == 0.0 && Get(Row(m, i), j) == 0.0
  {
    SymmetricAccess(m, i, j);
  }

  /** A state that is out stays out. */
  lemma EliminatedKeepsZero(m: Mat, i: nat, j: nat)
    requires Symmetric(m) && i < 5 && j < 5 && Row(m, j) == NONE
    ensures Row(Eliminated(m, i), j) == NONE
  {
    hide Symmetric, Corrected, Row, Comb, Quot, Get;
    if At(m, i, i) != 0.0 {
      ZeroRowEntry(m, i, j);
      CorrectedRow(m, Row(m, i), At(m, i, i) + 0.0, j);
      CombCancels(0.0, At(m, i, i) + 0.0, Row(m, i), j);
    }
  }

  /** A sound matrix has no cross terms with a state that has no variance. */
  lemma NoVarianceNoCross(m: Mat, i: nat, j: nat)
    requires Symmetric(m) && PSD(m) && i < 5 && j < 5 && At(m, i, i) == 0.0
    ensures At(m, i, j) == 0.0
  {
    hide Form, Symmetric, PSD, At, Unit, Apply, Col;
    Discriminant(m, Unit(i), Unit(j));
    CrossEntry(m, i, j);
    UnitApply(m, i);
    UnitApply(m, j);
    SquareNotPositive(At(m, i, j), At(m, j, j));
  }

  lemma SquareNotPositive(c: real, q: real)
    requires Prod(c, c) <= Prod(0.0, q)
    ensures c == 0.0
  {
    hide Prod;
    SquarePositive(c, 0.5 * c);
    ZeroTimes(q);
  }

  lemma SquarePositive(c: real, h: real)
    requires c == 2.0 * h
    ensures c != 0.0 ==> Prod(c, c) > 0.0
  {
    if c > 0.0 { Scaled(c, h); }
    if c < 0.0 { Scaled(-c, -h); }
    assert Prod(c, c) == 2.0 * (c * h);
  }

  lemma ZeroTimes(q: real)
    ensures Prod(0.0, q) == 0.0
  {
  }

  lemma RowOfZeros(m: Mat, i: nat)
    requires i < 5 && forall j: nat | j < 5 :: At(m, i, j) == 0.0
    ensures Row(m, i) == NONE
  {
    assert At(m, i, 0) == 0.0 && At(m, i, 1) == 0.0 && At(m, i, 2) == 0.0 && At(m, i, 3) == 0.0 && At(m, i, 4) == 0.0;
  }

  /** After its turn a state of a sound matrix is out. */
  lemma EliminatedIsOut(m: Mat, i: nat)
    requires Symmetric(m) && PSD(m) && i < 5
    ensures Row(Eliminated(m, i), i) == NONE
  {
    hide Symmetric, PSD, Corrected, Row, Comb, Quot, Get, At;
    if At(m, i, i) == 0.0 {
      forall j: nat | j < 5 ensures At(m, i, j) == 0.0 {
        NoVarianceNoCross(m, i, j);
      }
      RowOfZeros(m, i);
    } else {
      AtIsGet(m, i, i);
      CorrectedRow(m, Row(m, i), At(m, i, i) + 0.0, i);
      CombCancels(At(m, i, i), At(m, i, i) + 0.0, Row(m, i), i);
    }
  }

  lemma AtIsGet(m: Mat, i: nat, j: nat)
    requires i < 5 && j < 5
    ensures At(m, i, j) == Get(Row(m, i), j)
  {
  }

  // ---------------------------------------------------------------- the reset and the elimination

  /** The two position variances raised by `x` and `y`. */
  function Shifted(m: Mat, x: real, y: real): Mat {
    m.(r0 := m.r0.(a := m.r0.a + x), r1 := m.r1.(b := m.r1.b + y))
  }

  lemma ShiftedSymmetric(m: Mat, x: real, y: real)
    requires Symmetric(m)
    ensures Symmetric(Shifted(m, x, y))
  {
  }

  lemma ShiftedRow(m: Mat, x: real, y: real, i: nat)
    requires 2 <= i < 5
    ensures Row(Shifted(m, x, y), i) == Row(m, i) && At(Shifted(m, x, y), i, i) == At(m, i, i)
  {
  }

  lemma ShiftedDowndate(m: Mat, x: real, y: real, k: Vec, h: Vec)
    ensures Downdate(Shifted(m, x, y), k, h) == Shifted(Downdate(m, k, h), x, y)
  {
  }

  /** Neither velocity nor heading sees the position variances. */
  lemma ShiftedEliminated(m: Mat, x: real, y: real, i: nat)
    requires 2 <= i < 5
    ensures Eliminated(Shifted(m, x, y), i) == Shifted(Eliminated(m, i), x, y)
  {
    hide Shifted, Row, At, Downdate, Gain;
    ShiftedRow(m, x, y, i);
    if At(m, i, i) != 0.0 {
      ShiftedDowndate(m, x, y, Gain(Row(m, i), At(m, i, i) + 0.0), Row(m, i));
    }
  }

  /** Velocities and heading out: what is left is about the position alone. */
  function Reduced3(m: Mat): Mat {
    Eliminated(Eliminated(Eliminated(m, 2), 3), 4)
  }

  /** Every step of the reduction of a sound matrix is sound, and the three states are out at the end. */
  lemma ReducedFacts(m: Mat)
    requires Symmetric(m) && PSD(m)
    ensures var m1, m2 := Eliminated(m, 2), Eliminated(Eliminated(m, 2), 3);
            && Symmetric(m1) && PSD(m1) && Symmetric(m2) && PSD(m2) && Symmetric(Reduced3(m)) && PSD(Reduced3(m))
            && At(m, 2, 2) >= 0.0 && At(m1, 3, 3) >= 0.0 && At(m2, 4, 4) >= 0.0
            && Row(Reduced3(m), 2) == NONE && Row(Reduced3(m), 3) == NONE && Row(Reduced3(m), 4) == NONE
  {
    hide Symmetric, PSD, Eliminated, At, Row;
    var m1 := Eliminated(m, 2);
    var m2 := Eliminated(m1, 3);
    VarianceNonneg(m, 2);
    EliminatedSymmetric(m, 2);
    EliminatedPSD(m, 2);
    EliminatedIsOut(m, 2);
    VarianceNonneg(m1, 3);
    EliminatedSymmetric(m1, 3);
    EliminatedPSD(m1, 3);
    EliminatedIsOut(m1, 3);
    EliminatedKeepsZero(m1, 3, 2);
    VarianceNonneg(m2, 4);
    EliminatedSymmetric(m2, 4);
    EliminatedPSD(m2, 4);
    EliminatedIsOut(m2, 4);
    EliminatedKeepsZero(m2, 4, 2);
    EliminatedKeepsZero(m2, 4, 3);
  }

  /** Whether the shifted matrix is positive semidefinite shows in the shifted remainder. */
  lemma ShiftedPSD(m: Mat, x: real, y: real)
    requires Symmetric(m) && PSD(m)
    ensures PSD(Shifted(m, x, y)) <==> PSD(Shifted(Reduced3(m), x, y))
  {
    hide Symmetric, PSD, Eliminated, At, Row, Shifted;
    var m1 := Eliminated(m, 2);
    var m2 := Eliminated(m1, 3);
    ReducedFacts(m);
    ShiftedRow(m, x, y, 2);
    ShiftedRow(m1, x, y, 3);
    ShiftedRow(m2, x, y, 4);
    ShiftedSymmetric(m, x, y);
    ShiftedSymmetric(m1, x, y);
    ShiftedSymmetric(m2, x, y);
    ShiftedEliminated(m, x, y, 2);
    ShiftedEliminated(m1, x, y, 3);
    ShiftedEliminated(m2, x, y, 4);
    EliminatedPSD(Shifted(m, x, y), 2);
    EliminatedPSD(Shifted(m1, x, y), 3);
    EliminatedPSD(Shifted(m2, x, y), 4);
  }

  // ---------------------------------------------------------------- two states

  /** A matrix with nothing but a block for the two positions. */
  function Block(a: real, c: real, b: real): Mat {
    Mat(Vec(a, c, 0.0, 0.0, 0.0), Vec(c, b, 0.0, 0.0, 0.0), NONE, NONE, NONE)
  }

  lemma BlockApply(a: real, c: real, b: real, v: Vec)
    ensures Apply(Block(a, c, b), v) == Vec(a * v.a + c * v.b, c * v.a + b * v.b, 0.0, 0.0, 0.0)
  {
  }

  lemma BlockForm(a: real, c: real, b: real, v: Vec)
    ensures Form(Block(a, c, b), v, v) == v.a * (a * v.a + c * v.b) + v.b * (c * v.a + b * v.b)
  {
    hide Apply, Block;
    BlockApply(a, c, b, v);
  }

  lemma IsBlock(m: Mat)
    requires Symmetric(m) && Row(m, 2) == NONE && Row(m, 3) == NONE && Row(m, 4) == NONE
    ensures m == Block(m.r0.a, m.r0.b, m.r1.b)
  {
  }

  /** One axis of a form, completed to a square. */
  lemma AxisSquare(pp: real, pv: real, vv: real, x: real, y: real)
    requires pp > 0.0 && Prod(pv, pv) <= Prod(pp, vv)
    ensures x * (pp * x + pv * y) + y * (pv * x + vv * y) >= 0.0
  {
    hide *;
    var q := x * (pp * x + pv * y) + y * (pv * x + vv * y);
    var u, d, w := pp * x + pv * y, Prod(pp, vv) - Prod(pv, pv), y * y;
    AxisExpand(pp, pv, vv, x, y);
    Square(u);
    Square(y);
    Nonneg(d, w);
    if q < 0.0 { Scaled(pp, -q); }
  }

  lemma AxisExpand(pp: real, pv: real, vv: real, x: real, y: real)
    ensures var u := pp * x + pv * y;
            pp * (x * (pp * x + pv * y) + y * (pv * x + vv * y)) == u * u + (Prod(pp, vv) - Prod(pv, pv)) * (y * y)
  {
    var a, b := pp * x, pv * y;
    assert pp * (x * (a + b)) == a * (a + b);
    assert pp * (y * (pv * x + vv * y)) == b * a + (pp * vv) * (y * y);
    assert b * b == (pv * pv) * (y * y);
  }

  /** A two-by-two block is positive semidefinite exactly when its diagonal is not negative and the cross
      term squared is at most its product. */
  lemma BlockPSD(a: real, c: real, b: real)
    ensures PSD(Block(a, c, b)) <==> a >= 0.0 && b >= 0.0 && Prod(c, c) <= Prod(a, b)
  {
    hide Form, Prod;
    var m := Block(a, c, b);
    if PSD(m) {
      BlockNecessary(a, c, b);
    }
    if a >= 0.0 && b >= 0.0 && Prod(c, c) <= Prod(a, b) {
      forall v ensures Form(m, v, v) >= 0.0 {
        BlockForm(a, c, b, v);
        BlockSufficient(a, c, b, v.a, v.b);
      }
    }
  }

  lemma BlockNecessary(a: real, c: real, b: real)
    requires PSD(Block(a, c, b))
    ensures a >= 0.0 && b >= 0.0 && Prod(c, c) <= Prod(a, b)
  {
    var m := Block(a, c, b);
    assert Symmetric(m) && At(m, 0, 0) == a && At(m, 1, 1) == b && At(m, 0, 1) == c;
    BlockEntries(m, a, c, b);
  }

  lemma BlockEntries(m: Mat, a: real, c: real, b: real)
    requires Symmetric(m) && PSD(m) && At(m, 0, 0) == a && At(m, 1, 1) == b && At(m, 0, 1) == c
    ensures a >= 0.0 && b >= 0.0 && Prod(c, c) <= Prod(a, b)
  {
    hide Form, Symmetric, PSD, At, Unit, Apply, Col, Prod;
    VarianceNonneg(m, 0);
    VarianceNonneg(m, 1);
    Discriminant(m, Unit(0), Unit(1));
    CrossEntry(m, 0, 1);
    UnitApply(m, 0);
    UnitApply(m, 1);
  }

  lemma BlockSufficient(a: real, c: real, b: real, x: real, y: real)
    requires a >= 0.0 && b >= 0.0 && Prod(c, c) <= Prod(a, b)
    ensures x * (a * x + c * y) + y * (c * x + b * y) >= 0.0
  {
    hide Prod;
    if a > 0.0 {
      AxisSquare(a, c, b, x, y);
    } else {
      SquareNotPositive(c, b);
      Weighted(b, y);
    }
  }

  // ---------------------------------------------------------------- the reset, exactly

  lemma OverwrittenIsShift(m: Mat, v: real)
    ensures Overwritten(m, v) == Shifted(m, v - m.r0.a, v - m.r1.b)
  {
  }

  lemma OverwrittenFloored(m: Mat, v: real)
    requires Sound(m) && v >= FLOOR
    ensures Floored(Overwritten(m, v)) && Symmetric(Overwritten(m, v))
  {
    hide PSD;
  }

  /** Overwriting the position variances of a sound covariance with `v` leaves a covariance if and only
      if, with velocities and heading taken out beforehand, the two position variances moved by as much
      as that moves them are not negative and carry their cross term. */
  lemma OverwrittenIff(m: Mat, v: real)
    requires Sound(m) && v >= FLOOR
    ensures var e := Reduced3(m);
            var a, b := e.r0.a + v - m.r0.a, e.r1.b + v - m.r1.b;
            Sound(Overwritten(m, v)) <==> a >= 0.0 && b >= 0.0 && Prod(e.r0.b, e.r0.b) <= Prod(a, b)
  {
    hide Symmetric, PSD, Floored, Reduced3, Overwritten, Row, Block, Prod;
    var e := Reduced3(m);
    var x, y := v - m.r0.a, v - m.r1.b;
    OverwrittenIsShift(m, v);
    OverwrittenFloored(m, v);
    ShiftedPSD(m, x, y);
    ReducedFacts(m);
    IsBlock(e);
    ShiftedBlock(e.r0.a, e.r0.b, e.r1.b, x, y);
    BlockPSD(e.r0.a + x, e.r0.b, e.r1.b + y);
  }

  /** The same of the anchor reset, which sets both to 25. */
  lemma AnchorResetIff(m: Mat)
    requires Sound(m)
    ensures var e := Reduced3(m);
            var a, b := e.r0.a + 25.0 - m.r0.a, e.r1.b + 25.0 - m.r1.b;
            Sound(JetsonEkf.Reset(m)) <==> a >= 0.0 && b >= 0.0 && Prod(e.r0.b, e.r0.b) <= Prod(a, b)
  {
    OverwrittenIff(m, 25.0);
    ResetOverwrites(m);
    hide *;
  }

  lemma ResetOverwrites(m: Mat)
    ensures JetsonEkf.Reset(m) == Overwritten(m, 25.0)
  {
  }

  lemma ShiftedBlock(a: real, c: real, b: real, x: real, y: real)
    ensures Shifted(Block(a, c, b), x, y) == Block(a + x, c, b + y)
  {
  }

  // ---------------------------------------------------------------- filters at rest

  lemma StillTransition(dt: real)
    ensures Transition(dt, 0.0, 0.0) == JetsonEkf.Transition(dt)
  {
  }

  lemma StillPropagated(pp: real, pv: real, vv: real, s: real, dt: real)
    ensures Propagated(Noise(pp, pv, vv, s), JetsonEkf.Transition(dt))
            == Noise(pp + dt * pv + dt * (pv + dt * vv), pv + dt * vv, vv, s)
  {
  }

  lemma NoiseAdds(pp: real, pv: real, vv: real, s: real, qpp: real, qpv: real, qvv: real, qs: real)
    ensures Add(Noise(pp, pv, vv, s), Noise(qpp, qpv, qvv, qs)) == Noise(pp + qpp, pv + qpv, vv + qvv, s + qs)
  {
  }

  lemma NoiseConditioned(pp: real, pv: real, vv: real, s: real)
    requires pp >= FLOOR && vv >= FLOOR && s >= FLOOR
    ensures Condition(Noise(pp, pv, vv, s)) == Noise(pp, pv, vv, s)
  {
  }

  function StillPos(t: real): real {
    1000000.0 + 25.0 * (t * t) + t * (t * t) / 3.0
  }

  function StillCross(t: real): real {
    25.0 * t + t * t / 2.0
  }

  /** The covariance of a filter that has been at rest for `t` seconds since it started. */
  function Still(t: real): Mat {
    Noise(StillPos(t), StillCross(t), 25.0 + t, PI * PI + 0.05 * t)
  }

  lemma StillSteps(t: real, dt: real)
    ensures StillCross(t + dt) == StillCross(t) + dt * (25.0 + t) + dt * dt * 0.5
    ensures StillPos(t + dt)
            == StillPos(t) + dt * StillCross(t) + dt * (StillCross(t) + dt * (25.0 + t)) + dt * dt * dt / 3.0
  {
    var tt, td, dd := t * t, t * dt, dt * dt;
    Squared(t, dt);
    Cubed(t, dt, tt, td, dd);
    CrossTerms(t, dt, tt, td, dd);
    PosSum(t, dt, tt, td, dd, dt * tt, dt * td, StillCross(t));
  }

  lemma PosSum(t: real, dt: real, tt: real, td: real, dd: real, dtt: real, dtd: real, cross: real)
    requires (t + dt) * (t + dt) == tt + 2.0 * td + dd && tt == t * t && dtt == dt * tt && dtd == dt * td
    requires (t + dt) * (tt + 2.0 * td + dd) == t * tt + 3.0 * dtt + 3.0 * dtd + dt * dd
    requires dt * cross == 25.0 * td + dtt / 2.0 && dt * (dt * (25.0 + t)) == 25.0 * dd + dtd
    ensures StillPos(t + dt) == StillPos(t) + dt * cross + dt * (cross + dt * (25.0 + t)) + dt * dd / 3.0
  {
    assert dt * (cross + dt * (25.0 + t)) == dt * cross + dt * (dt * (25.0 + t));
  }

  lemma Cubed(t: real, dt: real, tt: real, td: real, dd: real)
    requires tt == t * t && td == t * dt && dd == dt * dt
    ensures (t + dt) * (tt + 2.0 * td + dd) == t * tt + 3.0 * (dt * tt) + 3.0 * (dt * td) + dt * dd
  {
  }

  lemma CrossTerms(t: real, dt: real, tt: real, td: real, dd: real)
    requires tt == t * t && td == t * dt && dd == dt * dt
    ensures dt * StillCross(t) == 25.0 * td + dt * tt / 2.0 && dt * (dt * (25.0 + t)) == 25.0 * dd + dt * td
  {
  }

  lemma Squared(t: real, dt: real)
    ensures (t + dt) * (t + dt) == t * t + 2.0 * (t * dt) + dt * dt
  {
  }

  lemma StillRanges(t: real)
    requires t >= 0.0
    ensures StillPos(t) >= 1000000.0 && StillCross(t) >= 0.0
  {
    Square(t);
    Nonneg(t, t * t);
  }

  lemma StillNext(t: real, dt: real, pp: real, pv: real, vv: real)
    requires pp == StillPos(t) && pv == StillCross(t) && vv == 25.0 + t
    ensures pp + dt * pv + dt * (pv + dt * vv) + dt * dt * dt / 3.0 == StillPos(t + dt)
    ensures pv + dt * vv + dt * dt * 0.5 == StillCross(t + dt)
  {
    StillSteps(t, dt);
    hide StillPos, StillCross;
  }

  /** One prediction at rest. */
  lemma StillTick(t: real, dt: real)
    requires t >= 0.0 && dt > 0.0
    ensures Predicted(Still(t), Transition(dt, 0.0, 0.0), Q_ACCEL, Q_GYRO, dt) == Still(t + dt)
  {
    hide Propagated, Condition, Add, Noise, ProcessNoise, Transition, JetsonEkf.Transition, StillPos, StillCross;
    var pp, pv, vv, s := StillPos(t), StillCross(t), 25.0 + t, PI * PI + 0.05 * t;
    StillTransition(dt);
    StillPropagated(pp, pv, vv, s, dt);
    StillNoise(dt);
    NoiseAdds(pp + dt * pv + dt * (pv + dt * vv), pv + dt * vv, vv, s,
              dt * dt * dt / 3.0, dt * dt * 0.5, dt, 0.05 * dt);
    StillNext(t, dt, pp, pv, vv);
    StillRanges(t + dt);
    NoiseConditioned(StillPos(t + dt), StillCross(t + dt), 25.0 + (t + dt), PI * PI + 0.05 * (t + dt));
  }

  lemma StillNoise(dt: real)
    ensures ProcessNoise(Q_ACCEL, Q_GYRO, dt) == Noise(dt * dt * dt / 3.0, dt * dt * 0.5, dt, 0.05 * dt)
  {
  }

  /** A reading of the inertial sensor without acceleration; turning on the spot is allowed. */
  predicate AtRest(e: Event) {
    e.Imu? && e.ax == 0.0 && e.ay == 0.0
  }

  /** The time a reading covers; one the filter ignores covers none. */
  function Covered(e: Event): real {
    if e.Imu? && 0.0 < e.dt <= 0.5 then e.dt else 0.0
  }

  function Elapsed(es: seq<Event>): real
    decreases |es|
  {
    if es == [] then 0.0 else Covered(es[0]) + Elapsed(es[1..])
  }

  lemma StillStep(trig: Trig, f: Node, e: Event, t: real)
    requires AtRest(e) && f.p == Still(t) && t >= 0.0
    ensures Step(trig, f, e).p == Still(t + Covered(e))
  {
    hide Predicted, Still, Transition;
    if 0.0 < e.dt <= 0.5 {
      StillTick(t, e.dt);
      NoAcceleration(trig.cos(Turn(f.x.e, e.gyroZ, e.dt)), trig.sin(Turn(f.x.e, e.gyroZ, e.dt)));
    }
  }

  lemma NoAcceleration(c: real, sn: real)
    ensures AccelNorth(0.0, 0.0, c, sn) == 0.0 && AccelEast(0.0, 0.0, c, sn) == 0.0
  {
  }

  lemma {:induction false} StillFrom(trig: Trig, f: Node, es: seq<Event>, t: real)
    requires (forall e | e in es :: AtRest(e)) && f.p == Still(t) && t >= 0.0
    ensures forall e | e in es :: Admissible(e)
    ensures Run(trig, f, es).p == Still(t + Elapsed(es)) && Elapsed(es) >= 0.0
    decreases |es|
  {
    hide Still, Step;
    if es != [] {
      StillStep(trig, f, es[0], t);
      StillFrom(trig, Step(trig, f, es[0]), es[1..], t + Covered(es[0]));
    }
  }

  lemma InitialIsStill()
    ensures Initial().p == Still(0.0)
  {
  }

  /** A covariance whose only cross terms tie each position to its own velocity is sound exactly
      when those terms are no larger than their variances allow. */
  lemma StillSoundIff(pp: real, pv: real, vv: real, s: real)
    requires pp >= FLOOR && vv >= FLOOR && s >= FLOOR
    ensures Sound(Noise(pp, pv, vv, s)) <==> Prod(pv, pv) <= Prod(pp, vv)
  {
    hide Form, Prod;
    var m := Noise(pp, pv, vv, s);
    assert Symmetric(m) && Floored(m);
    if Prod(pv, pv) <= Prod(pp, vv) {
      forall v ensures Form(m, v, v) >= 0.0 {
        NoiseForm(pp, pv, vv, s, v);
        AxisSquare(pp, pv, vv, v.a, v.c);
        AxisSquare(pp, pv, vv, v.b, v.d);
        Weighted(s, v.e);
      }
    }
    if Sound(m) { StillNecessary(pp, pv, vv, s); }
  }

  lemma StillNecessary(pp: real, pv: real, vv: real, s: real)
    requires Sound(Noise(pp, pv, vv, s))
    ensures Prod(pv, pv) <= Prod(pp, vv)
  {
    var m := Noise(pp, pv, vv, s);
    assert At(m, 0, 0) == pp && At(m, 2, 2) == vv && At(m, 0, 2) == pv;
    CrossBound(m, 0, 2);
  }

  lemma StillReset(t: real)
    ensures JetsonEkf.Reset(Still(t)) == Noise(25.0, StillCross(t), 25.0 + t, PI * PI + 0.05 * t)
  {
    hide StillPos, StillCross;
  }

  /** Of a filter that has only been at rest since it started, the anchor reset leaves a covariance
      exactly when the time elapsed is short enough. */
  lemma StillResetIff(trig: Trig, es: seq<Event>)
    requires forall e | e in es :: AtRest(e)
    ensures forall e | e in es :: Admissible(e)
    ensures var f, t := Run(trig, Initial(), es), Elapsed(es);
            && Sound(f.p) && f.p == Still(t)
            && (Sound(JetsonEkf.Reset(f.p)) <==> Prod(StillCross(t), StillCross(t)) <= Prod(25.0, 25.0 + t))
  {
    hide *;
    InitialIsStill();
    StillFrom(trig, Initial(), es, 0.0);
    StillResetAt(Elapsed(es));
    InitialSound();
    EveryRunIsSound(trig, Initial(), es);
  }

  lemma StillResetAt(t: real)
    requires t >= 0.0
    ensures Sound(JetsonEkf.Reset(Still(t))) <==> Prod(StillCross(t), StillCross(t)) <= Prod(25.0, 25.0 + t)
  {
    hide Sound, Still, JetsonEkf.Reset, Noise, Prod;
    StillReset(t);
    StillSoundIff(25.0, StillCross(t), 25.0 + t, PI * PI + 0.05 * t);
  }

  lemma InitialSound()
    ensures Sound(Initial().p)
  {
    DiagPSD(Vec(1000000.0, 1000000.0, 25.0, 25.0, PI * PI));
  }

  /** One second at rest before the first fix is enough: the covariance is sound, and the anchor
      reset, which keeps the cross terms, leaves one that is not. */
  lemma AnchorResetBreaks(trig: Trig) returns (es: seq<Event>)
    ensures forall e | e in es :: Admissible(e)
    ensures Sound(Run(trig, Initial(), es).p) && !Sound(JetsonEkf.Reset(Run(trig, Initial(), es).p))
  {
    hide Sound, JetsonEkf.Reset, Initial, Run, Still;
    var e := Imu(0.0, 0.0, 0.0, 0.5);
    es := [e, e];
    TwoHalves(es, e);
    StillResetIff(trig, es);
  }

  lemma TwoHalves(es: seq<Event>, e: Event)
    requires es == [e, e] && AtRest(e) && e.dt == 0.5
    ensures (forall x | x in es :: AtRest(x)) && Elapsed(es) == 1.0
  {
    assert Elapsed(es) == Covered(e) + Elapsed(es[1..]);
    assert es[1..] == [e];
    assert Elapsed([e]) == Covered(e) + Elapsed([e][1..]);
    assert [e][1..] == [];
  }
}
