/** What the updates of the two filters do to the estimate, in the terms of what was measured: every
    measurement pulls the estimate towards itself, by the share its variance earns, and never past it. */
module Corrections {
  import opened Arithmetic
  import opened Covariance
  import opened JetsonEkf
  import opened Matrix

  /** Of `before` the share `r / s` is left. */
  predicate Shrinks(s: real, r: real, before: real, after: real) {
    s * after == r * before
  }

  /** What shrinks so does not change sign and does not grow. */
  lemma ShrinksTowards(s: real, r: real, before: real, after: real)
    requires Shrinks(s, r, before, after) && 0.0 <= r <= s && s > 0.0
    ensures before >= 0.0 ==> 0.0 <= after <= before
    ensures before <= 0.0 ==> before <= after <= 0.0
  {
    if before >= 0.0 {
      Nonneg(r, before);
      Nonneg(s - r, before);
      SignOf(s, after);
      SignOf(s, before - after);
    } else {
      Nonneg(r, -before);
      Nonneg(s - r, -before);
      SignOf(s, -after);
      SignOf(s, after - before);
    }
  }

  lemma SignOf(s: real, x: real)
    requires s > 0.0 && s * x >= 0.0
    ensures x >= 0.0
  {
    if x < 0.0 { Scaled(s, -x); }
  }

  // ---------------------------------------------------------------- the Jetson: one measured state

  lemma SelectedDot(v: Vec, i: nat)
    requires i < 5
    ensures Dot(Unit(i), v) == Get(v, i)
  {
    DotSym(Unit(i), v);
    UnitDot(v, i);
    hide Dot, Unit, Get;
  }

  /** A state measured as `z` with variance `r`. */
  lemma FieldCorrects(f: Filter, i: nat, z: real, r: real)
    requires i < 5 && At(f.p, i, i) + r >= TINY
    ensures var g := Scalar(f, Unit(i), z - Get(f.x, i), r, false);
            Shrinks(At(f.p, i, i) + r, r, z - Get(f.x, i), z - Get(g.x, i))
  {
    hide Scalar, Dot, Unit, Get, At, Form;
    var g := Scalar(f, Unit(i), z - Get(f.x, i), r, false);
    UnitApply(f.p, i);
    ResidualShrinks(f, Unit(i), z - Get(f.x, i), r);
    SelectedDot(f.x, i);
    SelectedDot(g.x, i);
  }

  /** The heading measured as `z`: the difference is taken the short way round, the estimate is turned by
      `turn` and brought back into one turn, and of the difference the share `r / S` is left. */
  lemma HeadingCorrects(f: Filter, z: real, r: real) returns (turn: real)
    requires At(f.p, 4, 4) + r >= TINY
    ensures var y := WrapPi(z - f.x.e);
            && Shrinks(At(f.p, 4, 4) + r, r, y, y - turn)
            && Scalar(f, Unit(4), z - f.x.e, r, true).x.e == WrapPi(f.x.e + turn)
  {
    hide Dot, Unit, Get, At, Form, WrapPi, Updated, Apply, Gain;
    var y := WrapPi(z - f.x.e);
    var g := Scalar(f, Unit(4), y, r, false);
    UnitApply(f.p, 4);
    ResidualShrinks(f, Unit(4), y, r);
    SelectedDot(f.x, 4);
    SelectedDot(g.x, 4);
    LastOf(f.x);
    LastOf(g.x);
    turn := g.x.e - f.x.e;
  }

  lemma LastOf(v: Vec)
    ensures Get(v, 4) == v.e
  {
  }

  lemma NoneTiny(f: Filter, i: nat, r: real)
    requires Sound(f.p) && i < 5 && r >= 0.0
    ensures At(f.p, i, i) + r >= TINY
  {
    hide Symmetric, PSD, Floored, At;
    DiagonalFloored(f.p, i);
  }

  // ---------------------------------------------------------------- the Jetson: a pose report

  /** `g` is `f` after some measurement of state `i`. */
  ghost predicate Measured(f: Filter, g: Filter, i: nat)
    requires i < 5
  {
    exists y, r :: g == Scalar(f, Unit(i), y, r, false)
  }

  /** The five fields of a pose report, each against the state it measures, one after the other. North and
      east are metres from the anchor, and the yaw is that of a compass heading: north is a quarter turn,
      east is none. */
  lemma NrfCorrects(lib: Maths, f: Filter, z: Pose)
    returns (f1: Filter, f2: Filter, f3: Filter, f4: Filter, turn: real)
    requires Sound(f.p) && f.anchored
    ensures Measured(f, f1, 0) && Measured(f1, f2, 1) && Measured(f2, f3, 2) && Measured(f3, f4, 3)
    ensures f2 == PoseFix(f, North(f, z.lat), East(f, z.lon), z.posStd)
    ensures Nrf(lib, f, z) == Scalar(f4, Unit(4), MathYaw(z.heading) - f4.x.e, HeadingVariance(z), true)
    ensures Sound(f1.p) && Sound(f2.p) && Sound(f3.p) && Sound(f4.p)
    ensures var r := if z.posStd * z.posStd >= 0.25 then z.posStd * z.posStd else 0.25;
            var north, east := (z.lat - f.lat0) * 111320.0, (z.lon - f.lon0) * f.mpdLon;
            && Shrinks(f.p.r0.a + r, r, north - f.x.a, north - f1.x.a)
            && Shrinks(f1.p.r1.b + r, r, east - f1.x.b, east - f2.x.b)
    ensures Shrinks(f2.p.r2.c + 0.25, 0.25, z.velN - f2.x.c, z.velN - f3.x.c)
    ensures Shrinks(f3.p.r3.d + 0.25, 0.25, z.velE - f3.x.d, z.velE - f4.x.d)
    ensures var yaw := WrapPi((90.0 - z.heading) * (PI / 180.0) - f4.x.e);
            var r := (if z.hdgStd * z.hdgStd >= 1.0 then z.hdgStd * z.hdgStd else 1.0) * (PI / 180.0) * (PI / 180.0);
            && Shrinks(f4.p.r4.e + r, r, yaw, yaw - turn)
            && Nrf(lib, f, z).x.e == WrapPi(f4.x.e + turn)
  {
    hide Scalar, Sound, Unit, North, East, FixVariance, HeadingVariance, MathYaw, WrapPi, Shrinks, At, Get;
    var r := FixVariance(z.posStd);
    f1 := Scalar(f, Unit(0), North(f, z.lat) - f.x.a, r, false);
    f2 := Scalar(f1, Unit(1), East(f, z.lon) - f1.x.b, r, false);
    f3 := Scalar(f2, Unit(2), z.velN - f2.x.c, 0.25, false);
    f4 := Scalar(f3, Unit(3), z.velE - f3.x.d, 0.25, false);
    Entries(f);
    Entries(f1);
    Entries(f2);
    Entries(f3);
    Entries(f4);
    StateCorrects(f, 0, North(f, z.lat), r);
    StateCorrects(f1, 1, East(f, z.lon), r);
    StateCorrects(f2, 2, z.velN, 0.25);
    StateCorrects(f3, 3, z.velE, 0.25);
    NoneTiny(f4, 4, HeadingVariance(z));
    turn := HeadingCorrects(f4, MathYaw(z.heading), HeadingVariance(z));
    PoseTerms(f, z);
  }

  lemma StateCorrects(f: Filter, i: nat, z: real, r: real)
    requires Sound(f.p) && i < 5 && r >= 0.0
    ensures var g := Scalar(f, Unit(i), z - Get(f.x, i), r, false);
            Sound(g.p) && Shrinks(At(f.p, i, i) + r, r, z - Get(f.x, i), z - Get(g.x, i))
  {
    hide Scalar, Sound, Unit, Shrinks, At, Get, Updated;
    NoneTiny(f, i, r);
    FieldCorrects(f, i, z, r);
    UpdatedSound(f.p, Unit(i), r);
    CovarianceOf(f, Unit(i), z - Get(f.x, i), r);
  }

  lemma CovarianceOf(f: Filter, h: Vec, y: real, r: real)
    ensures Scalar(f, h, y, r, false).p == Updated(f.p, h, r)
  {
    hide Form, Apply, Condition, Corrected, Gain;
  }

  lemma Entries(f: Filter)
    ensures At(f.p, 0, 0) == f.p.r0.a && At(f.p, 1, 1) == f.p.r1.b && At(f.p, 2, 2) == f.p.r2.c
    ensures At(f.p, 3, 3) == f.p.r3.d && At(f.p, 4, 4) == f.p.r4.e
    ensures Get(f.x, 0) == f.x.a && Get(f.x, 1) == f.x.b && Get(f.x, 2) == f.x.c && Get(f.x, 3) == f.x.d
  {
  }

  lemma PoseTerms(f: Filter, z: Pose)
    ensures North(f, z.lat) == (z.lat - f.lat0) * 111320.0 && East(f, z.lon) == (z.lon - f.lon0) * f.mpdLon
    ensures FixVariance(z.posStd) == if z.posStd * z.posStd >= 0.25 then z.posStd * z.posStd else 0.25
    ensures MathYaw(z.heading) == (90.0 - z.heading) * (PI / 180.0)
    ensures HeadingVariance(z)
            == (if z.hdgStd * z.hdgStd >= 1.0 then z.hdgStd * z.hdgStd else 1.0) * (PI / 180.0) * (PI / 180.0)
  {
  }

  /** A heading of north is a yaw of a quarter turn, one of east is none. */
  lemma Compass()
    ensures MathYaw(0.0) == PI / 2.0 && MathYaw(90.0) == 0.0
  {
  }

  // ---------------------------------------------------------------- the Jetson: a range

  /** A range to a peer: with `h` the unit vector from the peer to the estimate and `S` the variance along it,
      what the estimate has not taken up of the difference is the share `std^2 / S`. A range longer than
      expected pushes the estimate away from the peer, a shorter one pulls it closer. */
  lemma RangeCorrects(lib: Maths, f: Filter, peerN: real, peerE: real, range: real, std: real)
    requires InGate(lib, f, peerN, peerE, range)
    ensures var d := lib.hypot(f.x.a - peerN, f.x.b - peerE);
            && d != 0.0
            && var hN, hE := (f.x.a - peerN) / d, (f.x.b - peerE) / d;
               var s := Form(f.p, Vec(hN, hE, 0.0, 0.0, 0.0), Vec(hN, hE, 0.0, 0.0, 0.0)) + std * std;
               var g := Range(lib, f, peerN, peerE, range, std);
               s >= TINY ==>
                 Shrinks(s, std * std, range - d, (range - d) - (hN * (g.x.a - f.x.a) + hE * (g.x.b - f.x.b)))
  {
    hide Scalar, Form, Prod;
    var dN, dE := f.x.a - peerN, f.x.b - peerE;
    var d := lib.hypot(dN, dE);
    var hN, hE := Quot(dN, d), Quot(dE, d);
    var h := Vec(hN, hE, 0.0, 0.0, 0.0);
    var r, y := std * std, range - d;
    if Form(f.p, h, h) + r >= TINY {
      var g := Scalar(f, h, y, r, false);
      ResidualShrinks(f, h, y, r);
      AlongDot(hN, hE, f.x);
      AlongDot(hN, hE, g.x);
      AlongDifference(hN, hE, f.x, g.x);
      ProdIs(Form(f.p, h, h) + r, y - (Dot(h, g.x) - Dot(h, f.x)));
      ProdIs(r, y);
    }
  }

  lemma ProdIs(x: real, y: real)
    ensures Prod(x, y) == x * y
  {
  }

  lemma AlongDot(hN: real, hE: real, x: Vec)
    ensures Dot(Vec(hN, hE, 0.0, 0.0, 0.0), x) == hN * x.a + hE * x.b
  {
  }

  lemma AlongDifference(hN: real, hE: real, x: Vec, y: Vec)
    ensures (hN * y.a + hE * y.b) - (hN * x.a + hE * x.b) == hN * (y.a - x.a) + hE * (y.b - x.b)
  {
  }

  /** The variance along a direction, entry by entry. */
  lemma VarianceAlong(m: Mat, hN: real, hE: real)
    ensures Form(m, Vec(hN, hE, 0.0, 0.0, 0.0), Vec(hN, hE, 0.0, 0.0, 0.0))
            == hN * (m.r0.a * hN + m.r0.b * hE) + hE * (m.r1.a * hN + m.r1.b * hE)
  {
  }

  // ---------------------------------------------------------------- the Jetson: a camera motion

  /** A camera motion over `dt`: each displacement is a measurement of the velocity it takes, and a turn of
      the estimate's own heading by it. */
  lemma VioCorrects(f: Filter, z: Motion) returns (f1: Filter, f2: Filter, turn: real)
    requires Sound(f.p) && f.anchored && z.dt > 0.0 && z.cov >= 0.0
    ensures Measured(f, f1, 2) && Measured(f1, f2, 3)
    ensures Sound(f1.p) && Sound(f2.p) && z.dt * z.dt > 0.0
    ensures var r := z.cov / (z.dt * z.dt);
            && Shrinks(f.p.r2.c + r, r, z.north / z.dt - f.x.c, z.north / z.dt - f1.x.c)
            && Shrinks(f1.p.r3.d + r, r, z.east / z.dt - f1.x.d, z.east / z.dt - f2.x.d)
    ensures -0.0001 <= z.yaw <= 0.0001 ==> Vio(f, z) == f2
    ensures !(-0.0001 <= z.yaw <= 0.0001) ==>
              var y := WrapPi(WrapPi(f2.x.e + z.yaw) - f2.x.e);
              && Shrinks(f2.p.r4.e + z.cov, z.cov, y, y - turn)
              && Vio(f, z) == Scalar(f2, Unit(4), WrapPi(f2.x.e + z.yaw) - f2.x.e, z.cov, true)
              && Vio(f, z).x.e == WrapPi(f2.x.e + turn)
  {
    hide Scalar, Sound, Unit, RateVariance, WrapPi, Shrinks, At, Get;
    var r := RateVariance(z.cov, z.dt);
    f1 := Scalar(f, Unit(2), z.north / z.dt - f.x.c, r, false);
    f2 := Scalar(f1, Unit(3), z.east / z.dt - f1.x.d, r, false);
    Entries(f);
    Entries(f1);
    Entries(f2);
    StateCorrects(f, 2, z.north / z.dt, r);
    StateCorrects(f1, 3, z.east / z.dt, r);
    NoneTiny(f2, 4, z.cov);
    turn := HeadingCorrects(f2, WrapPi(f2.x.e + z.yaw), z.cov);
    RateIs(z);
  }

  lemma RateIs(z: Motion)
    requires z.dt > 0.0
    ensures z.dt * z.dt > 0.0 && RateVariance(z.cov, z.dt) == z.cov / (z.dt * z.dt)
  {
    var a := Area(z.dt, z.dt);
  }

  // ---------------------------------------------------------------- the Jetson: prediction

  /** Between two readings the estimate covers the ground its mean velocity covers, and keeps velocity and
      heading. */
  lemma PredictMoves(f: Filter, dt: real)
    requires 0.0 < dt <= 5.0 && f.anchored
    ensures var g := Predict(f, dt);
            && g.x.a - f.x.a == (f.x.c + g.x.c) / 2.0 * dt && g.x.b - f.x.b == (f.x.d + g.x.d) / 2.0 * dt
            && g.x.c == f.x.c && g.x.d == f.x.d && g.x.e == f.x.e
  {
    hide Predicted, Transition;
  }
}
