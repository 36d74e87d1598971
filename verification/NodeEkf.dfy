/** The firmware's filter (swarm_node/src/ekf.c): propagation driven by the IMU, closed-form
    updates for one or two selected states and for a range, and what its anchor reset does. */
module NodeEkf {
  import opened Arithmetic
  import opened Covariance
  import opened FlatMatrix
  import opened Matrix
  import opened TwoRow
  import JetsonEkf

  const PI := 3.14159265
  const TWO_PI := 6.28318531
  const Q_ACCEL := 1.0
  const Q_GYRO := 0.05
  const DEG2RAD := 0.017453292
  const CONVERGE_STD := 10.0
  const VELOCITY_VARIANCE := 0.25
  const COURSE_VARIANCE := 100.0
  const REST_VARIANCE := 0.01
  const COURSE_MIN := 0.7

  datatype Trig = Trig(cos: real -> real, sin: real -> real, atan2: (real, real) -> real, hypot: (real, real) -> real)

  /** The state vector and the covariance. */
  datatype Node = Node(x: Vec, p: Mat)

  /** Both position variances overwritten, the cross terms kept. */
  function Overwritten(m: Mat, v: real): Mat {
    m.(r0 := m.r0.(a := v), r1 := m.r1.(b := v))
  }

  /** Metres from one degree to another. */
  function Offset(to: real, from: real, perDegree: real): real {
    (to - from) * perDegree
  }

  /** State and covariance after anchoring. */
  function Anchored(f: Node): Node {
    Node(f.x.(a := 0.0, b := 0.0), JetsonEkf.Reset(f.p))
  }

  // ---------------------------------------------------------------- angles

  function Down(a: real): (r: real)
    ensures r <= PI && r <= a
    ensures exists k: int :: a == Turned(r, k)
    decreases a
  {
    if a > PI then
      var r := Down(a - TWO_PI);
      var k :| a - TWO_PI == Turned(r, k);
      assert a == Turned(r, k + 1);
      r
    else
      assert a == Turned(a, 0);
      a
  }

  function Up(a: real): (r: real)
    ensures r >= -PI && (r == a || r < TWO_PI - PI)
    ensures exists k: int :: a == Turned(r, k)
    decreases -a
  {
    if a < -PI then
      var r := Up(a + TWO_PI);
      var k :| a + TWO_PI == Turned(r, k);
      assert a == Turned(r, k - 1);
      r
    else
      assert a == Turned(a, 0);
      a
  }

  /** The angle `k` full turns from `r`. */
  function Turned(r: real, k: int): real {
    r + TWO_PI * k as real
  }

  function Wrap(a: real): real {
    Up(Down(a))
  }

  /** `wrap_pi`: the two loops end within half a turn of zero, whole turns away from the start. */
  method WrapPi(a: real) returns (r: real)
    ensures r == Wrap(a)
    ensures -PI <= r <= TWO_PI - PI
  {
    r := a;
    while r > PI
      invariant Down(r) == Down(a)
      decreases r
    {
      r := r - TWO_PI;
    }
    while r < -PI
      invariant Up(r) == Wrap(a)
      invariant r <= TWO_PI - PI
      decreases -r
    {
      r := r + TWO_PI;
    }
  }

  // ---------------------------------------------------------------- the steps as functions

  function Initial(): Node {
    Node(Vec(0.0, 0.0, 0.0, 0.0, 0.0), Diag(Vec(1000000.0, 1000000.0, 25.0, 25.0, PI * PI)))
  }

  /** The Jacobian: position depends on velocity, and everything horizontal on heading. */
  function Transition(dt: real, aN: real, aE: real): Mat {
    Mat(Vec(1.0, 0.0, dt, 0.0, 0.5 * dt * dt * aE), Vec(0.0, 1.0, 0.0, dt, -0.5 * dt * dt * aN),
        Vec(0.0, 0.0, 1.0, 0.0, dt * aE), Vec(0.0, 0.0, 0.0, 1.0, -dt * aN), Vec(0.0, 0.0, 0.0, 0.0, 1.0))
  }

  function Moved(x: Vec, aN: real, aE: real, psi: real, dt: real): Vec {
    Vec(x.a + (x.c * dt + 0.5 * aN * dt * dt), x.b + (x.d * dt + 0.5 * aE * dt * dt), x.c + aN * dt, x.d + aE * dt, psi)
  }

  function Turn(psi: real, gyroZ: real, dt: real): real {
    Wrap(psi + gyroZ * dt)
  }

  /** Body acceleration turned into the local frame. */
  function AccelEast(ax: real, ay: real, c: real, sn: real): real {
    ax * c - ay * sn
  }

  function AccelNorth(ax: real, ay: real, c: real, sn: real): real {
    ax * sn + ay * c
  }

  function Predict(trig: Trig, f: Node, ax: real, ay: real, gyroZ: real, dt: real): Node {
    if dt <= 0.0 || dt > 0.5 then f
    else
      var psi := Turn(f.x.e, gyroZ, dt);
      var c, sn := trig.cos(psi), trig.sin(psi);
      var aE, aN := AccelEast(ax, ay, c, sn), AccelNorth(ax, ay, c, sn);
      Node(Moved(f.x, aN, aE, psi, dt), Predicted(f.p, Transition(dt, aN, aE), Q_ACCEL, Q_GYRO, dt))
  }

  /** `update1`: the gain is a column of P, the row taken off is the matching row. */
  function Update1(f: Node, i: nat, z: real, r: real, angle: bool): Node
    requires i < 5
  {
    var s := At(f.p, i, i) + r;
    if s < TINY then f
    else
      var y := z - Get(f.x, i);
      var k := Gain(Col(f.p, i), s);
      var x := Comb(1.0, f.x, if angle then Wrap(y) else y, k);
      Node(if angle then x.(e := Wrap(x.e)) else x, Condition(Downdate(f.p, k, Row(f.p, i))))
  }

  /** `update2`. */
  function Update2(f: Node, i: nat, j: nat, z0: real, z1: real, r0: real, r1: real): Node
    requires i < 5 && j < 5
  {
    var d := Det(InnovationOf(f.p, i, j, r0, r1));
    if Abs(d) < TINY then f
    else Node(JointState(f.p, f.x, i, j, r0, r1, z0 - Get(f.x, i), z1 - Get(f.x, j)), Updated2(f.p, i, j, r0, r1))
  }

  /** One position fix: the joint update of the first two states, as the caller of `update2` asks for it. */
  function GpsFix(f: Node, pN: real, pE: real, std: real): Node {
    Update2(f, 0, 1, pN, pE, Prod(std, std), Prod(std, std))
  }

  function RangeRow(p: Mat, hN: real, hE: real): Vec {
    Comb(hN, p.r0, hE, p.r1)
  }

  function RangeVariance(p: Mat, hN: real, hE: real, r: real): real {
    Lin(hN, RangeRow(p, hN, hE).a, hE, RangeRow(p, hN, hE).b) + r
  }

  /** `update_pn_pe_scalar`: `H = [hN, hE, 0, 0, 0]`, one vector serving as gain and as row. */
  function UpdateRange(f: Node, hN: real, hE: real, y: real, r: real): Node {
    var hp, s := RangeRow(f.p, hN, hE), RangeVariance(f.p, hN, hE, r);
    if s < TINY then f
    else Node(Comb(1.0, f.x, y, Gain(hp, s)), Condition(Downdate(f.p, Gain(hp, s), hp)))
  }

  /** `ekf_update_gps_vel`: the velocity from speed and course, and the heading with it unless too slow. */
  function GpsVelocity(trig: Trig, f: Node, speed: real, course: real): Node {
    var north, east := Prod(speed, trig.cos(course)), Prod(speed, trig.sin(course));
    var g := Update2(f, 2, 3, north, east, VELOCITY_VARIANCE, VELOCITY_VARIANCE);
    if speed > COURSE_MIN then Update1(g, 4, trig.atan2(north, east), COURSE_VARIANCE * DEG2RAD * DEG2RAD, true) else g
  }

  /** `ekf_update_heading`: a compass heading runs from north clockwise, the yaw from east counterclockwise. */
  function CompassFix(f: Node, compass: real, std: real): Node {
    Update1(f, 4, Wrap(PI * 0.5 - compass), Prod(std, std), true)
  }

  /** `ekf_update_peer_range`, for a peer in metres from the anchor. */
  function PeerRange(trig: Trig, f: Node, peerN: real, peerE: real, range: real, std: real): Node {
    var dN, dE := f.x.a - peerN, f.x.b - peerE;
    var d := trig.hypot(dN, dE);
    if d < 0.5 then f else UpdateRange(f, Quot(dN, d), Quot(dE, d), range - d, Prod(std, std))
  }

  /** `ekf_update_zupt`: the vehicle is at rest. */
  function AtRest(f: Node): Node {
    Update2(f, 2, 3, 0.0, 0.0, REST_VARIANCE, REST_VARIANCE)
  }

  // ---------------------------------------------------------------- the struct and its functions

  class EkfState {
    const x: array<real>
    const p: array<real>
    var lat0: real
    var lon0: real
    var mpdLon: real
    var anchored: bool
    var provisional: bool
    var converged: bool

    ghost predicate Valid() {
      x.Length == 5 && p.Length == 25
    }

    ghost function State(): Node
      requires Valid()
      reads x, p
    {
      Node(VecOf(x[..]), MatOf(p[..]))
    }

    constructor ()
      ensures Valid() && fresh(x) && fresh(p) && State() == Initial()
      ensures !anchored && !provisional && !converged && lat0 == lon0 == mpdLon == 0.0
    {
      lat0, lon0, mpdLon := 0.0, 0.0, 0.0;
      anchored, provisional, converged := false, false, false;
      var start := DiagonalArray(Vec(1000000.0, 1000000.0, 25.0, 25.0, PI * PI));
      p := start;
      x := new real[5](_ => 0.0);
      hide MatOf, Diag;
    }

    /** Back to the anchor, with `v` for both position variances. */
    method PlaceAtAnchor(v: real)
      requires Valid()
      modifies x, p
      ensures State() == Node(old(State()).x.(a := 0.0, b := 0.0), Overwritten(old(State()).p, v))
    {
      x[0] := 0.0;
      x[1] := 0.0;
      p[Ix(0, 0)] := v;
      p[Ix(1, 1)] := v;
    }

    /** `ekf_set_anchor`. */
    method SetAnchor(trig: Trig, lat: real, lon: real)
      requires Valid()
      modifies this, x, p
      ensures State() == Anchored(old(State()))
      ensures lat0 == lat && lon0 == lon && mpdLon == JetsonEkf.MPD_LAT * trig.cos(lat * DEG2RAD)
      ensures anchored && !provisional && converged == old(converged)
    {
      hide MatOf;
      lat0 := lat;
      lon0 := lon;
      mpdLon := JetsonEkf.MPD_LAT * trig.cos(lat * DEG2RAD);
      PlaceAtAnchor(25.0);
      anchored := true;
      provisional := false;
    }

    /** `ekf_set_anchor_provisional`: a placeholder, trusted to a kilometre. */
    method SetAnchorProvisional(trig: Trig, lat: real, lon: real)
      requires Valid()
      modifies this, x, p
      ensures State() == Node(old(State()).x.(a := 0.0, b := 0.0), Overwritten(old(State()).p, 1000000.0))
      ensures lat0 == lat && lon0 == lon && mpdLon == JetsonEkf.MPD_LAT * trig.cos(lat * DEG2RAD)
      ensures anchored && provisional && converged == old(converged)
    {
      hide MatOf;
      SetAnchor(trig, lat, lon);
      provisional := true;
      PlaceAtAnchor(1000000.0);
    }

    /** `ekf_update_gps_pos`: the first real fix anchors, every later one is a joint update. */
    method UpdateGpsPos(trig: Trig, lat: real, lon: real, std: real)
      requires Valid()
      modifies this, x, p
      ensures anchored && !provisional
      ensures !old(anchored) || old(provisional) ==> State() == Anchored(old(State())) && lat0 == lat && lon0 == lon
      ensures old(anchored) && !old(provisional) ==>
                && lat0 == old(lat0) && lon0 == old(lon0) && mpdLon == old(mpdLon)
                && State() == GpsFix(old(State()), Offset(lat, lat0, JetsonEkf.MPD_LAT), Offset(lon, lon0, mpdLon), std)
                && converged == ((State().p.r0.a + State().p.r1.b) / 2.0 < CONVERGE_STD * CONVERGE_STD)
      // Of what the fix says beyond the estimate, in metres, the share `std^2 S^-1` is left.
      ensures old(anchored) && !old(provisional) ==>
                var m, r := old(State()).p, Prod(std, std);
                var north, east := Prod(lat - lat0, 111320.0), Prod(lon - lon0, mpdLon);
                FixShrinks(m, r, north - old(State()).x.a, east - old(State()).x.b,
                           north - State().x.a, east - State().x.b)
    {
      hide MatOf, Update2, Anchored, Offset, Prod, FixShrinks;
      if !anchored || provisional {
        SetAnchor(trig, lat, lon);
        return;
      }
      var r := Prod(std, std);
      FixLeaves(State(), Offset(lat, lat0, JetsonEkf.MPD_LAT), Offset(lon, lon0, mpdLon), r);
      OffsetIs(lat, lat0, JetsonEkf.MPD_LAT);
      OffsetIs(lon, lon0, mpdLon);
      Correct2(0, 1, Offset(lat, lat0, JetsonEkf.MPD_LAT), Offset(lon, lon0, mpdLon), r, r);
      MatOfEntry(p[..], 0, 0);
      MatOfEntry(p[..], 1, 1);
      converged := (p[Ix(0, 0)] + p[Ix(1, 1)]) / 2.0 < CONVERGE_STD * CONVERGE_STD;
    }

    method Advance(trig: Trig, ax: real, ay: real, gyroZ: real, dt: real)
      requires Valid()
      modifies x, p
      ensures State() == Predict(trig, old(State()), ax, ay, gyroZ, dt)
    {
      if dt <= 0.0 || dt > 0.5 { return; }
      hide MatOf, Moved, Transition, Predicted, Wrap, AccelEast, AccelNorth;
      var psi := WrapPi(x[4] + gyroZ * dt);
      var c, sn := trig.cos(psi), trig.sin(psi);
      var aE, aN := AccelEast(ax, ay, c, sn), AccelNorth(ax, ay, c, sn);
      Move(aN, aE, psi, dt);
      var f := Jacobian(dt, aN, aE);
      PropagateCovariance(f, dt);
    }

    method Move(aN: real, aE: real, psi: real, dt: real)
      requires Valid()
      modifies x
      ensures VecOf(x[..]) == Moved(VecOf(old(x[..])), aN, aE, psi, dt)
    {
      x[0] := x[0] + (x[2] * dt + 0.5 * aN * dt * dt);
      x[1] := x[1] + (x[3] * dt + 0.5 * aE * dt * dt);
      x[2] := x[2] + aN * dt;
      x[3] := x[3] + aE * dt;
      x[4] := psi;
    }

    static method Jacobian(dt: real, aN: real, aE: real) returns (f: array<real>)
      ensures fresh(f) && f.Length == 25 && MatOf(f[..]) == Transition(dt, aN, aE)
    {
      f := DiagonalArray(Vec(1.0, 1.0, 1.0, 1.0, 1.0));
      ghost var m := MatOf(f[..]);
      f[Ix(0, 2)] := dt;
      f[Ix(1, 3)] := dt;
      assert MatOf(f[..]) == m.(r0 := m.r0.(c := dt), r1 := m.r1.(d := dt));
      f[Ix(0, 4)] := 0.5 * dt * dt * aE;
      f[Ix(1, 4)] := -0.5 * dt * dt * aN;
      f[Ix(2, 4)] := dt * aE;
      f[Ix(3, 4)] := -dt * aN;
    }

    method PropagateCovariance(f: array<real>, dt: real)
      requires Valid() && f.Length == 25 && f != p
      modifies p
      ensures MatOf(p[..]) == Predicted(MatOf(old(p[..])), MatOf(f[..]), Q_ACCEL, Q_GYRO, dt)
    {
      hide MatOf, Condition, Add, Mul, MulAbt, ProcessNoise;
      var fp := new real[25];
      MulInto(fp, f, p);
      MulAbtInto(p, fp, f);
      AddNoise(p, Q_ACCEL, Q_GYRO, dt);
      ConditionInPlace(p);
    }

    method Correct1(i: nat, z: real, r: real, angle: bool)
      requires Valid() && i < 5
      modifies x, p
      ensures State() == Update1(old(State()), i, z, r, angle)
    {
      hide MatOf, Col, Row, Gain, Comb, Downdate, Condition, Wrap;
      ghost var f := State();
      MatOfEntry(p[..], i, i);
      var y := z - x[i];
      if angle { y := WrapPi(y); }
      var s := p[Ix(i, i)] + r;
      if s < TINY { return; }
      var k, hp := Gain(Col(MatOf(p[..]), i), s), Row(MatOf(p[..]), i);
      AddInPlace(x, k, y);
      DowndateInPlace(p, k, hp);
      if angle {
        var psi := WrapPi(x[4]);
        x[4] := psi;
      }
      ConditionInPlace(p);
    }

    method Correct2(i: nat, j: nat, z0: real, z1: real, r0: real, r1: real)
      requires Valid() && i < 5 && j < 5
      modifies x, p
      ensures State() == Update2(old(State()), i, j, z0, z1, r0, r1)
    {
      hide MatOf, At, Col, Row, Comb, Downdate, Condition, Det, Gain0, Gain1;
      ghost var f := State();
      MatOfEntry(p[..], i, i); MatOfEntry(p[..], i, j); MatOfEntry(p[..], j, i); MatOfEntry(p[..], j, j);
      var y0, y1 := z0 - x[i], z1 - x[j];
      var s := Innovation(p[Ix(i, i)] + r0, p[Ix(i, j)], p[Ix(j, i)], p[Ix(j, j)] + r1);
      if Abs(Det(s)) < TINY { return; }
      var m := MatOf(p[..]);
      var a, b := Col(m, i), Col(m, j);
      var k0, k1 := Gain0(s, a, b), Gain1(s, a, b);
      AddTwoInPlace(x, k0, y0, k1, y1);
      DowndateTwoInPlace(p, k0, Row(m, i), k1, Row(m, j));
      ConditionInPlace(p);
    }

    method CorrectRange(hN: real, hE: real, y: real, r: real)
      requires Valid()
      modifies x, p
      ensures State() == UpdateRange(old(State()), hN, hE, y, r)
    {
      hide MatOf, Gain, Comb, Downdate, Condition;
      var hp := RangeRow(MatOf(p[..]), hN, hE);
      var s := Lin(hN, hp.a, hE, hp.b) + r;
      if s < TINY { return; }
      var k := Gain(hp, s);
      AddInPlace(x, k, y);
      DowndateInPlace(p, k, hp);
      ConditionInPlace(p);
    }

    method UpdateGpsVel(trig: Trig, speed: real, course: real)
      requires Valid()
      modifies x, p
      ensures State() == GpsVelocity(trig, old(State()), speed, course)
    {
      hide MatOf, Update1, Update2, Prod;
      var north, east := Prod(speed, trig.cos(course)), Prod(speed, trig.sin(course));
      Correct2(2, 3, north, east, VELOCITY_VARIANCE, VELOCITY_VARIANCE);
      if speed > COURSE_MIN {
        Correct1(4, trig.atan2(north, east), COURSE_VARIANCE * DEG2RAD * DEG2RAD, true);
      }
    }

    method UpdateHeading(compass: real, std: real)
      requires Valid()
      modifies x, p
      ensures State() == CompassFix(old(State()), compass, std)
    {
      hide MatOf, Update1, Prod, Wrap;
      var psi := WrapPi(PI * 0.5 - compass);
      Correct1(4, psi, Prod(std, std), true);
    }

    method UpdatePeerRange(trig: Trig, lat: real, lon: real, range: real, std: real)
      requires Valid()
      modifies x, p
      ensures !anchored ==> State() == old(State())
      ensures anchored ==>
                var peerN, peerE := Prod(lat - lat0, 111320.0), Prod(lon - lon0, mpdLon);
                State() == PeerRange(trig, old(State()), peerN, peerE, range, std)
    {
      if !anchored { return; }
      hide MatOf, UpdateRange, Offset, Prod, Quot;
      OffsetIs(lat, lat0, JetsonEkf.MPD_LAT);
      OffsetIs(lon, lon0, mpdLon);
      var dN, dE := x[0] - Offset(lat, lat0, JetsonEkf.MPD_LAT), x[1] - Offset(lon, lon0, mpdLon);
      var d := trig.hypot(dN, dE);
      if d < 0.5 { return; }
      CorrectRange(Quot(dN, d), Quot(dE, d), range - d, Prod(std, std));
    }

    method UpdateZupt()
      requires Valid()
      modifies x, p
      ensures State() == AtRest(old(State()))
    {
      hide MatOf, Update2;
      Correct2(2, 3, 0.0, 0.0, REST_VARIANCE, REST_VARIANCE);
    }
  }

  /** `x[k] += K[k][0] * y0 + K[k][1] * y1`. */
  method AddTwoInPlace(x: array<real>, k0: Vec, y0: real, k1: Vec, y1: real)
    requires x.Length == 5
    modifies x
    ensures VecOf(x[..]) == Comb(1.0, Comb(1.0, VecOf(old(x[..])), y0, k0), y1, k1)
  {
    hide Get, VecOf, Comb;
    ghost var v := VecOf(x[..]);
    ghost var w := Comb(1.0, Comb(1.0, v, y0, k0), y1, k1);
    VecOfGet(x[..]);
    for i := 0 to 5
      invariant forall r: nat | r < 5 :: x[r] == if r < i then Get(w, r) else Get(v, r)
    {
      CombEntry(v, y0, k0, i);
      CombEntry(Comb(1.0, v, y0, k0), y1, k1, i);
      x[i] := x[i] + (Get(k0, i) * y0 + Get(k1, i) * y1);
    }
    VecOfEquals(x[..], w);
  }

  /** `P[r][c] -= K[r][0] * hpi[c] + K[r][1] * hpj[c]`. */
  method DowndateTwoInPlace(p: array<real>, k0: Vec, h0: Vec, k1: Vec, h1: Vec)
    requires p.Length == 25
    modifies p
    ensures MatOf(p[..]) == Downdate(Downdate(MatOf(old(p[..])), k0, h0), k1, h1)
  {
    hide At, Get, MatOf, Downdate;
    ghost var m := MatOf(p[..]);
    ghost var n := Downdate(Downdate(m, k0, h0), k1, h1);
    MatOfAt(p[..]);
    for i := 0 to 5
      invariant forall r: nat, c: nat | r < 5 && c < 5 :: p[Ix(r, c)] == if r < i then At(n, r, c) else At(m, r, c)
    {
      for j := 0 to 5
        invariant forall r: nat, c: nat | r < 5 && c < 5 ::
            p[Ix(r, c)] == if r < i || (r == i && c < j) then At(n, r, c) else At(m, r, c)
      {
        DowndateAt(m, k0, h0, i, j);
        DowndateAt(Downdate(m, k0, h0), k1, h1, i, j);
        p[Ix(i, j)] := p[Ix(i, j)] - (Get(k0, i) * Get(h0, j) + Get(k1, i) * Get(h1, j));
      }
    }
    MatOfEquals(p[..], n);
  }

  // ---------------------------------------------------------------- the two filters compared

  /** On a sound covariance the column form of `update1` is the scalar update of the Jetson. */
  lemma SingleIsScalar(f: Node, i: nat, z: real, r: real, angle: bool)
    requires Symmetric(f.p) && i < 5
    ensures Update1(f, i, z, r, angle).p == Updated(f.p, Unit(i), r)
  {
    UnitApply(f.p, i);
    SymmetricAccess(f.p, i, i);
    hide Form, Apply, Corrected, Row, Col, At, Symmetric, Condition, Comb, Gain, Downdate, Wrap;
    assert At(f.p, i, i) + r >= TINY ==>
        Corrected(f.p, Row(f.p, i), At(f.p, i, i) + r)
        == Downdate(f.p, Gain(Col(f.p, i), At(f.p, i, i) + r), Row(f.p, i)) by {
      CorrectedIs(f.p, Row(f.p, i), At(f.p, i, i) + r);
    }
  }

  lemma CorrectedIs(m: Mat, h: Vec, s: real)
    ensures s != 0.0 ==> Corrected(m, h, s) == Downdate(m, Gain(h, s), h)
  {
  }

  /** The one-vector form of the range update is the general scalar update. */
  lemma RangeIsScalar(f: Node, hN: real, hE: real, y: real, r: real)
    requires Symmetric(f.p)
    ensures var h := Vec(hN, hE, 0.0, 0.0, 0.0);
            Apply(f.p, h) == RangeRow(f.p, hN, hE) && Form(f.p, h, h) + r == RangeVariance(f.p, hN, hE, r)
    ensures UpdateRange(f, hN, hE, y, r).p == Updated(f.p, Vec(hN, hE, 0.0, 0.0, 0.0), r)
  {
    var h := Vec(hN, hE, 0.0, 0.0, 0.0);
    assert Apply(f.p, h) == RangeRow(f.p, hN, hE);
    assert Form(f.p, h, h) + r == RangeVariance(f.p, hN, hE, r);
    hide Form, Apply, RangeRow, RangeVariance, Condition, Comb, Gain, Downdate, Corrected;
    CorrectedIs(f.p, RangeRow(f.p, hN, hE), RangeVariance(f.p, hN, hE, r));
  }

  // ---------------------------------------------------------------- what is left of an innovation

  /** Away from the singularity guard: of the differences `n` and `e` the share `r S^-1` is left. */
  predicate FixShrinks(m: Mat, r: real, n: real, e: real, nLeft: real, eLeft: real) {
    (m.r0.a + r) * (m.r1.b + r) - m.r0.b * m.r1.a >= TINY ==>
      && (m.r0.a + r) * nLeft + m.r0.b * eLeft == r * n
      && m.r1.a * nLeft + (m.r1.b + r) * eLeft == r * e
  }

  lemma OffsetIs(to: real, from: real, perDegree: real)
    ensures Offset(to, from, perDegree) == Prod(to - from, perDegree)
  {
  }

  lemma FixLeaves(f: Node, pN: real, pE: real, r: real)
    ensures var g := Update2(f, 0, 1, pN, pE, r, r);
            FixShrinks(f.p, r, pN - f.x.a, pE - f.x.b, pN - g.x.a, pE - g.x.b)
  {
    hide JointState, Updated2, JointlyShrinks;
    var s := InnovationOf(f.p, 0, 1, r, r);
    if Det(s) >= TINY {
      JointResidual(f.p, f.x, 0, 1, r, pN - f.x.a, pE - f.x.b);
      FixInnovation(f.p, r, pN - f.x.a, pE - f.x.b,
                    pN - Update2(f, 0, 1, pN, pE, r, r).x.a, pE - Update2(f, 0, 1, pN, pE, r, r).x.b);
    }
  }

  lemma FixInnovation(m: Mat, r: real, n: real, e: real, nLeft: real, eLeft: real)
    requires JointlyShrinks(InnovationOf(m, 0, 1, r, r), r, n, e, nLeft, eLeft)
    ensures FixShrinks(m, r, n, e, nLeft, eLeft)
  {
  }

  /** A single update leaves the share `r / S`. */
  lemma SingleLeaves(f: Node, i: nat, z: real, r: real)
    requires i < 5 && At(f.p, i, i) + r >= TINY
    ensures var g := Update1(f, i, z, r, false);
            (At(f.p, i, i) + r) * (z - Get(g.x, i)) == r * (z - Get(f.x, i))
  {
    hide Comb, Gain, Get, Col, Downdate, Condition, At;
    var s, y := At(f.p, i, i) + r, z - Get(f.x, i);
    var k := Gain(Col(f.p, i), s);
    CombGet(1.0, f.x, y, k, i);
    GainGet(Col(f.p, i), s, i);
    ColGet(f.p, i, i);
    OneLeft(Get(f.x, i), y, At(f.p, i, i), r, Get(k, i), z);
  }

  lemma OneLeft(x: real, y: real, v: real, r: real, g: real, z: real)
    requires v + r != 0.0 && g == Quot(v, v + r) && y == z - x
    ensures (v + r) * (z - Lin(1.0, x, y, g)) == r * y
  {
    assert g * (v + r) == v;
    assert (v + r) * (y * g) == y * (g * (v + r));
  }

  /** A range update leaves along its direction the share `r / S`. */
  lemma RangeLeaves(f: Node, hN: real, hE: real, y: real, r: real)
    requires Symmetric(f.p)
    ensures var s := hN * (f.p.r0.a * hN + f.p.r0.b * hE) + hE * (f.p.r1.a * hN + f.p.r1.b * hE) + r;
            var g := UpdateRange(f, hN, hE, y, r);
            s >= TINY ==> s * (y - (hN * (g.x.a - f.x.a) + hE * (g.x.b - f.x.b))) == r * y
  {
    hide Condition, Downdate;
    var p := RangeRow(f.p, hN, hE);
    var s := RangeVariance(f.p, hN, hE, r);
    RangeTerms(f.p, hN, hE, r);
    if s >= TINY {
      AlongLeft(hN, hE, p.a, p.b, y, r, s);
    }
  }

  lemma RangeTerms(m: Mat, hN: real, hE: real, r: real)
    requires Symmetric(m)
    ensures RangeVariance(m, hN, hE, r)
            == hN * (m.r0.a * hN + m.r0.b * hE) + hE * (m.r1.a * hN + m.r1.b * hE) + r
    ensures RangeVariance(m, hN, hE, r) == hN * RangeRow(m, hN, hE).a + hE * RangeRow(m, hN, hE).b + r
  {
  }

  lemma AlongLeft(hN: real, hE: real, a: real, b: real, y: real, r: real, s: real)
    requires s != 0.0 && s == hN * a + hE * b + r
    ensures s * (y - (hN * (y * Quot(a, s)) + hE * (y * Quot(b, s)))) == r * y
  {
    var p, q := Quot(a, s), Quot(b, s);
    assert p * s == a && q * s == b;
    assert s * (hN * (y * p)) == y * (hN * (p * s));
    assert s * (hE * (y * q)) == y * (hE * (q * s));
    assert y * (hN * a + hE * b) == y * (hN * a) + y * (hE * b);
  }

  // ---------------------------------------------------------------- every run without an anchor reset

  datatype Event =
    | Imu(ax: real, ay: real, gyroZ: real, dt: real)
    | One(i: nat, z: real, r: real, angle: bool)
    | Two(i0: nat, i1: nat, z0: real, z1: real, r0: real, r1: real)
    | Range(hN: real, hE: real, y: real, r: real)

  /** Every caller in ekf.c passes a square or a positive constant as the variance. */
  predicate Admissible(e: Event) {
    match e
    case Imu(_, _, _, _) => true
    case One(i, _, r, _) => i < 5 && r >= 0.0
    case Two(i0, i1, _, _, r0, r1) => i0 < 5 && i1 < 5 && r0 >= 0.0 && r1 >= 0.0
    case Range(_, _, _, r) => r >= 0.0
  }

  function Step(trig: Trig, f: Node, e: Event): Node
    requires Admissible(e)
  {
    match e
    case Imu(ax, ay, gyroZ, dt) => Predict(trig, f, ax, ay, gyroZ, dt)
    case One(i, z, r, angle) => Update1(f, i, z, r, angle)
    case Two(i0, i1, z0, z1, r0, r1) => Update2(f, i0, i1, z0, z1, r0, r1)
    case Range(hN, hE, y, r) => UpdateRange(f, hN, hE, y, r)
  }

  function Run(trig: Trig, f: Node, es: seq<Event>): Node
    requires forall e | e in es :: Admissible(e)
    decreases |es|
  {
    if es == [] then f else Run(trig, Step(trig, f, es[0]), es[1..])
  }

  lemma StepSound(trig: Trig, f: Node, e: Event)
    requires Sound(f.p) && Admissible(e)
    ensures Sound(Step(trig, f, e).p)
  {
    hide Predicted, Transition, Update1, UpdateRange, Updated2, Updated, JointState, Symmetric, PSD, Floored, Det,
         Turn, Moved, AccelEast, AccelNorth;
    match e
    case Imu(ax, ay, gyroZ, dt) =>
      if 0.0 < dt <= 0.5 {
        var psi := Turn(f.x.e, gyroZ, dt);
        var c, sn := trig.cos(psi), trig.sin(psi);
        PredictedSound(f.p, Transition(dt, AccelNorth(ax, ay, c, sn), AccelEast(ax, ay, c, sn)), Q_ACCEL, Q_GYRO, dt);
      }
    case One(i, z, r, angle) =>
      SingleIsScalar(f, i, z, r, angle);
      UpdatedSound(f.p, Unit(i), r);
    case Two(i0, i1, z0, z1, r0, r1) =>
      Updated2Sound(f.p, i0, i1, r0, r1);
    case Range(hN, hE, y, r) =>
      RangeIsScalar(f, hN, hE, y, r);
      UpdatedSound(f.p, Vec(hN, hE, 0.0, 0.0, 0.0), r);
  }

  /** Between anchor resets every run keeps a sound covariance sound. */
  lemma {:induction false} EveryRunIsSound(trig: Trig, f: Node, es: seq<Event>)
    requires Sound(f.p) && forall e | e in es :: Admissible(e)
    ensures Sound(Run(trig, f, es).p)
    decreases |es|
  {
    hide Step, Sound;
    if es != [] {
      StepSound(trig, f, es[0]);
      EveryRunIsSound(trig, Step(trig, f, es[0]), es[1..]);
    }
  }

  // ---------------------------------------------------------------- the callers' measurements

  lemma SquareNonneg(x: real)
    ensures Prod(x, x) >= 0.0
  {
  }

  lemma CallersSound(trig: Trig, f: Node, u: real, v: real, w: real, std: real)
    requires Sound(f.p)
    ensures Sound(GpsVelocity(trig, f, u, v).p) && Sound(CompassFix(f, u, std).p)
    ensures Sound(PeerRange(trig, f, u, v, w, std).p) && Sound(AtRest(f).p)
  {
    hide Sound, Update1, Update2, UpdateRange, Prod, Quot, Wrap;
    SquareNonneg(std);
    var north, east := Prod(u, trig.cos(v)), Prod(u, trig.sin(v));
    var both := Two(2, 3, north, east, VELOCITY_VARIANCE, VELOCITY_VARIANCE);
    StepSound(trig, f, both);
    StepSound(trig, Step(trig, f, both), One(4, trig.atan2(north, east), COURSE_VARIANCE * DEG2RAD * DEG2RAD, true));
    StepSound(trig, f, One(4, Wrap(PI * 0.5 - u), Prod(std, std), true));
    StepSound(trig, f, Two(2, 3, 0.0, 0.0, REST_VARIANCE, REST_VARIANCE));
    var dN, dE := f.x.a - u, f.x.b - v;
    var d := trig.hypot(dN, dE);
    if d >= 0.5 {
      StepSound(trig, f, Range(Quot(dN, d), Quot(dE, d), w - d, Prod(std, std)));
    }
  }
}
