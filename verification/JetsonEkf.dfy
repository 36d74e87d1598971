/** The Jetson's fusion filter (jetson_agent/ekf.py): a five-state filter whose covariance stays
    symmetric, positive semidefinite and floored over every run. */
module JetsonEkf {
  import opened Arithmetic
  import opened Covariance
  import opened FlatMatrix
  import opened Matrix

  const MPD_LAT := 111320.0
  const PI := 3.141592653589793
  const DEG2RAD := PI / 180.0
  const PEER_GATE_M := 50.0
  const Q_VEL := 0.5
  const Q_YAW := 0.05

  /** The library functions whose values do not matter to the covariance. */
  datatype Maths = Maths(cos: real -> real, hypot: (real, real) -> real)

  /** The filter as a value. States are pN, pE, vN, vE, psi. */
  datatype Filter = Filter(x: Vec, p: Mat, lat0: real, lon0: real, mpdLon: real, anchored: bool)

  /** `_wrap_pi`: the representative of an angle in [-pi, pi). */
  function WrapPi(a: real): (r: real)
    ensures -PI <= r < PI
    ensures exists k: int :: a == Turned(r, k)
  {
    var turns := ((a + PI) / (2.0 * PI)).Floor;
    var r := (a + PI) - 2.0 * PI * turns as real - PI;
    assert a == Turned(r, turns);
    r
  }

  /** The angle `k` full turns from `r`. */
  function Turned(r: real, k: int): real {
    r + 2.0 * PI * k as real
  }

  function Initial(): Filter {
    Filter(Vec(0.0, 0.0, 0.0, 0.0, 0.0), Diag(Vec(1000000.0, 1000000.0, 25.0, 25.0, PI * PI)), 0.0, 0.0, MPD_LAT, false)
  }

  /** The anchor reset: position zeroed, its two variances overwritten. */
  function Reset(m: Mat): Mat {
    m.(r0 := m.r0.(a := 25.0), r1 := m.r1.(b := 25.0))
  }

  function Anchor(lib: Maths, f: Filter, lat: real, lon: real): Filter {
    Filter(f.x.(a := 0.0, b := 0.0), Reset(f.p), lat, lon, MPD_LAT * lib.cos(lat * DEG2RAD), true)
  }

  function Transition(dt: real): Mat {
    Mat(Vec(1.0, 0.0, dt, 0.0, 0.0), Vec(0.0, 1.0, 0.0, dt, 0.0), Vec(0.0, 0.0, 1.0, 0.0, 0.0),
        Vec(0.0, 0.0, 0.0, 1.0, 0.0), Vec(0.0, 0.0, 0.0, 0.0, 1.0))
  }

  function Moved(x: Vec, dt: real): Vec {
    Vec(x.a + x.c * dt, x.b + x.d * dt, x.c, x.d, x.e)
  }

  function Predict(f: Filter, dt: real): Filter {
    if dt <= 0.0 || dt > 5.0 || !f.anchored then f
    else f.(x := Moved(f.x, dt), p := Predicted(f.p, Transition(dt), Q_VEL, Q_YAW, dt))
  }

  /** The scalar update with row `h`, innovation `y` and measurement variance `r`. */
  function Scalar(f: Filter, h: Vec, y: real, r: real, angle: bool): Filter {
    var s := Form(f.p, h, h) + r;
    if s < TINY then f
    else
      var x := Comb(1.0, f.x, if angle then WrapPi(y) else y, Gain(Apply(f.p, h), s));
      f.(x := if angle then x.(e := WrapPi(x.e)) else x, p := Updated(f.p, h, r))
  }

  function Max(x: real, y: real): real {
    if x >= y then x else y
  }

  /** One pose report of the nRF. */
  datatype Pose = Pose(lat: real, lon: real, heading: real, velN: real, velE: real, posStd: real, hdgStd: real)

  /** The variance a position is fused with. */
  function FixVariance(std: real): (r: real)
    ensures r >= 0.25
  {
    Max(0.25, Prod(std, std))
  }

  function HeadingVariance(z: Pose): (r: real)
    ensures r > 0.0
  {
    Max(1.0, z.hdgStd * z.hdgStd) * DEG2RAD * DEG2RAD
  }

  /** Compass heading (clockwise from north) as mathematical yaw (counter-clockwise from east). */
  function MathYaw(heading: real): real {
    (90.0 - heading) * DEG2RAD
  }

  /** `to_enu`. */
  function North(f: Filter, lat: real): real {
    (lat - f.lat0) * MPD_LAT
  }

  function East(f: Filter, lon: real): real {
    (lon - f.lon0) * f.mpdLon
  }

  /** Two scalar updates: the first two states, measured as `pN` and `pE`. */
  function TwoScalars(f: Filter, pN: real, pE: real, r0: real, r1: real): Filter {
    var g := Scalar(f, Unit(0), pN - f.x.a, r0, false);
    Scalar(g, Unit(1), pE - g.x.b, r1, false)
  }

  /** The position part of a pose report. */
  function PoseFix(f: Filter, pN: real, pE: real, std: real): Filter {
    TwoScalars(f, pN, pE, FixVariance(std), FixVariance(std))
  }

  function Nrf(lib: Maths, f: Filter, z: Pose): Filter {
    if !f.anchored then
      var g := Anchor(lib, f, z.lat, z.lon);
      g.(x := g.x.(c := z.velN, d := z.velE))
    else
      var f2 := PoseFix(f, North(f, z.lat), East(f, z.lon), z.posStd);
      var f3 := Scalar(f2, Unit(2), z.velN - f2.x.c, 0.25, false);
      var f4 := Scalar(f3, Unit(3), z.velE - f3.x.d, 0.25, false);
      Scalar(f4, Unit(4), MathYaw(z.heading) - f4.x.e, HeadingVariance(z), true)
  }

  /** One camera motion delta. */
  datatype Motion = Motion(north: real, east: real, yaw: real, dt: real, cov: real)

  function Area(x: real, y: real): (r: real)
    requires x > 0.0 && y > 0.0
    ensures r > 0.0
  {
    x * y
  }

  /** `cov / (dt * dt)`: the variance of a rate measured over `dt`. */
  function RateVariance(cov: real, dt: real): (r: real)
    requires dt > 0.0
    ensures cov >= 0.0 ==> r >= 0.0
  {
    Quot(cov, Area(dt, dt))
  }

  function Vio(f: Filter, z: Motion): Filter {
    if z.dt <= 0.0 || !f.anchored then f
    else
      var r := RateVariance(z.cov, z.dt);
      var f1 := Scalar(f, Unit(2), z.north / z.dt - f.x.c, r, false);
      var f2 := Scalar(f1, Unit(3), z.east / z.dt - f1.x.d, r, false);
      if z.yaw > 0.0001 || z.yaw < -0.0001
      then Scalar(f2, Unit(4), WrapPi(f2.x.e + z.yaw) - f2.x.e, z.cov, true)
      else f2
  }

  /** Whether a range measurement passes the gates. */
  predicate InGate(lib: Maths, f: Filter, peerN: real, peerE: real, range: real) {
    f.anchored && 0.0 < range <= PEER_GATE_M && lib.hypot(f.x.a - peerN, f.x.b - peerE) >= 0.5
  }

  function Range(lib: Maths, f: Filter, peerN: real, peerE: real, range: real, std: real): Filter {
    if !InGate(lib, f, peerN, peerE, range) then f
    else
      var dN, dE := f.x.a - peerN, f.x.b - peerE;
      var d := lib.hypot(dN, dE);
      Scalar(f, Vec(Quot(dN, d), Quot(dE, d), 0.0, 0.0, 0.0), range - d, std * std, false)
  }

  // ---------------------------------------------------------------- the class

  class JetsonEKF {
    const x: array<real>
    var p: array<real>
    var lat0: real
    var lon0: real
    var mpdLon: real
    var anchored: bool

    ghost predicate Valid()
      reads this
    {
      x.Length == 5 && p.Length == 25
    }

    ghost function State(): Filter
      requires Valid()
      reads this, x, p
    {
      Filter(VecOf(x[..]), MatOf(p[..]), lat0, lon0, mpdLon, anchored)
    }

    constructor ()
      ensures Valid() && fresh(x) && fresh(p) && State() == Initial()
    {
      x := new real[5](_ => 0.0);
      var start := DiagonalArray(Vec(1000000.0, 1000000.0, 25.0, 25.0, PI * PI));
      p := start;
      lat0, lon0, mpdLon, anchored := 0.0, 0.0, MPD_LAT, false;
      hide MatOf, Diag;
    }

    method SetAnchor(lib: Maths, lat: real, lon: real)
      requires Valid()
      modifies this, x, p
      ensures Valid() && p == old(p) && State() == Anchor(lib, old(State()), lat, lon)
      ensures anchored && lat0 == lat && lon0 == lon && mpdLon == 111320.0 * lib.cos(lat * DEG2RAD)
      ensures x[0] == 0.0 == x[1] && x[2..] == old(x[2..]) && p[0] == 25.0 == p[6]
      ensures forall i :: 0 <= i < 25 && i != 0 && i != 6 ==> p[i] == old(p[i])
    {
      lat0, lon0 := lat, lon;
      mpdLon := MPD_LAT * lib.cos(lat * DEG2RAD);
      x[0] := 0.0;
      x[1] := 0.0;
      p[Ix(0, 0)] := 25.0;
      p[Ix(1, 1)] := 25.0;
      anchored := true;
    }

    method Advance(dt: real)
      requires Valid()
      modifies this, x
      ensures Valid() && (p == old(p) || fresh(p)) && State() == Predict(old(State()), dt)
    {
      if dt <= 0.0 || dt > 5.0 || !anchored { return; }
      hide VecOf, MatOf, Moved, Transition, Predicted;
      Move(dt);
      var f := Coupled(dt);
      PropagateCovariance(f, dt);
    }

    method Move(dt: real)
      requires Valid()
      modifies x
      ensures VecOf(x[..]) == Moved(VecOf(old(x[..])), dt)
    {
      x[0] := x[0] + x[2] * dt;
      x[1] := x[1] + x[3] * dt;
    }

    /** `F = I` with position depending on velocity. */
    static method Coupled(dt: real) returns (f: array<real>)
      ensures fresh(f) && f.Length == 25 && MatOf(f[..]) == Transition(dt)
    {
      f := DiagonalArray(Vec(1.0, 1.0, 1.0, 1.0, 1.0));
      f[Ix(0, 2)] := dt;
      f[Ix(1, 3)] := dt;
    }

    /** `P = F P F^T + Q`, conditioned. */
    method PropagateCovariance(f: array<real>, dt: real)
      requires Valid() && f.Length == 25
      modifies this`p
      ensures Valid() && fresh(p) && MatOf(p[..]) == Predicted(MatOf(old(p[..])), MatOf(f[..]), Q_VEL, Q_YAW, dt)
    {
      hide MatOf, Condition, Add, Mul, MulAbt, ProcessNoise;
      var fp, n := new real[25], new real[25];
      MulInto(fp, f, p);
      MulAbtInto(n, fp, f);
      p := n;
      AddNoise(p, Q_VEL, Q_YAW, dt);
      ConditionInPlace(p);
    }

    method UpdateScalar(h: Vec, y: real, r: real, angle: bool)
      requires Valid()
      modifies x, p
      ensures Valid() && State() == Scalar(old(State()), h, y, r, angle)
    {
      hide MatOf, Apply, Dot, Gain, Comb, Downdate, Condition;
      var innovation := if angle then WrapPi(y) else y;
      var ph := Apply(MatOf(p[..]), h);
      var s := Dot(h, ph) + r;
      if s < TINY { return; }
      var k := Gain(ph, s);
      AddInPlace(x, k, innovation);
      if angle { x[4] := WrapPi(x[4]); }
      DowndateInPlace(p, k, ph);
      ConditionInPlace(p);
    }

    method UpdateNrf(lib: Maths, z: Pose)
      requires Valid()
      modifies this, x, p
      ensures Valid() && p == old(p) && State() == Nrf(lib, old(State()), z)
      ensures anchored
      ensures !old(anchored) ==> lat0 == z.lat && lon0 == z.lon && x[2] == z.velN && x[3] == z.velE
      ensures old(anchored) ==> lat0 == old(lat0) && lon0 == old(lon0) && mpdLon == old(mpdLon)
    {
      hide MatOf, Scalar, Unit, Reset;
      if !anchored {
        SetAnchor(lib, z.lat, z.lon);
        x[2], x[3] := z.velN, z.velE;
        return;
      }
      ghost var f := State();
      var pN, pE := (z.lat - lat0) * MPD_LAT, (z.lon - lon0) * mpdLon;
      assert pN == North(f, z.lat) && pE == East(f, z.lon);
      var rp := FixVariance(z.posStd);
      hide North, East, FixVariance, HeadingVariance, MathYaw;
      UpdateScalar(Unit(0), pN - x[0], rp, false);
      UpdateScalar(Unit(1), pE - x[1], rp, false);
      UpdateScalar(Unit(2), z.velN - x[2], 0.25, false);
      UpdateScalar(Unit(3), z.velE - x[3], 0.25, false);
      UpdateScalar(Unit(4), MathYaw(z.heading) - x[4], HeadingVariance(z), true);
    }

    method UpdateVio(z: Motion)
      requires Valid()
      modifies x, p
      ensures Valid() && State() == Vio(old(State()), z)
    {
      hide MatOf, Scalar, Unit, WrapPi, RateVariance;
      if z.dt <= 0.0 || !anchored { return; }
      UpdateScalar(Unit(2), z.north / z.dt - x[2], RateVariance(z.cov, z.dt), false);
      UpdateScalar(Unit(3), z.east / z.dt - x[3], RateVariance(z.cov, z.dt), false);
      if z.yaw > 0.0001 || z.yaw < -0.0001 {
        UpdateScalar(Unit(4), WrapPi(x[4] + z.yaw) - x[4], z.cov, true);
      }
    }

    method UpdateRange(lib: Maths, peerN: real, peerE: real, range: real, std: real) returns (used: bool)
      requires Valid()
      modifies x, p
      ensures Valid() && used == InGate(lib, old(State()), peerN, peerE, range)
      ensures State() == Range(lib, old(State()), peerN, peerE, range, std)
      ensures used <==> old(anchored) && 0.0 < range <= 50.0 && lib.hypot(old(x[0]) - peerN, old(x[1]) - peerE) >= 0.5
      ensures !used ==> State() == old(State())
    {
      hide MatOf, Scalar, Quot;
      if !anchored || range <= 0.0 || range > PEER_GATE_M { return false; }
      var dN, dE := x[0] - peerN, x[1] - peerE;
      var d := lib.hypot(dN, dE);
      if d < 0.5 { return false; }
      UpdateScalar(Vec(Quot(dN, d), Quot(dE, d), 0.0, 0.0, 0.0), range - d, std * std, false);
      return true;
    }
  }

  // ---------------------------------------------------------------- every run

  datatype Event =
    | Tick(dt: real)
    | PoseReport(pose: Pose)
    | CameraDelta(motion: Motion)
    | PeerRange(peerN: real, peerE: real, range: real, std: real)

  /** The one thing asked of callers: a camera covariance is not negative. */
  predicate Admissible(e: Event) {
    e.CameraDelta? ==> e.motion.cov >= 0.0
  }

  function Step(lib: Maths, f: Filter, e: Event): Filter {
    match e
    case Tick(dt) => Predict(f, dt)
    case PoseReport(z) => Nrf(lib, f, z)
    case CameraDelta(z) => Vio(f, z)
    case PeerRange(n, e, range, std) => Range(lib, f, n, e, range, std)
  }

  function Run(lib: Maths, f: Filter, es: seq<Event>): Filter
    decreases |es|
  {
    if es == [] then f else Run(lib, Step(lib, f, es[0]), es[1..])
  }

  /** Until the first fix nothing has correlated the states. */
  ghost predicate Inv(f: Filter) {
    Sound(f.p) && (f.anchored || IsDiagonal(f.p))
  }

  /** No variance has risen from `f` to `g`. */
  predicate NoRise(f: Filter, g: Filter) {
    forall i: nat | i < 5 :: At(g.p, i, i) <= At(f.p, i, i)
  }

  lemma InitialSound()
    ensures Inv(Initial())
  {
    DiagPSD(Vec(1000000.0, 1000000.0, 25.0, 25.0, PI * PI));
  }

  /** Overwriting two variances of a diagonal matrix leaves a diagonal matrix. */
  lemma ResetSound(m: Mat)
    requires Sound(m) && IsDiagonal(m)
    ensures Sound(Reset(m))
  {
    var d := Diagonal(m);
    var e := d.(a := 25.0, b := 25.0);
    assert Reset(m) == Diag(e);
    DiagPSD(e);
    hide PSD;
  }

  lemma ScalarSound(f: Filter, h: Vec, y: real, r: real, angle: bool)
    requires Sound(f.p) && r >= 0.0
    ensures Sound(Scalar(f, h, y, r, angle).p) && Scalar(f, h, y, r, angle).p == Updated(f.p, h, r)
    ensures Scalar(f, h, y, r, angle).anchored == f.anchored && NoRise(f, Scalar(f, h, y, r, angle))
  {
    hide Sound, Form, Condition, Corrected, Comb, Gain, Apply, At;
    UpdatedSound(f.p, h, r);
    var g := Scalar(f, h, y, r, angle);
    assert g.p == Updated(f.p, h, r);
    forall i: nat | i < 5 ensures At(g.p, i, i) <= At(f.p, i, i) {
      UpdateNeverInflates(f.p, h, r, i);
    }
  }

  lemma NoRiseTrans(f: Filter, g: Filter, h: Filter)
    requires NoRise(f, g) && NoRise(g, h)
    ensures NoRise(f, h)
  {
    hide At;
    forall i: nat | i < 5 ensures At(h.p, i, i) <= At(f.p, i, i) {
      assert At(g.p, i, i) <= At(f.p, i, i);
    }
  }

  lemma NrfSound(lib: Maths, f: Filter, z: Pose)
    requires Inv(f)
    ensures Inv(Nrf(lib, f, z)) && Nrf(lib, f, z).anchored && (f.anchored ==> NoRise(f, Nrf(lib, f, z)))
  {
    hide Sound, IsDiagonal, NoRise, Scalar, Unit, North, East, FixVariance, HeadingVariance, MathYaw;
    if f.anchored {
      var f1 := Scalar(f, Unit(0), North(f, z.lat) - f.x.a, FixVariance(z.posStd), false);
      ScalarSound(f, Unit(0), North(f, z.lat) - f.x.a, FixVariance(z.posStd), false);
      var f2 := Scalar(f1, Unit(1), East(f, z.lon) - f1.x.b, FixVariance(z.posStd), false);
      ScalarSound(f1, Unit(1), East(f, z.lon) - f1.x.b, FixVariance(z.posStd), false);
      var f3 := Scalar(f2, Unit(2), z.velN - f2.x.c, 0.25, false);
      ScalarSound(f2, Unit(2), z.velN - f2.x.c, 0.25, false);
      var f4 := Scalar(f3, Unit(3), z.velE - f3.x.d, 0.25, false);
      ScalarSound(f3, Unit(3), z.velE - f3.x.d, 0.25, false);
      ScalarSound(f4, Unit(4), MathYaw(z.heading) - f4.x.e, HeadingVariance(z), true);
      NoRiseTrans(f, f1, f2);
      NoRiseTrans(f, f2, f3);
      NoRiseTrans(f, f3, f4);
      NoRiseTrans(f, f4, Nrf(lib, f, z));
    } else {
      ResetSound(f.p);
    }
  }

  lemma VioSound(f: Filter, z: Motion)
    requires Inv(f) && z.cov >= 0.0
    ensures Inv(Vio(f, z)) && NoRise(f, Vio(f, z))
  {
    hide At, Sound, IsDiagonal, Scalar, Unit, WrapPi, RateVariance;
    if z.dt > 0.0 && f.anchored {
      var r := RateVariance(z.cov, z.dt);
      var f1 := Scalar(f, Unit(2), z.north / z.dt - f.x.c, r, false);
      ScalarSound(f, Unit(2), z.north / z.dt - f.x.c, r, false);
      var f2 := Scalar(f1, Unit(3), z.east / z.dt - f1.x.d, r, false);
      ScalarSound(f1, Unit(3), z.east / z.dt - f1.x.d, r, false);
      ScalarSound(f2, Unit(4), WrapPi(f2.x.e + z.yaw) - f2.x.e, z.cov, true);
      NoRiseTrans(f, f1, f2);
      NoRiseTrans(f, f2, Vio(f, z));
    }
  }

  lemma RangeSound(lib: Maths, f: Filter, peerN: real, peerE: real, range: real, std: real)
    requires Inv(f)
    ensures Inv(Range(lib, f, peerN, peerE, range, std)) && NoRise(f, Range(lib, f, peerN, peerE, range, std))
  {
    hide At, Sound, IsDiagonal, Scalar, Quot;
    if InGate(lib, f, peerN, peerE, range) {
      var dN, dE := f.x.a - peerN, f.x.b - peerE;
      var d := lib.hypot(dN, dE);
      Square(std);
      ScalarSound(f, Vec(Quot(dN, d), Quot(dE, d), 0.0, 0.0, 0.0), range - d, std * std, false);
    }
  }

  lemma StepSound(lib: Maths, f: Filter, e: Event)
    requires Inv(f) && Admissible(e)
    ensures Inv(Step(lib, f, e)) && (f.anchored && !e.Tick? ==> NoRise(f, Step(lib, f, e)))
  {
    hide NoRise, Sound, IsDiagonal, Predicted, Nrf, Vio, Range;
    match e
    case Tick(dt) =>
      if dt > 0.0 { PredictedSound(f.p, Transition(dt), Q_VEL, Q_YAW, dt); }
    case PoseReport(z) => NrfSound(lib, f, z);
    case CameraDelta(z) => VioSound(f, z);
    case PeerRange(n, e, range, std) => RangeSound(lib, f, n, e, range, std);
  }

  lemma {:induction false} RunFrom(lib: Maths, f: Filter, es: seq<Event>)
    requires Inv(f) && forall e | e in es :: Admissible(e)
    ensures Inv(Run(lib, f, es))
    decreases |es|
  {
    hide Inv, Step;
    if es != [] {
      StepSound(lib, f, es[0]);
      RunFrom(lib, Step(lib, f, es[0]), es[1..]);
    }
  }

  /** Over every run from the constructor the covariance is symmetric and positive semidefinite
      and no variance falls below the floor. */
  lemma EveryRunIsSound(lib: Maths, es: seq<Event>)
    requires forall e | e in es :: Admissible(e)
    ensures Sound(Run(lib, Initial(), es).p)
  {
    InitialSound();
    RunFrom(lib, Initial(), es);
  }

  // ---------------------------------------------------------------- state and covariance belong together

  /** The state moves by the very matrix its covariance is propagated with. */
  lemma MotionIsTransition(x: Vec, dt: real)
    ensures Moved(x, dt) == Apply(Transition(dt), x)
  {
  }

  /** What a scalar update leaves of the innovation: the share of the measurement's own variance.
      It never changes sign and never grows. */
  lemma ResidualShrinks(f: Filter, h: Vec, y: real, r: real)
    requires Form(f.p, h, h) + r >= TINY
    ensures var s, g := Form(f.p, h, h) + r, Scalar(f, h, y, r, false);
            Prod(s, y - (Dot(h, g.x) - Dot(h, f.x))) == Prod(r, y)
  {
    hide Dot, Apply, Updated, Gain, Comb, Prod;
    var q := Form(f.p, h, h);
    var s := q + r;
    var k := Gain(Apply(f.p, h), s);
    DotComb(h, 1.0, f.x, y, k);
    DotGain(h, Apply(f.p, h), s);
    Leftover(s, q, r, y, Dot(h, k), y - (Dot(h, Scalar(f, h, y, r, false).x) - Dot(h, f.x)));
  }

  lemma Leftover(s: real, q: real, r: real, y: real, hk: real, left: real)
    requires s != 0.0 && s == q + r && hk == q / s && left == y - y * hk
    ensures Prod(s, left) == Prod(r, y)
  {
    assert s * hk == q;
    assert s * (y * hk) == y * (s * hk);
  }
}
