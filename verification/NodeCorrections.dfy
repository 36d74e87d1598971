/** What the firmware's filter does to the estimate: how it moves between readings, and that a
    measurement pulls it towards itself. */
module NodeCorrections {
  import opened Arithmetic
  import opened Corrections
  import opened Covariance
  import opened Matrix
  import opened NodeEkf
  import opened TwoRow

  /** A fix moves an estimate whose two coordinates are not tied to each other towards itself, in each
      coordinate, and not past it. */
  lemma FixTowards(m: Mat, r: real, n: real, e: real, nLeft: real, eLeft: real)
    requires FixShrinks(m, r, n, e, nLeft, eLeft) && m.r0.b == 0.0 && m.r1.a == 0.0
    requires m.r0.a > 0.0 && m.r1.b > 0.0 && r >= 0.0 && (m.r0.a + r) * (m.r1.b + r) >= TINY
    ensures n >= 0.0 ==> 0.0 <= nLeft <= n
    ensures n <= 0.0 ==> n <= nLeft <= 0.0
    ensures e >= 0.0 ==> 0.0 <= eLeft <= e
    ensures e <= 0.0 ==> e <= eLeft <= 0.0
  {
    ShrinksTowards(m.r0.a + r, r, n, nLeft);
    ShrinksTowards(m.r1.b + r, r, e, eLeft);
  }

  /** A heading measurement: the difference is taken the short way round, the estimate is turned by `turn`,
      and of the difference the share `r / S` is left. */
  lemma HeadingLeaves(f: Node, z: real, r: real) returns (turn: real)
    requires At(f.p, 4, 4) + r >= TINY
    ensures var y := Wrap(z - f.x.e);
            && Shrinks(At(f.p, 4, 4) + r, r, y, y - turn)
            && Update1(f, 4, z, r, true).x.e == Wrap(f.x.e + turn)
  {
    hide Comb, Gain, Get, Col, Downdate, Condition, At, Wrap;
    var s, y := At(f.p, 4, 4) + r, Wrap(z - f.x.e);
    var k := Gain(Col(f.p, 4), s);
    CombGet(1.0, f.x, y, k, 4);
    GainGet(Col(f.p, 4), s, 4);
    ColGet(f.p, 4, 4);
    LastOf(f.x);
    LastOf(Comb(1.0, f.x, y, k));
    OneLeft(0.0, y, At(f.p, 4, 4), r, Get(k, 4), y);
    turn := Lin(1.0, 0.0, y, Get(k, 4));
    LinMoves(f.x.e, y, Get(k, 4));
  }

  lemma LinMoves(x: real, y: real, g: real)
    ensures Lin(1.0, x, y, g) == x + Lin(1.0, 0.0, y, g)
  {
  }

  // ---------------------------------------------------------------- prediction

  /** Between two readings the estimate covers the ground its mean velocity covers, and its velocity changes
      by the acceleration in the local frame. */
  lemma PredictMoves(trig: Trig, f: Node, ax: real, ay: real, gyroZ: real, dt: real)
    requires 0.0 < dt <= 0.5
    ensures var g := Predict(trig, f, ax, ay, gyroZ, dt);
            && g.x.a - f.x.a == (f.x.c + g.x.c) / 2.0 * dt && g.x.b - f.x.b == (f.x.d + g.x.d) / 2.0 * dt
            && g.x.e == Turn(f.x.e, gyroZ, dt)
            && var c, s := trig.cos(g.x.e), trig.sin(g.x.e);
               g.x.c == f.x.c + AccelNorth(ax, ay, c, s) * dt && g.x.d == f.x.d + AccelEast(ax, ay, c, s) * dt
  {
    hide Predicted, Transition, AccelNorth, AccelEast, Turn;
    var psi := Turn(f.x.e, gyroZ, dt);
    var aN, aE := AccelNorth(ax, ay, trig.cos(psi), trig.sin(psi)), AccelEast(ax, ay, trig.cos(psi), trig.sin(psi));
    Covers(f.x.c, aN, dt);
    Covers(f.x.d, aE, dt);
  }

  lemma Covers(v: real, a: real, dt: real)
    ensures v * dt + 0.5 * a * dt * dt == (v + (v + a * dt)) / 2.0 * dt
  {
    assert 0.5 * a * dt * dt == (a * dt) / 2.0 * dt;
  }

  /** The turned angle is the old one and what the gyroscope says, whole turns aside, within half a turn. */
  lemma TurnIs(psi: real, gyroZ: real, dt: real) returns (turns: int)
    ensures var t := Turn(psi, gyroZ, dt);
            -PI <= t <= TWO_PI - PI && psi + gyroZ * dt == t + TWO_PI * turns as real
  {
    hide Up, Down;
    var a := psi + gyroZ * dt;
    var d := Down(a);
    var j: int :| a == Turned(d, j);
    var k: int :| d == Turned(Up(d), k);
    WholeTurns(a, d, Up(d), j, k);
    turns := j + k;
  }

  lemma WholeTurns(a: real, d: real, t: real, j: int, k: int)
    requires a == Turned(d, j) && d == Turned(t, k)
    ensures a == t + TWO_PI * (j + k) as real
  {
  }

  /** The body's forward acceleration is along its heading, counted from east towards north, and its left one
      a quarter turn further; nothing is gained or lost by the turn. */
  lemma BodyToLocal(ax: real, ay: real, c: real, s: real)
    ensures AccelEast(ax, ay, 1.0, 0.0) == ax && AccelNorth(ax, ay, 1.0, 0.0) == ay
    ensures AccelEast(ax, ay, 0.0, 1.0) == -ay && AccelNorth(ax, ay, 0.0, 1.0) == ax
    ensures var e, n := AccelEast(ax, ay, c, s), AccelNorth(ax, ay, c, s);
            e * e + n * n == (ax * ax + ay * ay) * (c * c + s * s)
  {
    SumOfSquares(ax, ay, c, s);
  }

  lemma SumOfSquares(a: real, b: real, c: real, s: real)
    ensures (a * c - b * s) * (a * c - b * s) + (a * s + b * c) * (a * s + b * c) == (a * a + b * b) * (c * c + s * s)
  {
    var x, y, u, v := a * c, b * s, a * s, b * c;
    assert (x - y) * (x - y) == x * x - 2.0 * (x * y) + y * y;
    assert (u + v) * (u + v) == u * u + 2.0 * (u * v) + v * v;
    assert x * y == u * v;
    assert x * x == (a * a) * (c * c) && y * y == (b * b) * (s * s);
    assert u * u == (a * a) * (s * s) && v * v == (b * b) * (c * c);
  }

  /** The heading `(c, s)` tilted by an angle of cosine `p` and sine `q`. */
  predicate Tilt(c: real, s: real, p: real, q: real, tc: real, ts: real) {
    tc == c * p - s * q && ts == s * p + c * q
  }

  lemma Tilted(ax: real, ay: real, c: real, s: real, p: real, q: real, tc: real, ts: real)
    requires Tilt(c, s, p, q, tc, ts)
    ensures var n, e := AccelNorth(ax, ay, c, s), AccelEast(ax, ay, c, s);
            AccelNorth(ax, ay, tc, ts) == n * p + e * q && AccelEast(ax, ay, tc, ts) == e * p - n * q
  {
    Distributes(ax, ay, c, s, p, q);
    Distributes(ay, ax, c, s, p, q);
  }

  lemma Distributes(a: real, b: real, c: real, s: real, p: real, q: real)
    ensures a * (s * p + c * q) + b * (c * p - s * q) == (a * s + b * c) * p + (a * c - b * s) * q
    ensures b * (c * p - s * q) - a * (s * p + c * q) == (b * c - a * s) * p - (b * s + a * c) * q
  {
    assert a * (s * p + c * q) == (a * s) * p + (a * c) * q;
    assert b * (c * p - s * q) == (b * c) * p - (b * s) * q;
  }

  /** The matrix the covariance is propagated with is the derivative of the motion: a state off by `d` and a
      heading off by an angle of cosine `1 + p` and sine `d.e` ends off by the matrix times `d`, and by what
      the cosine is short of one, which is of second order. */
  lemma MotionTilts(x: Vec, d: Vec, ax: real, ay: real, c: real, s: real, p: real, tc: real, ts: real, psi: real,
                    dt: real)
    requires Tilt(c, s, 1.0 + p, d.e, tc, ts)
    ensures var n, e := AccelNorth(ax, ay, c, s), AccelEast(ax, ay, c, s);
            var y := Vec(x.a + d.a, x.b + d.b, x.c + d.c, x.d + d.d, x.e);
            var was := Moved(x, n, e, psi, dt);
            var now := Moved(y, AccelNorth(ax, ay, tc, ts), AccelEast(ax, ay, tc, ts), psi + d.e, dt);
            var off, half := Apply(Transition(dt, n, e), d), 0.5 * dt * dt;
            && now.a - was.a == off.a + Prod(half, Prod(n, p)) && now.b - was.b == off.b + Prod(half, Prod(e, p))
            && now.c - was.c == off.c + Prod(dt, Prod(n, p)) && now.d - was.d == off.d + Prod(dt, Prod(e, p))
            && now.e - was.e == off.e
  {
    hide *;
    var n, e, half := AccelNorth(ax, ay, c, s), AccelEast(ax, ay, c, s), 0.5 * dt * dt;
    var n', e' := AccelNorth(ax, ay, tc, ts), AccelEast(ax, ay, tc, ts);
    var y := Vec(x.a + d.a, x.b + d.b, x.c + d.c, x.d + d.d, x.e);
    Tilted(ax, ay, c, s, 1.0 + p, d.e, tc, ts);
    TiltTerm(half, n, e, p, d.e, n', e');
    TiltTerm(dt, n, e, p, d.e, n', e');
    TiltApply(dt, half, n, e, d);
    MovedTerms(x, n, e, psi, dt, half);
    MovedTerms(y, n', e', psi + d.e, dt, half);
    Spread(x.c, d.c, dt);
    Spread(x.d, d.d, dt);
  }

  lemma MovedTerms(x: Vec, n: real, e: real, psi: real, dt: real, half: real)
    requires half == 0.5 * dt * dt
    ensures Moved(x, n, e, psi, dt)
            == Vec(x.a + Prod(x.c, dt) + Prod(half, n), x.b + Prod(x.d, dt) + Prod(half, e), x.c + Prod(dt, n),
                   x.d + Prod(dt, e), psi)
  {
    HalfSquare(n, dt, half);
    HalfSquare(e, dt, half);
  }

  lemma HalfSquare(a: real, dt: real, half: real)
    requires half == 0.5 * dt * dt
    ensures 0.5 * a * dt * dt == Prod(half, a) && a * dt == Prod(dt, a)
  {
  }

  lemma TiltTerm(k: real, n: real, e: real, p: real, q: real, n': real, e': real)
    requires n' == n * (1.0 + p) + e * q && e' == e * (1.0 + p) - n * q
    ensures Prod(k, n') == Prod(k, n) + Prod(k, Prod(n, p)) + Prod(k, Prod(e, q))
    ensures Prod(k, e') == Prod(k, e) + Prod(k, Prod(e, p)) - Prod(k, Prod(n, q))
  {
  }

  lemma TiltApply(dt: real, half: real, n: real, e: real, d: Vec)
    requires half == 0.5 * dt * dt
    ensures Apply(Transition(dt, n, e), d)
            == Vec(d.a + Prod(dt, d.c) + Prod(half, Prod(e, d.e)), d.b + Prod(dt, d.d) - Prod(half, Prod(n, d.e)),
                   d.c + Prod(dt, Prod(e, d.e)), d.d - Prod(dt, Prod(n, d.e)), d.e)
  {
    hide Dot, Prod;
    TiltEntries(dt, half, n, d.e);
    TiltEntries(dt, half, e, d.e);
    RowDots(d, dt, 0.5 * dt * dt * e, dt * e);
    RowDots(d, dt, -0.5 * dt * dt * n, -dt * n);
  }

  lemma RowDots(d: Vec, dt: real, x: real, y: real)
    ensures Dot(Vec(1.0, 0.0, dt, 0.0, x), d) == d.a + Prod(dt, d.c) + Prod(x, d.e)
    ensures Dot(Vec(0.0, 1.0, 0.0, dt, x), d) == d.b + Prod(dt, d.d) + Prod(x, d.e)
    ensures Dot(Vec(0.0, 0.0, 1.0, 0.0, y), d) == d.c + Prod(y, d.e)
    ensures Dot(Vec(0.0, 0.0, 0.0, 1.0, y), d) == d.d + Prod(y, d.e)
    ensures Dot(Vec(0.0, 0.0, 0.0, 0.0, 1.0), d) == d.e
  {
  }

  lemma TiltEntries(dt: real, half: real, a: real, q: real)
    requires half == 0.5 * dt * dt
    ensures Prod(0.5 * dt * dt * a, q) == Prod(half, Prod(a, q))
    ensures Prod(-0.5 * dt * dt * a, q) == -Prod(half, Prod(a, q))
    ensures Prod(dt * a, q) == Prod(dt, Prod(a, q)) && Prod(-dt * a, q) == -Prod(dt, Prod(a, q))
  {
  }

  lemma Spread(x: real, d: real, dt: real)
    ensures Prod(x + d, dt) == Prod(x, dt) + Prod(dt, d)
  {
  }

  // ---------------------------------------------------------------- velocity, rest and ranges

  /** Of the difference between a measured velocity and the estimate the share `r S^-1` is left, and nothing is
      ever skipped. */
  predicate VelocityShrinks(m: Mat, r: real, n: real, e: real, nLeft: real, eLeft: real) {
    && (m.r2.c + r) * nLeft + m.r2.d * eLeft == r * n
    && m.r3.c * nLeft + (m.r3.d + r) * eLeft == r * e
  }

  lemma PairLeaves(f: Node, vN: real, vE: real, r: real)
    requires Sound(f.p) && r >= 0.01
    ensures var g := Update2(f, 2, 3, vN, vE, r, r);
            VelocityShrinks(f.p, r, vN - f.x.c, vE - f.x.d, vN - g.x.c, vE - g.x.d)
  {
    hide JointState, Updated2, JointlyShrinks, Sound, Det;
    DetBound(f.p, 2, 3, r, r);
    NotTiny(r);
    var g := Update2(f, 2, 3, vN, vE, r, r);
    JointResidual(f.p, f.x, 2, 3, r, vN - f.x.c, vE - f.x.d);
    VelocityTerms(f.p, r, vN - f.x.c, vE - f.x.d, vN - g.x.c, vE - g.x.d);
  }

  lemma NotTiny(r: real)
    requires r >= 0.01
    ensures Prod(r, r) >= 0.0001
  {
    var d := r - 0.01;
    assert r * r == d * d + 0.02 * d + 0.0001;
    Nonneg(d, d);
  }

  lemma VelocityTerms(m: Mat, r: real, n: real, e: real, nLeft: real, eLeft: real)
    requires JointlyShrinks(InnovationOf(m, 2, 3, r, r), r, n, e, nLeft, eLeft)
    ensures VelocityShrinks(m, r, n, e, nLeft, eLeft)
  {
  }

  /** A speed over a course is a velocity north by its cosine and east by its sine, and what is left of it is
      as little as its variance of a quarter allows. */
  lemma SpeedTaken(trig: Trig, f: Node, speed: real, course: real)
    requires Sound(f.p) && speed <= 0.7
    ensures var g, vN, vE := GpsVelocity(trig, f, speed, course), speed * trig.cos(course), speed * trig.sin(course);
            VelocityShrinks(f.p, 0.25, vN - f.x.c, vE - f.x.d, vN - g.x.c, vE - g.x.d)
  {
    hide Update2, VelocityShrinks;
    PairLeaves(f, speed * trig.cos(course), speed * trig.sin(course), 0.25);
  }

  /** Above walking speed the heading is corrected too, towards where the velocity points. */
  lemma CourseTaken(trig: Trig, f: Node, speed: real, course: real) returns (g: Node, turn: real)
    requires Sound(f.p) && speed > 0.7
    ensures var vN, vE := speed * trig.cos(course), speed * trig.sin(course);
            && VelocityShrinks(f.p, 0.25, vN - f.x.c, vE - f.x.d, vN - g.x.c, vE - g.x.d)
            && var y, r := Wrap(trig.atan2(vN, vE) - g.x.e), 100.0 * 0.017453292 * 0.017453292;
               && Shrinks(At(g.p, 4, 4) + r, r, y, y - turn)
               && GpsVelocity(trig, f, speed, course).x.e == Wrap(g.x.e + turn)
  {
    hide Update1, Update2, VelocityShrinks, Wrap, Shrinks, Sound, At;
    var vN, vE := speed * trig.cos(course), speed * trig.sin(course);
    g := Update2(f, 2, 3, vN, vE, 0.25, 0.25);
    PairLeaves(f, vN, vE, 0.25);
    StepSound(trig, f, Two(2, 3, vN, vE, 0.25, 0.25));
    HeadingFloored(g);
    turn := HeadingLeaves(g, trig.atan2(vN, vE), 100.0 * 0.017453292 * 0.017453292);
  }

  lemma HeadingFloored(f: Node)
    requires Sound(f.p)
    ensures At(f.p, 4, 4) >= FLOOR
  {
    hide Symmetric, PSD;
    DiagonalFloored(f.p, 4);
  }

  /** At rest both velocities go towards zero. */
  lemma RestTaken(f: Node)
    requires Sound(f.p)
    ensures var g := AtRest(f); VelocityShrinks(f.p, 0.01, -f.x.c, -f.x.d, -g.x.c, -g.x.d)
  {
    hide Update2, VelocityShrinks, Sound;
    PairLeaves(f, 0.0, 0.0, 0.01);
  }

  /** A compass that reads north means a yaw of a quarter turn, one that reads east none. */
  lemma CompassTaken(f: Node, compass: real, std: real) returns (turn: real, turns: int)
    requires Sound(f.p)
    ensures var z := Wrap(3.14159265 / 2.0 - compass);
            && z + TWO_PI * turns as real == 3.14159265 / 2.0 - compass
            && var y, r := Wrap(z - f.x.e), std * std;
               && Shrinks(At(f.p, 4, 4) + r, r, y, y - turn)
               && CompassFix(f, compass, std).x.e == Wrap(f.x.e + turn)
  {
    hide Update1, Up, Down, Shrinks, Sound, At;
    var a := PI * 0.5 - compass;
    var d := Down(a);
    var j: int :| a == Turned(d, j);
    var k: int :| d == Turned(Up(d), k);
    WholeTurns(a, d, Up(d), j, k);
    turns := j + k;
    HeadingFloored(f);
    SquareNonneg(std);
    turn := HeadingLeaves(f, Wrap(a), Prod(std, std));
  }

  /** A range means the same to both filters: from one estimate and covariance, with the peer at the same
      place, the firmware and the Jetson end with the same estimate and covariance, wherever the Jetson
      takes the range at all. */
  lemma RangeMeansTheSame(trig: Trig, lib: JetsonEkf.Maths, f: Node, g: JetsonEkf.Filter, peerN: real, peerE: real,
                          range: real, std: real)
    requires g.x == f.x && g.p == f.p && Symmetric(f.p) && trig.hypot == lib.hypot
    requires JetsonEkf.InGate(lib, g, peerN, peerE, range)
    ensures var jetson, node := JetsonEkf.Range(lib, g, peerN, peerE, range, std),
                                PeerRange(trig, f, peerN, peerE, range, std);
            node.x == jetson.x && node.p == jetson.p
  {
    hide Form, Apply, Gain, Comb, Symmetric, RangeRow, RangeVariance, Condition, Downdate, Corrected, Updated, Quot;
    var dN, dE := f.x.a - peerN, f.x.b - peerE;
    var d := trig.hypot(dN, dE);
    RangeIsScalar(f, Quot(dN, d), Quot(dE, d), range - d, Prod(std, std));
  }
}
