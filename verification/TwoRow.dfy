/** The joint update with two selected states (`update2` in ekf.c) is the two single updates
    one after the other. */
module TwoRow {
  import opened Arithmetic
  import opened Covariance
  import opened Matrix

  /** The innovation covariance of two selected states. */
  datatype Innovation = Innovation(s00: real, s01: real, s10: real, s11: real)

  function InnovationOf(m: Mat, i: nat, j: nat, r0: real, r1: real): Innovation
    requires i < 5 && j < 5
  {
    Innovation(At(m, i, i) + r0, At(m, i, j), At(m, j, i), At(m, j, j) + r1)
  }

  function Det(s: Innovation): real {
    s.s00 * s.s11 - s.s01 * s.s10
  }

  /** The two gain columns: columns i and j of P times the inverse of S. */
  function Gain0(s: Innovation, a: Vec, b: Vec): Vec
    requires Det(s) != 0.0
  {
    var invd := 1.0 / Det(s);
    Comb(Prod(s.s11, invd), a, Prod(-s.s10, invd), b)
  }

  function Gain1(s: Innovation, a: Vec, b: Vec): Vec
    requires Det(s) != 0.0
  {
    var invd := 1.0 / Det(s);
    Comb(Prod(-s.s01, invd), a, Prod(s.s00, invd), b)
  }

  /** `P - K (H P)` for the joint measurement. */
  function Jointly(m: Mat, i: nat, j: nat, r0: real, r1: real): Mat
    requires i < 5 && j < 5 && Det(InnovationOf(m, i, j, r0, r1)) != 0.0
  {
    var s := InnovationOf(m, i, j, r0, r1);
    var a, b := Col(m, i), Col(m, j);
    Downdate(Downdate(m, Gain0(s, a, b), Row(m, i)), Gain1(s, a, b), Row(m, j))
  }

  /** The state after the joint measurement with innovations `y0` and `y1`. */
  function JointState(m: Mat, x: Vec, i: nat, j: nat, r0: real, r1: real, y0: real, y1: real): Vec
    requires i < 5 && j < 5 && Det(InnovationOf(m, i, j, r0, r1)) != 0.0
  {
    var s := InnovationOf(m, i, j, r0, r1);
    var a, b := Col(m, i), Col(m, j);
    Comb(1.0, Comb(1.0, x, y0, Gain0(s, a, b)), y1, Gain1(s, a, b))
  }

  /** `update2` as a whole: a nearly singular innovation skips it. */
  function Updated2(m: Mat, i: nat, j: nat, r0: real, r1: real): Mat
    requires i < 5 && j < 5
  {
    var d := Det(InnovationOf(m, i, j, r0, r1));
    if Abs(d) < TINY then m else Condition(Jointly(m, i, j, r0, r1))
  }

  // ---------------------------------------------------------------- the scalar identities

  /** Schur complement: eliminating the first state leaves this variance for the second. */
  lemma Schur(s: Innovation)
    requires s.s00 != 0.0 && s.s10 == s.s01
    ensures s.s00 * (s.s11 - Prod(Quot(s.s01, s.s00), s.s01)) == Det(s)
  {
    var c := s.s01 / s.s00;
    assert c * s.s00 == s.s01;
    assert s.s00 * (c * s.s01) == (c * s.s00) * s.s01;
  }

  lemma Reciprocal(p: real, q: real, u: real, t: real)
    requires u * (p * q) == 1.0 && t * q == 1.0
    ensures p * u == t
  {
    assert (p * u) * q == 1.0;
    assert ((p * u) * q) * t == (p * u) * (t * q);
  }

  lemma Assoc3(x: real, y: real, z: real)
    ensures (x * y) * z == x * (y * z)
  {
  }

  lemma Expand(s2: real, c: real, q: real, u: real)
    ensures (s2 + c * q) * u == s2 * u + c * (q * u)
  {
  }

  /** The entries of the inverse of S, from the two pivots `s00` and `s2`. */
  lemma InverseEntries(s: Innovation, s2: real, c: real, t: real, w: real, invd: real)
    requires s.s00 != 0.0 && s2 != 0.0 && c == s.s01 / s.s00 && t == 1.0 / s2 && w == 1.0 / s.s00
    requires invd * (s.s00 * s2) == 1.0
    ensures s.s00 * invd == t && s.s01 * invd == c * t
    ensures s.s11 == s2 + c * s.s01 ==> s.s11 * invd == w + c * (c * t)
  {
    assert t * s2 == 1.0 && w * s.s00 == 1.0 && c * s.s00 == s.s01;
    Reciprocal(s.s00, s2, invd, t);
    Assoc3(c, s.s00, invd);
    Reciprocal(s2, s.s00, invd, w);
    Expand(s2, c, s.s01, invd);
  }

  lemma Spread(a: real, b: real, c: real, t: real, s2: real, k: real)
    requires s2 != 0.0 && t == 1.0 / s2 && k == Quot(Lin(1.0, b, -c, a), s2)
    ensures k == t * b - (c * t) * a
  {
    assert k == (b - c * a) * t;
  }

  lemma SecondGain(s: Innovation, s2: real, a: real, b: real)
    requires s.s00 != 0.0 && Det(s) != 0.0 && s2 != 0.0 && s.s00 * s2 == Det(s)
    ensures var invd := 1.0 / Det(s);
            Quot(Lin(1.0, b, -Quot(s.s01, s.s00), a), s2) == Lin(Prod(-s.s01, invd), a, Prod(s.s00, invd), b)
  {
    var d, c, t, invd := Det(s), s.s01 / s.s00, 1.0 / s2, 1.0 / Det(s);
    hide Det;
    assert invd * d == 1.0;
    InverseEntries(s, s2, c, t, 1.0 / s.s00, invd);
    Spread(a, b, c, t, s2, Quot(Lin(1.0, b, -c, a), s2));
    SecondCollect(a, b, c * t, t, Prod(-s.s01, invd), Prod(s.s00, invd));
  }

  lemma SecondCollect(a: real, b: real, x: real, t: real, p: real, q: real)
    requires p == -x && q == t
    ensures t * b - x * a == Lin(p, a, q, b)
  {
  }

  lemma FirstGain(s: Innovation, s2: real, a: real, b: real)
    requires s.s00 != 0.0 && Det(s) != 0.0 && s2 != 0.0 && s.s00 * s2 == Det(s) && s.s10 == s.s01
    requires s2 == s.s11 - Prod(Quot(s.s01, s.s00), s.s01)
    ensures var invd, c := 1.0 / Det(s), Quot(s.s01, s.s00);
            Lin(1.0, Quot(a, s.s00), -c, Quot(Lin(1.0, b, -c, a), s2))
            == Lin(Prod(s.s11, invd), a, Prod(-s.s10, invd), b)
  {
    var d, c, t, invd := Det(s), s.s01 / s.s00, 1.0 / s2, 1.0 / Det(s);
    var k, w := Quot(Lin(1.0, b, -c, a), s2), 1.0 / s.s00;
    hide Det;
    assert invd * d == 1.0;
    InverseEntries(s, s2, c, t, w, invd);
    Spread(a, b, c, t, s2, k);
    FirstCollect(a, b, c, t, w, k, Quot(a, s.s00), Prod(s.s11, invd), Prod(-s.s10, invd));
  }

  lemma FirstCollect(a: real, b: real, c: real, t: real, w: real, k: real, g: real, p: real, q: real)
    requires k == t * b - (c * t) * a && g == a * w && p == w + c * (c * t) && q == -(c * t)
    ensures Lin(1.0, g, -c, k) == Lin(p, a, q, b)
  {
    assert c * k == (c * t) * b - (c * (c * t)) * a;
  }

  // ---------------------------------------------------------------- the vectors

  /** Row (and column) j after the first single update. */
  function Reduced(s: Innovation, a: Vec, b: Vec): Vec
    requires s.s00 != 0.0
  {
    Comb(1.0, b, -Quot(s.s01, s.s00), a)
  }

  /** The joint gains in terms of the gains of the two single updates. */
  lemma GainsSplit(s: Innovation, s2: real, a: Vec, b: Vec)
    requires s.s00 != 0.0 && Det(s) != 0.0 && s2 != 0.0 && s.s00 * s2 == Det(s) && s.s10 == s.s01
    requires s2 == s.s11 - Prod(Quot(s.s01, s.s00), s.s01)
    ensures Gain1(s, a, b) == Gain(Reduced(s, a, b), s2)
    ensures Gain0(s, a, b) == Comb(1.0, Gain(a, s.s00), -Quot(s.s01, s.s00), Gain(Reduced(s, a, b), s2))
  {
    hide Det, Lin, Quot, Prod;
    SecondGain(s, s2, a.a, b.a); SecondGain(s, s2, a.b, b.b); SecondGain(s, s2, a.c, b.c);
    SecondGain(s, s2, a.d, b.d); SecondGain(s, s2, a.e, b.e);
    FirstGain(s, s2, a.a, b.a); FirstGain(s, s2, a.b, b.b); FirstGain(s, s2, a.c, b.c);
    FirstGain(s, s2, a.d, b.d); FirstGain(s, s2, a.e, b.e);
  }

  lemma Regroup(r: real, g: real, k: real, n: real, x: real, y: real)
    ensures Lin(1.0, Lin(1.0, r, -Lin(1.0, g, n, k), x), -k, y) == Lin(1.0, Lin(1.0, r, -g, x), -k, Lin(1.0, y, n, x))
  {
    assert -Lin(1.0, g, n, k) * x == -g * x - n * k * x;
    assert -k * Lin(1.0, y, n, x) == -k * y - n * k * x;
  }

  lemma RowsAgree(r: Vec, g: real, k: real, n: real, a: Vec, b: Vec)
    ensures Comb(1.0, Comb(1.0, r, -Lin(1.0, g, n, k), a), -k, b)
            == Comb(1.0, Comb(1.0, r, -g, a), -k, Comb(1.0, b, n, a))
  {
    hide Lin;
    Regroup(r.a, g, k, n, a.a, b.a);
    Regroup(r.b, g, k, n, a.b, b.b);
    Regroup(r.c, g, k, n, a.c, b.c);
    Regroup(r.d, g, k, n, a.d, b.d);
    Regroup(r.e, g, k, n, a.e, b.e);
  }

  lemma DowndatesAgree(m: Mat, g: Vec, k: Vec, n: real, a: Vec, b: Vec)
    ensures Downdate(Downdate(m, Comb(1.0, g, n, k), a), k, b) == Downdate(Downdate(m, g, a), k, Comb(1.0, b, n, a))
  {
    hide Lin;
    assert Comb(1.0, g, n, k)
           == Vec(Lin(1.0, g.a, n, k.a), Lin(1.0, g.b, n, k.b), Lin(1.0, g.c, n, k.c),
                  Lin(1.0, g.d, n, k.d), Lin(1.0, g.e, n, k.e));
    hide Comb;
    RowsAgree(m.r0, g.a, k.a, n, a, b);
    RowsAgree(m.r1, g.b, k.b, n, a, b);
    RowsAgree(m.r2, g.c, k.c, n, a, b);
    RowsAgree(m.r3, g.d, k.d, n, a, b);
    RowsAgree(m.r4, g.e, k.e, n, a, b);
  }

  lemma Shift(x: real, g: real, k: real, c: real, y0: real, y1: real)
    ensures Lin(1.0, Lin(1.0, x, y0, Lin(1.0, g, -c, k)), y1, k) == Lin(1.0, Lin(1.0, x, y0, g), y1 - c * y0, k)
  {
    assert y0 * Lin(1.0, g, -c, k) == y0 * g - c * y0 * k;
    assert (y1 - c * y0) * k == y1 * k - c * y0 * k;
  }

  lemma StatesAgree(x: Vec, g: Vec, k: Vec, c: real, y0: real, y1: real)
    ensures Comb(1.0, Comb(1.0, x, y0, Comb(1.0, g, -c, k)), y1, k) == Comb(1.0, Comb(1.0, x, y0, g), y1 - c * y0, k)
  {
    hide Lin;
    Shift(x.a, g.a, k.a, c, y0, y1);
    Shift(x.b, g.b, k.b, c, y0, y1);
    Shift(x.c, g.c, k.c, c, y0, y1);
    Shift(x.d, g.d, k.d, c, y0, y1);
    Shift(x.e, g.e, k.e, c, y0, y1);
  }

  // ---------------------------------------------------------------- the theorem

  lemma SymmetricAccess(m: Mat, i: nat, j: nat)
    requires Symmetric(m) && i < 5 && j < 5
    ensures Col(m, i) == Row(m, i) && At(m, i, j) == At(m, j, i)
  {
  }

  lemma CorrectedRow(m: Mat, h: Vec, s: real, j: nat)
    requires j < 5 && s != 0.0
    ensures Row(Corrected(m, h, s), j) == Comb(1.0, Row(m, j), -Quot(Get(h, j), s), h)
  {
    hide Comb, Quot;
  }

  lemma CombGet(s: real, u: Vec, t: real, v: Vec, j: nat)
    requires j < 5
    ensures Get(Comb(s, u, t, v), j) == Lin(s, Get(u, j), t, Get(v, j))
  {
    hide Lin;
  }

  lemma GainGet(h: Vec, s: real, j: nat)
    requires s != 0.0 && j < 5
    ensures Get(Gain(h, s), j) == Quot(Get(h, j), s)
  {
    hide Quot;
  }

  lemma Reduce(x: real, r: real, c: real, y: real, total: real)
    requires total == x + r
    ensures Lin(1.0, x, -c, y) + r == total - Prod(c, y)
  {
  }

  /** Row j and variance j once state i has been measured. */
  lemma AfterFirst(m: Mat, i: nat, j: nat, r0: real, r1: real)
    requires i < 5 && j < 5
    requires InnovationOf(m, i, j, r0, r1).s00 != 0.0
    ensures var s := InnovationOf(m, i, j, r0, r1);
            var m1 := Corrected(m, Row(m, i), s.s00);
            && Row(m1, j) == Reduced(s, Row(m, i), Row(m, j))
            && At(m1, j, j) + r1 == s.s11 - Prod(Quot(s.s01, s.s00), s.s01)
  {
    hide Comb, Corrected, Row, Get, Lin, Quot, Prod;
    var s := InnovationOf(m, i, j, r0, r1);
    var a, b, c := Row(m, i), Row(m, j), Quot(s.s01, s.s00);
    CorrectedRow(m, a, s.s00, j);
    CombGet(1.0, b, -c, a, j);
    Reduce(Get(b, j), r1, c, s.s01, s.s11);
  }

  /** The two single updates, as the joint one does them: the covariance, the state, and the
      innovation variance the second of them sees. */
  function FirstCov(m: Mat, i: nat, r0: real): Mat
    requires i < 5 && At(m, i, i) + r0 != 0.0
  {
    Corrected(m, Row(m, i), At(m, i, i) + r0)
  }

  function FirstState(m: Mat, x: Vec, i: nat, r0: real, y0: real): Vec
    requires i < 5 && At(m, i, i) + r0 != 0.0
  {
    Comb(1.0, x, y0, Gain(Row(m, i), At(m, i, i) + r0))
  }

  lemma SecondVariance(m: Mat, i: nat, j: nat, r0: real, r1: real)
    requires Symmetric(m) && i < 5 && j < 5 && At(m, i, i) + r0 != 0.0
    ensures Prod(At(m, i, i) + r0, At(FirstCov(m, i, r0), j, j) + r1) == Det(InnovationOf(m, i, j, r0, r1))
  {
    hide Corrected, Row, Get, At, Lin, Quot, Det, Symmetric;
    SymmetricAccess(m, i, j);
    AfterFirst(m, i, j, r0, r1);
    Schur(InnovationOf(m, i, j, r0, r1));
  }

  /** The joint update and the two single updates in sequence have the same effect on the
      covariance and on the state, before flooring. */
  lemma BatchIsSequential(m: Mat, x: Vec, i: nat, j: nat, r0: real, r1: real, y0: real, y1: real)
    requires Symmetric(m) && i < 5 && j < 5
    requires At(m, i, i) + r0 != 0.0 && Det(InnovationOf(m, i, j, r0, r1)) != 0.0
    ensures At(FirstCov(m, i, r0), j, j) + r1 != 0.0
    ensures Jointly(m, i, j, r0, r1) == FirstCov(FirstCov(m, i, r0), j, r1)
    ensures var drift := Get(FirstState(m, x, i, r0, y0), j) - Get(x, j);
            JointState(m, x, i, j, r0, r1, y0, y1)
            == FirstState(FirstCov(m, i, r0), FirstState(m, x, i, r0, y0), j, r1, y1 - drift)
  {
    hide Comb, Gain, Downdate, Row, Get, Lin, Quot, Det, Gain0, Gain1;
    var s := InnovationOf(m, i, j, r0, r1);
    var a, b, c := Row(m, i), Row(m, j), Quot(s.s01, s.s00);
    var m1 := FirstCov(m, i, r0);
    var s2 := At(m1, j, j) + r1;
    SymmetricAccess(m, i, j);
    SymmetricAccess(m, j, i);
    AfterFirst(m, i, j, r0, r1);
    SecondVariance(m, i, j, r0, r1);
    Zero(s.s00, s2);
    GainsSplit(s, s2, a, b);
    DowndatesAgree(m, Gain(a, s.s00), Gain(Reduced(s, a, b), s2), -c, a, b);
    StatesAgree(x, Gain(a, s.s00), Gain(Reduced(s, a, b), s2), c, y0, y1);
    Drift(x, y0, a, s.s00, j);
  }

  lemma Zero(x: real, y: real)
    ensures Prod(x, y) != 0.0 ==> y != 0.0
  {
  }

  /** The first update moves state j by its gain times the innovation. */
  lemma Drift(x: Vec, y0: real, a: Vec, s00: real, j: nat)
    requires s00 != 0.0 && j < 5
    ensures Get(Comb(1.0, x, y0, Gain(a, s00)), j) - Get(x, j) == Quot(Get(a, j), s00) * y0
  {
    CombGet(1.0, x, y0, Gain(a, s00), j);
    GainGet(a, s00, j);
    hide Get, Comb, Gain, Quot;
  }

  // ---------------------------------------------------------------- what is left of the innovations

  /** Of the innovations `y` the joint update with variance `r` leaves `e`, with `S e = r y`. */
  predicate JointlyShrinks(s: Innovation, r: real, y0: real, y1: real, e0: real, e1: real) {
    s.s00 * e0 + s.s01 * e1 == r * y0 && s.s10 * e0 + s.s11 * e1 == r * y1
  }

  lemma ColGet(m: Mat, i: nat, j: nat)
    requires i < 5 && j < 5
    ensures Get(Col(m, j), i) == At(m, i, j)
  {
  }

  lemma JointResidual(m: Mat, x: Vec, i: nat, j: nat, r: real, y0: real, y1: real)
    requires i < 5 && j < 5 && Det(InnovationOf(m, i, j, r, r)) != 0.0
    ensures var z := JointState(m, x, i, j, r, r, y0, y1);
            JointlyShrinks(InnovationOf(m, i, j, r, r), r, y0, y1,
                           y0 - (Get(z, i) - Get(x, i)), y1 - (Get(z, j) - Get(x, j)))
  {
    hide Comb, Get, Col, At, Lin, Det, Prod;
    var s := InnovationOf(m, i, j, r, r);
    var a, b, u := Col(m, i), Col(m, j), 1.0 / Det(s);
    ColGet(m, i, i);
    ColGet(m, j, i);
    ColGet(m, i, j);
    ColGet(m, j, j);
    var k0, k1 := Gain0(s, a, b), Gain1(s, a, b);
    forall k: nat | k == i || k == j
      ensures Get(JointState(m, x, i, j, r, r, y0, y1), k)
              == Lin(1.0, Lin(1.0, Get(x, k), y0, Get(k0, k)), y1, Get(k1, k))
      ensures Get(k0, k) == Lin(Prod(s.s11, u), Get(a, k), Prod(-s.s10, u), Get(b, k))
      ensures Get(k1, k) == Lin(Prod(-s.s01, u), Get(a, k), Prod(s.s00, u), Get(b, k))
    {
      CombGet(1.0, x, y0, k0, k);
      CombGet(1.0, Comb(1.0, x, y0, k0), y1, k1, k);
      CombGet(Prod(s.s11, u), a, Prod(-s.s10, u), b, k);
      CombGet(Prod(-s.s01, u), a, Prod(s.s00, u), b, k);
    }
    InverseOf(Det(s));
    ShareLeft(s, r, u, Get(k0, i), Get(k1, i), Get(k0, j), Get(k1, j));
    StateLeft(Get(x, i), y0, Get(k0, i), y1, Get(k1, i));
    StateLeft(Get(x, j), y0, Get(k0, j), y1, Get(k1, j));
    LeftOver(y0, y1, Prod(r, u), s.s11, s.s01, Get(k0, i), Get(k1, i));
    LeftOver(y1, y0, Prod(r, u), s.s00, s.s10, Get(k1, j), Get(k0, j));
    var z := JointState(m, x, i, j, r, r, y0, y1);
    LeftSolves(s, r, u, y0, y1, y0 - (Get(z, i) - Get(x, i)), y1 - (Get(z, j) - Get(x, j)));
  }

  lemma InverseOf(d: real)
    requires d != 0.0
    ensures d * (1.0 / d) == 1.0
  {
  }

  lemma StateLeft(x: real, y0: real, g0: real, y1: real, g1: real)
    ensures Lin(1.0, Lin(1.0, x, y0, g0), y1, g1) - x == Lin(y0, g0, y1, g1)
    ensures Lin(y0, g0, y1, g1) == Lin(y1, g1, y0, g0)
  {
  }

  /** The four gains, seen from the innovation covariance: one less a share, or a share. */
  lemma ShareLeft(s: Innovation, r: real, u: real, g0i: real, g1i: real, g0j: real, g1j: real)
    requires Det(s) * u == 1.0
    requires g0i == Lin(Prod(s.s11, u), s.s00 - r, Prod(-s.s10, u), s.s01)
    requires g1i == Lin(Prod(-s.s01, u), s.s00 - r, Prod(s.s00, u), s.s01)
    requires g0j == Lin(Prod(s.s11, u), s.s10, Prod(-s.s10, u), s.s11 - r)
    requires g1j == Lin(Prod(-s.s01, u), s.s10, Prod(s.s00, u), s.s11 - r)
    ensures g0i == 1.0 - Prod(Prod(r, u), s.s11) && g1i == Prod(Prod(r, u), s.s01)
    ensures g0j == Prod(Prod(r, u), s.s10) && g1j == 1.0 - Prod(Prod(r, u), s.s00)
  {
    var a, b, c, d := s.s00, s.s01, s.s10, s.s11;
    GainLess(a, b, c, d, r, u);
    GainCross(a, b, r, u);
    GainCross(d, c, r, u);
    GainLess(d, c, b, a, r, u);
  }

  lemma GainLess(a: real, b: real, c: real, d: real, r: real, u: real)
    requires (a * d - b * c) * u == 1.0
    ensures (d * u) * (a - r) + (-c * u) * b == 1.0 - (r * u) * d
  {
    assert (d * u) * (a - r) == (a * d) * u - (r * u) * d;
    assert (-c * u) * b == -((b * c) * u);
  }

  lemma GainCross(a: real, b: real, r: real, u: real)
    ensures (-b * u) * (a - r) + (a * u) * b == (r * u) * b
  {
    assert (-b * u) * (a - r) == -((a * u) * b) + (r * u) * b;
  }

  lemma LeftSolves(s: Innovation, r: real, u: real, y0: real, y1: real, e0: real, e1: real)
    requires Det(s) * u == 1.0
    requires e0 == Prod(Prod(r, u), Lin(s.s11, y0, -s.s01, y1)) && e1 == Prod(Prod(r, u), Lin(s.s00, y1, -s.s10, y0))
    ensures JointlyShrinks(s, r, y0, y1, e0, e1)
  {
    SolvesRow(s.s00, s.s01, s.s10, s.s11, Prod(r, u), y0, y1, e0, e1, u, r);
    SolvesRow(s.s11, s.s10, s.s01, s.s00, Prod(r, u), y1, y0, e1, e0, u, r);
  }

  lemma LeftOver(y: real, z: real, t: real, p: real, q: real, g: real, h: real)
    requires g == 1.0 - Prod(t, p) && h == Prod(t, q)
    ensures y - Lin(y, g, z, h) == Prod(t, Lin(p, y, -q, z))
  {
    assert y * g == y - t * (p * y);
    assert z * h == t * (q * z);
  }

  lemma SolvesRow(a: real, b: real, c: real, d: real, t: real, y: real, z: real, e: real, f: real, u: real, r: real)
    requires e == t * (d * y - b * z) && f == t * (a * z - c * y) && (a * d - b * c) * u == 1.0 && t == r * u
    ensures a * e + b * f == r * y
  {
    assert a * e == t * (a * d * y) - t * (a * b * z);
    assert b * f == t * (a * b * z) - t * (b * c * y);
    assert t * (a * d * y) - t * (b * c * y) == t * ((a * d - b * c) * y);
    assert t * ((a * d - b * c) * y) == r * (((a * d - b * c) * u) * y);
  }

  // ---------------------------------------------------------------- soundness of the joint update

  /** A single update is the scalar correction with the selecting row. */
  lemma FirstSound(m: Mat, i: nat, r0: real)
    requires Symmetric(m) && PSD(m) && i < 5 && r0 >= 0.0 && At(m, i, i) + r0 > 0.0
    ensures Symmetric(FirstCov(m, i, r0)) && PSD(FirstCov(m, i, r0))
  {
    UnitApply(m, i);
    SymmetricAccess(m, i, i);
    hide Form, Apply, Corrected, Row, At, Symmetric, PSD;
    CorrectedPSD(m, Unit(i), r0);
    CorrectedSymmetric(m, Row(m, i), At(m, i, i) + r0);
  }

  /** Cauchy-Schwarz keeps the determinant of S from falling below the product of the two measurement
      variances. */
  lemma DetBound(m: Mat, i: nat, j: nat, r0: real, r1: real)
    requires Sound(m) && i < 5 && j < 5 && r0 >= 0.0 && r1 >= 0.0
    ensures Det(InnovationOf(m, i, j, r0, r1)) >= Prod(r0, r1) >= 0.0
  {
    hide At, Form, Apply, Unit, Col, Row, Symmetric, PSD, Floored, Prod;
    var p, q, c := At(m, i, i), At(m, j, j), At(m, i, j);
    CrossEntry(m, i, j);
    UnitApply(m, i);
    UnitApply(m, j);
    SymmetricAccess(m, i, j);
    Discriminant(m, Unit(i), Unit(j));
    DiagonalFloored(m, i);
    DiagonalFloored(m, j);
    Widen(p, q, c, r0, r1);
  }

  lemma CrossEntry(m: Mat, i: nat, j: nat)
    requires i < 5 && j < 5
    ensures Form(m, Unit(i), Unit(j)) == At(m, i, j)
  {
    UnitApply(m, j);
    var c := Col(m, j);
    DotSym(Unit(i), c);
    UnitDot(c, i);
    hide Dot, Unit, Apply;
  }

  lemma CrossBound(m: Mat, i: nat, j: nat)
    requires Symmetric(m) && PSD(m) && i < 5 && j < 5
    ensures Prod(At(m, i, j), At(m, i, j)) <= Prod(At(m, i, i), At(m, j, j))
  {
    hide Form, Symmetric, PSD, At, Unit, Apply, Col, Prod;
    UnitApply(m, i);
    UnitApply(m, j);
    CrossEntry(m, i, j);
    Discriminant(m, Unit(i), Unit(j));
  }

  lemma Widen(p: real, q: real, c: real, r0: real, r1: real)
    requires p >= 0.0 && q >= 0.0 && r0 >= 0.0 && r1 >= 0.0 && Prod(c, c) <= Prod(p, q)
    ensures (p + r0) * (q + r1) - c * c >= Prod(r0, r1) >= 0.0
  {
    assert (p + r0) * (q + r1) == p * q + p * r1 + r0 * q + r0 * r1;
    Nonneg(p, r1);
    Nonneg(r0, q);
    Nonneg(r0, r1);
  }

  lemma Positive(x: real, y: real, d: real)
    requires x > 0.0 && d > 0.0 && Prod(x, y) == d
    ensures y > 0.0
  {
    if y <= 0.0 { Nonneg(x, -y); }
  }

  lemma SecondPositive(m: Mat, i: nat, j: nat, r0: real, r1: real)
    requires Symmetric(m) && i < 5 && j < 5 && At(m, i, i) + r0 > 0.0 && Det(InnovationOf(m, i, j, r0, r1)) > 0.0
    ensures At(FirstCov(m, i, r0), j, j) + r1 > 0.0
  {
    SecondVariance(m, i, j, r0, r1);
    hide *;
    Positive(At(m, i, i) + r0, At(FirstCov(m, i, r0), j, j) + r1, Det(InnovationOf(m, i, j, r0, r1)));
  }

  /** The joint update keeps a covariance in good order. */
  lemma Updated2Sound(m: Mat, i: nat, j: nat, r0: real, r1: real)
    requires Sound(m) && i < 5 && j < 5 && r0 >= 0.0 && r1 >= 0.0
    ensures Sound(Updated2(m, i, j, r0, r1))
  {
    DetBound(m, i, j, r0, r1);
    DiagonalFloored(m, i);
    hide Det, At, Jointly, FirstCov, Symmetric, PSD, Floored, Condition;
    if Abs(Det(InnovationOf(m, i, j, r0, r1))) >= TINY {
      var m1 := FirstCov(m, i, r0);
      FirstSound(m, i, r0);
      SecondPositive(m, i, j, r0, r1);
      FirstSound(m1, j, r1);
      BatchIsSequential(m, Unit(i), i, j, r0, r1, 0.0, 0.0);
      ConditionSound(Jointly(m, i, j, r0, r1));
    }
  }

  lemma UpdatedIsFirst(m: Mat, i: nat, r: real)
    requires Symmetric(m) && i < 5 && At(m, i, i) + r >= TINY
    ensures Updated(m, Unit(i), r) == Condition(FirstCov(m, i, r))
  {
    UnitApply(m, i);
    SymmetricAccess(m, i, i);
    hide Form, Apply, Corrected, Row, At, Symmetric, Condition;
  }
}
