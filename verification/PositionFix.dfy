/** One GPS position fix on the node (a joint update) and on the Jetson (two scalar updates): when the
    two filters end in the same place, and when they do not. */
module PositionFix {
  import opened Arithmetic
  import opened Covariance
  import opened Flooring
  import opened JetsonEkf
  import opened Matrix
  import opened NodeEkf
  import opened Sharper
  import opened TwoRow

  lemma ScalarIsFirst(f: Filter, i: nat, y: real, r: real)
    requires Symmetric(f.p) && Floored(f.p) && i < 5 && r >= 0.0
    ensures Scalar(f, Unit(i), y, r, false).x == FirstState(f.p, f.x, i, r, y)
    ensures Scalar(f, Unit(i), y, r, false).p == Condition(FirstCov(f.p, i, r))
  {
    hide Form, Apply, Corrected, Row, Col, At, Symmetric, Floored, Condition, Comb, Gain, Unit, Updated, FirstCov;
    UnitApply(f.p, i);
    SymmetricAccess(f.p, i, i);
    DiagonalFloored(f.p, i);
    UpdatedIsFirst(f.p, i, r);
  }

  /** The second innovation, taken against the already moved state. */
  function Innovation2(f: Filter, zN: real, r0: real, zE: real): real {
    zE - Scalar(f, Unit(0), zN - f.x.a, r0, false).x.b
  }

  /** The two filters end in the same state and covariance whenever the joint innovation is not close to
      singular and the first correction leaves the second variance above the floor. */
  lemma FixAgrees(f: Filter, zN: real, zE: real, r0: real, r1: real)
    requires Sound(f.p) && r0 >= 0.0 && r1 >= 0.0
    requires At(FirstCov(f.p, 0, r0), 1, 1) >= FLOOR && Det(InnovationOf(f.p, 0, 1, r0, r1)) >= TINY
    ensures var h := TwoScalars(f, zN, zE, r0, r1);
            Update2(Node(f.x, f.p), 0, 1, zN, zE, r0, r1) == Node(h.x, h.p)
  {
    hide Sound, Scalar, Det, At, Row, Jointly, FirstCov, Symmetric, PSD, Floored, Condition, Updated, JointState, Unit,
         Gain, Comb;
    var m := f.p;
    SoundParts(m);
    FirstSoundFloored(m, 0, r0);
    var m1 := FirstCov(m, 0, r0);
    var g := Scalar(f, Unit(0), zN - f.x.a, r0, false);
    ScalarIsFirst(f, 0, zN - f.x.a, r0);
    ConditionSound(m1);
    SoundParts(g.p);
    SecondUndisturbed(m1, 1, r1);
    ScalarIsFirst(g, 1, zE - g.x.b, r1);
    BatchIsSequential(m, f.x, 0, 1, r0, r1, zN - f.x.a, zE - f.x.b);
  }

  lemma FirstSoundFloored(m: Mat, i: nat, r: real)
    requires Symmetric(m) && PSD(m) && Floored(m) && i < 5 && r >= 0.0
    ensures At(m, i, i) >= FLOOR && Symmetric(FirstCov(m, i, r)) && PSD(FirstCov(m, i, r))
  {
    hide At, FirstCov, Symmetric, PSD, Floored;
    DiagonalFloored(m, i);
    FirstSound(m, i, r);
  }

  // ---------------------------------------------------------------- when the second variance was floored

  /** How far the second update moves the second state. */
  lemma SecondMove(m: Mat, x: Vec, r: real, y: real)
    requires At(m, 1, 1) + r != 0.0
    ensures FirstState(m, x, 1, r, y).b == x.b + y * (At(m, 1, 1) / (At(m, 1, 1) + r))
  {
  }

  /** A larger variance takes more of the innovation. */
  lemma ShareGrows(v: real, w: real, r: real, y: real)
    requires 0.0 <= v < w && r > 0.0 && y != 0.0
    ensures y * (v / (v + r)) != y * (w / (w + r))
  {
    SharesDiffer(v, w, r, v / (v + r), w / (w + r));
    Scales(y, v / (v + r), w / (w + r));
  }

  lemma SharesDiffer(v: real, w: real, r: real, a: real, b: real)
    requires v < w && r > 0.0 && a * (v + r) == v && b * (w + r) == w
    ensures a != b
  {
    Scales(a - 1.0, w - v, 0.0);
    assert a == b ==> (a - 1.0) * (w - v) == 0.0;
  }

  lemma Scales(y: real, a: real, b: real)
    requires a != b
    ensures y != 0.0 ==> y * a != y * b
  {
    assert y * a - y * b == y * (a - b);
    ZeroProduct(y, a - b);
  }

  lemma FlooredVariance(m: Mat)
    requires At(m, 1, 1) < FLOOR
    ensures At(Condition(m), 1, 1) == FLOOR
  {
  }

  /** Above the guard, and with the same variances of measurement on both sides, the two filters agree
      exactly when the first correction leaves the second variance above the floor, or there is nothing left
      to correct and the second state is tied to no other. */
  lemma AboveGuardIff(f: Filter, zN: real, zE: real, r0: real, r1: real)
    requires Sound(f.p) && r0 >= 0.0 && r1 > 0.0 && Det(InnovationOf(f.p, 0, 1, r0, r1)) >= TINY
    ensures At(f.p, 0, 0) + r0 != 0.0
    ensures var h, m1 := TwoScalars(f, zN, zE, r0, r1), FirstCov(f.p, 0, r0);
            Update2(Node(f.x, f.p), 0, 1, zN, zE, r0, r1) == Node(h.x, h.p)
            <==> (At(m1, 1, 1) >= FLOOR || (Innovation2(f, zN, r0, zE) == 0.0 && Isolated(m1, 1)))
  {
    hide Sound, Scalar, Det, At, Jointly, FirstCov, FirstState, Symmetric, PSD, Floored, Condition, Updated, Updated2,
         JointState, Unit, Isolated, Innovation2;
    var m := f.p;
    SoundParts(m);
    FirstSoundFloored(m, 0, r0);
    var m1 := FirstCov(m, 0, r0);
    if At(m1, 1, 1) >= FLOOR {
      FixAgrees(f, zN, zE, r0, r1);
    } else if Innovation2(f, zN, r0, zE) != 0.0 {
      FlooredFixDiffers(f, zN, zE, r0, r1);
    } else {
      NothingToCorrect(f, zN, zE, r0, r1);
      CovariancesOf(f, zN, zE, r0, r1);
      JointMatchesScalarsIff(m, 0, 1, r0, r1);
    }
  }

  /** The covariances on both sides are those of the joint and of the two scalar updates. */
  lemma CovariancesOf(f: Filter, zN: real, zE: real, r0: real, r1: real)
    requires Sound(f.p) && r0 >= 0.0 && r1 >= 0.0
    ensures Update2(Node(f.x, f.p), 0, 1, zN, zE, r0, r1).p == Updated2(f.p, 0, 1, r0, r1)
    ensures TwoScalars(f, zN, zE, r0, r1).p == Updated(Updated(f.p, Unit(0), r0), Unit(1), r1)
  {
    hide Updated, Jointly, Condition, Unit, Sound, Det, JointState, Scalar;
    ScalarCovariance(f, Unit(0), zN - f.x.a, r0);
    var g := Scalar(f, Unit(0), zN - f.x.a, r0, false);
    ScalarCovariance(g, Unit(1), zE - g.x.b, r1);
  }

  lemma ScalarCovariance(f: Filter, h: Vec, y: real, r: real)
    ensures Scalar(f, h, y, r, false).p == Updated(f.p, h, r)
  {
    hide Form, Apply, Condition, Corrected, Gain;
  }

  lemma NoMove(m: Mat, x: Vec, i: nat, r: real)
    requires i < 5 && At(m, i, i) + r != 0.0
    ensures FirstState(m, x, i, r, 0.0) == x
  {
    hide Gain, At, Row;
  }

  /** Without an innovation left neither filter moves any further. */
  lemma NothingToCorrect(f: Filter, zN: real, zE: real, r0: real, r1: real)
    requires Sound(f.p) && r0 >= 0.0 && r1 > 0.0
    requires Det(InnovationOf(f.p, 0, 1, r0, r1)) >= TINY && Innovation2(f, zN, r0, zE) == 0.0
    ensures Update2(Node(f.x, f.p), 0, 1, zN, zE, r0, r1).x == TwoScalars(f, zN, zE, r0, r1).x
  {
    hide Sound, Scalar, Det, At, Jointly, FirstCov, FirstState, Symmetric, PSD, Floored, Condition, Updated, Updated2,
         JointState, Unit;
    var m := f.p;
    SoundParts(m);
    FirstSoundFloored(m, 0, r0);
    var m1 := FirstCov(m, 0, r0);
    var g := Scalar(f, Unit(0), zN - f.x.a, r0, false);
    ScalarIsFirst(f, 0, zN - f.x.a, r0);
    ConditionSound(m1);
    SoundParts(g.p);
    VarianceNonneg(m1, 1);
    FirstSoundFloored(g.p, 1, r1);
    ScalarIsFirst(g, 1, zE - g.x.b, r1);
    BatchIsSequential(m, f.x, 0, 1, r0, r1, zN - f.x.a, zE - f.x.b);
    JointStateIs(f, zN, zE, r0, r1, g.x);
    NoMove(m1, g.x, 1, r1);
    NoMove(g.p, g.x, 1, r1);
  }

  lemma FlooredFixDiffers(f: Filter, zN: real, zE: real, r0: real, r1: real)
    requires Sound(f.p) && r0 >= 0.0 && r1 > 0.0 && At(FirstCov(f.p, 0, r0), 1, 1) < FLOOR
    requires Det(InnovationOf(f.p, 0, 1, r0, r1)) >= TINY && Innovation2(f, zN, r0, zE) != 0.0
    ensures Update2(Node(f.x, f.p), 0, 1, zN, zE, r0, r1).x.b != TwoScalars(f, zN, zE, r0, r1).x.b
  {
    hide Sound, Scalar, Det, At, Jointly, FirstCov, FirstState, Symmetric, PSD, Floored, Condition, Updated, Updated2,
         JointState, Unit;
    var m := f.p;
    SoundParts(m);
    FirstSoundFloored(m, 0, r0);
    var m1 := FirstCov(m, 0, r0);
    var g := Scalar(f, Unit(0), zN - f.x.a, r0, false);
    ScalarIsFirst(f, 0, zN - f.x.a, r0);
    ConditionSound(m1);
    SoundParts(g.p);
    VarianceNonneg(m1, 1);
    FlooredVariance(m1);
    ScalarIsFirst(g, 1, zE - g.x.b, r1);
    SecondMove(g.p, g.x, r1, zE - g.x.b);
    SecondMove(m1, g.x, r1, zE - g.x.b);
    BatchIsSequential(m, f.x, 0, 1, r0, r1, zN - f.x.a, zE - f.x.b);
    ShareGrows(At(m1, 1, 1), FLOOR, r1, zE - g.x.b);
    JointStateIs(f, zN, zE, r0, r1, g.x);
  }

  /** The joint update's state, as the second of two single updates. */
  lemma JointStateIs(f: Filter, zN: real, zE: real, r0: real, r1: real, x1: Vec)
    requires At(f.p, 0, 0) + r0 != 0.0 && Det(InnovationOf(f.p, 0, 1, r0, r1)) >= TINY
    requires x1 == FirstState(f.p, f.x, 0, r0, zN - f.x.a)
    ensures Update2(Node(f.x, f.p), 0, 1, zN, zE, r0, r1).x
            == JointState(f.p, f.x, 0, 1, r0, r1, zN - f.x.a, zE - f.x.b)
    ensures Get(x1, 1) == x1.b && Get(f.x, 1) == f.x.b
  {
    hide JointState, FirstState, Updated2, Det, InnovationOf;
  }

  // ---------------------------------------------------------------- below the singularity guard

  /** What the two scalar updates amount to: two flooring updates, and two moves of the state. */
  lemma TwoScalarsAre(f: Filter, zN: real, zE: real, q0: real, q1: real)
    requires Sound(f.p) && q0 >= 0.0 && q1 >= 0.0
    ensures At(f.p, 0, 0) >= FLOOR
    ensures var n := Condition(FirstCov(f.p, 0, q0));
            && At(n, 1, 1) >= FLOOR
            && var x1 := FirstState(f.p, f.x, 0, q0, zN - f.x.a);
               && TwoScalars(f, zN, zE, q0, q1).x == FirstState(n, x1, 1, q1, zE - x1.b)
               && TwoScalars(f, zN, zE, q0, q1).p == Condition(FirstCov(n, 1, q1))
  {
    hide Sound, Scalar, At, FirstCov, FirstState, Symmetric, PSD, Floored, Condition, Unit;
    SoundParts(f.p);
    FlooredSound(f.p, 0, q0);
    ScalarIsFirst(f, 0, zN - f.x.a, q0);
    var g := Scalar(f, Unit(0), zN - f.x.a, q0, false);
    SoundParts(g.p);
    DiagonalFloored(g.p, 1);
    ScalarIsFirst(g, 1, zE - g.x.b, q1);
  }

  /** A state that is tied to no other moves alone. */
  lemma MovesAlone(m: Mat, x: Vec, i: nat, r: real, y: real)
    requires i < 2 && Row(m, i) == Only(i, At(m, i, i)) && At(m, i, i) > 0.0 && r >= 0.0
    ensures var n := FirstState(m, x, i, r, y);
            && n == (if i == 0 then x.(a := n.a) else x.(b := n.b))
            && Get(n, i) == Get(x, i) + Prod(y, Quot(At(m, i, i), At(m, i, i) + r))
  {
    hide At, Row;
    SharesOfZero(At(m, i, i) + r);
  }

  lemma SharesOfZero(s: real)
    requires s > 0.0
    ensures Quot(0.0, s) == 0.0
  {
  }

  /** A state with a variance moves unless there is nothing to correct. */
  lemma MovesUnless(y: real, v: real, s: real)
    requires v > 0.0 && s > 0.0
    ensures Prod(y, Quot(v, s)) == 0.0 <==> y == 0.0
  {
    var q := Quot(v, s);
    assert q * s == v;
    ZeroProduct(y, q);
    assert y == 0.0 ==> y * q == 0.0;
  }

  /** Exhausted states move only where there is something to correct. */
  lemma ExhaustedMoves(f: Filter, zN: real, zE: real, q0: real, q1: real)
    requires Sound(f.p) && q0 >= 0.0 && q1 >= 0.0 && Exhausted(f.p, 0) && Exhausted(f.p, 1)
    ensures TwoScalars(f, zN, zE, q0, q1).x == f.x <==> zN == f.x.a && zE == f.x.b
  {
    hide Sound, At, FirstCov, Symmetric, PSD, Floored, Condition, TwoScalars, FirstState, Row, Only, Prod, Quot;
    var y := zN - f.x.a;
    SoundParts(f.p);
    TwoScalarsAre(f, zN, zE, q0, q1);
    ExhaustedStays(f.p, 0, q0);
    ExhaustedStays(f.p, 1, q1);
    MovesAlone(f.p, f.x, 0, q0, y);
    var x1 := FirstState(f.p, f.x, 0, q0, y);
    MovesAlone(f.p, x1, 1, q1, zE - x1.b);
    MovesUnless(y, FLOOR, FLOOR + q0);
    MovesUnless(zE - x1.b, FLOOR, FLOOR + q1);
  }

  /** Below the guard the node skips the fix. The Jetson, whatever variances it takes, then does the same
      exactly when both states are exhausted and there is nothing to correct: its two updates never
      cancel out. */
  lemma BelowGuardIff(f: Filter, zN: real, zE: real, r0: real, r1: real, q0: real, q1: real)
    requires Sound(f.p) && r0 >= 0.0 && r1 >= 0.0 && q0 >= 0.0 && q1 >= 0.0
    requires Det(InnovationOf(f.p, 0, 1, r0, r1)) < TINY
    ensures Update2(Node(f.x, f.p), 0, 1, zN, zE, r0, r1) == Node(f.x, f.p)
    ensures var h := TwoScalars(f, zN, zE, q0, q1);
            Update2(Node(f.x, f.p), 0, 1, zN, zE, r0, r1) == Node(h.x, h.p)
            <==> (Exhausted(f.p, 0) && Exhausted(f.p, 1) && zN == f.x.a && zE == f.x.b)
  {
    hide Sound, At, FirstCov, Symmetric, PSD, Floored, Condition, TwoScalars, Exhausted, FirstState, Det, Prod,
         Updated2, JointState;
    DetBound(f.p, 0, 1, r0, r1);
    TwoScalarsAre(f, zN, zE, q0, q1);
    TwoIdleIff(f.p, 0, 1, q0, q1);
    if Exhausted(f.p, 0) && Exhausted(f.p, 1) { ExhaustedMoves(f, zN, zE, q0, q1); }
  }

  // ---------------------------------------------------------------- the fix as the two programs take it

  /** The two filters make the same of a position fix of standard deviation `std`, `pN` and `pE` metres
      from a common anchor. */
  predicate SameFix(f: Filter, pN: real, pE: real, std: real) {
    var h := PoseFix(f, pN, pE, std);
    GpsFix(Node(f.x, f.p), pN, pE, std) == Node(h.x, h.p)
  }

  /** From half a metre on both take the variance as it is reported, and the singularity guard is out of
      reach: the two agree exactly when the first correction leaves the second variance above the floor,
      or there is nothing left to correct and the second state is tied to no other. */
  lemma PositionFixIff(f: Filter, pN: real, pE: real, std: real)
    requires Sound(f.p) && Prod(std, std) >= 0.25
    ensures var r := Prod(std, std);
            && At(f.p, 0, 0) + r != 0.0
            && var m1 := FirstCov(f.p, 0, r);
               SameFix(f, pN, pE, std)
               <==> (At(m1, 1, 1) >= FLOOR || (Innovation2(f, pN, r, pE) == 0.0 && Isolated(m1, 1)))
  {
    hide Sound, At, FirstCov, TwoScalars, Isolated, Innovation2, Det, Prod, Update2;
    var r := Prod(std, std);
    CoarseSquare(r);
    DetBound(f.p, 0, 1, r, r);
    AboveGuardIff(f, pN, pE, r, r);
  }

  lemma CoarseSquare(r: real)
    requires r >= 0.25
    ensures Prod(r, r) >= TINY
  {
    Nonneg(r - 0.25, r + 0.25);
  }

  /** Below the guard, which only a standard deviation under half a metre reaches, the node skips the fix and
      the Jetson fuses it with a variance of at least a quarter. */
  lemma SkippedFixIff(f: Filter, pN: real, pE: real, std: real)
    requires Sound(f.p) && Det(InnovationOf(f.p, 0, 1, Prod(std, std), Prod(std, std))) < TINY
    ensures Prod(std, std) < 0.25 && GpsFix(Node(f.x, f.p), pN, pE, std) == Node(f.x, f.p)
    ensures SameFix(f, pN, pE, std) <==> (Exhausted(f.p, 0) && Exhausted(f.p, 1) && pN == f.x.a && pE == f.x.b)
  {
    hide Sound, TwoScalars, Exhausted, Det, Prod, Update2;
    var r := Prod(std, std);
    SquareOf(std);
    DetBound(f.p, 0, 1, r, r);
    if r >= 0.25 { CoarseSquare(r); }
    BelowGuardIff(f, pN, pE, r, r, FixVariance(std), FixVariance(std));
  }

  // ---------------------------------------------------------------- below half a metre, above the guard

  /** The second state is as it was once a first state it is not tied to has been measured. */
  lemma SecondAlone(m: Mat, t: real)
    requires Sound(m) && BothIsolated(m, 0, 1) && t >= 0.0
    ensures At(m, 0, 0) >= FLOOR && At(m, 1, 1) >= FLOOR
    ensures Row(m, 0) == Only(0, At(m, 0, 0))
    ensures var m1 := FirstCov(m, 0, t);
            && At(m1, 1, 1) == At(m, 1, 1) && Row(m1, 1) == Only(1, At(m, 1, 1))
            && At(Condition(m1), 1, 1) == At(m, 1, 1) && Row(Condition(m1), 1) == Only(1, At(m, 1, 1))
  {
    hide Symmetric, PSD, Floored, FirstCov, At, Condition, Row, Only, Isolated;
    DiagonalFloored(m, 0);
    DiagonalFloored(m, 1);
    IsolatedRow(m, 0);
    FirstSymmetric(m, 0, t);
    AloneSecond(m, t);
    var m1 := FirstCov(m, 0, t);
    IsolatedRow(m1, 1);
    ConditionIsolated(m1, 1);
    ConditionSymmetric(m1);
    ConditionEntries(m1, 1);
    IsolatedRow(Condition(m1), 1);
    FloorIdle(At(m, 1, 1));
  }

  lemma AloneSecond(m: Mat, t: real)
    requires Symmetric(m) && Isolated(m, 0) && Isolated(m, 1) && At(m, 0, 0) + t != 0.0
    ensures Isolated(FirstCov(m, 0, t), 1) && At(FirstCov(m, 0, t), 1, 1) == At(m, 1, 1)
  {
    hide Symmetric, FirstCov, At, Kept;
    forall k: nat | k < 5 ensures At(FirstCov(m, 0, t), k, 1) == At(m, k, 1) {
      AloneFirst(m, 0, t, k, 1);
    }
  }

  lemma FloorIdle(v: real)
    requires v >= FLOOR
    ensures Floor(v) == v
  {
  }

  /** Where both states stand alone each filter moves each of them by its own share of the innovation. */
  lemma NodeMoves(f: Filter, zN: real, zE: real, r: real)
    requires Sound(f.p) && BothIsolated(f.p, 0, 1) && r >= 0.0 && Det(InnovationOf(f.p, 0, 1, r, r)) >= TINY
    ensures At(f.p, 0, 0) >= FLOOR && At(f.p, 1, 1) >= FLOOR
    ensures var a, b := At(f.p, 0, 0), At(f.p, 1, 1);
            Update2(Node(f.x, f.p), 0, 1, zN, zE, r, r).x
            == f.x.(a := f.x.a + Prod(zN - f.x.a, Quot(a, a + r)), b := f.x.b + Prod(zE - f.x.b, Quot(b, b + r)))
  {
    hide Sound, At, FirstCov, FirstState, Condition, Row, Only, BothIsolated, Det, Prod, Quot, JointState, Updated2,
         Jointly, Symmetric;
    var m, y0, y1 := f.p, zN - f.x.a, zE - f.x.b;
    SoundParts(m);
    SecondAlone(m, r);
    MovesAlone(m, f.x, 0, r, y0);
    var x1 := FirstState(m, f.x, 0, r, y0);
    BatchIsSequential(m, f.x, 0, 1, r, r, y0, y1);
    JointStateIs(f, zN, zE, r, r, x1);
    MovesAlone(FirstCov(m, 0, r), x1, 1, r, y1);
  }

  lemma JetsonMoves(f: Filter, zN: real, zE: real, q: real)
    requires Sound(f.p) && BothIsolated(f.p, 0, 1) && q >= 0.0
    ensures At(f.p, 0, 0) >= FLOOR && At(f.p, 1, 1) >= FLOOR
    ensures var a, b := At(f.p, 0, 0), At(f.p, 1, 1);
            TwoScalars(f, zN, zE, q, q).x
            == f.x.(a := f.x.a + Prod(zN - f.x.a, Quot(a, a + q)), b := f.x.b + Prod(zE - f.x.b, Quot(b, b + q)))
  {
    hide Sound, At, FirstCov, FirstState, Condition, Row, Only, BothIsolated, Prod, Quot, TwoScalars;
    var m, y0, y1 := f.p, zN - f.x.a, zE - f.x.b;
    SecondAlone(m, q);
    TwoScalarsAre(f, zN, zE, q, q);
    MovesAlone(m, f.x, 0, q, y0);
    var x1 := FirstState(m, f.x, 0, q, y0);
    MovesAlone(Condition(FirstCov(m, 0, q)), x1, 1, q, y1);
  }

  /** Different variances of measurement take different shares. */
  lemma SharesTaken(y: real, v: real, r: real, q: real)
    requires v > 0.0 && 0.0 <= r < q
    ensures Prod(y, Quot(v, v + r)) == Prod(y, Quot(v, v + q)) <==> y == 0.0
  {
    var x, z := Quot(v, v + r), Quot(v, v + q);
    assert x * (v + r) == v && z * (v + q) == v;
    SharesApartBy(x, z, v, r, q);
    if y != 0.0 { ProductsApart(y, x, z); }
  }

  lemma SharesApartBy(x: real, z: real, v: real, r: real, q: real)
    requires v > 0.0 && 0.0 <= r < q && x * (v + r) == v && z * (v + q) == v
    ensures x != z
  {
    assert x * (v + q) - x * (v + r) == x * (q - r);
    ZeroProduct(x, q - r);
    assert x == 0.0 ==> x * (v + r) == 0.0;
  }

  /** Under half a metre the Jetson keeps to a quarter, the node goes below. Where the Jetson floors nothing in
      between the two then agree only if nothing shows: both states stand alone, even the quarter takes
      their variances to the floor, and there is nothing to correct. */
  lemma PreciseFixIff(f: Filter, pN: real, pE: real, std: real)
    requires Sound(f.p) && Prod(std, std) < 0.25
    requires Det(InnovationOf(f.p, 0, 1, Prod(std, std), Prod(std, std))) >= TINY
    requires At(f.p, 0, 0) + 0.25 != 0.0 && At(FirstCov(f.p, 0, 0.25), 1, 1) >= FLOOR
    ensures At(f.p, 0, 0) > 0.0 && At(f.p, 1, 1) > 0.0
    ensures SameFix(f, pN, pE, std)
            <==> (&& BothIsolated(f.p, 0, 1) && Sinks(At(f.p, 0, 0), 0.25) && Sinks(At(f.p, 1, 1), 0.25)
                  && pN == f.x.a && pE == f.x.b)
  {
    hide Sound, At, FirstCov, TwoScalars, BothIsolated, Sinks, Det, Prod, Quot, Update2, Updated, Updated2, Unit;
    var r, q := Prod(std, std), 0.25;
    SquareOf(std);
    CoarseSquare(q);
    SharperIff(f.p, 0, 1, r, q);
    CovariancesOf(f, pN, pE, r, r);
    CovariancesOf(f, pN, pE, q, q);
    if BothIsolated(f.p, 0, 1) {
      NodeMoves(f, pN, pE, r);
      JetsonMoves(f, pN, pE, q);
      SharesTaken(pN - f.x.a, At(f.p, 0, 0), r, q);
      SharesTaken(pE - f.x.b, At(f.p, 1, 1), r, q);
    }
  }

  // ---------------------------------------------------------------- three fixes

  /** North known to a metre and east to a millimetre, with a slight tie between them. */
  function Tied(): Mat {
    Mat(Vec(1.0, 0.0005, 0.0, 0.0, 0.0), Vec(0.0005, FLOOR, 0.0, 0.0, 0.0), Vec(0.0, 0.0, 1.0, 0.0, 0.0),
        Vec(0.0, 0.0, 0.0, 1.0, 0.0), Vec(0.0, 0.0, 0.0, 0.0, 1.0))
  }

  lemma TiedApply(v: Vec)
    ensures Apply(Tied(), v) == Vec(v.a + 0.0005 * v.b, 0.0005 * v.a + FLOOR * v.b, v.c, v.d, v.e)
  {
  }

  lemma TiedForm(v: Vec)
    ensures Form(Tied(), v, v) >= 0.0
  {
    hide Apply, Tied;
    TiedApply(v);
    TiedSquares(v.a, v.b);
    Square(v.b);
    Square(v.c);
    Square(v.d);
    Square(v.e);
    Square(v.a + 0.0005 * v.b);
  }

  lemma TiedSquares(a: real, b: real)
    ensures a * (a + 0.0005 * b) + b * (0.0005 * a + FLOOR * b)
            == (a + 0.0005 * b) * (a + 0.0005 * b) + 0.00000075 * (b * b)
  {
  }

  lemma TiedSound()
    ensures Sound(Tied())
  {
    hide Form;
    forall v ensures Form(Tied(), v, v) >= 0.0 {
      TiedForm(v);
    }
  }

  lemma TiedEntries()
    ensures At(Tied(), 0, 0) == 1.0 && At(Tied(), 1, 0) == 0.0005 && At(Tied(), 0, 1) == 0.0005
    ensures At(Tied(), 1, 1) == FLOOR && Symmetric(Tied())
  {
  }

  lemma TiedFirst(m: Mat)
    requires Symmetric(m) && At(m, 0, 0) == 1.0 && At(m, 1, 1) == FLOOR
    requires At(m, 1, 0) == 0.0005 && At(m, 0, 1) == 0.0005
    ensures var m1 := FirstCov(m, 0, 16.0); At(m1, 1, 1) < FLOOR && At(m1, 0, 1) != 0.0
  {
    hide At, FirstCov, Symmetric;
    SecondVariance(m, 0, 1, 16.0, 16.0);
    FirstSymmetric(m, 0, 16.0);
    SymmetricAccess(FirstCov(m, 0, 16.0), 0, 1);
    CrossLeft(m, 1, 0, 16.0);
  }

  /** At four metres, the value the firmware's own caller gives, the two filters can come out differently,
      whatever is measured. */
  lemma CoarseFixDiffers(x: Vec, pN: real, pE: real) returns (f: Filter)
    ensures f.x == x && Sound(f.p) && !SameFix(f, pN, pE, 4.0)
  {
    hide SameFix, Tied, At, FirstCov, Prod, Innovation2, Symmetric, PSD;
    f := Filter(x, Tied(), 0.0, 0.0, MPD_LAT, true);
    TiedSound();
    TiedEntries();
    TiedFirst(f.p);
    FourSquared();
    PositionFixIff(f, pN, pE, 4.0);
  }

  lemma FourSquared()
    ensures Prod(4.0, 4.0) == 16.0
  {
  }

  /** At a decimetre they do so even where nothing is tied to anything. */
  lemma PreciseFixDiffers(x: Vec, pN: real, pE: real) returns (f: Filter)
    ensures f.x == x && Sound(f.p) && !SameFix(f, pN, pE, 0.1)
  {
    hide SameFix, At, FirstCov, Prod, Det, Diag, PSD, Sinks;
    var one := Vec(1.0, 1.0, 1.0, 1.0, 1.0);
    f := Filter(x, Diag(one), 0.0, 0.0, MPD_LAT, true);
    DiagPSD(one);
    OneFacts(one);
    PreciseFixIff(f, pN, pE, 0.1);
  }

  lemma OneFacts(one: Vec)
    requires one == Vec(1.0, 1.0, 1.0, 1.0, 1.0)
    ensures Symmetric(Diag(one)) && Floored(Diag(one))
    ensures Prod(0.1, 0.1) == 0.01 && Det(InnovationOf(Diag(one), 0, 1, 0.01, 0.01)) >= TINY
    ensures At(Diag(one), 0, 0) == 1.0 && At(FirstCov(Diag(one), 0, 0.25), 1, 1) >= FLOOR && !Sinks(1.0, 0.25)
  {
  }

  /** At a millimetre, with both variances at the floor, the node ignores what the Jetson takes. */
  lemma SkippedFixDiffers(x: Vec, pN: real, pE: real) returns (f: Filter)
    requires pN != x.a
    ensures f.x == x && Sound(f.p) && GpsFix(Node(f.x, f.p), pN, pE, 0.001) == Node(f.x, f.p)
    ensures !SameFix(f, pN, pE, 0.001)
  {
    hide SameFix, GpsFix, At, Prod, Det, Diag, PSD, Exhausted;
    var low := Vec(FLOOR, FLOOR, FLOOR, FLOOR, FLOOR);
    f := Filter(x, Diag(low), 0.0, 0.0, MPD_LAT, true);
    DiagPSD(low);
    LowFacts(low);
    SkippedFixIff(f, pN, pE, 0.001);
  }

  lemma LowFacts(low: Vec)
    requires low == Vec(FLOOR, FLOOR, FLOOR, FLOOR, FLOOR)
    ensures Symmetric(Diag(low)) && Floored(Diag(low))
    ensures Det(InnovationOf(Diag(low), 0, 1, Prod(0.001, 0.001), Prod(0.001, 0.001))) < TINY
  {
  }
}
