/** The joint update as coded against the two single updates as coded: the single ones floor every
    variance in between, the joint one skips an innovation that is close to singular. */
module Flooring {
  import opened Arithmetic
  import opened Covariance
  import opened Matrix
  import opened TwoRow

  // ---------------------------------------------------------------- flooring in between

  /** By how much conditioning raises each variance. */
  function Lifts(m: Mat): Vec {
    Vec(Lift(m.r0.a), Lift(m.r1.b), Lift(m.r2.c), Lift(m.r3.d), Lift(m.r4.e))
  }

  lemma LiftedRow(m: Mat, d: Vec, j: nat)
    requires j < 5 && Get(d, j) == 0.0
    ensures Row(Add(m, Diag(d)), j) == Row(m, j) && At(Add(m, Diag(d)), j, j) == At(m, j, j)
  {
  }

  lemma LiftedEntry(x: real, d: real, k: real, h: real)
    ensures Lin(1.0, Lin(1.0, x, 1.0, d), -k, h) == Lin(1.0, Lin(1.0, x, -k, h), 1.0, d)
  {
  }

  lemma LiftedVec(u: Vec, d: Vec, k: real, h: Vec)
    ensures Comb(1.0, Comb(1.0, u, 1.0, d), -k, h) == Comb(1.0, Comb(1.0, u, -k, h), 1.0, d)
  {
    hide Lin;
    LiftedEntry(u.a, d.a, k, h.a);
    LiftedEntry(u.b, d.b, k, h.b);
    LiftedEntry(u.c, d.c, k, h.c);
    LiftedEntry(u.d, d.d, k, h.d);
    LiftedEntry(u.e, d.e, k, h.e);
  }

  lemma LiftedDowndate(m: Mat, n: Mat, k: Vec, h: Vec)
    ensures Downdate(Add(m, n), k, h) == Add(Downdate(m, k, h), n)
  {
    hide Comb;
    LiftedVec(m.r0, n.r0, k.a, h);
    LiftedVec(m.r1, n.r1, k.b, h);
    LiftedVec(m.r2, n.r2, k.c, h);
    LiftedVec(m.r3, n.r3, k.d, h);
    LiftedVec(m.r4, n.r4, k.e, h);
  }

  /** A lift elsewhere does not disturb the update with state j. */
  lemma LiftedFirst(m: Mat, d: Vec, j: nat, r: real)
    requires j < 5 && Get(d, j) == 0.0 && At(m, j, j) + r != 0.0
    ensures At(Add(m, Diag(d)), j, j) == At(m, j, j)
    ensures FirstCov(Add(m, Diag(d)), j, r) == Add(FirstCov(m, j, r), Diag(d))
  {
    hide Row, At, Add, Diag, Get, Gain, Downdate;
    LiftedRow(m, d, j);
    LiftedDowndate(m, Diag(d), Gain(Row(m, j), At(m, j, j) + r), Row(m, j));
  }

  lemma ConditionOfLifted(m: Mat, d: Vec)
    requires Floor(m.r0.a + d.a) == Floor(m.r0.a) && Floor(m.r1.b + d.b) == Floor(m.r1.b)
    requires Floor(m.r2.c + d.c) == Floor(m.r2.c) && Floor(m.r3.d + d.d) == Floor(m.r3.d)
    requires Floor(m.r4.e + d.e) == Floor(m.r4.e)
    ensures Condition(Add(m, Diag(d))) == Condition(m)
  {
    hide Floor;
  }

  /** A variance that was lifted to the floor and has fallen since would be lifted to the floor anyway. */
  lemma FloorAbsorbs(m1: real, m2: real)
    requires m2 <= m1
    ensures Floor(m2 + Lift(m1)) == Floor(m2)
  {
  }

  lemma LiftsAbsorbed(m1: Mat, m2: Mat)
    requires m2.r0.a <= m1.r0.a && m2.r1.b <= m1.r1.b && m2.r2.c <= m1.r2.c && m2.r3.d <= m1.r3.d && m2.r4.e <= m1.r4.e
    ensures Condition(Add(m2, Diag(Lifts(m1)))) == Condition(m2)
  {
    hide Condition, Add, Diag, Lift, Floor;
    FloorAbsorbs(m1.r0.a, m2.r0.a);
    FloorAbsorbs(m1.r1.b, m2.r1.b);
    FloorAbsorbs(m1.r2.c, m2.r2.c);
    FloorAbsorbs(m1.r3.d, m2.r3.d);
    FloorAbsorbs(m1.r4.e, m2.r4.e);
    ConditionOfLifted(m2, Lifts(m1));
  }

  lemma FirstLowers(m: Mat, j: nat, r: real)
    requires Symmetric(m) && PSD(m) && j < 5 && r >= 0.0 && At(m, j, j) + r > 0.0
    ensures var n := FirstCov(m, j, r);
            n.r0.a <= m.r0.a && n.r1.b <= m.r1.b && n.r2.c <= m.r2.c && n.r3.d <= m.r3.d && n.r4.e <= m.r4.e
  {
    var n := FirstCov(m, j, r);
    FirstLowersAt(m, j, r, 0);
    FirstLowersAt(m, j, r, 1);
    FirstLowersAt(m, j, r, 2);
    FirstLowersAt(m, j, r, 3);
    FirstLowersAt(m, j, r, 4);
    hide FirstCov;
  }

  lemma FirstLowersAt(m: Mat, j: nat, r: real, i: nat)
    requires Symmetric(m) && PSD(m) && i < 5 && j < 5 && r >= 0.0 && At(m, j, j) + r > 0.0
    ensures At(FirstCov(m, j, r), i, i) <= At(m, i, i)
  {
    hide Form, Apply, Corrected, Row, Col, At, Symmetric, PSD, Unit;
    UnitApply(m, j);
    SymmetricAccess(m, j, j);
    CorrectedPSD(m, Unit(j), r);
    UnitApply(m, i);
    UnitApply(FirstCov(m, j, r), i);
    assert Form(FirstCov(m, j, r), Unit(i), Unit(i)) <= Form(m, Unit(i), Unit(i));
  }

  lemma LiftsAt(m: Mat, j: nat)
    requires j < 5
    ensures Get(Lifts(m), j) == Lift(At(m, j, j)) && (At(m, j, j) >= FLOOR ==> Lift(At(m, j, j)) == 0.0)
  {
  }

  /** After the first update as coded, the second sees what it would have seen without the flooring,
      as long as its own variance was not floored. */
  lemma SecondUndisturbed(m1: Mat, j: nat, r: real)
    requires Symmetric(m1) && PSD(m1) && j < 5 && r >= 0.0 && At(m1, j, j) >= FLOOR
    ensures At(Condition(m1), j, j) == At(m1, j, j) && Row(Condition(m1), j) == Row(m1, j)
    ensures Condition(FirstCov(Condition(m1), j, r)) == Condition(FirstCov(m1, j, r))
  {
    hide Condition, Add, Diag, Lifts, Lift, FirstCov, Symmetric, PSD, At, Row, Get;
    ConditionLifts(m1);
    LiftsAt(m1, j);
    LiftedRow(m1, Lifts(m1), j);
    LiftedFirst(m1, Lifts(m1), j, r);
    FirstLowers(m1, j, r);
    LiftsAbsorbed(m1, FirstCov(m1, j, r));
  }

  lemma ConditionLifts(m: Mat)
    requires Symmetric(m)
    ensures Condition(m) == Add(m, Diag(Lifts(m)))
  {
    ConditionIsLift(m);
    hide Condition, Add, Lift;
  }

  /** The joint update of the node's filter and the two scalar updates of the Jetson's agree as coded,
      flooring included, whenever the first correction leaves the second variance above the floor. */
  lemma JointMatchesScalars(m: Mat, i: nat, j: nat, r0: real, r1: real)
    requires Sound(m) && i < 5 && j < 5 && r0 >= 0.0 && r1 >= 0.0
    requires At(FirstCov(m, i, r0), j, j) >= FLOOR && Det(InnovationOf(m, i, j, r0, r1)) >= TINY
    ensures Updated2(m, i, j, r0, r1) == Updated(Updated(m, Unit(i), r0), Unit(j), r1)
  {
    hide Det, At, Row, Jointly, FirstCov, Symmetric, PSD, Floored, Condition, Updated, Unit;
    DiagonalFloored(m, i);
    var m1 := FirstCov(m, i, r0);
    FirstSound(m, i, r0);
    ConditionSound(m1);
    SecondUndisturbed(m1, j, r1);
    UpdatedIsFirst(m, i, r0);
    UpdatedIsFirst(Condition(m1), j, r1);
    BatchIsSequential(m, Vec(0.0, 0.0, 0.0, 0.0, 0.0), i, j, r0, r1, 0.0, 0.0);
  }

  // ---------------------------------------------------------------- when the second variance was floored

  /** State j is tied to no other. */
  predicate Isolated(m: Mat, j: nat)
    requires j < 5
  {
    forall i: nat | i < 5 && i != j :: At(m, i, j) == 0.0
  }

  function Only(j: nat, x: real): Vec {
    Vec(if j == 0 then x else 0.0, if j == 1 then x else 0.0, if j == 2 then x else 0.0, if j == 3 then x else 0.0,
        if j == 4 then x else 0.0)
  }

  lemma IsolatedRow(m: Mat, j: nat)
    requires Symmetric(m) && j < 5 && Isolated(m, j)
    ensures Row(m, j) == Only(j, At(m, j, j))
  {
    SymmetricAccess(m, 0, j);
    SymmetricAccess(m, 1, j);
    SymmetricAccess(m, 2, j);
    SymmetricAccess(m, 3, j);
    SymmetricAccess(m, 4, j);
    hide Symmetric;
  }

  lemma RowsDecide(m: Mat, n: Mat)
    requires forall i: nat | i < 5 :: Row(m, i) == Row(n, i)
    ensures m == n
  {
    assert Row(m, 0) == Row(n, 0) && Row(m, 1) == Row(n, 1) && Row(m, 2) == Row(n, 2);
    assert Row(m, 3) == Row(n, 3) && Row(m, 4) == Row(n, 4);
  }

  lemma NothingTaken(u: Vec, h: Vec, s: real)
    requires s != 0.0
    ensures Comb(1.0, u, -Quot(0.0, s), h) == u
  {
  }

  lemma OnlyOwn(j: nat, v: real, k: real)
    ensures Comb(1.0, Only(j, v), -k, Only(j, v)) == Comb(1.0, Only(j, v), 1.0, Only(j, -Prod(k, v)))
  {
  }

  lemma RowOfSum(m: Mat, j: nat, x: real, i: nat)
    requires i < 5 && j < 5
    ensures Row(Add(m, Diag(Only(j, x))), i) == if i == j then Comb(1.0, Row(m, j), 1.0, Only(j, x)) else Row(m, i)
    ensures Get(Only(j, x), i) == if i == j then x else 0.0
  {
  }

  /** The update with such a state changes nothing but its own variance. */
  lemma IsolatedFirst(m: Mat, j: nat, r: real)
    requires j < 5 && Row(m, j) == Only(j, At(m, j, j)) && At(m, j, j) + r != 0.0
    ensures var v := At(m, j, j);
            FirstCov(m, j, r) == Add(m, Diag(Only(j, -Prod(Quot(v, v + r), v))))
  {
    hide Row, At, Corrected, Only, Add, Diag, Comb, Quot, Prod, Get;
    var v := At(m, j, j);
    var x := -Prod(Quot(v, v + r), v);
    forall i: nat | i < 5 ensures Row(FirstCov(m, j, r), i) == Row(Add(m, Diag(Only(j, x))), i) {
      CorrectedRow(m, Row(m, j), v + r, i);
      RowOfSum(m, j, v, i);
      RowOfSum(m, j, x, i);
      if i == j {
        OnlyOwn(j, v, Quot(v, v + r));
      } else {
        NothingTaken(Row(m, i), Row(m, j), v + r);
      }
    }
    RowsDecide(FirstCov(m, j, r), Add(m, Diag(Only(j, x))));
  }

  lemma FloorTakes(x: real, y: real)
    requires x <= FLOOR && y >= 0.0
    ensures Floor(x - y) == FLOOR
  {
  }

  lemma ShareNonneg(v: real, r: real)
    requires v >= 0.0 && v + r > 0.0
    ensures Prod(Quot(v, v + r), v) >= 0.0
  {
    var q := Quot(v, v + r);
    assert q * (v + r) == v;
    if q < 0.0 { Scaled(-q, v + r); }
    Nonneg(q, v);
  }

  lemma LiftedCondition(m: Mat, j: nat, x: real)
    requires j < 5 && Floor(At(m, j, j) + x) == Floor(At(m, j, j))
    ensures Condition(Add(m, Diag(Only(j, x)))) == Condition(m)
  {
    ConditionOfLifted(m, Only(j, x));
    hide Floor, Condition, Add, Diag;
  }

  lemma ConditionTwice(m: Mat)
    ensures Condition(Condition(m)) == Condition(m)
  {
  }

  /** Floored or not, an isolated second state makes no difference. */
  lemma IsolatedAgrees(m1: Mat, j: nat, r: real)
    requires Symmetric(m1) && PSD(m1) && j < 5 && Isolated(m1, j) && 0.0 <= At(m1, j, j) < FLOOR && r > 0.0
    ensures var n := Condition(m1);
            At(n, j, j) == FLOOR && Condition(FirstCov(n, j, r)) == Condition(FirstCov(m1, j, r))
  {
    hide Symmetric, PSD, Row, At, Corrected, Condition, Only, Add, Diag, Floor, Prod, Quot, Isolated;
    var n, v := Condition(m1), At(m1, j, j);
    FloorTakes(v, 0.0);
    FloorTakes(FLOOR, 0.0);
    IsolatedRow(m1, j);
    ConditionEntries(m1, j);
    ConditionIsolated(m1, j);
    ConditionSymmetric(m1);
    IsolatedRow(n, j);
    IsolatedFirst(m1, j, r);
    IsolatedFirst(n, j, r);
    ShareNonneg(v, r);
    ShareNonneg(FLOOR, r);
    FloorTakes(v, Prod(Quot(v, v + r), v));
    FloorTakes(FLOOR, Prod(Quot(FLOOR, FLOOR + r), FLOOR));
    LiftedCondition(m1, j, -Prod(Quot(v, v + r), v));
    LiftedCondition(n, j, -Prod(Quot(FLOOR, FLOOR + r), FLOOR));
    ConditionTwice(m1);
  }

  lemma ConditionSymmetric(m: Mat)
    ensures Symmetric(Condition(m))
  {
  }

  lemma ConditionEntries(m: Mat, j: nat)
    requires Symmetric(m) && j < 5
    ensures At(Condition(m), j, j) == Floor(At(m, j, j))
    ensures forall i: nat | i < 5 && i != j :: At(Condition(m), i, j) == At(m, i, j)
  {
    forall i: nat | i < 5 && i != j ensures At(Condition(m), i, j) == At(m, i, j) {
      ConditionEntry(m, i, j);
    }
    hide Symmetric;
  }

  lemma ConditionEntry(m: Mat, i: nat, j: nat)
    requires Symmetric(m) && i < 5 && j < 5 && i != j
    ensures At(Condition(m), i, j) == At(m, i, j)
  {
    hide Floor;
  }

  lemma ConditionIsolated(m: Mat, j: nat)
    requires Symmetric(m) && j < 5 && Isolated(m, j)
    ensures Isolated(Condition(m), j)
  {
    hide Symmetric, Condition, At;
    ConditionEntries(m, j);
  }

  /** What an update with state j leaves of a cross term with it. */
  lemma CrossLeft(m: Mat, i: nat, j: nat, r: real)
    requires Symmetric(m) && i < 5 && j < 5 && At(m, j, j) + r != 0.0
    ensures At(FirstCov(m, j, r), i, j) == Prod(At(m, i, j), Quot(r, At(m, j, j) + r))
  {
    hide Symmetric, Corrected, Row, Comb, Get, Quot, Lin, Prod;
    SymmetricAccess(m, i, j);
    CorrectedRow(m, Row(m, j), At(m, j, j) + r, i);
    CombGet(1.0, Row(m, i), -Quot(Get(Row(m, j), i), At(m, j, j) + r), Row(m, j), j);
    Left(At(m, i, j), At(m, j, j), r);
  }

  lemma Left(c: real, v: real, r: real)
    requires v + r != 0.0
    ensures Lin(1.0, c, -Quot(c, v + r), v) == Prod(c, Quot(r, v + r))
  {
    var s := v + r;
    assert Quot(c, s) * s == c && Quot(r, s) * s == r;
    var q := Quot(c, s);
    assert q * v == q * s - q * r;
    assert q * r == q * (Quot(r, s) * s) == (q * s) * Quot(r, s);
  }

  /** A smaller variance leaves more of its cross terms. */
  lemma SharesPart(c: real, v: real, w: real, r: real)
    requires 0.0 <= v < w && r > 0.0 && c != 0.0
    ensures Prod(c, Quot(r, v + r)) != Prod(c, Quot(r, w + r))
  {
    var a, b := Quot(r, v + r), Quot(r, w + r);
    assert a * (v + r) == r && b * (w + r) == r;
    SharesApart(v, w, r, a, b);
    ProductsApart(c, a, b);
  }

  lemma SharesApart(v: real, w: real, r: real, a: real, b: real)
    requires 0.0 <= v < w && r > 0.0 && a * (v + r) == r && b * (w + r) == r
    ensures a != b
  {
    assert a * (w + r) - a * (v + r) == a * (w - v);
    ZeroProduct(a, w - v);
  }

  lemma ProductsApart(c: real, a: real, b: real)
    requires c != 0.0 && a != b
    ensures Prod(c, a) != Prod(c, b)
  {
    assert c * a - c * b == c * (a - b);
    ZeroProduct(c, a - b);
  }

  /** A second state that was floored and is tied to another comes out differently. */
  lemma TiedDiffers(m1: Mat, i: nat, j: nat, r: real)
    requires Symmetric(m1) && PSD(m1) && i < 5 && j < 5 && i != j && At(m1, i, j) != 0.0
    requires 0.0 <= At(m1, j, j) < FLOOR && r > 0.0
    ensures var n := Condition(m1);
            At(n, j, j) == FLOOR && Condition(FirstCov(n, j, r)) != Condition(FirstCov(m1, j, r))
  {
    hide Symmetric, PSD, At, Row, Corrected, Condition, Floor, Prod, Quot;
    var n, v := Condition(m1), At(m1, j, j);
    FloorTakes(v, 0.0);
    ConditionEntries(m1, j);
    ConditionSymmetric(m1);
    CrossLeft(m1, i, j, r);
    CrossLeft(n, i, j, r);
    SharesPart(At(m1, i, j), v, FLOOR, r);
    CorrectedSymmetric(m1, Row(m1, j), v + r);
    CorrectedSymmetric(n, Row(n, j), FLOOR + r);
    ConditionEntry(FirstCov(m1, j, r), i, j);
    ConditionEntry(FirstCov(n, j, r), i, j);
  }

  // ---------------------------------------------------------------- when two single updates change nothing

  /** State i is tied to no other and its variance is at the floor: no measurement of it changes anything. */
  predicate Exhausted(m: Mat, i: nat)
    requires i < 5
  {
    Row(m, i) == Only(i, FLOOR)
  }

  lemma ExhaustedIff(m: Mat, i: nat)
    requires Symmetric(m) && i < 5
    ensures Exhausted(m, i) <==> (At(m, i, i) == FLOOR && Isolated(m, i))
  {
    if Isolated(m, i) { IsolatedRow(m, i); }
    if Exhausted(m, i) {
      forall k: nat | k < 5 && k != i ensures At(m, k, i) == 0.0 {
        SymmetricAccess(m, k, i);
      }
    }
  }

  /** A variance above the floor is lowered by every measurement of it. */
  lemma VarianceFalls(m: Mat, i: nat, r: real)
    requires Symmetric(m) && i < 5 && r >= 0.0 && At(m, i, i) >= FLOOR
    ensures At(Condition(FirstCov(m, i, r)), i, i) <= At(m, i, i)
    ensures At(Condition(FirstCov(m, i, r)), i, i) == At(m, i, i) ==> At(m, i, i) == FLOOR
  {
    hide Symmetric, At, Corrected, Condition, Row, Prod, Quot;
    var v := At(m, i, i);
    CrossLeft(m, i, i, r);
    KeptBelow(v, r);
    CorrectedSymmetric(m, Row(m, i), v + r);
    ConditionEntries(FirstCov(m, i, r), i);
  }

  lemma KeptBelow(v: real, r: real)
    requires v > 0.0 && r >= 0.0
    ensures Prod(v, Quot(r, v + r)) < v
  {
    var q := Quot(r, v + r);
    assert q * (v + r) == r;
    if q >= 1.0 { Nonneg(q - 1.0, v + r); }
    Scaled(v, 1.0 - q);
  }

  /** An update with state i raises no variance above where it was, flooring included. */
  lemma NoneRises(m: Mat, i: nat, r: real, k: nat)
    requires Symmetric(m) && PSD(m) && i < 5 && k < 5 && r >= 0.0 && At(m, i, i) > 0.0 && At(m, k, k) >= FLOOR
    ensures At(Condition(FirstCov(m, i, r)), k, k) <= At(m, k, k)
  {
    hide Symmetric, PSD, At, Corrected, Condition, Row;
    FirstLowersAt(m, i, r, k);
    CorrectedSymmetric(m, Row(m, i), At(m, i, i) + r);
    ConditionEntries(FirstCov(m, i, r), k);
  }

  /** A cross term with a state that the measured one is not tied to stays. */
  lemma EntryKept(m: Mat, i: nat, j: nat, k: nat, r: real)
    requires Symmetric(m) && i < 5 && j < 5 && k < 5 && At(m, j, j) + r != 0.0 && At(m, j, k) == 0.0
    ensures At(FirstCov(m, j, r), i, k) == At(m, i, k)
  {
    hide Symmetric, Corrected, Row, Comb, Get, Quot, Lin;
    CorrectedRow(m, Row(m, j), At(m, j, j) + r, i);
    CombGet(1.0, Row(m, i), -Quot(Get(Row(m, j), i), At(m, j, j) + r), Row(m, j), k);
    LinZero(At(m, i, k), -Quot(Get(Row(m, j), i), At(m, j, j) + r));
  }

  lemma LinZero(x: real, k: real)
    ensures Lin(1.0, x, k, 0.0) == x
  {
  }

  lemma ShareBelow(v: real, r: real)
    requires v > 0.0 && r >= 0.0
    ensures 0.0 <= Quot(r, v + r) < 1.0
  {
    var q := Quot(r, v + r);
    assert q * (v + r) == r;
    if q < 0.0 { Scaled(-q, v + r); }
    if q >= 1.0 { Nonneg(q - 1.0, v + r); }
  }

  lemma OnlyZeroKept(c: real, s: real)
    requires Prod(c, s) == c && s < 1.0
    ensures c == 0.0
  {
    ZeroProduct(c, 1.0 - s);
  }

  lemma TwiceKept(c: real, s: real, t: real)
    requires Prod(Prod(c, s), t) == c && 0.0 <= s < 1.0 && 0.0 <= t < 1.0
    ensures c == 0.0
  {
    Nonneg(s, 1.0 - t);
    OnlyZeroKept(c, s * t);
  }

  /** After a flooring update with state i its cross terms are the shares `r / S` of what they were. */
  lemma CrossAfter(m: Mat, k: nat, i: nat, r: real)
    requires Symmetric(m) && k < 5 && i < 5 && k != i && At(m, i, i) + r != 0.0
    ensures var n := Condition(FirstCov(m, i, r));
            Symmetric(n) && At(n, k, i) == Prod(At(m, k, i), Quot(r, At(m, i, i) + r))
  {
    hide Symmetric, At, Corrected, Condition, Row, Prod, Quot;
    CrossLeft(m, k, i, r);
    CorrectedSymmetric(m, Row(m, i), At(m, i, i) + r);
    ConditionEntry(FirstCov(m, i, r), k, i);
    ConditionSymmetric(FirstCov(m, i, r));
  }

  /** And other cross terms of a state that i is not tied to stay. */
  lemma OtherAfter(m: Mat, k: nat, i: nat, j: nat, r: real)
    requires Symmetric(m) && k < 5 && i < 5 && j < 5 && k != j && At(m, i, i) + r != 0.0 && At(m, i, j) == 0.0
    ensures At(Condition(FirstCov(m, i, r)), k, j) == At(m, k, j)
  {
    hide Symmetric, At, Corrected, Condition, Row;
    EntryKept(m, k, i, j, r);
    CorrectedSymmetric(m, Row(m, i), At(m, i, i) + r);
    ConditionEntry(FirstCov(m, i, r), k, j);
  }

  /** Measuring an exhausted state changes nothing. */
  lemma ExhaustedStays(m: Mat, i: nat, r: real)
    requires Symmetric(m) && Floored(m) && i < 5 && r >= 0.0 && Exhausted(m, i)
    ensures At(m, i, i) == FLOOR && Condition(FirstCov(m, i, r)) == m
  {
    hide Symmetric, Floored, Row, At, Corrected, Condition, Only, Add, Diag, Floor, Prod, Quot, Isolated;
    ExhaustedIff(m, i);
    IsolatedFirst(m, i, r);
    ShareNonneg(FLOOR, r);
    FloorTakes(FLOOR, Prod(Quot(FLOOR, FLOOR + r), FLOOR));
    FloorTakes(FLOOR, 0.0);
    LiftedCondition(m, i, -Prod(Quot(FLOOR, FLOOR + r), FLOOR));
    ConditionIdle(m);
  }

  /** What a flooring update leaves is in good order. */
  lemma FlooredSound(m: Mat, i: nat, r: real)
    requires Sound(m) && i < 5 && r >= 0.0
    ensures At(m, i, i) >= FLOOR && Sound(Condition(FirstCov(m, i, r)))
  {
    hide Symmetric, PSD, Floored, Condition, FirstCov, At;
    DiagonalFloored(m, i);
    FirstSound(m, i, r);
    ConditionSound(FirstCov(m, i, r));
  }

  lemma SoundParts(m: Mat)
    requires Sound(m)
    ensures Symmetric(m) && PSD(m) && Floored(m)
  {
  }

  /** Two flooring updates that change nothing found both variances at the floor. */
  lemma TwoIdleVariances(m: Mat, i: nat, j: nat, r0: real, r1: real)
    requires Sound(m) && i < 5 && j < 5 && r0 >= 0.0 && r1 >= 0.0
    ensures At(m, i, i) >= FLOOR
    ensures var n := Condition(FirstCov(m, i, r0));
            && At(n, j, j) >= FLOOR
            && (Condition(FirstCov(n, j, r1)) == m ==>
                  At(m, i, i) == FLOOR && At(m, j, j) == FLOOR && At(n, j, j) == FLOOR)
  {
    hide Sound, Symmetric, PSD, Floored, Condition, FirstCov, At;
    SoundParts(m);
    FlooredSound(m, i, r0);
    var n := Condition(FirstCov(m, i, r0));
    FlooredSound(n, j, r1);
    SoundParts(n);
    DiagonalFloored(m, j);
    DiagonalFloored(n, i);
    NoneRises(m, i, r0, j);
    NoneRises(n, j, r1, i);
    VarianceFalls(m, i, r0);
    VarianceFalls(n, j, r1);
  }

  /** And no cross term between the two. */
  lemma TwoIdleTie(m: Mat, i: nat, j: nat, r0: real, r1: real, k: nat)
    requires Symmetric(m) && i < 5 && j < 5 && k < 5 && r0 >= 0.0 && r1 >= 0.0 && At(m, i, i) > 0.0
    requires (i != j && k == j) || (i == j && k != i)
    requires var n := Condition(FirstCov(m, i, r0)); At(n, j, j) > 0.0 && Condition(FirstCov(n, j, r1)) == m
    ensures At(m, k, i) == 0.0 && At(m, i, k) == 0.0
  {
    hide Symmetric, Condition, FirstCov, At, Prod, Quot;
    var n := Condition(FirstCov(m, i, r0));
    var s, t := Quot(r0, At(m, i, i) + r0), Quot(r1, At(n, j, j) + r1);
    SymmetricAccess(m, i, k);
    CrossAfter(m, k, i, r0);
    SymmetricAccess(n, i, k);
    CrossAfter(n, if i == j then k else i, j, r1);
    ShareBelow(At(m, i, i), r0);
    ShareBelow(At(n, j, j), r1);
    TwiceKept(At(m, k, i), s, t);
  }

  /** Nor any with a third state. */
  lemma TwoIdleOthers(m: Mat, i: nat, j: nat, r0: real, r1: real, k: nat)
    requires Symmetric(m) && i < 5 && j < 5 && k < 5 && i != j && k != i && k != j && r0 >= 0.0 && r1 >= 0.0
    requires At(m, i, i) > 0.0 && At(m, j, i) == 0.0 && At(m, i, j) == 0.0
    requires var n := Condition(FirstCov(m, i, r0)); At(n, j, j) > 0.0 && Condition(FirstCov(n, j, r1)) == m
    ensures At(m, k, i) == 0.0 && At(m, k, j) == 0.0
  {
    hide Symmetric, Condition, FirstCov, At, Prod, Quot;
    var n := Condition(FirstCov(m, i, r0));
    CrossAfter(m, j, i, r0);
    ProdZero(Quot(r0, At(m, i, i) + r0));
    CrossAfter(m, k, i, r0);
    OtherAfter(n, k, j, i, r1);
    OtherAfter(m, k, i, j, r0);
    CrossAfter(n, k, j, r1);
    ShareBelow(At(m, i, i), r0);
    ShareBelow(At(n, j, j), r1);
    OnlyZeroKept(At(m, k, i), Quot(r0, At(m, i, i) + r0));
    OnlyZeroKept(At(m, k, j), Quot(r1, At(n, j, j) + r1));
  }

  lemma ProdZero(s: real)
    ensures Prod(0.0, s) == 0.0
  {
  }

  /** Two flooring updates in sequence change nothing exactly when both states are exhausted. */
  lemma TwoIdleIff(m: Mat, i: nat, j: nat, r0: real, r1: real)
    requires Sound(m) && i < 5 && j < 5 && r0 >= 0.0 && r1 >= 0.0
    ensures At(m, i, i) >= FLOOR
    ensures var n := Condition(FirstCov(m, i, r0));
            && At(n, j, j) >= FLOOR
            && (Condition(FirstCov(n, j, r1)) == m <==> Exhausted(m, i) && Exhausted(m, j))
  {
    hide Sound, Symmetric, PSD, Floored, Condition, FirstCov, At, Exhausted;
    SoundParts(m);
    TwoIdleVariances(m, i, j, r0, r1);
    var n := Condition(FirstCov(m, i, r0));
    if Exhausted(m, i) && Exhausted(m, j) {
      ExhaustedStays(m, i, r0);
      ExhaustedStays(m, j, r1);
    }
    if Condition(FirstCov(n, j, r1)) == m {
      ExhaustedIff(m, i);
      ExhaustedIff(m, j);
      forall k: nat | k < 5 && (k != i || k != j)
        ensures k != i ==> At(m, k, i) == 0.0
        ensures k != j ==> At(m, k, j) == 0.0
      {
        if i == j {
          TwoIdleTie(m, i, j, r0, r1, k);
        } else {
          TwoIdleTie(m, i, j, r0, r1, j);
          if k != i && k != j { TwoIdleOthers(m, i, j, r0, r1, k); }
        }
      }
    }
  }

  // ---------------------------------------------------------------- the comparison

  /** As coded, the joint covariance update and the two scalar ones agree in exactly these cases: above the
      singularity guard, when the first correction leaves the second variance above the floor or the second
      state tied to no other; below it, where the joint one is skipped, when both states are exhausted.
      Measurement variances whose product is not tiny are always above the guard. */
  lemma JointMatchesScalarsIff(m: Mat, i: nat, j: nat, r0: real, r1: real)
    requires Sound(m) && i < 5 && j < 5 && r0 >= 0.0 && r1 > 0.0
    ensures At(m, i, i) + r0 != 0.0
    ensures Updated2(m, i, j, r0, r1) == Updated(Updated(m, Unit(i), r0), Unit(j), r1)
            <==> (if Det(InnovationOf(m, i, j, r0, r1)) >= TINY
                  then At(FirstCov(m, i, r0), j, j) >= FLOOR || Isolated(FirstCov(m, i, r0), j)
                  else Exhausted(m, i) && Exhausted(m, j))
    ensures Prod(r0, r1) >= TINY ==> Det(InnovationOf(m, i, j, r0, r1)) >= TINY
  {
    hide Sound, Det, At, Row, Jointly, FirstCov, Symmetric, PSD, Floored, Condition, Updated, Updated2, Unit, Isolated,
         Exhausted, Prod;
    SoundParts(m);
    DiagonalFloored(m, i);
    DetBound(m, i, j, r0, r1);
    if Det(InnovationOf(m, i, j, r0, r1)) >= TINY {
      AboveGuard(m, i, j, r0, r1);
    } else {
      BelowGuard(m, i, j, r0, r1);
    }
  }

  lemma AboveGuard(m: Mat, i: nat, j: nat, r0: real, r1: real)
    requires Sound(m) && i < 5 && j < 5 && r0 >= 0.0 && r1 > 0.0 && Det(InnovationOf(m, i, j, r0, r1)) >= TINY
    ensures At(m, i, i) + r0 != 0.0
    ensures var m1 := FirstCov(m, i, r0);
            Updated2(m, i, j, r0, r1) == Updated(Updated(m, Unit(i), r0), Unit(j), r1)
            <==> (At(m1, j, j) >= FLOOR || Isolated(m1, j))
  {
    hide Det, At, Row, Jointly, FirstCov, Symmetric, PSD, Floored, Condition, Updated, Unit, Isolated;
    DiagonalFloored(m, i);
    var m1 := FirstCov(m, i, r0);
    FirstSound(m, i, r0);
    VarianceNonneg(m1, j);
    ConditionSound(m1);
    if At(m1, j, j) >= FLOOR {
      JointMatchesScalars(m, i, j, r0, r1);
    } else {
      UpdatedIsFirst(m, i, r0);
      BatchIsSequential(m, Vec(0.0, 0.0, 0.0, 0.0, 0.0), i, j, r0, r1, 0.0, 0.0);
      if Isolated(m1, j) {
        IsolatedAgrees(m1, j, r1);
      } else {
        var k := Tie(m1, j);
        TiedDiffers(m1, k, j, r1);
      }
      UpdatedIsFirst(Condition(m1), j, r1);
    }
  }

  lemma BelowGuard(m: Mat, i: nat, j: nat, r0: real, r1: real)
    requires Sound(m) && i < 5 && j < 5 && r0 >= 0.0 && r1 >= 0.0 && Det(InnovationOf(m, i, j, r0, r1)) < TINY
    ensures Updated2(m, i, j, r0, r1) == m
    ensures m == Updated(Updated(m, Unit(i), r0), Unit(j), r1) <==> Exhausted(m, i) && Exhausted(m, j)
  {
    hide Sound, Det, At, Row, Jointly, FirstCov, Symmetric, PSD, Floored, Condition, Updated, Unit, Exhausted, Prod;
    SoundParts(m);
    DetBound(m, i, j, r0, r1);
    TwoIdleIff(m, i, j, r0, r1);
    FlooredSound(m, i, r0);
    SoundParts(Condition(FirstCov(m, i, r0)));
    UpdatedIsFirst(m, i, r0);
    UpdatedIsFirst(Condition(FirstCov(m, i, r0)), j, r1);
  }

  lemma Tie(m: Mat, j: nat) returns (k: nat)
    requires j < 5 && !Isolated(m, j)
    ensures k < 5 && k != j && At(m, k, j) != 0.0
  {
    hide At;
    k :| k < 5 && k != j && At(m, k, j) != 0.0;
  }
}
