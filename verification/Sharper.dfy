/** A joint update with one variance of measurement against two single updates with a larger one: the
    firmware takes a variance as it is reported, the Jetson never goes below a quarter. */
module Sharper {
  import opened Arithmetic
  import opened Covariance
  import opened Flooring
  import opened Matrix
  import opened TwoRow

  // ---------------------------------------------------------------- one side measures more sharply

  /** The two single updates with one variance, before flooring. */
  function Twice(m: Mat, i: nat, j: nat, t: real): Mat
    requires i < 5 && j < 5 && At(m, i, i) + t != 0.0 && At(FirstCov(m, i, t), j, j) + t != 0.0
  {
    FirstCov(FirstCov(m, i, t), j, t)
  }

  /** The variance that is left of `v`. */
  function Kept(v: real, t: real): real
    requires v + t != 0.0
  {
    Prod(v, Quot(t, v + t))
  }

  lemma TwiceReady(m: Mat, i: nat, j: nat, t: real)
    requires Sound(m) && i < 5 && j < 5 && t >= 0.0 && Det(InnovationOf(m, i, j, t, t)) > 0.0
    ensures At(m, i, i) >= FLOOR && At(m, j, j) >= FLOOR && At(FirstCov(m, i, t), j, j) + t > 0.0
    ensures Symmetric(FirstCov(m, i, t)) && Symmetric(Twice(m, i, j, t))
    ensures Prod(At(m, i, i) + t, At(FirstCov(m, i, t), j, j) + t) == Det(InnovationOf(m, i, j, t, t))
  {
    hide Symmetric, PSD, Floored, FirstCov, At, Det, Prod;
    DiagonalFloored(m, i);
    DiagonalFloored(m, j);
    SecondPositive(m, i, j, t, t);
    SecondVariance(m, i, j, t, t);
    FirstSymmetric(m, i, t);
    FirstSymmetric(FirstCov(m, i, t), j, t);
  }

  lemma FirstSymmetric(m: Mat, i: nat, t: real)
    requires Symmetric(m) && i < 5 && At(m, i, i) + t != 0.0
    ensures Symmetric(FirstCov(m, i, t))
  {
    hide Symmetric, At, Row, Corrected;
    CorrectedSymmetric(m, Row(m, i), At(m, i, i) + t);
  }

  /** What is left of the cross term between the two. */
  lemma TwiceCross(m: Mat, i: nat, j: nat, t: real)
    requires Sound(m) && i < 5 && j < 5 && t >= 0.0 && Det(InnovationOf(m, i, j, t, t)) > 0.0
    ensures At(m, i, i) + t != 0.0 && At(FirstCov(m, i, t), j, j) + t != 0.0
    ensures At(Twice(m, i, j, t), i, j) == Prod(At(m, i, j), Quot(Prod(t, t), Det(InnovationOf(m, i, j, t, t))))
  {
    hide Symmetric, PSD, Floored, FirstCov, At, Det, Prod, Quot;
    SoundParts(m);
    TwiceReady(m, i, j, t);
    SymmetricAccess(m, i, j);
    SymmetricAccess(FirstCov(m, i, t), i, j);
    CrossLeft(m, j, i, t);
    CrossLeft(FirstCov(m, i, t), i, j, t);
    SharesMultiply(At(m, i, j), t, At(m, i, i) + t, At(FirstCov(m, i, t), j, j) + t, Det(InnovationOf(m, i, j, t, t)));
  }

  lemma SharesMultiply(c: real, t: real, u: real, w: real, d: real)
    requires u > 0.0 && w > 0.0 && Prod(u, w) == d && d > 0.0
    ensures Prod(Prod(c, Quot(t, u)), Quot(t, w)) == Prod(c, Quot(Prod(t, t), d))
  {
    var x, y, z := Quot(t, u), Quot(t, w), Quot(Prod(t, t), d);
    assert x * u == t && y * w == t && z * d == t * t;
    assert (x * y) * (u * w) == (x * u) * (y * w);
    SameFactor(x * y, z, d);
    assert (c * x) * y == c * (x * y);
  }

  lemma SameFactor(x: real, y: real, d: real)
    requires d > 0.0 && x * d == y * d
    ensures x == y
  {
    assert (x - y) * d == 0.0;
    ZeroProduct(x - y, d);
  }

  /** The sharper measurement leaves less of it. */
  lemma CrossSharper(a: real, b: real, cc: real, r: real, q: real, dr: real, dq: real)
    requires a > 0.0 && b > 0.0 && 0.0 <= cc <= Prod(a, b) && 0.0 <= r < q
    requires dr == (a + r) * (b + r) - cc && dq == (a + q) * (b + q) - cc && dr > 0.0 && dq > 0.0
    ensures Quot(Prod(r, r), dr) != Quot(Prod(q, q), dq)
  {
    hide Quot, Prod;
    var x, y := Quot(Prod(r, r), dr), Quot(Prod(q, q), dq);
    DetExpands(a, b, cc, r, dr);
    DetExpands(a, b, cc, q, dq);
    CrossGap(a + b, Prod(a, b) - cc, r, q, dr, dq);
    QuotTimes(Prod(r, r), dr);
    QuotTimes(Prod(q, q), dq);
    SharesCross(x, y, Prod(r, r), Prod(q, q), dr, dq);
  }

  lemma QuotTimes(x: real, s: real)
    requires s != 0.0
    ensures Prod(Quot(x, s), s) == x
  {
  }

  lemma SharesCross(x: real, y: real, u: real, w: real, dr: real, dq: real)
    requires Prod(x, dr) == u && Prod(y, dq) == w
    ensures x == y ==> Prod(u, dq) == Prod(w, dr)
  {
    assert u * dq == (x * dr) * dq == (x * dq) * dr;
    assert w * dr == (y * dq) * dr;
  }

  lemma DetExpands(a: real, b: real, cc: real, t: real, d: real)
    requires d == (a + t) * (b + t) - cc
    ensures d == (Prod(a, b) - cc) + Prod(a + b, t) + Prod(t, t)
  {
  }

  lemma CrossGap(s: real, delta: real, r: real, q: real, dr: real, dq: real)
    requires s > 0.0 && delta >= 0.0 && 0.0 <= r < q && dr > 0.0
    requires dr == delta + Prod(s, r) + Prod(r, r) && dq == delta + Prod(s, q) + Prod(q, q)
    ensures Prod(Prod(r, r), dq) < Prod(Prod(q, q), dr)
  {
    if r > 0.0 {
      GapTerms(s, delta, r, q, dr, dq);
      var g, sum, sr := q - r, q + r, s * r;
      var u, w := q * g, g * sum;
      Scaled(q, g);
      Scaled(g, sum);
      Nonneg(w, delta);
      Scaled(s, r);
      Scaled(sr, u);
    } else {
      CrossGapZero(q, dr, dq);
    }
  }

  lemma ProdPositive(x: real, y: real)
    requires x > 0.0 && y > 0.0
    ensures Prod(x, y) > 0.0
  {
    Scaled(x, y);
  }

  lemma CrossGapZero(q: real, dr: real, dq: real)
    requires q > 0.0 && dr > 0.0
    ensures Prod(Prod(0.0, 0.0), dq) < Prod(Prod(q, q), dr)
  {
    hide Prod;
    ProdZero(0.0);
    ProdZero(dq);
    ProdPositive(q, q);
    ProdPositive(Prod(q, q), dr);
  }

  lemma GapTerms(s: real, delta: real, r: real, q: real, dr: real, dq: real)
    requires dr == delta + s * r + r * r && dq == delta + s * q + q * q
    ensures (q * q) * dr - (r * r) * dq == (s * r) * (q * (q - r)) + ((q - r) * (q + r)) * delta
  {
    var u, w := q * q, r * r;
    assert u * dr == u * delta + u * (s * r) + u * w;
    assert w * dq == w * delta + w * (s * q) + u * w;
    assert (s * r) * (q * (q - r)) == (s * r) * u - (s * q) * w;
    assert (q - r) * (q + r) == u - w;
  }

  lemma SharesVary(v: real, r: real, q: real)
    requires v > 0.0 && 0.0 <= r < q
    ensures Quot(r, v + r) < Quot(q, v + q)
  {
    var x, y := Quot(r, v + r), Quot(q, v + q);
    assert x * (v + r) == r && y * (v + q) == q;
    ShareBelow(v, r);
    assert x * (v + q) == r + x * (q - r);
    assert x * (q - r) < q - r by { Scaled(1.0 - x, q - r); }
    if x >= y { Nonneg(x - y, v + q); }
  }

  /** Both measured states stand alone. */
  predicate BothIsolated(m: Mat, i: nat, j: nat)
    requires i < 5 && j < 5
  {
    Isolated(m, i) && Isolated(m, j)
  }

  /** The first update on a state that is tied to no other. */
  lemma AloneFirst(m: Mat, i: nat, t: real, k: nat, l: nat)
    requires Symmetric(m) && i < 5 && k < 5 && l < 5 && Isolated(m, i) && At(m, i, i) + t != 0.0
    ensures At(FirstCov(m, i, t), k, l) == if k == i && l == i then Kept(At(m, i, i), t) else At(m, k, l)
  {
    hide Symmetric, FirstCov, At, Prod, Quot;
    if l == i {
      CrossLeft(m, k, i, t);
      ProdZero(Quot(t, At(m, i, i) + t));
    } else {
      SymmetricAccess(m, i, l);
      EntryKept(m, k, i, l, t);
    }
  }

  lemma TwiceAlone(m: Mat, i: nat, j: nat, t: real, k: nat, l: nat)
    requires Sound(m) && i < 5 && j < 5 && i != j && k < 5 && l < 5 && t >= 0.0 && BothIsolated(m, i, j)
    requires Det(InnovationOf(m, i, j, t, t)) > 0.0
    ensures At(m, i, i) >= FLOOR && At(m, j, j) >= FLOOR && At(FirstCov(m, i, t), j, j) + t != 0.0
    ensures At(Twice(m, i, j, t), k, l)
            == if k == i && l == i then Kept(At(m, i, i), t)
               else if k == j && l == j then Kept(At(m, j, j), t) else At(m, k, l)
  {
    hide Symmetric, PSD, Floored, FirstCov, At, Kept, Det;
    TwiceReady(m, i, j, t);
    forall x: nat | x < 5 ensures At(FirstCov(m, i, t), x, j) == At(m, x, j) {
      AloneFirst(m, i, t, x, j);
    }
    AloneFirst(m, i, t, k, l);
    AloneFirst(FirstCov(m, i, t), j, t, k, l);
  }

  lemma EntriesDecide(m: Mat, n: Mat)
    requires forall k: nat, l: nat | k < 5 && l < 5 :: At(m, k, l) == At(n, k, l)
    ensures m == n
  {
    forall k: nat | k < 5 ensures Row(m, k) == Row(n, k) {
      RowByEntries(m, n, k);
    }
    RowsDecide(m, n);
  }

  lemma RowByEntries(m: Mat, n: Mat, k: nat)
    requires k < 5 && forall l: nat | l < 5 :: At(m, k, l) == At(n, k, l)
    ensures Row(m, k) == Row(n, k)
  {
    assert At(m, k, 0) == At(n, k, 0) && At(m, k, 1) == At(n, k, 1) && At(m, k, 2) == At(n, k, 2);
    assert At(m, k, 3) == At(n, k, 3) && At(m, k, 4) == At(n, k, 4);
  }

  lemma ConditionAt(m: Mat, k: nat, l: nat)
    requires Symmetric(m) && k < 5 && l < 5
    ensures At(Condition(m), k, l) == if k == l then Floor(At(m, k, k)) else At(m, k, l)
  {
    hide Symmetric, At, Condition, Floor;
    if k == l { ConditionEntries(m, k); } else { ConditionEntry(m, k, l); }
  }

  /** Even the blunter measurement takes the variance to the floor. */
  predicate Sinks(v: real, q: real)
    requires v + q != 0.0
  {
    Kept(v, q) <= FLOOR
  }

  lemma SinksIff(v: real, r: real, q: real)
    requires v > 0.0 && 0.0 <= r < q
    ensures Floor(Kept(v, r)) == Floor(Kept(v, q)) <==> Sinks(v, q)
  {
    hide Prod, Quot;
    SharesVary(v, r, q);
    KeptOrder(v, Quot(r, v + r), Quot(q, v + q));
  }

  lemma KeptOrder(v: real, x: real, y: real)
    requires v > 0.0 && x < y
    ensures Prod(v, x) < Prod(v, y)
  {
    Scaled(v, y - x);
  }

  lemma DetOf(m: Mat, i: nat, j: nat, t: real)
    requires Symmetric(m) && i < 5 && j < 5
    ensures Det(InnovationOf(m, i, j, t, t)) == (At(m, i, i) + t) * (At(m, j, j) + t) - Prod(At(m, i, j), At(m, i, j))
  {
    hide At, Symmetric;
    SymmetricAccess(m, i, j);
  }

  /** Off the diagonal, equal conditioned matrices come from equal ones. */
  lemma SameOff(m: Mat, n: Mat, k: nat, l: nat)
    requires Symmetric(m) && Symmetric(n) && k < 5 && l < 5 && k != l && Condition(m) == Condition(n)
    ensures At(m, k, l) == At(n, k, l)
  {
    hide Symmetric, At, Condition;
    ConditionEntry(m, k, l);
    ConditionEntry(n, k, l);
  }

  /** Different variances of measurement leave different cross terms between the two, unless there is none. */
  lemma SharperTie(m: Mat, i: nat, j: nat, r: real, q: real)
    requires Sound(m) && i < 5 && j < 5 && i != j && 0.0 <= r < q
    requires Det(InnovationOf(m, i, j, r, r)) > 0.0 && Det(InnovationOf(m, i, j, q, q)) > 0.0
    ensures At(m, i, i) > 0.0 && At(FirstCov(m, i, r), j, j) + r != 0.0 && At(FirstCov(m, i, q), j, j) + q != 0.0
    ensures Condition(Twice(m, i, j, r)) == Condition(Twice(m, i, j, q)) ==> At(m, i, j) == 0.0
  {
    hide Symmetric, PSD, Floored, FirstCov, At, Det, Prod, Quot, Condition, Twice;
    SoundParts(m);
    TwiceReady(m, i, j, r);
    TwiceReady(m, i, j, q);
    TwiceCross(m, i, j, r);
    TwiceCross(m, i, j, q);
    if Condition(Twice(m, i, j, r)) == Condition(Twice(m, i, j, q)) && At(m, i, j) != 0.0 {
      SameOff(Twice(m, i, j, r), Twice(m, i, j, q), i, j);
      DetOf(m, i, j, r);
      DetOf(m, i, j, q);
      CrossBound(m, i, j);
      SquareOf(At(m, i, j));
      CrossSharper(At(m, i, i), At(m, j, j), Prod(At(m, i, j), At(m, i, j)), r, q,
                   Det(InnovationOf(m, i, j, r, r)), Det(InnovationOf(m, i, j, q, q)));
      ProductsApart(At(m, i, j), Quot(Prod(r, r), Det(InnovationOf(m, i, j, r, r))),
                    Quot(Prod(q, q), Det(InnovationOf(m, i, j, q, q))));
      assert false;
    }
  }

  lemma SquareOf(x: real)
    ensures Prod(x, x) >= 0.0
  {
    Square(x);
  }

  /** Where the two are not tied, cross terms with a third state are each one share of what they were. */
  lemma TwiceOthers(m: Mat, i: nat, j: nat, t: real, k: nat)
    requires Sound(m) && i < 5 && j < 5 && k < 5 && i != j && k != i && k != j && t >= 0.0
    requires Det(InnovationOf(m, i, j, t, t)) > 0.0 && At(m, i, j) == 0.0
    ensures At(m, i, i) > 0.0 && At(m, j, j) > 0.0 && At(FirstCov(m, i, t), j, j) + t != 0.0
    ensures At(Twice(m, i, j, t), k, i) == Prod(At(m, k, i), Quot(t, At(m, i, i) + t))
    ensures At(Twice(m, i, j, t), k, j) == Prod(At(m, k, j), Quot(t, At(m, j, j) + t))
  {
    hide Symmetric, PSD, Floored, FirstCov, At, Det, Prod, Quot;
    SoundParts(m);
    TwiceReady(m, i, j, t);
    SymmetricAccess(m, i, j);
    CrossLeft(m, j, i, t);
    ProdZero(Quot(t, At(m, i, i) + t));
    CrossLeft(m, k, i, t);
    EntryKept(FirstCov(m, i, t), k, j, i, t);
    EntryKept(m, k, i, j, t);
    EntryKept(m, j, i, j, t);
    CrossLeft(FirstCov(m, i, t), k, j, t);
  }

  lemma SharperOthers(m: Mat, i: nat, j: nat, r: real, q: real, k: nat)
    requires Sound(m) && i < 5 && j < 5 && k < 5 && i != j && k != i && k != j && 0.0 <= r < q
    requires Det(InnovationOf(m, i, j, r, r)) > 0.0 && Det(InnovationOf(m, i, j, q, q)) > 0.0 && At(m, i, j) == 0.0
    ensures At(m, i, i) > 0.0 && At(FirstCov(m, i, r), j, j) + r != 0.0 && At(FirstCov(m, i, q), j, j) + q != 0.0
    ensures Condition(Twice(m, i, j, r)) == Condition(Twice(m, i, j, q)) ==> At(m, k, i) == 0.0 && At(m, k, j) == 0.0
  {
    hide Sound, FirstCov, At, Det, Prod, Quot, Condition, Twice, Symmetric;
    TwiceReady(m, i, j, r);
    TwiceReady(m, i, j, q);
    TwiceOthers(m, i, j, r, k);
    TwiceOthers(m, i, j, q, k);
    SharesVary(At(m, i, i), r, q);
    SharesVary(At(m, j, j), r, q);
    OneFactor(At(m, k, i), Quot(r, At(m, i, i) + r), Quot(q, At(m, i, i) + q));
    OneFactor(At(m, k, j), Quot(r, At(m, j, j) + r), Quot(q, At(m, j, j) + q));
    if Condition(Twice(m, i, j, r)) == Condition(Twice(m, i, j, q)) {
      SameOff(Twice(m, i, j, r), Twice(m, i, j, q), k, i);
      SameOff(Twice(m, i, j, r), Twice(m, i, j, q), k, j);
    }
  }

  lemma OneFactor(c: real, a: real, b: real)
    requires a != b
    ensures Prod(c, a) == Prod(c, b) ==> c == 0.0
  {
    if c != 0.0 { ProductsApart(c, a, b); }
  }

  /** Agreeing in spite of different variances of measurement: only where both states stand alone. */
  lemma SharperApart(m: Mat, i: nat, j: nat, r: real, q: real)
    requires Sound(m) && i < 5 && j < 5 && i != j && 0.0 <= r < q
    requires Det(InnovationOf(m, i, j, r, r)) > 0.0 && Det(InnovationOf(m, i, j, q, q)) > 0.0
    ensures At(m, i, i) > 0.0 && At(FirstCov(m, i, r), j, j) + r != 0.0 && At(FirstCov(m, i, q), j, j) + q != 0.0
    ensures Condition(Twice(m, i, j, r)) == Condition(Twice(m, i, j, q)) ==> BothIsolated(m, i, j)
  {
    hide Sound, FirstCov, At, Det, Condition, Twice, Symmetric;
    SharperTie(m, i, j, r, q);
    SoundParts(m);
    SymmetricAccess(m, i, j);
    if Condition(Twice(m, i, j, r)) == Condition(Twice(m, i, j, q)) {
      forall k: nat | k < 5 && k != i && k != j ensures At(m, k, i) == 0.0 && At(m, k, j) == 0.0 {
        SharperOthers(m, i, j, r, q, k);
      }
    }
  }

  /** And there, exactly where the blunter measurement takes both variances to the floor. */
  lemma SharperAlone(m: Mat, i: nat, j: nat, r: real, q: real)
    requires Sound(m) && i < 5 && j < 5 && i != j && 0.0 <= r < q && BothIsolated(m, i, j)
    requires Det(InnovationOf(m, i, j, r, r)) > 0.0 && Det(InnovationOf(m, i, j, q, q)) > 0.0
    ensures At(m, i, i) > 0.0 && At(m, j, j) > 0.0
    ensures At(FirstCov(m, i, r), j, j) + r != 0.0 && At(FirstCov(m, i, q), j, j) + q != 0.0
    ensures Condition(Twice(m, i, j, r)) == Condition(Twice(m, i, j, q))
            <==> Sinks(At(m, i, i), q) && Sinks(At(m, j, j), q)
  {
    hide Sound, FirstCov, At, Det, Condition, Twice, Symmetric, Kept, Sinks, Floor, BothIsolated;
    TwiceReady(m, i, j, r);
    TwiceReady(m, i, j, q);
    SinksIff(At(m, i, i), r, q);
    SinksIff(At(m, j, j), r, q);
    forall k: nat, l: nat | k < 5 && l < 5
      ensures At(Condition(Twice(m, i, j, r)), k, l) == At(Condition(Twice(m, i, j, q)), k, l)
              <==> ((k == i && l == i ==> Sinks(At(m, i, i), q)) && (k == j && l == j ==> Sinks(At(m, j, j), q)))
    {
      TwiceAlone(m, i, j, r, k, l);
      TwiceAlone(m, i, j, q, k, l);
      ConditionAt(Twice(m, i, j, r), k, l);
      ConditionAt(Twice(m, i, j, q), k, l);
    }
    assert At(Condition(Twice(m, i, j, r)), i, i) == At(Condition(Twice(m, i, j, q)), i, i) <==> Sinks(At(m, i, i), q);
    assert At(Condition(Twice(m, i, j, r)), j, j) == At(Condition(Twice(m, i, j, q)), j, j) <==> Sinks(At(m, j, j), q);
    if Sinks(At(m, i, i), q) && Sinks(At(m, j, j), q) {
      EntriesDecide(Condition(Twice(m, i, j, r)), Condition(Twice(m, i, j, q)));
    }
  }

  /** The joint update with one variance of measurement and the two scalar ones with a larger one, as coded:
      they agree exactly where both states stand alone and even the larger one takes both variances to the
      floor. (Where the scalar ones floor the second variance in between is left aside.) */
  lemma SharperIff(m: Mat, i: nat, j: nat, r: real, q: real)
    requires Sound(m) && i < 5 && j < 5 && i != j && 0.0 <= r < q && Prod(q, q) >= TINY
    requires Det(InnovationOf(m, i, j, r, r)) >= TINY && At(FirstCov(m, i, q), j, j) >= FLOOR
    ensures At(m, i, i) > 0.0 && At(m, j, j) > 0.0
    ensures Updated2(m, i, j, r, r) == Updated(Updated(m, Unit(i), q), Unit(j), q)
            <==> (BothIsolated(m, i, j) && Sinks(At(m, i, i), q) && Sinks(At(m, j, j), q))
  {
    hide Sound, FirstCov, At, Det, Condition, Jointly, Symmetric, Sinks, Floor, BothIsolated, Updated, Prod, Unit;
    DetBound(m, i, j, q, q);
    SoundParts(m);
    TwiceReady(m, i, j, r);
    TwiceReady(m, i, j, q);
    JointMatchesScalars(m, i, j, q, q);
    BatchIsSequential(m, Vec(0.0, 0.0, 0.0, 0.0, 0.0), i, j, r, r, 0.0, 0.0);
    BatchIsSequential(m, Vec(0.0, 0.0, 0.0, 0.0, 0.0), i, j, q, q, 0.0, 0.0);
    SharperApart(m, i, j, r, q);
    if BothIsolated(m, i, j) { SharperAlone(m, i, j, r, q); }
  }

  // ---------------------------------------------------------------- a coincidence

  /** Two states at the floor, tied to each other and to nothing else. */
  function Pair(c: real): Mat {
    Mat(Vec(FLOOR, c, 0.0, 0.0, 0.0), Vec(c, FLOOR, 0.0, 0.0, 0.0), Vec(0.0, 0.0, 1.0, 0.0, 0.0),
        Vec(0.0, 0.0, 0.0, 1.0, 0.0), Vec(0.0, 0.0, 0.0, 0.0, 1.0))
  }

  lemma PairEntries(c: real)
    ensures Symmetric(Pair(c)) && Floored(Pair(c)) && At(Pair(c), 0, 0) == FLOOR == At(Pair(c), 1, 1)
    ensures At(Pair(c), 0, 1) == c == At(Pair(c), 1, 0)
    ensures forall l: nat | 2 <= l < 5 :: At(Pair(c), 0, l) == 0.0 && At(Pair(c), 1, l) == 0.0
  {
  }

  lemma PairApply(c: real, v: Vec)
    ensures Apply(Pair(c), v) == Vec(FLOOR * v.a + c * v.b, c * v.a + FLOOR * v.b, v.c, v.d, v.e)
  {
  }

  lemma PairSquares(c: real, a: real, b: real)
    requires -FLOOR <= c <= FLOOR
    ensures a * (FLOOR * a + c * b) + b * (c * a + FLOOR * b) >= 0.0
  {
    var x, y := (a + b) * (a + b), (a - b) * (a - b);
    Square(a + b);
    Square(a - b);
    assert a * (FLOOR * a + c * b) + b * (c * a + FLOOR * b) == (FLOOR + c) / 2.0 * x + (FLOOR - c) / 2.0 * y;
    Nonneg((FLOOR + c) / 2.0, x);
    Nonneg((FLOOR - c) / 2.0, y);
  }

  lemma PairSound(c: real)
    requires -FLOOR <= c <= FLOOR
    ensures Sound(Pair(c))
  {
    hide Form, At;
    PairEntries(c);
    forall v ensures Form(Pair(c), v, v) >= 0.0 {
      PairForm(c, v);
    }
  }

  lemma PairForm(c: real, v: Vec)
    requires -FLOOR <= c <= FLOOR
    ensures Form(Pair(c), v, v) >= 0.0
  {
    hide Apply, Pair;
    PairApply(c, v);
    PairSquares(c, v.a, v.b);
    Square(v.c);
    Square(v.d);
    Square(v.e);
  }

  /** A matrix in which the first two states are tied to nothing but each other. */
  predicate Apart(m: Mat) {
    forall l: nat | 2 <= l < 5 :: At(m, 0, l) == 0.0 && At(m, 1, l) == 0.0
  }

  /** An update with one of them leaves everything else alone. */
  lemma ApartFirst(m: Mat, j: nat, t: real)
    requires Symmetric(m) && Apart(m) && j < 2 && At(m, j, j) + t != 0.0
    ensures Symmetric(FirstCov(m, j, t)) && Apart(FirstCov(m, j, t))
    ensures forall k: nat, l: nat | k < 5 && 2 <= l < 5 :: At(FirstCov(m, j, t), k, l) == At(m, k, l)
  {
    hide Symmetric, FirstCov, At;
    FirstSymmetric(m, j, t);
    forall k: nat, l: nat | k < 5 && 2 <= l < 5 ensures At(FirstCov(m, j, t), k, l) == At(m, k, l) {
      EntryKept(m, k, j, l, t);
    }
  }

  /** Two such matrices whose first two variances are floored to the same differ at most in the tie. */
  lemma ApartAgree(m: Mat, n: Mat)
    requires Symmetric(m) && Symmetric(n) && At(m, 0, 1) == At(n, 0, 1)
    requires forall k: nat, l: nat | k < 5 && 2 <= l < 5 :: At(m, k, l) == At(n, k, l)
    requires At(m, 0, 0) <= FLOOR && At(m, 1, 1) <= FLOOR && At(n, 0, 0) <= FLOOR && At(n, 1, 1) <= FLOOR
    ensures Condition(m) == Condition(n)
  {
    hide Symmetric, At, Condition;
    SymmetricAccess(m, 0, 1);
    SymmetricAccess(n, 0, 1);
    FloorTakes(At(m, 0, 0), 0.0);
    FloorTakes(At(m, 1, 1), 0.0);
    FloorTakes(At(n, 0, 0), 0.0);
    FloorTakes(At(n, 1, 1), 0.0);
    forall k: nat, l: nat | k < 5 && l < 5 ensures At(Condition(m), k, l) == At(Condition(n), k, l) {
      ConditionAt(m, k, l);
      ConditionAt(n, k, l);
      SymmetricAccess(m, k, l);
      SymmetricAccess(n, k, l);
    }
    EntriesDecide(Condition(m), Condition(n));
  }

  /** Both ways of updating a pair, entry by entry but for the tie. */
  lemma PairAgrees(c: real, r: real, q: real)
    requires -FLOOR <= c <= FLOOR && r > 0.0 && q > 0.0
    ensures var m := Pair(c);
            && At(m, 0, 0) + r != 0.0 && At(m, 0, 0) + q != 0.0 && At(FirstCov(m, 0, r), 1, 1) + r != 0.0
            && var n := Condition(FirstCov(m, 0, q));
               && At(n, 1, 1) == FLOOR && At(n, 0, 1) == Prod(c, Quot(q, FLOOR + q))
               && (At(Twice(m, 0, 1, r), 0, 1) == Prod(At(n, 0, 1), Quot(q, FLOOR + q)) ==>
                     Condition(Twice(m, 0, 1, r)) == Condition(FirstCov(n, 1, q)))
  {
    hide Pair, Symmetric, PSD, Floored, FirstCov, At, Condition, Apart, Prod, Quot;
    var m := Pair(c);
    PairSound(c);
    SoundParts(m);
    PairEntries(c);
    PairApart(c);
    var m1, m2 := FirstCov(m, 0, r), FirstCov(m, 0, q);
    FirstSound(m, 0, r);
    FirstSound(m, 0, q);
    VarianceNonneg(m1, 1);
    VarianceNonneg(m2, 1);
    ApartFirst(m, 0, r);
    ApartFirst(m, 0, q);
    ApartFirst(m1, 1, r);
    LowersBoth(m, 0, r);
    LowersBoth(m, 0, q);
    LowersBoth(m1, 1, r);
    var n := Condition(m2);
    FloorTakes(At(m2, 0, 0), 0.0);
    FloorTakes(At(m2, 1, 1), 0.0);
    ConditionSound(m2);
    SoundParts(n);
    ConditionApart(m2);
    ConditionAt(m2, 0, 0);
    ConditionAt(m2, 1, 1);
    ConditionAt(m2, 0, 1);
    SymmetricAccess(m2, 0, 1);
    CrossLeft(m, 1, 0, q);
    ApartFirst(n, 1, q);
    LowersBoth(n, 1, q);
    CrossLeft(n, 0, 1, q);
    KeptFar(m, m2, n);
    if At(Twice(m, 0, 1, r), 0, 1) == Prod(At(n, 0, 1), Quot(q, FLOOR + q)) {
      ApartAgree(Twice(m, 0, 1, r), FirstCov(n, 1, q));
    }
  }

  lemma PairApart(c: real)
    ensures Apart(Pair(c))
  {
  }

  lemma LowersBoth(m: Mat, j: nat, t: real)
    requires Symmetric(m) && PSD(m) && j < 5 && t > 0.0 && At(m, 0, 0) <= FLOOR && At(m, 1, 1) <= FLOOR
    ensures At(m, j, j) + t != 0.0
    ensures At(FirstCov(m, j, t), 0, 0) <= FLOOR && At(FirstCov(m, j, t), 1, 1) <= FLOOR
  {
    hide Symmetric, PSD, FirstCov, At;
    VarianceNonneg(m, j);
    FirstLowersAt(m, j, t, 0);
    FirstLowersAt(m, j, t, 1);
  }

  lemma ConditionApart(m: Mat)
    requires Symmetric(m) && Apart(m)
    ensures Apart(Condition(m))
  {
    hide Symmetric, At, Condition;
    forall l: nat | 2 <= l < 5 ensures At(Condition(m), 0, l) == 0.0 && At(Condition(m), 1, l) == 0.0 {
      ConditionAt(m, 0, l);
      ConditionAt(m, 1, l);
    }
  }

  /** Conditioning does not touch what was floored before and has not changed since. */
  lemma KeptFar(m: Mat, n: Mat, c: Mat)
    requires Symmetric(m) && Floored(m) && Symmetric(n) && c == Condition(n)
    requires forall k: nat, l: nat | k < 5 && 2 <= l < 5 :: At(n, k, l) == At(m, k, l)
    ensures forall k: nat, l: nat | k < 5 && 2 <= l < 5 :: At(c, k, l) == At(m, k, l)
  {
    hide Symmetric, At, Condition, Floored;
    forall k: nat, l: nat | k < 5 && 2 <= l < 5 ensures At(c, k, l) == At(m, k, l) {
      ConditionAt(n, k, l);
      DiagonalFloored(m, l);
    }
  }

  /** The flooring in between can hide a different variance of measurement: with both variances at the floor,
      half as much tie between them and nearly the same variances of measurement, both ways end in the same
      covariance, although neither state stands alone. */
  lemma Coincides() returns (m: Mat, r: real)
    ensures Sound(m) && 0.0 < r < 0.25 && !Isolated(m, 0) && Det(InnovationOf(m, 0, 1, r, r)) >= TINY
    ensures Updated2(m, 0, 1, r, r) == Updated(Updated(m, Unit(0), 0.25), Unit(1), 0.25)
  {
    hide Pair, Symmetric, PSD, Floored, FirstCov, At, Condition, Prod, Quot, Det, Jointly, Updated, Unit, Isolated;
    var c := FLOOR * (500002000000.0 / 1000000500001.0);
    r := 0.25 * (999999999999.0 / 1000000500001.0);
    m := Pair(c);
    PairSound(c);
    SoundParts(m);
    PairEntries(c);
    PairTied(m);
    SmallDet(m, c, r);
    PairAgrees(c, r, 0.25);
    TwiceCross(m, 0, 1, r);
    Tuned(c, r, Det(InnovationOf(m, 0, 1, r, r)));
    BatchIsSequential(m, Vec(0.0, 0.0, 0.0, 0.0, 0.0), 0, 1, r, r, 0.0, 0.0);
    FlooredSound(m, 0, 0.25);
    SoundParts(Condition(FirstCov(m, 0, 0.25)));
    UpdatedIsFirst(m, 0, 0.25);
    UpdatedIsFirst(Condition(FirstCov(m, 0, 0.25)), 1, 0.25);
  }

  lemma PairTied(m: Mat)
    requires At(m, 1, 0) != 0.0
    ensures !Isolated(m, 0)
  {
    hide At;
    assert At(m, 1, 0) != 0.0;
  }

  lemma SmallDet(m: Mat, c: real, r: real)
    requires Symmetric(m) && At(m, 0, 0) == FLOOR == At(m, 1, 1) && At(m, 0, 1) == c
    ensures Det(InnovationOf(m, 0, 1, r, r)) == (FLOOR + r) * (FLOOR + r) - c * c
  {
    hide At, Symmetric;
    DetOf(m, 0, 1, r);
  }

  lemma Tuned(c: real, r: real, d: real)
    requires c == FLOOR * (500002000000.0 / 1000000500001.0) && r == 0.25 * (999999999999.0 / 1000000500001.0)
    requires d == (FLOOR + r) * (FLOOR + r) - c * c
    ensures d >= TINY
    ensures Prod(c, Quot(Prod(r, r), d)) == Prod(Prod(c, Quot(0.25, FLOOR + 0.25)), Quot(0.25, FLOOR + 0.25))
  {
  }
}
