/** The filters keep a 5x5 matrix in a flat array of 25 reals. These are their in-place loops,
    each tied to the matrix operation it carries out. */
module FlatMatrix {
  import opened Arithmetic
  import opened Covariance
  import opened Matrix

  function Ix(r: nat, c: nat): (k: nat)
    requires r < 5 && c < 5
    ensures k < 25
  {
    r * 5 + c
  }

  function VecOf(s: seq<real>): Vec
    requires |s| == 5
  {
    Vec(s[0], s[1], s[2], s[3], s[4])
  }

  function MatOf(s: seq<real>): Mat
    requires |s| == 25
  {
    Mat(Vec(s[0], s[1], s[2], s[3], s[4]), Vec(s[5], s[6], s[7], s[8], s[9]), Vec(s[10], s[11], s[12], s[13], s[14]),
        Vec(s[15], s[16], s[17], s[18], s[19]), Vec(s[20], s[21], s[22], s[23], s[24]))
  }

  lemma VecOfGet(s: seq<real>)
    requires |s| == 5
    ensures forall k: nat | k < 5 :: s[k] == Get(VecOf(s), k)
  {
  }

  lemma VecOfEquals(s: seq<real>, v: Vec)
    requires |s| == 5 && forall k: nat | k < 5 :: s[k] == Get(v, k)
    ensures VecOf(s) == v
  {
    assert s[0] == Get(v, 0) && s[1] == Get(v, 1) && s[2] == Get(v, 2) && s[3] == Get(v, 3) && s[4] == Get(v, 4);
  }

  lemma MatOfRow(s: seq<real>, r: nat)
    requires |s| == 25 && r < 5
    ensures Row(MatOf(s), r) == Vec(s[Ix(r, 0)], s[Ix(r, 1)], s[Ix(r, 2)], s[Ix(r, 3)], s[Ix(r, 4)])
  {
  }

  lemma MatOfEntry(s: seq<real>, r: nat, c: nat)
    requires |s| == 25 && r < 5 && c < 5
    ensures s[Ix(r, c)] == At(MatOf(s), r, c)
  {
    MatOfRow(s, r);
    hide MatOf, Row, Ix;
  }

  lemma MatOfAt(s: seq<real>)
    requires |s| == 25
    ensures forall r: nat, c: nat | r < 5 && c < 5 :: s[Ix(r, c)] == At(MatOf(s), r, c)
  {
    forall r: nat, c: nat | r < 5 && c < 5 ensures s[Ix(r, c)] == At(MatOf(s), r, c) {
      MatOfEntry(s, r, c);
    }
  }

  lemma SameEntries(m: Mat, n: Mat)
    requires forall r: nat, c: nat | r < 5 && c < 5 :: At(m, r, c) == At(n, r, c)
    ensures m == n
  {
    SameRow(m, n, 0); SameRow(m, n, 1); SameRow(m, n, 2); SameRow(m, n, 3); SameRow(m, n, 4);
    hide At;
  }

  lemma SameRow(m: Mat, n: Mat, r: nat)
    requires r < 5 && forall c: nat | c < 5 :: At(m, r, c) == At(n, r, c)
    ensures Row(m, r) == Row(n, r)
  {
    assert At(m, r, 0) == At(n, r, 0) && At(m, r, 1) == At(n, r, 1) && At(m, r, 2) == At(n, r, 2)
        && At(m, r, 3) == At(n, r, 3) && At(m, r, 4) == At(n, r, 4);
    hide Row;
  }

  lemma MatOfEquals(s: seq<real>, m: Mat)
    requires |s| == 25 && forall r: nat, c: nat | r < 5 && c < 5 :: s[Ix(r, c)] == At(m, r, c)
    ensures MatOf(s) == m
  {
    MatOfAt(s);
    hide MatOf, At, Ix;
    forall r: nat, c: nat | r < 5 && c < 5 ensures At(MatOf(s), r, c) == At(m, r, c) {
      assert s[Ix(r, c)] == At(m, r, c);
    }
    SameEntries(MatOf(s), m);
  }

  // ---------------------------------------------------------------- conditioning

  /** An entry of the conditioned matrix. */
  function Conditioned(m: Mat, r: nat, c: nat): real
    requires r < 5 && c < 5
  {
    if r == c then Floor(At(m, r, r)) else Mean(At(m, r, c), At(m, c, r))
  }

  lemma ConditionAt(m: Mat, r: nat, c: nat)
    requires r < 5 && c < 5
    ensures At(Condition(m), r, c) == Conditioned(m, r, c)
  {
    hide Floor;
  }

  /** `_condition` / `p_condition`: symmetrise and floor, one row and column at a time. */
  method ConditionInPlace(p: array<real>)
    requires p.Length == 25
    modifies p
    ensures MatOf(p[..]) == Condition(MatOf(old(p[..])))
  {
    hide At, MatOf, Condition, Floor, Mean, Conditioned;
    ghost var m := MatOf(p[..]);
    MatOfAt(p[..]);
    for i := 0 to 5
      invariant forall r: nat, c: nat | r < 5 && c < 5 ::
          p[Ix(r, c)] == if r < i || c < i then Conditioned(m, r, c) else At(m, r, c)
    {
      for j := i + 1 to 5
        invariant forall r: nat, c: nat | r < 5 && c < 5 ::
            p[Ix(r, c)] == if r < i || c < i || (r == i < c < j) || (c == i < r < j) then Conditioned(m, r, c)
                           else At(m, r, c)
      {
        var a := Mean(p[Ix(i, j)], p[Ix(j, i)]);
        p[Ix(i, j)], p[Ix(j, i)] := a, a;
        PairConditioned(m, i, j);
      }
      p[Ix(i, i)] := Floor(p[Ix(i, i)]);
      DiagonalConditioned(m, i);
    }
    forall r: nat, c: nat | r < 5 && c < 5 ensures p[..][Ix(r, c)] == At(Condition(m), r, c) {
      ConditionAt(m, r, c);
    }
    MatOfEquals(p[..], Condition(m));
  }

  lemma PairConditioned(m: Mat, i: nat, j: nat)
    requires i < j < 5
    ensures Conditioned(m, i, j) == Mean(At(m, i, j), At(m, j, i)) == Conditioned(m, j, i)
  {
    hide At;
  }

  lemma DiagonalConditioned(m: Mat, i: nat)
    requires i < 5
    ensures Conditioned(m, i, i) == Floor(At(m, i, i))
  {
  }

  // ---------------------------------------------------------------- products

  /** The first `k` terms of a row-times-vector sum. */
  function Terms(u: Vec, v: Vec, k: nat): real
    requires k <= 5
  {
    if k == 0 then 0.0 else Terms(u, v, k - 1) + Prod(Get(u, k - 1), Get(v, k - 1))
  }

  lemma AllTerms(u: Vec, v: Vec)
    ensures Terms(u, v, 5) == Dot(u, v)
  {
    assert Terms(u, v, 3) == u.a * v.a + u.b * v.b + u.c * v.c by {
      assert Terms(u, v, 1) == u.a * v.a;
    }
  }

  lemma MulAt(a: Mat, b: Mat, i: nat, j: nat)
    requires i < 5 && j < 5
    ensures At(Mul(a, b), i, j) == Dot(Col(b, j), Row(a, i))
  {
    hide Dot;
  }

  lemma MulAbtAt(a: Mat, b: Mat, i: nat, j: nat)
    requires i < 5 && j < 5
    ensures At(MulAbt(a, b), i, j) == Dot(Row(b, j), Row(a, i))
  {
    hide Dot;
  }

  lemma ColAt(m: Mat, r: nat, c: nat)
    requires r < 5 && c < 5
    ensures Get(Col(m, c), r) == At(m, r, c)
  {
  }

  /** `_mul` / `mat5_mul`: `o = a b`. */
  method MulInto(o: array<real>, a: array<real>, b: array<real>)
    requires o.Length == 25 && a.Length == 25 && b.Length == 25 && o != a && o != b
    modifies o
    ensures MatOf(o[..]) == Mul(MatOf(a[..]), MatOf(b[..]))
  {
    hide At, Get, Row, Col, MatOf, Mul, Dot, Prod, Terms;
    ghost var m, n := MatOf(a[..]), MatOf(b[..]);
    MatOfAt(a[..]);
    MatOfAt(b[..]);
    for i := 0 to 5
      invariant forall r: nat, c: nat | r < i && c < 5 :: o[Ix(r, c)] == At(Mul(m, n), r, c)
    {
      for j := 0 to 5
        invariant forall r: nat, c: nat | r < i && c < 5 :: o[Ix(r, c)] == At(Mul(m, n), r, c)
        invariant forall c: nat | c < j :: o[Ix(i, c)] == At(Mul(m, n), i, c)
      {
        var sum := 0.0;
        NoTerms(Row(m, i), Col(n, j));
        for k := 0 to 5
          modifies {}
          invariant sum == Terms(Row(m, i), Col(n, j), k)
        {
          sum := sum + Prod(a[Ix(i, k)], b[Ix(k, j)]);
          EntryTerm(m, i, k);
          ColAt(n, k, j);
          NextTerm(Row(m, i), Col(n, j), k);
        }
        AllTerms(Row(m, i), Col(n, j));
        DotSym(Row(m, i), Col(n, j));
        MulAt(m, n, i, j);
        o[Ix(i, j)] := sum;
      }
    }
    MatOfEquals(o[..], Mul(m, n));
  }

  lemma NoTerms(u: Vec, v: Vec)
    ensures Terms(u, v, 0) == 0.0
  {
  }

  lemma NextTerm(u: Vec, v: Vec, k: nat)
    requires k < 5
    ensures Terms(u, v, k + 1) == Terms(u, v, k) + Prod(Get(u, k), Get(v, k))
  {
  }

  lemma EntryTerm(m: Mat, i: nat, k: nat)
    requires i < 5 && k < 5
    ensures Get(Row(m, i), k) == At(m, i, k)
  {
  }

  /** `_mul_abt` / `mat5_mul_abt`: `o = a b^T`. */
  method MulAbtInto(o: array<real>, a: array<real>, b: array<real>)
    requires o.Length == 25 && a.Length == 25 && b.Length == 25 && o != a && o != b
    modifies o
    ensures MatOf(o[..]) == MulAbt(MatOf(a[..]), MatOf(b[..]))
  {
    hide At, Get, Row, MatOf, MulAbt, Dot, Prod, Terms;
    ghost var m, n := MatOf(a[..]), MatOf(b[..]);
    MatOfAt(a[..]);
    MatOfAt(b[..]);
    for i := 0 to 5
      invariant forall r: nat, c: nat | r < i && c < 5 :: o[Ix(r, c)] == At(MulAbt(m, n), r, c)
    {
      for j := 0 to 5
        invariant forall r: nat, c: nat | r < i && c < 5 :: o[Ix(r, c)] == At(MulAbt(m, n), r, c)
        invariant forall c: nat | c < j :: o[Ix(i, c)] == At(MulAbt(m, n), i, c)
      {
        var sum := 0.0;
        NoTerms(Row(m, i), Row(n, j));
        for k := 0 to 5
          modifies {}
          invariant sum == Terms(Row(m, i), Row(n, j), k)
        {
          sum := sum + Prod(a[Ix(i, k)], b[Ix(j, k)]);
          EntryTerm(m, i, k);
          EntryTerm(n, j, k);
          NextTerm(Row(m, i), Row(n, j), k);
        }
        AllTerms(Row(m, i), Row(n, j));
        DotSym(Row(m, i), Row(n, j));
        MulAbtAt(m, n, i, j);
        o[Ix(i, j)] := sum;
      }
    }
    MatOfEquals(o[..], MulAbt(m, n));
  }

  // ---------------------------------------------------------------- corrections

  lemma DowndateAt(m: Mat, k: Vec, h: Vec, r: nat, c: nat)
    requires r < 5 && c < 5
    ensures At(Downdate(m, k, h), r, c) == Lin(1.0, At(m, r, c), -Get(k, r), Get(h, c))
  {
    hide Lin;
  }

  /** `P[i][j] -= K[i] * h[j]` over the whole matrix. */
  method DowndateInPlace(p: array<real>, k: Vec, h: Vec)
    requires p.Length == 25
    modifies p
    ensures MatOf(p[..]) == Downdate(MatOf(old(p[..])), k, h)
  {
    hide At, Get, MatOf, Downdate, Lin;
    ghost var m := MatOf(p[..]);
    MatOfAt(p[..]);
    for i := 0 to 5
      invariant forall r: nat, c: nat | r < 5 && c < 5 ::
          p[Ix(r, c)] == if r < i then At(Downdate(m, k, h), r, c) else At(m, r, c)
    {
      for j := 0 to 5
        invariant forall r: nat, c: nat | r < 5 && c < 5 ::
            p[Ix(r, c)] == if r < i || (r == i && c < j) then At(Downdate(m, k, h), r, c) else At(m, r, c)
      {
        DowndateAt(m, k, h, i, j);
        p[Ix(i, j)] := Lin(1.0, p[Ix(i, j)], -Get(k, i), Get(h, j));
      }
    }
    MatOfEquals(p[..], Downdate(m, k, h));
  }

  /** `x[i] += K[i] * y`. */
  method AddInPlace(x: array<real>, k: Vec, y: real)
    requires x.Length == 5
    modifies x
    ensures VecOf(x[..]) == Comb(1.0, VecOf(old(x[..])), y, k)
  {
    hide Get, VecOf, Comb, Lin;
    ghost var v := VecOf(x[..]);
    VecOfGet(x[..]);
    for i := 0 to 5
      invariant forall r: nat | r < 5 :: x[r] == if r < i then Get(Comb(1.0, v, y, k), r) else Get(v, r)
    {
      CombEntry(v, y, k, i);
      x[i] := Lin(1.0, x[i], y, Get(k, i));
    }
    VecOfEquals(x[..], Comb(1.0, v, y, k));
  }

  lemma CombEntry(v: Vec, y: real, k: Vec, i: nat)
    requires i < 5
    ensures Get(Comb(1.0, v, y, k), i) == Lin(1.0, Get(v, i), y, Get(k, i))
  {
    hide Lin;
  }

  // ---------------------------------------------------------------- the transition and its noise

  /** A fresh diagonal matrix: zeroed, then set down the diagonal. */
  method DiagonalArray(d: Vec) returns (f: array<real>)
    ensures fresh(f) && f.Length == 25 && MatOf(f[..]) == Diag(d)
  {
    hide Get;
    f := new real[25](_ => 0.0);
    for i := 0 to 5
      invariant forall r: nat, c: nat | r < 5 && c < 5 :: f[Ix(r, c)] == if r == c < i then Get(d, r) else 0.0
    {
      f[Ix(i, i)] := Get(d, i);
    }
    hide MatOf, At, Diag;
    forall r: nat, c: nat | r < 5 && c < 5 ensures f[..][Ix(r, c)] == At(Diag(d), r, c) {
      DiagAt(d, r, c);
    }
    MatOfEquals(f[..], Diag(d));
  }

  lemma DiagAt(d: Vec, r: nat, c: nat)
    requires r < 5 && c < 5
    ensures At(Diag(d), r, c) == if r == c then Get(d, r) else 0.0
  {
  }

  function NoisyNorth(m: Mat, qpp: real, qpv: real, qvv: real): Mat {
    m.(r0 := m.r0.(a := m.r0.a + qpp, c := m.r0.c + qpv), r2 := m.r2.(a := m.r2.a + qpv, c := m.r2.c + qvv))
  }

  function NoisyEast(m: Mat, qpp: real, qpv: real, qvv: real): Mat {
    m.(r1 := m.r1.(b := m.r1.b + qpp, d := m.r1.d + qpv), r3 := m.r3.(b := m.r3.b + qpv, d := m.r3.d + qvv))
  }

  lemma NoisyIsAdd(m: Mat, qpp: real, qpv: real, qvv: real, qpsi: real)
    ensures var n := NoisyEast(NoisyNorth(m, qpp, qpv, qvv), qpp, qpv, qvv);
            n.(r4 := n.r4.(e := n.r4.e + qpsi)) == Add(m, Noise(qpp, qpv, qvv, qpsi))
  {
  }

  /** The noise of one axis: position `i`, velocity `i + 2`. */
  method AddAxisNoise(p: array<real>, i: nat, qpp: real, qpv: real, qvv: real)
    requires p.Length == 25 && i < 2
    modifies p
    ensures MatOf(p[..])
            == if i == 0 then NoisyNorth(MatOf(old(p[..])), qpp, qpv, qvv)
               else NoisyEast(MatOf(old(p[..])), qpp, qpv, qvv)
  {
    p[Ix(i, i)] := p[Ix(i, i)] + qpp;
    p[Ix(i, i + 2)] := p[Ix(i, i + 2)] + qpv;
    p[Ix(i + 2, i)] := p[Ix(i + 2, i)] + qpv;
    p[Ix(i + 2, i + 2)] := p[Ix(i + 2, i + 2)] + qvv;
  }

  /** The nine `+=` of the process noise. */
  method AddNoise(p: array<real>, q: real, qYaw: real, dt: real)
    requires p.Length == 25
    modifies p
    ensures MatOf(p[..]) == Add(MatOf(old(p[..])), ProcessNoise(q, qYaw, dt))
  {
    hide Add, Noise, NoisyNorth, NoisyEast;
    ghost var m := MatOf(p[..]);
    var qpp, qpv, qvv := q * dt * dt * dt / 3.0, q * dt * dt * 0.5, q * dt;
    AddAxisNoise(p, 0, qpp, qpv, qvv);
    AddAxisNoise(p, 1, qpp, qpv, qvv);
    p[Ix(4, 4)] := p[Ix(4, 4)] + qYaw * dt;
    NoisyIsAdd(m, qpp, qpv, qvv, qYaw * dt);
  }
}
