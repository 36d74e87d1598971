/** Shift and exclusive-or on naturals, as Python and C integers have them, and the
    facts about them that the CRC needs. */
module Bits {
  type byte = b: int | 0 <= b < 256

  /** `a << k`. */
  function Shl(a: nat, k: nat): nat {
    if k == 0 then a else 2 * Shl(a, k - 1)
  }

  /** 1 when exactly one operand is odd. */
  function Odd(a: nat, b: nat): (r: nat)
    ensures r < 2
  {
    if a % 2 == b % 2 then 0 else 1
  }

  /** `a ^ b`. */
  function Xor(a: nat, b: nat): nat
    decreases a + b
  {
    if a == 0 && b == 0 then 0 else 2 * Xor(a / 2, b / 2) + Odd(a, b)
  }

  // ---------------------------------------------------------------- shifts

  lemma {:induction false} ShlAdd(a: nat, b: nat, k: nat)
    ensures Shl(a + b, k) == Shl(a, k) + Shl(b, k)
  {
    if k > 0 { ShlAdd(a, b, k - 1); }
  }

  lemma {:induction false} ShlShl(a: nat, j: nat, k: nat)
    ensures Shl(Shl(a, j), k) == Shl(a, j + k)
  {
    if k > 0 { ShlShl(a, j, k - 1); }
  }

  lemma {:induction false} ShlMono(a: nat, b: nat, k: nat)
    requires a < b
    ensures Shl(a, k) < Shl(b, k)
  {
    if k > 0 { ShlMono(a, b, k - 1); }
  }

  lemma {:induction false} ShlZero(k: nat)
    ensures Shl(0, k) == 0
  {
    if k > 0 { ShlZero(k - 1); }
  }

  lemma {:induction false} ShlUnder(a: nat, k: nat)
    ensures Shl(a, k + 1) == Shl(2 * a, k)
  {
    if k > 0 { ShlUnder(a, k - 1); }
  }

  // ---------------------------------------------------------------- exclusive-or

  /** Half and parity of an exclusive-or: all that its definition says. */
  lemma XorStep(a: nat, b: nat)
    ensures Xor(a, b) / 2 == Xor(a / 2, b / 2)
    ensures Xor(a, b) % 2 == Odd(a, b)
  {
    var h := Xor(a / 2, b / 2);
    assert Xor(a, b) == 2 * h + Odd(a, b);
  }

  lemma SameHalves(x: nat, y: nat)
    requires x / 2 == y / 2 && x % 2 == y % 2
    ensures x == y
  {
  }

  lemma {:induction false} XorComm(a: nat, b: nat)
    ensures Xor(a, b) == Xor(b, a)
    decreases a + b
  {
    if a + b > 0 { XorComm(a / 2, b / 2); }
  }

  lemma {:induction false} XorAssoc(a: nat, b: nat, c: nat)
    ensures Xor(Xor(a, b), c) == Xor(a, Xor(b, c))
    decreases a + b + c
  {
    if a + b + c > 0 {
      hide Xor;
      XorAssoc(a / 2, b / 2, c / 2);
      XorStep(a, b);
      XorStep(b, c);
      XorStep(Xor(a, b), c);
      XorStep(a, Xor(b, c));
      SameHalves(Xor(Xor(a, b), c), Xor(a, Xor(b, c)));
    }
  }

  lemma {:induction false} XorZero(a: nat)
    ensures Xor(a, 0) == a && Xor(0, a) == a
  {
    if a > 0 { XorZero(a / 2); }
  }

  lemma {:induction false} XorSelf(a: nat)
    ensures Xor(a, a) == 0
  {
    if a > 0 { XorSelf(a / 2); }
  }

  lemma {:induction false} XorIsZero(a: nat, b: nat)
    requires Xor(a, b) == 0
    ensures a == b
    decreases a + b
  {
    if a + b > 0 { XorIsZero(a / 2, b / 2); }
  }

  /** Regrouping of four operands, the form in which linearity uses the laws. */
  lemma XorSwap(a: nat, b: nat, c: nat, d: nat)
    ensures Xor(Xor(a, b), Xor(c, d)) == Xor(Xor(a, c), Xor(b, d))
  {
    hide Xor;
    XorAssoc(a, b, Xor(c, d));
    XorAssoc(b, c, d);
    XorComm(b, c);
    XorAssoc(c, b, d);
    XorAssoc(a, c, Xor(b, d));
  }

  lemma {:induction false} XorBound(k: nat, a: nat, b: nat)
    requires a < Shl(1, k) && b < Shl(1, k)
    ensures Xor(a, b) < Shl(1, k)
  {
    if k > 0 { XorBound(k - 1, a / 2, b / 2); }
  }

  /** High and low parts of the operands do not interact. */
  lemma {:induction false} XorSplit(k: nat, a: nat, b: nat, p: nat, q: nat)
    requires a < Shl(1, k) && b < Shl(1, k)
    ensures Xor(a + Shl(p, k), b + Shl(q, k)) == Xor(a, b) + Shl(Xor(p, q), k)
    decreases k
  {
    if k > 0 {
      XorSplit(k - 1, a / 2, b / 2, p, q);
      hide Xor;
      SplitStep(a, b, Shl(p, k - 1), Shl(q, k - 1), Shl(Xor(p, q), k - 1));
    }
  }

  lemma SplitStep(a: nat, b: nat, m: nat, n: nat, z: nat)
    requires Xor(a / 2 + m, b / 2 + n) == Xor(a / 2, b / 2) + z
    ensures Xor(a + 2 * m, b + 2 * n) == Xor(a, b) + 2 * z
  {
    hide Xor;
    XorStep(a + 2 * m, b + 2 * n);
    XorStep(a, b);
    Halve(a, m);
    Halve(b, n);
    Halve(Xor(a, b), z);
    SameHalves(Xor(a + 2 * m, b + 2 * n), Xor(a, b) + 2 * z);
  }

  lemma Halve(a: nat, m: nat)
    ensures (a + 2 * m) / 2 == a / 2 + m && (a + 2 * m) % 2 == a % 2
  {
  }
}
