/** Products and powers of reals, under names a proof can keep closed. */
module Arithmetic {
  /** Multiplication under a name, so that a proof can treat a product as one quantity. */
  function Prod(x: real, y: real): real {
    x * y
  }

  /** Division, likewise. */
  function Quot(x: real, s: real): real
    requires s != 0.0
  {
    x / s
  }

  function Abs(x: real): real {
    if x < 0.0 then -x else x
  }

  lemma ZeroProduct(x: real, y: real)
    ensures x * y == 0.0 ==> x == 0.0 || y == 0.0
  {
  }

  function Power(q: real, k: nat): real {
    if k == 0 then 1.0 else q * Power(q, k - 1)
  }

  lemma {:induction false} PowerRange(q: real, k: nat)
    requires 0.0 < q <= 1.0
    ensures 0.0 < Power(q, k) <= 1.0
  {
    if k > 0 {
      PowerRange(q, k - 1);
      var r := Power(q, k - 1);
      assert q * r > 0.0;
      assert q * r <= 1.0 * r;
    }
  }

  lemma PowerStep(q: real, k: nat)
    ensures Power(q, k + 1) == q * Power(q, k)
  {
  }
}
