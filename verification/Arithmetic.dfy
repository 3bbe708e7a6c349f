/** Integer arithmetic shared by the sharding modules. */
module Arithmetic {

  function CeilDiv(a: nat, b: nat): nat
    requires b > 0
  {
    (a + b - 1) / b
  }

  /** Python's floor division of non-negative integers. */
  function Div(a: nat, b: nat): nat
    requires b > 0
  {
    a / b
  }

  lemma RoundUp(a: nat, b: nat)
    requires b > 0
    ensures a <= b * CeilDiv(a, b) < a + b
  {
    var q, r := (a + b - 1) / b, (a + b - 1) % b;
    assert b * q + r == a + b - 1;
  }

  lemma MulMono(a: nat, b: nat, c: nat)
    requires a <= b
    ensures a * c <= b * c && c * a <= c * b
  {
  }

  lemma MulCancel(a: nat, b: nat, c: nat)
    requires a * c < b * c || c * a < c * b
    ensures a < b
  {
    if a >= b {
      MulMono(b, a, c);
    }
  }

  /** A quotient and remainder that fit are the quotient and remainder. */
  lemma DivUnique(x: nat, k: nat, q: nat, r: nat)
    requires 0 < k && x == q * k + r && r < k
    ensures x / k == q && x % k == r
  {
    var q', r' := x / k, x % k;
    assert x == q' * k + r' && (q' + 1) * k == q' * k + k && (q + 1) * k == q * k + k;
    MulCancel(q, q' + 1, k);
    MulCancel(q', q + 1, k);
  }
}
