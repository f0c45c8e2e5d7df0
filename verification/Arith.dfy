/** Products and Euclidean division by a variable, in the few forms the models need. */
module Arith {

  lemma MulMonotone(a: int, b: int, k: nat)
    requires a <= b
    ensures a * k <= b * k
  {
    assert (b - a) * k >= 0;
  }

  lemma MulStrict(a: int, b: int, k: nat)
    requires a * k < b * k
    ensures a < b
  {
    if b <= a { MulMonotone(b, a, k); }
  }

  lemma MulSucc(a: int, k: int)
    ensures (a + 1) * k == a * k + k
  {
  }

  /** Quotient and remainder are the only ones. */
  lemma DivUnique(n: int, k: int, q: int, r: int)
    requires k > 0 && n == q * k + r && 0 <= r < k
    ensures n / k == q && n % k == r
  {
    var q', r' := n / k, n % k;
    assert n == k * q' + r';
    assert (q - q') * k == r' - r;
    if q > q' {
      MulMonotone(1, q - q', k);
    } else if q < q' {
      MulMonotone(q - q', -1, k);
    }
  }

  lemma MultipleDivides(a: nat, k: nat)
    requires k > 0
    ensures (a * k) % k == 0 && (a * k) / k == a
  {
    DivUnique(a * k, k, a, 0);
  }

  /** a*k is the only multiple of k in [a*k, a*k + k). */
  lemma OnlyMultiple(n: nat, k: nat, a: nat)
    requires k > 0 && n % k == 0 && a * k <= n < a * k + k
    ensures n == a * k
  {
    DivUnique(n, k, a, n - a * k);
  }
}
