/** Products and quotients of reals, one step at a time. */
module RealArith {

  function Least(a: real, b: real): (m: real)
    ensures m <= a && m <= b && (m == a || m == b)
  {
    if a <= b then a else b
  }

  function Largest(a: real, b: real): (m: real)
    ensures m >= a && m >= b && (m == a || m == b)
  {
    if a >= b then a else b
  }

  function Product(a: real, b: real): real { a * b }

  function Quotient(a: real, b: real): real
    requires b != 0.0
  {
    a / b
  }

  lemma MulOrder(a: real, b: real, k: real)
    requires a <= b && k >= 0.0
    ensures a * k <= b * k
  {
    assert (b - a) * k >= 0.0;
  }

  lemma MulOrderLeft(k: real, a: real, b: real)
    requires a <= b && k >= 0.0
    ensures k * a <= k * b
  {
    assert k * (b - a) >= 0.0;
  }

  lemma LessByProduct(a: real, b: real, k: real)
    requires a * k <= b * k && k > 0.0
    ensures a <= b
  {
    if a > b { StrictOrder(b, a, k); }
  }

  lemma StrictOrder(a: real, b: real, k: real)
    requires a < b && k > 0.0
    ensures a * k < b * k
  {
    assert (b - a) * k > 0.0;
  }

  lemma QuotientTimes(x: real, k: real)
    requires k != 0.0
    ensures (x / k) * k == x
  {
  }

  lemma ProductOver(n: real, k: real)
    requires k != 0.0
    ensures (n * k) / k == n
  {
  }
}
