/** Multiples, remainders and the lesser of two. */
module Arithmetic {

  function Min(a: nat, b: nat): nat { if a < b then a else b }

  lemma Monotone(a: nat, b: nat, n: nat)
    requires a <= b
    ensures a * n <= b * n
  {}

  lemma Quotient(k: nat, q: nat, r: nat, n: nat)
    requires 0 <= r < n && k == q * n + r
    ensures k % n == r
  {
    var d := k / n;
    if d > q {
      Monotone(q + 1, d, n);
    } else if d < q {
      Monotone(d + 1, q, n);
    }
  }

  lemma Parts(d: nat, c: nat, p: nat)
    requires c > 0
    ensures d * p == d / c * (c * p) + d % c * p == p * d
  {
    var q, r := d / c, d % c;
    assert d == q * c + r;
    Distributes(q * c, r, p);
  }

  lemma Distributes(a: int, b: int, p: int)
    ensures (a + b) * p == a * p + b * p
  {}

  lemma SmallRemainder(a: nat, n: nat)
    requires a < n
    ensures a % n == a
  {}
}
