/** Facts about division that the solver does not find by itself. */
module Arithmetic {

  lemma Scale(p: nat, a: int, b: int)
    requires a <= b
    ensures p * a <= p * b
  {}

  lemma DivideUnique(m: nat, p: nat, q: int, r: int)
    requires 0 <= r < p && m == p * q + r
    ensures m / p == q
  {
    var d := m / p;
    assert m == p * d + m % p;
    if d > q { Scale(p, q + 1, d); }
    if d < q { Scale(p, d + 1, q); }
  }

  lemma Distribute(a: int, b: int, c: int)
    ensures a * (b + c) == a * b + a * c
    ensures a * (b * c) == a * b * c
  {}

  lemma Recompose(a: nat, b: nat, q: nat, s: nat, r: nat)
    ensures a * (b * q + s) + r == a * b * q + (a * s + r)
  {
    Distribute(a, b * q, s);
    Distribute(a, b, q);
  }

  /** The remainder of dividing twice is smaller than the product. */
  lemma Remainder(a: nat, b: nat, s: nat, r: nat)
    requires s < b && r < a
    ensures a * s + r < a * b
  {
    Scale(a, s + 1, b);
    Distribute(a, s, 1);
  }

  lemma DivideTwice(n: nat, a: nat, b: nat)
    requires a > 0 && b > 0
    ensures a * b > 0 && n / a / b == n / (a * b)
  {
    var q, s, r := n / a / b, n / a % b, n % a;
    assert n / a == b * q + s;
    assert n == a * (n / a) + r;
    Recompose(a, b, q, s, r);
    Remainder(a, b, s, r);
    DivideUnique(n, a * b, q, a * s + r);
  }
}
