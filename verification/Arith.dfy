/** Product and quotient facts, stated on bare numbers so that each use is a single step. */
module Arith {
  function Quotient(n: nat, d: nat): nat
    requires d > 0
  {
    n / d
  }

  lemma {:induction false} MulMono(a: int, b: int, c: nat)
    requires a <= b
    ensures a * c <= b * c
  {
    if c > 0 {
      MulMono(a, b, c - 1);
      assert a * c == a * (c - 1) + a && b * c == b * (c - 1) + b;
    }
  }

  lemma MulStrict(a: int, b: int, c: nat)
    requires a < b && c > 0
    ensures a * c < b * c
  {
    MulMono(a + 1, b, c);
    assert (a + 1) * c == a * c + c;
  }

  lemma MulComm(a: int, b: int)
    ensures a * b == b * a
  {
  }

  lemma DivFloor(n: nat, d: nat)
    requires d > 0
    ensures n / d * d <= n < n / d * d + d
    ensures n / d >= 0
  {
  }

  lemma DivAtLeast(a: nat, n: nat, d: nat)
    requires d > 0 && a * d <= n
    ensures a <= n / d
  {
    var q := n / d;
    DivFloor(n, d);
    assert (q + 1) * d == q * d + d;
    if q < a {
      MulMono(q + 1, a, d);
    }
  }

  lemma DivBelow(a: nat, n: nat, d: nat)
    requires d > 0 && n < a * d
    ensures n / d < a
  {
    var q := n / d;
    DivFloor(n, d);
    if a <= q {
      MulMono(a, q, d);
    }
  }

  lemma DivMono(m: nat, n: nat, d: nat)
    requires d > 0 && m <= n
    ensures m / d <= n / d
  {
    DivFloor(m, d);
    DivAtLeast(m / d, n, d);
  }

  lemma BiggerDivisor(x: nat, p: nat, q: nat)
    requires 0 < p <= q
    ensures x / q <= x / p
  {
    var t := x / q;
    DivFloor(x, q);
    MulMono(p, q, t);
    MulComm(t, p);
    MulComm(t, q);
    DivAtLeast(t, x, p);
  }
}
