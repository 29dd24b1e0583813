/** Division with remainder, and the few facts about products that the layouts below need. */
module Arith {
  function Bit(b: bool): nat { if b then 1 else 0 }

  lemma MulStep(a: int, b: int, n: nat)
    requires a < b
    ensures a * n + n <= b * n
  {
    MulMono(a + 1, b, n);
    assert (a + 1) * n == a * n + n;
  }

  lemma {:induction false} MulMono(a: int, b: int, n: nat)
    requires a <= b
    ensures a * n <= b * n
    decreases b - a
  {
    if a < b {
      MulMono(a + 1, b, n);
      assert (a + 1) * n == a * n + n;
    }
  }

  /** Quotient and remainder are the only numbers that do their job. */
  lemma DivModUnique(x: int, q: int, n: nat, r: int)
    requires 0 <= r < n && x == q * n + r
    ensures x / n == q && x % n == r
  {
    var q2, r2 := x / n, x % n;
    assert x == q2 * n + r2 by { Euclid(x, n); }
    if q < q2 {
      MulStep(q, q2, n);
    } else if q2 < q {
      MulStep(q2, q, n);
    }
  }

  lemma Euclid(x: int, n: nat)
    requires n > 0
    ensures x == (x / n) * n + x % n
  {
  }

  /** A product by repeated addition: the solver keeps it as one term. */
  function Times(a: nat, b: nat): nat {
    if a == 0 then 0 else Times(a - 1, b) + b
  }

  lemma {:induction false} TimesIs(a: nat, b: nat)
    ensures Times(a, b) == a * b
  {
    if a > 0 {
      TimesIs(a - 1, b);
      assert a * b == (a - 1) * b + b;
    }
  }
}
