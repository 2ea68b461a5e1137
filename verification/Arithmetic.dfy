/**
 Products and quotients by repeated addition and subtraction, for proofs that
 go step by step, and what they are in ordinary arithmetic.
 */
module Arithmetic {

  function Times(n: nat, k: nat): nat { if k == 0 then 0 else n + Times(n, k - 1) }

  /** How many times `m` goes into `n`. */
  function Quotient(n: nat, m: nat): nat
    requires m > 0
    decreases n
  {
    if n < m then 0 else 1 + Quotient(n - m, m)
  }

  lemma {:induction false} TimesMonotone(n: nat, a: nat, b: nat)
    requires a <= b
    ensures Times(n, a) <= Times(n, b)
    decreases b
  {
    if a < b { TimesMonotone(n, a, b - 1); }
  }

  lemma {:induction false} TimesIs(n: nat, k: nat)
    ensures Times(n, k) == n * k
  {
    if k > 0 {
      TimesIs(n, k - 1);
      assert n * k == n + n * (k - 1);
    }
  }

  lemma {:induction false} QuotientMonotone(a: nat, b: nat, m: nat)
    requires m > 0 && a <= b
    ensures Quotient(a, m) <= Quotient(b, m)
    decreases a
  {
    if a >= m { QuotientMonotone(a - m, b - m, m); }
  }

  lemma {:induction false} QuotientFits(n: nat, m: nat)
    requires m > 0
    ensures Times(m, Quotient(n, m)) <= n < Times(m, Quotient(n, m) + 1)
    decreases n
  {
    if n >= m { QuotientFits(n - m, m); }
  }

  /** Division has only one answer. */
  lemma DivisionIs(n: nat, m: nat, q: nat, r: nat)
    requires m > 0 && r < m && n == Times(m, q) + r
    ensures n / m == q && n % m == r
  {
    var q' := n / m;
    TimesIs(m, q');
    assert Times(m, q') + n % m == n;
    if q < q' {
      TimesMonotone(m, q + 1, q');
    } else if q' < q {
      TimesMonotone(m, q' + 1, q);
    }
  }

  lemma QuotientIs(n: nat, m: nat)
    requires m > 0
    ensures Quotient(n, m) == n / m
  {
    QuotientFits(n, m);
    DivisionIs(n, m, Quotient(n, m), n - Times(m, Quotient(n, m)));
  }
}
