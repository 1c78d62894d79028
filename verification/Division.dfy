/**
 Integer division, with the facts about it that proofs need.
 */
module Division {
  /** How often d goes into n. */
  function Quotient(n: nat, d: nat): nat
    requires d > 0
  {
    if n < d then 0 else 1 + Quotient(n - d, d)
  }

  lemma Times(a: nat, b: nat, d: nat)
    requires a <= b
    ensures a * d <= b * d
  {
  }

  lemma {:induction false} QuotientBounds(n: nat, d: nat)
    requires d > 0
    ensures Quotient(n, d) * d <= n < (Quotient(n, d) + 1) * d
    decreases n
  {
    if n >= d { QuotientBounds(n - d, d); }
  }

  lemma QuotientAtMost(n: nat, d: nat, bound: nat)
    requires d > 0 && n < bound * d
    ensures Quotient(n, d) < bound
  {
    var q := Quotient(n, d);
    QuotientBounds(n, d);
    if bound <= q { Times(bound, q, d); }
  }

  lemma QuotientAtLeast(n: nat, d: nat, bound: nat)
    requires d > 0 && bound * d <= n
    ensures bound <= Quotient(n, d)
  {
    var q := Quotient(n, d);
    QuotientBounds(n, d);
    if q + 1 <= bound { Times(q + 1, bound, d); }
  }

  /** For natural numbers this is the division of the languages modelled. */
  lemma QuotientIsDivision(n: nat, d: nat)
    requires d > 0
    ensures Quotient(n, d) == n / d
  {
    var p, q := Quotient(n, d), n / d;
    QuotientBounds(n, d);
    assert n == q * d + n % d;
    if p < q { Times(p + 1, q, d); }
    if q < p { Times(q + 1, p, d); }
  }
}
