/** Small facts about products, quotients and remainders of naturals. */
module Arith {

  lemma MulMonotone(x: nat, y: nat, z: nat)
    requires x <= y
    ensures x * z <= y * z
  {
    assert (y - x) * z >= 0;
  }

  lemma DivModUnique(n: nat, p: nat, quotient: nat, remainder: nat)
    requires remainder < p && n == p * quotient + remainder
    ensures n / p == quotient && n % p == remainder
  {
    var q, r := n / p, n % p;
    assert p * q + r == p * quotient + remainder;
    if q > quotient {
      MulMonotone(quotient + 1, q, p);
    } else if q < quotient {
      MulMonotone(q + 1, quotient, p);
    }
  }

  lemma DivDiv(t: nat, p: nat, q: nat)
    requires p > 0 && q > 0
    ensures p * q > 0 && t / p / q == t / (p * q)
  {
    var h, u := t / p, t % p;
    var y, r := h / q, h % q;
    MulMonotone(r + 1, q, p);
    NestedQuotients(t, p, q, h, u, y, r);
    DivModUnique(t, p * q, y, p * r + u);
  }

  lemma NestedQuotients(t: nat, p: nat, q: nat, h: nat, u: nat, y: nat, r: nat)
    requires t == p * h + u && h == q * y + r && u < p && (r + 1) * p <= q * p
    ensures t == (p * q) * y + (p * r + u) && p * r + u < p * q
  {
    assert p * (q * y + r) == (p * q) * y + p * r;
  }

  lemma DivBounds(t: nat, p: nat, lo: nat, hi: nat)
    requires p > 0 && lo * p <= t < hi * p
    ensures lo <= t / p < hi
  {
    var q, r := t / p, t % p;
    assert t == p * q + r;
    if q < lo {
      MulMonotone(q + 1, lo, p);
    }
    if q >= hi {
      MulMonotone(hi, q, p);
    }
  }

  /** t rounded down to a multiple of p. */
  function FloorTo(t: nat, p: nat): (r: nat)
    requires p > 0
    ensures r <= t < r + p
  {
    t - t % p
  }

  lemma FloorToQuotient(t: nat, p: nat)
    requires p > 0
    ensures FloorTo(t, p) == t / p * p && FloorTo(t, p) / p == t / p && FloorTo(FloorTo(t, p), p) == FloorTo(t, p)
  {
    assert t == p * (t / p) + t % p;
    DivModUnique(FloorTo(t, p), p, t / p, 0);
  }

  lemma FloorToBetween(t: nat, p: nat, lo: nat, hi: nat)
    requires p > 0 && lo * p <= t < hi * p
    ensures lo * p <= FloorTo(t, p) < hi * p
  {
    FloorToQuotient(t, p);
    DivBounds(t, p, lo, hi);
    MulMonotone(lo, t / p, p);
  }

  lemma FloorToMonotone(t: nat, u: nat, p: nat)
    requires t <= u && p > 0
    ensures FloorTo(t, p) <= FloorTo(u, p)
  {
    FloorToQuotient(t, p);
    FloorToQuotient(u, p);
    if u / p < t / p {
      QuotientOrder(t, u, p, t / p, u / p);
    } else {
      MulMonotone(t / p, u / p, p);
    }
  }

  lemma QuotientOrder(t: nat, u: nat, p: nat, q: nat, r: nat)
    requires r < q && q * p <= t && u < r * p + p
    ensures u < t
  {
    MulMonotone(r + 1, q, p);
  }
}
