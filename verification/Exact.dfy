/**
 Exact rational probabilities (crates/meshmine-committee-risk/src/lib.rs,
 `ExactProbability`): a numerator and a positive denominator, reduced by their
 greatest common divisor after every operation, with addition capped at one.
 `Val` is the rational number a pair stands for.
 */
module ExactProbability {
  import opened Arith
  import opened Probability
  import opened ClosedForms

  datatype Exact = Exact(num: nat, den: nat)

  predicate Positive(p: Exact) { p.den > 0 }

  /** `validate_probability`. */
  predicate Proper(p: Exact) { p.den > 0 && p.num <= p.den }

  function Ratio(n: nat, d: nat): real
    requires d > 0
  {
    n as real / d as real
  }

  function Val(p: Exact): real
    requires Positive(p)
  {
    Ratio(p.num, p.den)
  }

  function Zero(): Exact { Exact(0, 1) }
  function One(): Exact { Exact(1, 1) }

  function Gcd(a: nat, b: nat): nat
    decreases b
  {
    if b == 0 then a else Gcd(b, a % b)
  }

  lemma {:induction false} GcdDivides(a: nat, b: nat) returns (x: nat, y: nat)
    requires a > 0 || b > 0
    ensures Gcd(a, b) > 0 && a == Gcd(a, b) * x && b == Gcd(a, b) * y
    decreases b
  {
    if b == 0 {
      x, y := 1, 0;
    } else {
      var u, v := GcdDivides(b, a % b);
      var g, q := Gcd(b, a % b), a / b;
      x, y := q * u + v, u;
      assert a == b * q + a % b;
      assert g * (q * u + v) == (g * u) * q + g * v by {
        DistributeNat(g, q, u, v);
      }
    }
  }

  lemma DistributeNat(g: nat, q: nat, u: nat, v: nat)
    ensures g * (q * u + v) == (g * u) * q + g * v
  {
  }

  function Reduced(n: nat, d: nat): (r: Exact)
    requires d > 0
    ensures Positive(r)
  {
    if n == 0 then Zero()
    else
      assert Gcd(n, d) > 0 && d / Gcd(n, d) > 0 by { ReducedParts(n, d); }
      var g := Gcd(n, d);
      Exact(n / g, d / g)
  }

  lemma ReducedParts(n: nat, d: nat)
    requires d > 0
    ensures var g := Gcd(n, d); g > 0 && n == g * (n / g) && d == g * (d / g) && d / g > 0
  {
    var x, y := GcdDivides(n, d);
    var g := Gcd(n, d);
    DivModUnique(n, g, x, 0);
    DivModUnique(d, g, y, 0);
  }

  /** Reduction does not change the number. */
  lemma ReducedVal(n: nat, d: nat)
    requires d > 0
    ensures Val(Reduced(n, d)) == Ratio(n, d)
  {
    if n > 0 {
      ReducedParts(n, d);
      var g := Gcd(n, d);
      CancelFactor(g, n / g, d / g);
    }
  }

  lemma CancelFactor(g: nat, x: nat, y: nat)
    requires g > 0 && y > 0
    ensures g * y > 0 && Ratio(g * x, g * y) == Ratio(x, y)
  {
    assert (g * x) as real == g as real * x as real;
    assert (g * y) as real == g as real * y as real;
    CancelReal(g as real, x as real, y as real);
  }

  lemma CancelReal(g: real, x: real, y: real)
    requires g > 0.0 && y > 0.0
    ensures g * y > 0.0 && (g * x) / (g * y) == x / y
  {
  }

  lemma RatioUnit(n: nat, d: nat)
    requires d > 0
    ensures Ratio(n, d) >= 0.0 && (n <= d <==> Ratio(n, d) <= 1.0) && (n == 0 <==> Ratio(n, d) == 0.0)
  {
  }

  /** Products of ratios. */
  lemma RatioTimes(a: nat, b: nat, c: nat, d: nat)
    requires b > 0 && d > 0
    ensures b * d > 0 && Ratio(a * c, b * d) == Times(Ratio(a, b), Ratio(c, d))
  {
    assert (a * c) as real == a as real * c as real;
    assert (b * d) as real == b as real * d as real;
    RealQuotients(a as real, b as real, c as real, d as real);
  }

  lemma RealQuotients(a: real, b: real, c: real, d: real)
    requires b > 0.0 && d > 0.0
    ensures b * d > 0.0 && (a * c) / (b * d) == (a / b) * (c / d)
    ensures (a * d + c * b) / (b * d) == a / b + c / d
  {
    var x, y := a / b, c / d;
    assert a == x * b && c == y * d;
    assert a * c == (x * y) * (b * d);
    assert a * d + c * b == (x + y) * (b * d);
  }

  lemma RatioPlus(a: nat, b: nat, c: nat, d: nat)
    requires b > 0 && d > 0
    ensures b * d > 0 && Ratio(a * d + c * b, b * d) == Ratio(a, b) + Ratio(c, d)
  {
    assert (a * d + c * b) as real == a as real * d as real + c as real * b as real;
    assert (b * d) as real == b as real * d as real;
    RealQuotients(a as real, b as real, c as real, d as real);
  }

  /** A reduced ratio of at most one is a proper probability. */
  lemma ReducedProper(n: nat, d: nat)
    requires d > 0
    ensures n <= d <==> Proper(Reduced(n, d))
    ensures Val(Reduced(n, d)) == Ratio(n, d)
  {
    var r := Reduced(n, d);
    ReducedVal(n, d);
    RatioUnit(n, d);
    RatioUnit(r.num, r.den);
  }

  lemma ProperUnit(p: Exact)
    requires Proper(p)
    ensures Unit(Val(p))
  {
    RatioUnit(p.num, p.den);
  }

  function Complement(p: Exact): (r: Exact)
    requires Proper(p)
    ensures Proper(r) && Val(r) == 1.0 - Val(p)
  {
    ReducedProper(p.den - p.num, p.den);
    OneMinusRatio(p.num, p.den);
    Reduced(p.den - p.num, p.den)
  }

  /** Comparison by cross multiplication. */
  predicate AtMost(p: Exact, q: Exact) { p.num * q.den <= q.num * p.den }

  lemma AtMostVal(p: Exact, q: Exact)
    requires Positive(p) && Positive(q)
    ensures AtMost(p, q) <==> Val(p) <= Val(q)
  {
    var a, b, c, d := p.num as real, p.den as real, q.num as real, q.den as real;
    assert (p.num * q.den) as real == a * d && (q.num * p.den) as real == c * b;
    CrossMultiply(a, b, c, d);
  }

  lemma CrossMultiply(a: real, b: real, c: real, d: real)
    requires b > 0.0 && d > 0.0
    ensures a * d <= c * b <==> a / b <= c / d
  {
    var x, y := a / b, c / d;
    assert a == x * b && c == y * d;
    assert a * d == x * (b * d) && c * b == y * (b * d);
    if x <= y {
      assert (y - x) * (b * d) >= 0.0;
    } else {
      assert (x - y) * (b * d) > 0.0;
    }
  }

  function Cap(x: real): real { if x <= 1.0 then x else 1.0 }

  /** Addition silently stops at one. */
  function Add(p: Exact, q: Exact): (r: Exact)
    requires Proper(p) && Proper(q)
    ensures Proper(r) && Val(r) == Cap(Val(p) + Val(q))
  {
    AddParts(p, q);
    var sum := Reduced(p.num * q.den + q.num * p.den, p.den * q.den);
    if AtMost(sum, One()) then sum else One()
  }

  lemma AddParts(p: Exact, q: Exact)
    requires Proper(p) && Proper(q)
    ensures p.den * q.den > 0
    ensures var sum := Reduced(p.num * q.den + q.num * p.den, p.den * q.den);
            && Val(sum) == Val(p) + Val(q)
            && (AtMost(sum, One()) <==> Proper(sum)) && (AtMost(sum, One()) <==> Val(sum) <= 1.0)
  {
    RatioPlus(p.num, p.den, q.num, q.den);
    ReducedProper(p.num * q.den + q.num * p.den, p.den * q.den);
    AtMostVal(Reduced(p.num * q.den + q.num * p.den, p.den * q.den), One());
  }

  function Multiply(p: Exact, q: Exact): (r: Exact)
    requires Proper(p) && Proper(q)
    ensures Proper(r) && Val(r) == Times(Val(p), Val(q))
  {
    MultiplyParts(p, q);
    Reduced(p.num * q.num, p.den * q.den)
  }

  lemma MultiplyParts(p: Exact, q: Exact)
    requires Proper(p) && Proper(q)
    ensures p.den * q.den > 0
    ensures var r := Reduced(p.num * q.num, p.den * q.den); Proper(r) && Val(r) == Times(Val(p), Val(q))
  {
    RatioTimes(p.num, p.den, q.num, q.den);
    ReducedVal(p.num * q.num, p.den * q.den);
    ProperUnit(p);
    ProperUnit(q);
    ProductUnit(Val(p), Val(q));
    var r := Reduced(p.num * q.num, p.den * q.den);
    RatioUnit(r.num, r.den);
  }

  /** `probability_sum_exceeds_one`. */
  predicate SumExceedsOne(p: Exact, q: Exact) {
    p.num * q.den + q.num * p.den > p.den * q.den
  }

  lemma SumExceedsOneVal(p: Exact, q: Exact)
    requires Proper(p) && Proper(q)
    ensures SumExceedsOne(p, q) <==> Val(p) + Val(q) > 1.0
  {
    RatioPlus(p.num, p.den, q.num, q.den);
    RatioUnit(p.num * q.den + q.num * p.den, p.den * q.den);
  }

  function NatPow(x: nat, n: nat): nat {
    if n == 0 then 1 else x * NatPow(x, n - 1)
  }

  lemma {:induction false} NatPowRatio(x: nat, d: nat, n: nat)
    requires d > 0
    ensures NatPow(d, n) > 0 && Ratio(NatPow(x, n), NatPow(d, n)) == Pow(Ratio(x, d), n)
  {
    if n > 0 {
      NatPowRatio(x, d, n - 1);
      RatioTimes(x, d, NatPow(x, n - 1), NatPow(d, n - 1));
    }
  }

  lemma {:induction false} NatPowAdd(x: nat, a: nat, b: nat)
    ensures NatPow(x, a + b) == NatPow(x, a) * NatPow(x, b)
  {
    if a > 0 {
      NatPowAdd(x, a - 1, b);
      MulAssociative(x, NatPow(x, a - 1), NatPow(x, b));
      assert a - 1 + b == a + b - 1;
    }
  }

  lemma MulAssociative(x: nat, y: nat, z: nat)
    ensures x * (y * z) == (x * y) * z
  {
  }

  lemma OneMinusRatio(n: nat, d: nat)
    requires n <= d && d > 0
    ensures Ratio(d - n, d) == 1.0 - Ratio(n, d)
  {
    assert (d - n) as real == d as real - n as real;
    OneMinusReal(n as real, d as real);
  }

  lemma OneMinusReal(x: real, y: real)
    requires y > 0.0
    ensures (y - x) / y == 1.0 - x / y
  {
    QuotientIs(y - x, 1.0 - x / y, y);
  }

  lemma QuotientIs(a: real, b: real, y: real)
    requires y > 0.0 && a == b * y
    ensures a / y == b
  {
  }
}
