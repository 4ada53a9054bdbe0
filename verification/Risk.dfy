/**
 Committee risk (crates/meshmine-committee-risk/src/lib.rs): the loops that
 evaluate binomial, overlap, trinomial and hypergeometric tails in exact
 rationals, the enumeration of correlation-group states, and the reported
 quantities, tied to the probabilities of module Probability.
 */
module Risk {
  import Arith
  import C = Combinatorics
  import opened Probability
  import opened ClosedForms
  import opened ExactProbability

  // ---- Binomial coefficients and masses ----

  /** The multiplicative loop: every division is exact and the result counts subsets. */
  method Choose(n: nat, k: nat) returns (value: nat)
    ensures value == C.Choose(n, k)
  {
    if k > n {
      C.ChooseBeyond(n, k);
      return 0;
    }
    C.ChooseSymmetric(n, k);
    var m := if k <= n - k then k else n - k;
    value := 1;
    for index := 0 to m
      invariant value == C.Choose(n, index)
    {
      C.ChooseStep(n, index);
      value := value * (n - index);
      assert value % (index + 1) == 0 by {
        ExactQuotient(C.Choose(n, index + 1), index + 1);
      }
      ExactQuotient(C.Choose(n, index + 1), index + 1);
      value := value / (index + 1);
    }
  }

  lemma ExactQuotient(q: nat, d: nat)
    requires d > 0
    ensures (q * d) % d == 0 && (q * d) / d == q
  {
    Arith.DivModUnique(q * d, d, q, 0);
  }

  lemma MassRatio(c: nat, p: Exact, k: nat, m: nat, x: nat, y: nat, d: nat)
    requires Proper(p)
    requires x == NatPow(p.num, k) && y == NatPow(p.den - p.num, m) && d == NatPow(p.den, k + m)
    ensures d > 0 && Ratio(c * x * y, d) == C.Scale(c, Times(Pow(Val(p), k), Pow(1.0 - Val(p), m)))
  {
    NatPowRatio(p.num, p.den, k);
    NatPowRatio(p.den - p.num, p.den, m);
    OneMinusRatio(p.num, p.den);
    NatPowAdd(p.den, k, m);
    RatioTimes(x, NatPow(p.den, k), y, NatPow(p.den, m));
    RatioTimes(c, 1, x * y, d);
    MulAssociative(c, x, y);
  }

  method BinomialMass(trials: nat, successes: nat, p: Exact) returns (r: Exact)
    requires Proper(p)
    ensures Positive(r) && Val(r) == if successes <= trials then Mass(trials, successes, Val(p)) else 0.0
  {
    if successes > trials {
      return Zero();
    }
    var combinations := Choose(trials, successes);
    var x, y := NatPow(p.num, successes), NatPow(p.den - p.num, trials - successes);
    var d := NatPow(p.den, trials);
    MassRatio(combinations, p, successes, trials - successes, x, y, d);
    r := ReducedOf(combinations * x * y, d);
  }

  method ReducedOf(n: nat, d: nat) returns (r: Exact)
    requires d > 0
    ensures Positive(r) && Val(r) == Ratio(n, d) && (n <= d ==> Proper(r))
  {
    ReducedProper(n, d);
    r := Reduced(n, d);
  }

  /** Partial sums of non-negative terms that total at most one stay within one. */
  lemma PartialSum(f: nat -> real, lo: nat, k: nat, hi: nat)
    requires lo <= k < hi && C.Sum(f, lo, hi) <= 1.0
    requires forall j: nat :: lo <= j < hi ==> f(j) >= 0.0
    ensures Unit(C.Sum(f, lo, k)) && Unit(f(k))
    ensures C.Sum(f, lo, k + 1) == C.Sum(f, lo, k) + f(k) <= 1.0
  {
    C.SumSplit(f, lo, k, hi);
    C.SumSplit(f, k, k + 1, hi);
    C.SumNonNegative(f, lo, k);
    C.SumNonNegative(f, k + 1, hi);
    assert C.Sum(f, k, k + 1) == C.Sum(f, k, k) + f(k);
  }

  /** Adding a term that keeps the total within one is exact: the cap removes nothing. */
  method Accumulate(total: Exact, term: Exact) returns (r: Exact)
    requires Proper(total) && Positive(term) && Val(total) + Val(term) <= 1.0 && Val(total) >= 0.0
    ensures Proper(r) && Val(r) == Val(total) + Val(term)
  {
    RatioUnit(term.num, term.den);
    r := Add(total, term);
  }

  // ---- Binomial tails ----

  method BinomialTail(trials: nat, atLeast: nat, p: Exact) returns (r: Exact)
    requires Proper(p)
    ensures Proper(r) && Val(r) == Tail(trials, atLeast, Val(p)) && Unit(Val(r))
  {
    ProperUnit(p);
    TailUnit(trials, atLeast, Val(p));
    if atLeast == 0 {
      TailCertain(trials, atLeast, Val(p));
      return One();
    }
    if atLeast > trials {
      TailImpossible(trials, atLeast, Val(p));
      return Zero();
    }
    ghost var f := MassTerm(trials, Val(p));
    MassesFrom(trials, atLeast, Val(p));
    forall k: nat | k <= trials ensures f(k) >= 0.0 {
      MassNonNegative(trials, k, Val(p));
    }
    r := Zero();
    for successes := atLeast to trials + 1
      invariant Proper(r) && Val(r) == C.Sum(f, atLeast, successes)
    {
      var mass := BinomialMass(trials, successes, p);
      PartialSum(f, atLeast, successes, trials + 1);
      r := Accumulate(r, mass);
    }
  }

  // ---- Overlapping committees ----

  function JointTerm(s: nat, n1: nat, t1: int, n2: nat, t2: int, p: real): nat -> real {
    C.ChooseTerm(s, Term(s, p, 1.0 - p, BothTails(n1, t1, n2, t2, p)))
  }

  lemma JointTermIs(s: nat, n1: nat, t1: int, n2: nat, t2: int, p: real, j: nat)
    requires j <= s && Unit(p)
    ensures JointTerm(s, n1, t1, n2, t2, p)(j)
         == Times(Times(Mass(s, j, p), Tail(n1, t1 - j, p)), Tail(n2, t2 - j, p))
    ensures JointTerm(s, n1, t1, n2, t2, p)(j) >= 0.0
  {
    var x, y := Tail(n1, t1 - j, p), Tail(n2, t2 - j, p);
    ScaleTimes(C.Choose(s, j), Times(Pow(p, j), Pow(1.0 - p, s - j)), x, y);
    MassNonNegative(s, j, p);
    TailUnit(n1, t1 - j, p);
    TailUnit(n2, t2 - j, p);
    ProductNonNegative(Mass(s, j, p), x);
    ProductNonNegative(Times(Mass(s, j, p), x), y);
  }

  lemma ScaleTimes(c: nat, u: real, x: real, y: real)
    ensures C.Scale(c, Times(u, Times(x, y))) == Times(Times(C.Scale(c, u), x), y)
  {
  }

  function SaturatingSub(a: nat, b: nat): nat { if a >= b then a - b else 0 }

  method JointBinomialTail(firstSize: nat, firstThreshold: nat, secondSize: nat, secondThreshold: nat,
                           shared: nat, p: Exact) returns (r: Exact)
    requires Proper(p) && shared <= firstSize && shared <= secondSize
    ensures Proper(r)
    ensures Val(r) == Joint(shared, firstSize - shared, firstThreshold, secondSize - shared, secondThreshold, Val(p))
  {
    ProperUnit(p);
    ghost var n1, n2 := firstSize - shared, secondSize - shared;
    ghost var f := JointTerm(shared, n1, firstThreshold, n2, secondThreshold, Val(p));
    JointClosedForm(shared, n1, firstThreshold, n2, secondThreshold, Val(p));
    JointUnit(shared, n1, firstThreshold, n2, secondThreshold, Val(p));
    forall j: nat | j <= shared ensures f(j) >= 0.0 {
      JointTermIs(shared, n1, firstThreshold, n2, secondThreshold, Val(p), j);
    }
    r := Zero();
    for j := 0 to shared + 1
      invariant Proper(r) && Val(r) == C.Sum(f, 0, j)
    {
      var mass := BinomialMass(shared, j, p);
      var first := NeededTail(firstSize - shared, firstThreshold, j, p);
      var second := NeededTail(secondSize - shared, secondThreshold, j, p);
      JointTermIs(shared, n1, firstThreshold, n2, secondThreshold, Val(p), j);
      PartialSum(f, 0, j, shared + 1);
      MassWithin(shared, j, p, mass);
      r := Accumulate(r, Multiply(Multiply(mass, first), second));
    }
  }

  /** The tail still needed after j shared adversarial members. */
  method NeededTail(size: nat, threshold: nat, j: nat, p: Exact) returns (r: Exact)
    requires Proper(p)
    ensures Proper(r) && Val(r) == Tail(size, threshold - j, Val(p))
  {
    r := BinomialTail(size, SaturatingSub(threshold, j), p);
    if threshold < j {
      TailCertain(size, 0, Val(p));
      TailCertain(size, threshold - j, Val(p));
    }
  }

  lemma MassWithin(n: nat, k: nat, p: Exact, mass: Exact)
    requires Proper(p) && k <= n && Positive(mass) && Val(mass) == Mass(n, k, Val(p))
    ensures Proper(mass)
  {
    ProperUnit(p);
    var f := MassTerm(n, Val(p));
    MassesFrom(n, 0, Val(p));
    TailCertain(n, 0, Val(p));
    forall j: nat | j <= n ensures f(j) >= 0.0 {
      MassNonNegative(n, j, Val(p));
    }
    PartialSum(f, 0, k, n + 1);
    RatioUnit(mass.num, mass.den);
  }

  // ---- Committees that cannot act ----

  /** C(n, k) C(n - k, j) a^k h^j o^(n-k-j). */
  function CellValue(n: nat, a: real, h: real, o: real, k: nat, j: nat): real
    requires k <= n && j <= n - k
  {
    C.Scale(C.Choose(n, k) * C.Choose(n - k, j), Times(Times(Pow(a, k), Pow(h, j)), Pow(o, n - k - j)))
  }

  function Scaled(c: nat, x: real, g: nat -> real): nat -> real {
    (j: nat) => C.Scale(c, Times(x, g(j)))
  }

  lemma ScaledSum(c: nat, x: real, g: nat -> real, m: nat)
    ensures C.Sum(Scaled(c, x, g), 0, m) == C.Scale(c, Times(x, C.Sum(g, 0, m)))
  {
    var f := Scaled(c, x, g);
    forall j: nat | j < m ensures f(j) == C.Scale(c, x) * g(j) {
      ScaleOut(c, x, g(j));
    }
    C.SumScale(C.Scale(c, x), g, f, 0, m);
    ScaleOut(c, x, C.Sum(g, 0, m));
  }

  lemma ScaleOut(c: nat, x: real, y: real)
    ensures C.Scale(c, Times(x, y)) == C.Scale(c, x) * y
  {
  }

  function InnerTerm(m: nat, ta: int, th: int, h: real, o: real, k: nat): nat -> real {
    C.ChooseTerm(m, Term(m, h, o, Flag(k, ta, th)))
  }

  lemma InnerTermIs(m: nat, ta: int, th: int, h: real, o: real, k: nat, j: nat)
    requires j <= m
    ensures InnerTerm(m, ta, th, h, o, k)(j)
         == C.Scale(C.Choose(m, j), Times(Times(Pow(h, j), Pow(o, m - j)), Indicator(k >= ta || j < th)))
  {
    assert Flag(k, ta, th)(j) == Indicator(k >= ta || j < th);
    assert Term(m, h, o, Flag(k, ta, th))(j) == Times(Times(Pow(h, j), Pow(o, m - j)), Flag(k, ta, th)(j));
  }

  /** The summands of row k: exactly k adversarial members, j honest and online. */
  function Cell(n: nat, ta: int, th: int, a: real, h: real, o: real, k: nat): nat -> real
    requires k <= n
  {
    Scaled(C.Choose(n, k), Pow(a, k), InnerTerm(n - k, ta, th, h, o, k))
  }

  function RowTerm(n: nat, ta: int, th: int, a: real, h: real, o: real): nat -> real {
    C.ChooseTerm(n, OuterTerm(n, a, Inner(ta, th, h, o)))
  }

  lemma RowTermIs(n: nat, a: real, W: (nat, nat) -> real, k: nat)
    requires k <= n
    ensures C.ChooseTerm(n, OuterTerm(n, a, W))(k) == C.Scale(C.Choose(n, k), Times(Pow(a, k), W(n - k, k)))
  {
    assert OuterTerm(n, a, W)(k) == Times(Pow(a, k), W(n - k, k));
  }

  lemma RowIs(n: nat, ta: int, th: int, a: real, h: real, o: real, k: nat)
    requires k <= n
    ensures C.Sum(Cell(n, ta, th, a, h, o, k), 0, n - k + 1) == RowTerm(n, ta, th, a, h, o)(k)
  {
    ScaledSum(C.Choose(n, k), Pow(a, k), InnerTerm(n - k, ta, th, h, o, k), n - k + 1);
    RowTermIs(n, a, Inner(ta, th, h, o), k);
  }

  predicate CellSkips(f: nat -> real, n: nat, ta: int, th: int, a: real, h: real, o: real, k: nat, j: nat)
    requires k <= n && j <= n - k
  {
    f(j) >= 0.0 && f(j) == if k < ta && j >= th then 0.0 else CellValue(n, a, h, o, k, j)
  }

  lemma CellIs(n: nat, ta: int, th: int, a: real, h: real, o: real, k: nat, j: nat)
    requires k <= n && j <= n - k && Split(a, h, o)
    ensures CellSkips(Cell(n, ta, th, a, h, o, k), n, ta, th, a, h, o, k, j)
  {
    PowNonNegative(a, k);
    PowNonNegative(h, j);
    PowNonNegative(o, n - k - j);
    InnerTermIs(n - k, ta, th, h, o, k, j);
    CellProduct(C.Choose(n, k), C.Choose(n - k, j), Pow(a, k), Pow(h, j), Pow(o, n - k - j),
                Indicator(k >= ta || j < th));
  }

  lemma CellProduct(c: nat, d: nat, x: real, y: real, z: real, flag: real)
    requires x >= 0.0 && y >= 0.0 && z >= 0.0 && (flag == 0.0 || flag == 1.0)
    ensures var cell := C.Scale(c, Times(x, C.Scale(d, Times(Times(y, z), flag))));
            cell >= 0.0 && cell == if flag == 0.0 then 0.0 else C.Scale(c * d, Times(Times(x, y), z))
  {
    ProductNonNegative(x, y);
    ProductNonNegative(x * y, z);
    ProductNonNegative((c * d) as real, x * y * z);
    assert (c * d) as real == c as real * d as real;
    CellFactors(c as real, d as real, x, y, z);
  }

  lemma CellFactors(c: real, d: real, x: real, y: real, z: real)
    ensures c * (x * (d * (y * z))) == (c * d) * ((x * y) * z)
  {
    assert x * (d * (y * z)) == d * ((x * y) * z);
  }

  lemma CellRatio(c: nat, a: Exact, h: Exact, o: Exact, k: nat, j: nat, m: nat)
    requires Positive(a) && Positive(h) && Positive(o)
    ensures var d := NatPow(a.den, k) * NatPow(h.den, j) * NatPow(o.den, m);
            && d > 0
            && Ratio(c * NatPow(a.num, k) * NatPow(h.num, j) * NatPow(o.num, m), d)
               == C.Scale(c, Times(Times(Pow(Val(a), k), Pow(Val(h), j)), Pow(Val(o), m)))
  {
    var x, y, z := NatPow(a.num, k), NatPow(h.num, j), NatPow(o.num, m);
    var u, v, w := NatPow(a.den, k), NatPow(h.den, j), NatPow(o.den, m);
    NatPowRatio(a.num, a.den, k);
    NatPowRatio(h.num, h.den, j);
    NatPowRatio(o.num, o.den, m);
    RatioTimes(x, u, y, v);
    RatioTimes(x * y, u * v, z, w);
    RatioTimes(c, 1, x * y * z, u * v * w);
    MulAssociative(c, x, y);
    MulAssociative(c, x * y, z);
  }

  /** One row of the double loop adds the row's cells to the total. */
  method BlockRow(n: nat, ta: nat, th: nat, a: Exact, h: Exact, o: Exact, k: nat, total: Exact, ghost f: nat -> real)
    returns (r: Exact)
    requires Proper(a) && Proper(h) && Proper(o) && Proper(total) && k <= n
    requires forall j: nat :: j <= n - k ==> CellSkips(f, n, ta, th, Val(a), Val(h), Val(o), k, j)
    requires Val(total) + C.Sum(f, 0, n - k + 1) <= 1.0
    ensures Proper(r) && Val(r) == Val(total) + C.Sum(f, 0, n - k + 1)
  {
    ProperUnit(total);
    assert forall j: nat :: j < n - k + 1 ==> f(j) >= 0.0 by {
      forall j: nat | j < n - k + 1 ensures f(j) >= 0.0 {
        assert CellSkips(f, n, ta, th, Val(a), Val(h), Val(o), k, j);
      }
    }
    r := total;
    for j := 0 to n - k + 1
      invariant Proper(r) && Val(r) == Val(total) + C.Sum(f, 0, j)
    {
      PartialSum(f, 0, j, n - k + 1);
      assert CellSkips(f, n, ta, th, Val(a), Val(h), Val(o), k, j);
      if k < ta && j >= th {
        continue;
      }
      var mass := CellMass(n, a, h, o, k, j);
      C.SumSplit(f, 0, j + 1, n - k + 1);
      C.SumNonNegative(f, j + 1, n - k + 1);
      ProperUnit(r);
      r := Accumulate(r, mass);
    }
  }

  method CellMass(n: nat, a: Exact, h: Exact, o: Exact, k: nat, j: nat) returns (r: Exact)
    requires Positive(a) && Positive(h) && Positive(o) && k <= n && j <= n - k
    ensures Positive(r) && Val(r) == CellValue(n, Val(a), Val(h), Val(o), k, j)
  {
    var first := Choose(n, k);
    var second := Choose(n - k, j);
    var m := n - k - j;
    CellRatio(first * second, a, h, o, k, j, m);
    r := ReducedOf(first * second * NatPow(a.num, k) * NatPow(h.num, j) * NatPow(o.num, m),
                   NatPow(a.den, k) * NatPow(h.den, j) * NatPow(o.den, m));
  }

  lemma RowFacts(n: nat, ta: int, th: int, a: real, h: real, o: real, k: nat)
    requires Split(a, h, o) && k <= n
    ensures forall j: nat :: j <= n - k ==> CellSkips(Cell(n, ta, th, a, h, o, k), n, ta, th, a, h, o, k, j)
    ensures C.Sum(Cell(n, ta, th, a, h, o, k), 0, n - k + 1) == RowTerm(n, ta, th, a, h, o)(k) >= 0.0
  {
    var f := Cell(n, ta, th, a, h, o, k);
    RowIs(n, ta, th, a, h, o, k);
    forall j: nat | j <= n - k ensures CellSkips(f, n, ta, th, a, h, o, k, j) {
      CellIs(n, ta, th, a, h, o, k, j);
    }
    CellsNonNegative(f, n, ta, th, a, h, o, k);
  }

  lemma CellsNonNegative(f: nat -> real, n: nat, ta: int, th: int, a: real, h: real, o: real, k: nat)
    requires k <= n && forall j: nat :: j <= n - k ==> CellSkips(f, n, ta, th, a, h, o, k, j)
    ensures C.Sum(f, 0, n - k + 1) >= 0.0
  {
    forall j: nat | j < n - k + 1 ensures f(j) >= 0.0 {
      assert CellSkips(f, n, ta, th, a, h, o, k, j);
    }
    C.SumNonNegative(f, 0, n - k + 1);
  }

  predicate IsRow(f: nat -> real, n: nat, ta: int, th: int, a: real, h: real, o: real, k: nat) {
    f(k) >= 0.0 && f(k) == RowTerm(n, ta, th, a, h, o)(k)
  }

  method AddRow(n: nat, ta: nat, th: nat, a: Exact, h: Exact, o: Exact, k: nat, total: Exact, ghost f: nat -> real)
    returns (r: Exact)
    requires Proper(a) && Proper(h) && Proper(o) && Proper(total) && k <= n
    requires Split(Val(a), Val(h), Val(o)) && IsRow(f, n, ta, th, Val(a), Val(h), Val(o), k)
    requires Val(total) + f(k) <= 1.0
    ensures Proper(r) && Val(r) == Val(total) + f(k)
  {
    RowFacts(n, ta, th, Val(a), Val(h), Val(o), k);
    r := BlockRow(n, ta, th, a, h, o, k, total, Cell(n, ta, th, Val(a), Val(h), Val(o), k));
  }

  lemma BlockRows(n: nat, ta: int, th: int, a: real, h: real, o: real, f: nat -> real)
    requires Split(a, h, o) && f == RowTerm(n, ta, th, a, h, o)
    ensures forall k: nat :: k <= n ==> IsRow(f, n, ta, th, a, h, o, k)
    ensures C.Sum(f, 0, n + 1) == Block(n, ta, th, a, h, o) <= 1.0
  {
    BlockClosedForm(n, ta, th, a, h, o);
    BlockUnit(n, ta, th, a, h, o);
    forall k: nat | k <= n ensures IsRow(f, n, ta, th, a, h, o, k) {
      RowFacts(n, ta, th, a, h, o, k);
    }
  }

  /** The double loop over adversarial and honest-online counts. */
  method SumRows(n: nat, ta: nat, th: nat, a: Exact, h: Exact, o: Exact, ghost f: nat -> real) returns (r: Exact)
    requires Proper(a) && Proper(h) && Proper(o) && Split(Val(a), Val(h), Val(o))
    requires forall k: nat :: k <= n ==> IsRow(f, n, ta, th, Val(a), Val(h), Val(o), k)
    requires C.Sum(f, 0, n + 1) <= 1.0
    ensures Proper(r) && Val(r) == C.Sum(f, 0, n + 1)
  {
    forall k: nat | k < n + 1 ensures f(k) >= 0.0 {
      assert IsRow(f, n, ta, th, Val(a), Val(h), Val(o), k);
    }
    r := Zero();
    for k := 0 to n + 1
      invariant Proper(r) && Val(r) == C.Sum(f, 0, k)
    {
      PartialSum(f, 0, k, n + 1);
      r := AddRow(n, ta, th, a, h, o, k, r, f);
    }
  }

  method CategoricalBlockProbability(n: nat, ta: nat, th: nat, a: Exact, h: Exact) returns (r: Exact)
    requires Proper(a) && Proper(h) && Val(a) + Val(h) <= 1.0
    ensures Proper(r) && Val(r) == Block(n, ta, th, Val(a), Val(h), 1.0 - Val(a) - Val(h))
  {
    var o := Complement(Add(a, h));
    ProperUnit(a);
    ProperUnit(h);
    ProperUnit(o);
    ghost var f := RowTerm(n, ta, th, Val(a), Val(h), Val(o));
    BlockRows(n, ta, th, Val(a), Val(h), Val(o), f);
    r := SumRows(n, ta, th, a, h, o, f);
  }

  // ---- Drawing without replacement ----

  datatype Population = Population(total: nat, adversarial: nat)

  predicate ValidPopulation(p: Population, draws: nat) {
    0 < p.total && p.adversarial <= p.total && draws <= p.total
  }

  datatype TailResult = Chance(value: Exact) | InvalidCommittee | ProbabilityOutOfRange

  /** The draws of d members out of a adversarial and h honest ones that contain at least t adversarial members. */
  function Draws(a: nat, h: nat, d: nat, t: int): nat {
    if a == 0 then (if t <= 0 then C.Choose(h, d) else 0)
    else (if d == 0 then 0 else Draws(a - 1, h, d - 1, t - 1)) + Draws(a - 1, h, d, t)
  }

  /** With no threshold every draw counts: Vandermonde's identity. */
  lemma {:induction false} DrawsAll(a: nat, h: nat, d: nat, t: int)
    requires t <= 0
    ensures Draws(a, h, d, t) == C.Choose(a + h, d)
  {
    if a > 0 {
      DrawsAll(a - 1, h, d, t);
      if d > 0 {
        DrawsAll(a - 1, h, d - 1, t - 1);
      }
    }
  }

  lemma {:induction false} DrawsThreshold(a: nat, h: nat, d: nat, t: int)
    ensures Draws(a, h, d, t) <= Draws(a, h, d, t - 1)
  {
    if a > 0 {
      DrawsThreshold(a - 1, h, d, t);
      if d > 0 {
        DrawsThreshold(a - 1, h, d - 1, t - 1);
      }
    }
  }

  lemma {:induction false} DrawsAtMostAll(a: nat, h: nat, d: nat, t: nat)
    ensures Draws(a, h, d, t) <= C.Choose(a + h, d)
  {
    if t == 0 {
      DrawsAll(a, h, d, 0);
    } else {
      DrawsThreshold(a, h, d, t);
      DrawsAtMostAll(a, h, d, t - 1);
    }
  }

  /** The honest part of a draw with k adversarial members. */
  function HonestPart(h: nat, d: nat, t: int): nat -> real {
    (k: nat) => if k >= t && k <= d then C.Choose(h, d - k) as real else 0.0
  }

  lemma {:induction false} DrawsClosedForm(a: nat, h: nat, d: nat, t: int)
    ensures C.ChooseSum(a, HonestPart(h, d, t)) == Draws(a, h, d, t) as real
    decreases a
  {
    var F := HonestPart(h, d, t);
    if a == 0 {
      assert C.Sum(C.ChooseTerm(0, F), 0, 1) == C.Sum(C.ChooseTerm(0, F), 0, 0) + C.ChooseTerm(0, F)(0);
      assert C.Scale(1, F(0)) == F(0);
    } else {
      C.PascalSum(a - 1, F);
      DrawsClosedForm(a - 1, h, d, t);
      if d > 0 {
        DrawsClosedForm(a - 1, h, d - 1, t - 1);
        ShiftedPart(a - 1, h, d, t);
      } else {
        NoDraw(a - 1, h, t);
      }
    }
  }

  lemma ShiftedPart(a: nat, h: nat, d: nat, t: int)
    requires d > 0
    ensures C.ChooseSum(a, C.Shift(HonestPart(h, d, t))) == C.ChooseSum(a, HonestPart(h, d - 1, t - 1))
  {
    var f, g := C.Shift(HonestPart(h, d, t)), HonestPart(h, d - 1, t - 1);
    forall k: nat | k < a + 1 ensures C.ChooseTerm(a, f)(k) == C.ChooseTerm(a, g)(k) {
      assert f(k) == g(k);
    }
    C.SumEqual(C.ChooseTerm(a, f), C.ChooseTerm(a, g), 0, a + 1);
  }

  lemma NoDraw(a: nat, h: nat, t: int)
    ensures C.ChooseSum(a, C.Shift(HonestPart(h, 0, t))) == 0.0
  {
    var f := C.Shift(HonestPart(h, 0, t));
    forall k: nat | k < a + 1 ensures C.ChooseTerm(a, f)(k) == 0.0 {
      assert f(k) == 0.0;
      assert C.Scale(C.Choose(a, k), 0.0) == 0.0;
    }
    C.SumZero(C.ChooseTerm(a, f), 0, a + 1);
  }

  /** The chance that a uniform draw holds at least t adversarial members. */
  function HypergeometricProbability(p: Population, draws: nat, t: nat): real
    requires ValidPopulation(p, draws)
  {
    C.ChoosePositive(p.total, draws);
    Ratio(Draws(p.adversarial, p.total - p.adversarial, draws, t), C.Choose(p.total, draws))
  }

  /** The summands outside the loop's range are zero. */
  lemma DrawsRange(a: nat, h: nat, d: nat, t: nat, top: nat)
    requires top == if d <= a then d else a
    ensures Draws(a, h, d, t) as real == if t <= top then C.Sum(C.ChooseTerm(a, HonestPart(h, d, t)), t, top + 1)
            else 0.0
  {
    var F := HonestPart(h, d, t);
    var f := C.ChooseTerm(a, F);
    DrawsClosedForm(a, h, d, t);
    forall k: nat | k < t || k > d ensures f(k) == 0.0 {
      assert F(k) == 0.0;
      assert C.Scale(C.Choose(a, k), 0.0) == 0.0;
    }
    if t <= top {
      C.SumSplit(f, 0, t, a + 1);
      C.SumZero(f, 0, t);
      C.SumSplit(f, t, top + 1, a + 1);
      C.SumZero(f, top + 1, a + 1);
    } else {
      C.SumZero(f, 0, a + 1);
    }
  }

  lemma DrawTerm(a: nat, h: nat, d: nat, t: nat, k: nat)
    requires t <= k <= d && k <= a
    ensures C.ChooseTerm(a, HonestPart(h, d, t))(k) == (C.Choose(a, k) * C.Choose(h, d - k)) as real
  {
    assert HonestPart(h, d, t)(k) == C.Choose(h, d - k) as real;
  }

  method HypergeometricTail(population: Population, draws: nat, atLeast: nat) returns (r: TailResult)
    ensures r.Chance? <==> ValidPopulation(population, draws)
    ensures !r.Chance? ==> r.InvalidCommittee?
    ensures r.Chance? ==> Proper(r.value) && Val(r.value) == HypergeometricProbability(population, draws, atLeast)
  {
    if population.total == 0 || population.adversarial > population.total || draws > population.total {
      return InvalidCommittee;
    }
    var adversarial, honest := population.adversarial, population.total - population.adversarial;
    C.ChoosePositive(population.total, draws);
    if atLeast == 0 {
      DrawsAll(adversarial, honest, draws, 0);
      WholeRatio(C.Choose(population.total, draws));
      return Chance(One());
    }
    var denominator := Choose(population.total, draws);
    var numerator := CountDraws(adversarial, honest, draws, atLeast);
    DrawsAtMostAll(adversarial, honest, draws, atLeast);
    if numerator > denominator {
      return ProbabilityOutOfRange;
    }
    var value := ReducedOf(numerator, denominator);
    return Chance(value);
  }

  lemma WholeRatio(d: nat)
    requires d > 0
    ensures Ratio(d, d) == Val(One())
  {
  }

  method CountDraws(adversarial: nat, honest: nat, draws: nat, minimum: nat) returns (numerator: nat)
    ensures numerator == Draws(adversarial, honest, draws, minimum)
  {
    var maximum := if draws <= adversarial then draws else adversarial;
    ghost var f := C.ChooseTerm(adversarial, HonestPart(honest, draws, minimum));
    DrawsRange(adversarial, honest, draws, minimum, maximum);
    numerator := 0;
    var k := minimum;
    while k <= maximum
      invariant minimum <= k && (minimum <= maximum ==> k <= maximum + 1)
      invariant numerator as real == if minimum <= maximum then C.Sum(f, minimum, k) else 0.0
    {
      DrawTerm(adversarial, honest, draws, minimum, k);
      var honestDraws := draws - k;
      if honestDraws <= honest {
        var first := Choose(adversarial, k);
        var second := Choose(honest, honestDraws);
        numerator := numerator + first * second;
      } else {
        C.ChooseBeyond(honest, honestDraws);
      }
      k := k + 1;
    }
  }

  // ---- Yearly bounds ----

  /** Bernoulli's inequality: n independent events of probability p happen at all with probability at most n p. */
  lemma {:induction false} AnyOf(p: real, n: nat)
    requires Unit(p)
    ensures 1.0 - Pow(1.0 - p, n) <= n as real * p && Unit(Pow(1.0 - p, n))
  {
    if n > 0 {
      AnyOf(p, n - 1);
      ProductUnit(1.0 - p, Pow(1.0 - p, n - 1));
      ProductUnit(p, Pow(1.0 - p, n - 1));
      AnyOfStep(p, Pow(1.0 - p, n - 1), n);
    }
  }

  lemma AnyOfStep(p: real, q: real, n: nat)
    requires n > 0 && Times(p, q) <= p && 1.0 - q <= (n - 1) as real * p
    ensures 1.0 - Times(1.0 - p, q) <= n as real * p
  {
    assert (n - 1) as real == n as real - 1.0;
    assert Times(1.0 - p, q) == q - Times(p, q);
  }

  method AnnualUnionBound(p: Exact, events: nat) returns (r: Exact)
    requires Proper(p)
    ensures Proper(r) && Val(r) == Cap(events as real * Val(p))
    ensures 1.0 - Pow(1.0 - Val(p), events) <= Val(r)
  {
    ProperUnit(p);
    AnyOf(Val(p), events);
    RatioUnit(p.num, p.den);
    if p.num == 0 || events == 0 {
      return Zero();
    }
    var numerator := p.num * events;
    EventsRatio(p, events);
    RatioUnit(numerator, p.den);
    if numerator >= p.den {
      AtLeastOne(numerator, p.den);
      return One();
    }
    r := ReducedOf(numerator, p.den);
  }

  lemma AtLeastOne(n: nat, d: nat)
    requires 0 < d <= n
    ensures Ratio(n, d) >= 1.0
  {
  }

  lemma EventsRatio(p: Exact, events: nat)
    requires Positive(p)
    ensures Ratio(p.num * events, p.den) == events as real * Val(p)
  {
    RatioTimes(p.num, p.den, events, 1);
  }
}
