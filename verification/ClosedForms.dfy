/**
 The sums over binomial and trinomial masses that the risk code evaluates are
 the member-by-member probabilities of module Probability.
 */
module ClosedForms {
  import opened Combinatorics
  import opened Probability

  function Pow(x: real, n: nat): real {
    if n == 0 then 1.0 else Times(x, Pow(x, n - 1))
  }

  lemma {:induction false} PowNonNegative(x: real, n: nat)
    requires x >= 0.0
    ensures Pow(x, n) >= 0.0
  {
    if n > 0 {
      PowNonNegative(x, n - 1);
      ProductNonNegative(x, Pow(x, n - 1));
    }
  }

  /** k successes weigh x^k y^(n-k) F(k). */
  function Term(n: nat, x: real, y: real, F: nat -> real): nat -> real {
    (k: nat) => if k <= n then Times(Times(Pow(x, k), Pow(y, n - k)), F(k)) else 0.0
  }

  /** The sum of C(n, k) x^k y^(n-k) F(k) over k = 0 .. n. */
  function WeightedSum(n: nat, x: real, y: real, F: nat -> real): real { ChooseSum(n, Term(n, x, y, F)) }

  lemma WeightedSumEqual(n: nat, x: real, y: real, F: nat -> real, G: nat -> real)
    requires forall k: nat :: k <= n ==> F(k) == G(k)
    ensures WeightedSum(n, x, y, F) == WeightedSum(n, x, y, G)
  {
    SumEqual(ChooseTerm(n, Term(n, x, y, F)), ChooseTerm(n, Term(n, x, y, G)), 0, n + 1);
  }

  /** g is c times f term by term, so the weighted sums scale. */
  lemma ChooseSumScale(n: nat, c: real, f: nat -> real, g: nat -> real)
    requires forall k: nat :: k <= n ==> g(k) == Times(c, f(k))
    ensures ChooseSum(n, g) == Times(c, ChooseSum(n, f))
  {
    forall k: nat | k < n + 1 ensures ChooseTerm(n, g)(k) == c * ChooseTerm(n, f)(k) {
      SwapFactors(Choose(n, k), c, f(k));
    }
    SumScale(c, ChooseTerm(n, f), ChooseTerm(n, g), 0, n + 1);
  }

  lemma SwapFactors(a: nat, c: real, x: real)
    ensures Scale(a, Times(c, x)) == c * Scale(a, x)
  {
  }

  lemma ScaleSum(a: nat, x: real, y: real)
    ensures Scale(a, x + y) == Scale(a, x) + Scale(a, y)
  {
  }

  lemma ChooseSumPlus(n: nat, f: nat -> real, g: nat -> real, h: nat -> real)
    requires forall k: nat :: k <= n ==> h(k) == f(k) + g(k)
    ensures ChooseSum(n, h) == ChooseSum(n, f) + ChooseSum(n, g)
  {
    forall k: nat | k < n + 1 ensures ChooseTerm(n, h)(k) == ChooseTerm(n, f)(k) + ChooseTerm(n, g)(k) {
      ScaleSum(Choose(n, k), f(k), g(k));
    }
    SumPlus(ChooseTerm(n, f), ChooseTerm(n, g), ChooseTerm(n, h), 0, n + 1);
  }

  lemma TermShift(n: nat, x: real, y: real, F: nat -> real, k: nat)
    requires k <= n
    ensures Shift(Term(n + 1, x, y, F))(k) == Times(x, Term(n, x, y, Shift(F))(k))
    ensures Term(n + 1, x, y, F)(k) == Times(y, Term(n, x, y, F)(k))
  {
    assert Pow(x, k + 1) == Times(x, Pow(x, k));
    assert Pow(y, n + 1 - k) == Times(y, Pow(y, n - k));
    PullFactor(x, Pow(x, k), Pow(y, n - k), F(k + 1));
    PullFactor(y, Pow(x, k), Pow(y, n - k), F(k));
  }

  lemma PullFactor(c: real, u: real, v: real, w: real)
    ensures Times(Times(Times(c, u), v), w) == Times(c, Times(Times(u, v), w))
    ensures Times(Times(u, Times(c, v)), w) == Times(c, Times(Times(u, v), w))
  {
  }

  /** One more member: it counts with weight x, or not with weight y. */
  lemma WeightedSumStep(n: nat, x: real, y: real, F: nat -> real)
    ensures WeightedSum(n + 1, x, y, F)
         == Times(x, WeightedSum(n, x, y, Shift(F))) + Times(y, WeightedSum(n, x, y, F))
  {
    var f := Term(n + 1, x, y, F);
    PascalSum(n, f);
    forall k: nat | k <= n
      ensures Shift(f)(k) == Times(x, Term(n, x, y, Shift(F))(k)) && f(k) == Times(y, Term(n, x, y, F)(k))
    {
      TermShift(n, x, y, F, k);
    }
    ChooseSumScale(n, x, Term(n, x, y, Shift(F)), Shift(f));
    ChooseSumScale(n, y, Term(n, x, y, F), f);
  }

  /** With weights p and 1 - p the step is a mean. */
  lemma MeanStep(n: nat, p: real, F: nat -> real, G: nat -> real)
    requires forall k: nat :: k <= n ==> G(k) == F(k + 1)
    ensures WeightedSum(n + 1, p, 1.0 - p, F)
         == Mix(p, WeightedSum(n, p, 1.0 - p, G), WeightedSum(n, p, 1.0 - p, F))
  {
    WeightedSumStep(n, p, 1.0 - p, F);
    WeightedSumEqual(n, p, 1.0 - p, Shift(F), G);
  }

  lemma WeightedSumZero(x: real, y: real, F: nat -> real)
    ensures WeightedSum(0, x, y, F) == F(0)
  {
    var f := ChooseTerm(0, Term(0, x, y, F));
    assert Sum(f, 0, 1) == Sum(f, 0, 0) + f(0);
    assert Pow(x, 0) == Pow(y, 0) == 1.0;
  }

  // ---- Binomial ----

  function AtLeast(t: int): nat -> real { (k: nat) => Indicator(k >= t) }

  lemma {:induction false} TailClosedForm(n: nat, t: int, p: real)
    ensures WeightedSum(n, p, 1.0 - p, AtLeast(t)) == Tail(n, t, p)
  {
    if n == 0 {
      WeightedSumZero(p, 1.0 - p, AtLeast(t));
    } else {
      MeanStep(n - 1, p, AtLeast(t), AtLeast(t - 1));
      TailClosedForm(n - 1, t - 1, p);
      TailClosedForm(n - 1, t, p);
    }
  }

  /** The mass of exactly k adversarial members out of n. */
  function Mass(n: nat, k: nat, p: real): real
    requires k <= n
  {
    Scale(Choose(n, k), Times(Pow(p, k), Pow(1.0 - p, n - k)))
  }

  function MassTerm(n: nat, p: real): nat -> real {
    (k: nat) => if k <= n then Mass(n, k, p) else 0.0
  }

  lemma MassNonNegative(n: nat, k: nat, p: real)
    requires Unit(p) && k <= n
    ensures Mass(n, k, p) >= 0.0
  {
    PowNonNegative(p, k);
    PowNonNegative(1.0 - p, n - k);
    ProductNonNegative(Pow(p, k), Pow(1.0 - p, n - k));
    ProductNonNegative(Choose(n, k) as real, Times(Pow(p, k), Pow(1.0 - p, n - k)));
  }

  lemma TailTerm(n: nat, t: nat, p: real, k: nat)
    requires k <= n
    ensures ChooseTerm(n, Term(n, p, 1.0 - p, AtLeast(t)))(k) == if k < t then 0.0 else MassTerm(n, p)(k)
  {
    var u := Times(Pow(p, k), Pow(1.0 - p, n - k));
    assert Term(n, p, 1.0 - p, AtLeast(t))(k) == Times(u, Indicator(k >= t));
  }

  /** The masses from t upward add up to the tail, and all of them to one. */
  lemma MassesFrom(n: nat, t: nat, p: real)
    requires t <= n
    ensures Sum(MassTerm(n, p), t, n + 1) == Tail(n, t, p)
    ensures t == 0 ==> Sum(MassTerm(n, p), t, n + 1) == 1.0
  {
    if t == 0 {
      TailCertain(n, t, p);
    }
    var f := ChooseTerm(n, Term(n, p, 1.0 - p, AtLeast(t)));
    TailClosedForm(n, t, p);
    SumSplit(f, 0, t, n + 1);
    forall k: nat | k <= n ensures f(k) == if k < t then 0.0 else MassTerm(n, p)(k) {
      TailTerm(n, t, p, k);
    }
    SumZero(f, 0, t);
    SumEqual(f, MassTerm(n, p), t, n + 1);
  }

  // ---- Overlapping committees ----

  function BothTails(n1: nat, t1: int, n2: nat, t2: int, p: real): nat -> real {
    (j: nat) => Times(Tail(n1, t1 - j, p), Tail(n2, t2 - j, p))
  }

  lemma JointStep(s: nat, n1: nat, t1: int, n2: nat, t2: int, p: real)
    ensures WeightedSum(s + 1, p, 1.0 - p, BothTails(n1, t1, n2, t2, p))
         == Mix(p, WeightedSum(s, p, 1.0 - p, BothTails(n1, t1 - 1, n2, t2 - 1, p)),
                WeightedSum(s, p, 1.0 - p, BothTails(n1, t1, n2, t2, p)))
  {
    var F, G := BothTails(n1, t1, n2, t2, p), BothTails(n1, t1 - 1, n2, t2 - 1, p);
    forall k: nat | k <= s ensures G(k) == F(k + 1) {
      assert t1 - 1 - k == t1 - (k + 1) && t2 - 1 - k == t2 - (k + 1);
    }
    MeanStep(s, p, F, G);
  }

  lemma {:induction false} JointClosedForm(s: nat, n1: nat, t1: int, n2: nat, t2: int, p: real)
    ensures WeightedSum(s, p, 1.0 - p, BothTails(n1, t1, n2, t2, p)) == Joint(s, n1, t1, n2, t2, p)
  {
    if s == 0 {
      WeightedSumZero(p, 1.0 - p, BothTails(n1, t1, n2, t2, p));
    } else {
      JointStep(s - 1, n1, t1, n2, t2, p);
      JointClosedForm(s - 1, n1, t1 - 1, n2, t2 - 1, p);
      JointClosedForm(s - 1, n1, t1, n2, t2, p);
    }
  }

  // ---- Trinomial ----

  function Flag(k: nat, ta: int, th: int): nat -> real { (j: nat) => Indicator(k >= ta || j < th) }

  /** k members taken with factor P(k), the other n - k contributing W(n - k, k). */
  function OuterWith(n: nat, P: nat -> real, W: (nat, nat) -> real): nat -> real {
    (k: nat) => if k <= n then Times(P(k), W(n - k, k)) else 0.0
  }

  function Powers(a: real): nat -> real { (k: nat) => Pow(a, k) }

  function OuterTerm(n: nat, a: real, W: (nat, nat) -> real): nat -> real { OuterWith(n, Powers(a), W) }

  lemma Reassociate(a: real, u: real, v: real)
    ensures Times(Times(a, u), v) == Times(a, Times(u, v))
  {
  }

  lemma Distribute(c: real, x: real, u: real, y: real, v: real)
    ensures Times(c, Times(x, u) + Times(y, v)) == Times(x, Times(c, u)) + Times(y, Times(c, v))
  {
  }

  predicate Taken(W: (nat, nat) -> real, W1: (nat, nat) -> real, m: nat, k: nat) {
    W(m, k + 1) == W1(m, k)
  }

  predicate Left(W: (nat, nat) -> real, W2: (nat, nat) -> real, h: real, o: real, m: nat, k: nat) {
    W(m + 1, k) == Times(h, W2(m, k)) + Times(o, W(m, k))
  }

  predicate TakenAt(f: nat -> real, b: nat -> real, a: real, k: nat) { f(k + 1) == Times(a, b(k)) }

  predicate LeftAt(f: nat -> real, b: nat -> real, c: nat -> real, h: real, o: real, k: nat) {
    f(k) == Times(h, b(k)) + Times(o, c(k))
  }

  lemma OuterTaken(n: nat, a: real, P: nat -> real, W: (nat, nat) -> real, W1: (nat, nat) -> real, k: nat)
    requires k <= n && Taken(W, W1, n - k, k) && P(k + 1) == Times(a, P(k))
    ensures TakenAt(OuterWith(n + 1, P, W), OuterWith(n, P, W1), a, k)
  {
    assert n + 1 - (k + 1) == n - k;
    Reassociate(a, P(k), W1(n - k, k));
  }

  lemma OuterLeft(n: nat, h: real, o: real, P: nat -> real, W: (nat, nat) -> real, W2: (nat, nat) -> real, k: nat)
    requires k <= n && Left(W, W2, h, o, n - k, k)
    ensures LeftAt(OuterWith(n + 1, P, W), OuterWith(n, P, W2), OuterWith(n, P, W), h, o, k)
  {
    assert W(n + 1 - k, k) == Times(h, W2(n - k, k)) + Times(o, W(n - k, k)) by {
      assert n + 1 - k == n - k + 1;
    }
    LeftProduct(OuterWith(n + 1, P, W)(k), OuterWith(n, P, W2)(k), OuterWith(n, P, W)(k),
                P(k), W(n + 1 - k, k), h, W2(n - k, k), o, W(n - k, k));
  }

  lemma LeftProduct(x: real, y: real, z: real, c: real, t: real, h: real, u: real, o: real, v: real)
    requires t == Times(h, u) + Times(o, v) && x == Times(c, t) && y == Times(c, u) && z == Times(c, v)
    ensures x == Times(h, y) + Times(o, z)
  {
    Distribute(c, h, u, o, v);
  }

  /** One more member: taken with weight a, left with weights h and o. */
  lemma OuterStep(n: nat, a: real, h: real, o: real,
                  W: (nat, nat) -> real, W1: (nat, nat) -> real, W2: (nat, nat) -> real)
    requires forall m: nat, k: nat :: Taken(W, W1, m, k)
    requires forall m: nat, k: nat :: Left(W, W2, h, o, m, k)
    ensures ChooseSum(n + 1, OuterTerm(n + 1, a, W))
         == Mix3(a, h, o, ChooseSum(n, OuterTerm(n, a, W1)), ChooseSum(n, OuterTerm(n, a, W2)),
                 ChooseSum(n, OuterTerm(n, a, W)))
  {
    var f, b1, b2, b3 := OuterTerm(n + 1, a, W), OuterTerm(n, a, W1), OuterTerm(n, a, W2), OuterTerm(n, a, W);
    forall k: nat | k <= n ensures TakenAt(f, b1, a, k) && LeftAt(f, b2, b3, h, o, k) {
      assert Powers(a)(k + 1) == Times(a, Powers(a)(k));
      OuterTaken(n, a, Powers(a), W, W1, k);
      OuterLeft(n, h, o, Powers(a), W, W2, k);
    }
    ThreeWayStep(n, f, b1, b2, b3, a, h, o);
  }

  /** Pascal's rule for a summand that is taken with factor a, or left with factors h and o. */
  lemma ThreeWayStep(
      n: nat, f: nat -> real, b1: nat -> real, b2: nat -> real, b3: nat -> real, a: real, h: real, o: real)
    requires forall k: nat :: k <= n ==> TakenAt(f, b1, a, k) && LeftAt(f, b2, b3, h, o, k)
    ensures ChooseSum(n + 1, f) == Mix3(a, h, o, ChooseSum(n, b1), ChooseSum(n, b2), ChooseSum(n, b3))
  {
    forall k: nat | k <= n ensures Shift(f)(k) == Times(a, b1(k)) {
      assert TakenAt(f, b1, a, k);
    }
    forall k: nat | k <= n ensures f(k) == Times(h, b2(k)) + Times(o, b3(k)) {
      assert LeftAt(f, b2, b3, h, o, k);
    }
    var g2, g3 := (k: nat) => Times(h, b2(k)), (k: nat) => Times(o, b3(k));
    PascalSum(n, f);
    ChooseSumScale(n, a, b1, Shift(f));
    ChooseSumPlus(n, g2, g3, f);
    ChooseSumScale(n, h, b2, g2);
    ChooseSumScale(n, o, b3, g3);
  }

  /** The honest-online sum over the m members that are not adversarial. */
  function Inner(ta: int, th: int, h: real, o: real): (nat, nat) -> real {
    (m: nat, k: nat) => WeightedSum(m, h, o, Flag(k, ta, th))
  }

  /** The sum of C(n, k) a^k C(n - k, j) h^j o^(n-k-j) over the blocking pairs (k, j). */
  function BlockSum(n: nat, ta: int, th: int, a: real, h: real, o: real): real {
    ChooseSum(n, OuterTerm(n, a, Inner(ta, th, h, o)))
  }

  lemma InnerTaken(ta: int, th: int, h: real, o: real, m: nat, k: nat)
    ensures Taken(Inner(ta, th, h, o), Inner(ta - 1, th, h, o), m, k)
  {
    WeightedSumEqual(m, h, o, Flag(k + 1, ta, th), Flag(k, ta - 1, th));
  }

  lemma InnerLeft(ta: int, th: int, h: real, o: real, m: nat, k: nat)
    ensures Left(Inner(ta, th, h, o), Inner(ta, th - 1, h, o), h, o, m, k)
  {
    WeightedSumStep(m, h, o, Flag(k, ta, th));
    WeightedSumEqual(m, h, o, Shift(Flag(k, ta, th)), Flag(k, ta, th - 1));
  }

  lemma BlockSumStep(n: nat, ta: int, th: int, a: real, h: real, o: real)
    ensures BlockSum(n + 1, ta, th, a, h, o)
         == Mix3(a, h, o, BlockSum(n, ta - 1, th, a, h, o), BlockSum(n, ta, th - 1, a, h, o),
                 BlockSum(n, ta, th, a, h, o))
  {
    var W, W1, W2 := Inner(ta, th, h, o), Inner(ta - 1, th, h, o), Inner(ta, th - 1, h, o);
    forall m: nat, k: nat ensures Taken(W, W1, m, k) {
      InnerTaken(ta, th, h, o, m, k);
    }
    forall m: nat, k: nat ensures Left(W, W2, h, o, m, k) {
      InnerLeft(ta, th, h, o, m, k);
    }
    OuterStep(n, a, h, o, W, W1, W2);
  }

  lemma BlockSumZero(ta: int, th: int, a: real, h: real, o: real)
    ensures BlockSum(0, ta, th, a, h, o) == Indicator(ta <= 0 || th > 0)
  {
    WeightedSumZero(h, o, Flag(0, ta, th));
    var f := ChooseTerm(0, OuterTerm(0, a, Inner(ta, th, h, o)));
    assert Sum(f, 0, 1) == Sum(f, 0, 0) + f(0);
    assert Pow(a, 0) == 1.0;
  }

  /** g satisfies Block's recursion at n + 1. */
  predicate FollowsBlock(g: (nat, int, int) -> real, n: nat, ta: int, th: int, a: real, h: real, o: real) {
    g(n + 1, ta, th) == Mix3(a, h, o, g(n, ta - 1, th), g(n, ta, th - 1), g(n, ta, th))
  }

  /** The recursion determines the function. */
  lemma {:induction false} BlockUnique(g: (nat, int, int) -> real, n: nat, ta: int, th: int, a: real, h: real, o: real)
    requires forall ta: int, th: int :: g(0, ta, th) == Indicator(ta <= 0 || th > 0)
    requires forall n: nat, ta: int, th: int :: FollowsBlock(g, n, ta, th, a, h, o)
    ensures g(n, ta, th) == Block(n, ta, th, a, h, o)
  {
    if n > 0 {
      BlockUnique(g, n - 1, ta - 1, th, a, h, o);
      BlockUnique(g, n - 1, ta, th - 1, a, h, o);
      BlockUnique(g, n - 1, ta, th, a, h, o);
      assert FollowsBlock(g, n - 1, ta, th, a, h, o);
    }
  }

  lemma BlockClosedForm(n: nat, ta: int, th: int, a: real, h: real, o: real)
    ensures BlockSum(n, ta, th, a, h, o) == Block(n, ta, th, a, h, o)
  {
    var g := (n: nat, ta: int, th: int) => BlockSum(n, ta, th, a, h, o);
    forall ta: int, th: int ensures g(0, ta, th) == Indicator(ta <= 0 || th > 0) {
      BlockSumZero(ta, th, a, h, o);
    }
    forall n: nat, ta: int, th: int ensures FollowsBlock(g, n, ta, th, a, h, o) {
      BlockSumStep(n, ta, th, a, h, o);
    }
    BlockUnique(g, n, ta, th, a, h, o);
  }
}
