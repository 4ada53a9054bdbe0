/**
 What the reported risks mean: probabilities over a committee drawn member by
 member, each member adversarial (or honest and online) independently, and over
 correlation groups that fail independently. The inequalities between them are
 proved here on real numbers, by induction on the members or groups.
 */
module Probability {

  predicate Unit(p: real) { 0.0 <= p <= 1.0 }

  function Indicator(b: bool): real { if b then 1.0 else 0.0 }

  function Times(x: real, y: real): real { x * y }

  /** The mean of x with probability p and y otherwise. */
  function Mix(p: real, x: real, y: real): real { Times(p, x) + Times(1.0 - p, y) }

  /** The mean of x with probability a, y with probability h and z with probability o. */
  function Mix3(a: real, h: real, o: real, x: real, y: real, z: real): real {
    Times(a, x) + Times(h, y) + Times(o, z)
  }

  predicate Split(a: real, h: real, o: real) { a >= 0.0 && h >= 0.0 && o >= 0.0 && a + h + o == 1.0 }

  lemma ProductNonNegative(x: real, y: real)
    requires x >= 0.0 && y >= 0.0
    ensures x * y >= 0.0
  {
  }

  lemma TimesNonNegative(x: real, y: real)
    requires x >= 0.0 && y >= 0.0
    ensures Times(x, y) >= 0.0
  {
  }

  lemma MixMonotone(p: real, a: real, b: real, c: real, d: real)
    requires Unit(p) && a <= c && b <= d
    ensures Mix(p, a, b) <= Mix(p, c, d)
  {
    ProductNonNegative(p, c - a);
    ProductNonNegative(1.0 - p, d - b);
  }

  lemma MixUnit(p: real, a: real, b: real)
    requires Unit(p) && Unit(a) && Unit(b)
    ensures Unit(Mix(p, a, b))
  {
    MixMonotone(p, 0.0, 0.0, a, b);
    MixMonotone(p, a, b, 1.0, 1.0);
  }

  /** A mean rises with its values and with the weight of the larger one. */
  lemma MixRaise(p: real, q: real, a: real, b: real, x: real, y: real)
    requires Unit(p) && Unit(q) && p <= q && a <= x && b <= y <= x
    ensures Mix(p, a, b) <= Mix(q, x, y)
  {
    MixMonotone(p, a, b, x, y);
    ProductNonNegative(q - p, x - y);
    assert Mix(q, x, y) - Mix(p, x, y) == (q - p) * (x - y);
  }

  lemma Mix3Monotone(a: real, h: real, o: real, x: real, y: real, z: real, x': real, y': real, z': real)
    requires Split(a, h, o) && x <= x' && y <= y' && z <= z'
    ensures Mix3(a, h, o, x, y, z) <= Mix3(a, h, o, x', y', z')
  {
    ProductNonNegative(a, x' - x);
    ProductNonNegative(h, y' - y);
    ProductNonNegative(o, z' - z);
  }

  lemma Mix3Unit(a: real, h: real, o: real, x: real, y: real, z: real)
    requires Split(a, h, o) && Unit(x) && Unit(y) && Unit(z)
    ensures Unit(Mix3(a, h, o, x, y, z))
  {
    Mix3Monotone(a, h, o, 0.0, 0.0, 0.0, x, y, z);
    Mix3Monotone(a, h, o, x, y, z, 1.0, 1.0, 1.0);
  }

  lemma ProductUnit(x: real, y: real)
    requires Unit(x) && Unit(y)
    ensures Unit(Times(x, y)) && Times(x, y) <= y && Times(x, y) <= x
  {
    ProductNonNegative(x, y);
    ProductNonNegative(1.0 - x, y);
    ProductNonNegative(1.0 - y, x);
  }

  // ---- At least t adversarial members out of n ----

  function Tail(n: nat, t: int, p: real): real {
    if n == 0 then Indicator(t <= 0) else Mix(p, Tail(n - 1, t - 1, p), Tail(n - 1, t, p))
  }

  lemma {:induction false} TailCertain(n: nat, t: int, p: real)
    requires t <= 0
    ensures Tail(n, t, p) == 1.0
  {
    if n > 0 {
      TailCertain(n - 1, t - 1, p);
      TailCertain(n - 1, t, p);
    }
  }

  lemma {:induction false} TailImpossible(n: nat, t: int, p: real)
    requires t > n
    ensures Tail(n, t, p) == 0.0
  {
    if n > 0 {
      TailImpossible(n - 1, t - 1, p);
      TailImpossible(n - 1, t, p);
    }
  }

  lemma {:induction false} TailUnit(n: nat, t: int, p: real)
    requires Unit(p)
    ensures Unit(Tail(n, t, p))
  {
    if n > 0 {
      TailUnit(n - 1, t - 1, p);
      TailUnit(n - 1, t, p);
      MixUnit(p, Tail(n - 1, t - 1, p), Tail(n - 1, t, p));
    }
  }

  /** Asking for fewer adversarial members is at least as likely. */
  lemma {:induction false} TailThreshold(n: nat, t: int, p: real)
    requires Unit(p)
    ensures Tail(n, t, p) <= Tail(n, t - 1, p)
  {
    if n > 0 {
      TailThreshold(n - 1, t - 1, p);
      TailThreshold(n - 1, t, p);
      MixMonotone(p, Tail(n - 1, t - 1, p), Tail(n - 1, t, p), Tail(n - 1, t - 2, p), Tail(n - 1, t - 1, p));
    }
  }

  /** The tail is monotone in the member probability. */
  lemma {:induction false} TailMonotone(n: nat, t: int, p: real, q: real)
    requires Unit(p) && Unit(q) && p <= q
    ensures Tail(n, t, p) <= Tail(n, t, q)
  {
    if n > 0 {
      TailMonotone(n - 1, t - 1, p, q);
      TailMonotone(n - 1, t, p, q);
      TailThreshold(n - 1, t, q);
      MixRaise(p, q, Tail(n - 1, t - 1, p), Tail(n - 1, t, p), Tail(n - 1, t - 1, q), Tail(n - 1, t, q));
    }
  }

  // ---- Two committees sharing s members ----

  /** Both committees reach their thresholds; n1 and n2 members are not shared. */
  function Joint(s: nat, n1: nat, t1: int, n2: nat, t2: int, p: real): real {
    if s == 0 then Times(Tail(n1, t1, p), Tail(n2, t2, p))
    else Mix(p, Joint(s - 1, n1, t1 - 1, n2, t2 - 1, p), Joint(s - 1, n1, t1, n2, t2, p))
  }

  /** Two quantities that rise together are positively associated. */
  lemma Association(p: real, x1: real, x0: real, y1: real, y0: real, j1: real, j0: real)
    requires Unit(p) && x1 >= x0 && y1 >= y0 && j1 >= Times(x1, y1) && j0 >= Times(x0, y0)
    ensures Mix(p, j1, j0) >= Times(Mix(p, x1, x0), Mix(p, y1, y0))
  {
    MixMonotone(p, Times(x1, y1), Times(x0, y0), j1, j0);
    TimesNonNegative(x1 - x0, y1 - y0);
    TimesNonNegative(p, 1.0 - p);
    TimesNonNegative(Times(p, 1.0 - p), Times(x1 - x0, y1 - y0));
    AssociationIdentity(p, x1, x0, y1, y0);
  }

  lemma AssociationIdentity(p: real, x1: real, x0: real, y1: real, y0: real)
    ensures Mix(p, Times(x1, y1), Times(x0, y0)) - Times(Mix(p, x1, x0), Mix(p, y1, y0))
         == Times(Times(p, 1.0 - p), Times(x1 - x0, y1 - y0))
  {
    var (q, r) := (1.0 - p, (x1 - x0) * (y1 - y0));
    assert r == x1 * y1 - x1 * y0 - x0 * y1 + x0 * y0;
    assert Times(Mix(p, x1, x0), Mix(p, y1, y0)) ==
           p * p * (x1 * y1) + p * q * (x1 * y0 + x0 * y1) + q * q * (x0 * y0) by {
      ProductOfMeans(p, q, x1, x0, y1, y0);
    }
    assert p * (x1 * y1) - p * p * (x1 * y1) == p * q * (x1 * y1);
    assert q * (x0 * y0) - q * q * (x0 * y0) == p * q * (x0 * y0);
  }

  lemma ProductOfMeans(p: real, q: real, x1: real, x0: real, y1: real, y0: real)
    ensures (p * x1 + q * x0) * (p * y1 + q * y0) == p * p * (x1 * y1) + p * q * (x1 * y0 + x0 * y1) + q * q * (x0 * y0)
  {
  }

  /** Sharing members never makes joint capture less likely than independence would. */
  lemma {:induction false} JointAssociation(s: nat, n1: nat, t1: int, n2: nat, t2: int, p: real)
    requires Unit(p)
    ensures Joint(s, n1, t1, n2, t2, p) >= Times(Tail(n1 + s, t1, p), Tail(n2 + s, t2, p))
  {
    if s > 0 {
      JointAssociation(s - 1, n1, t1 - 1, n2, t2 - 1, p);
      JointAssociation(s - 1, n1, t1, n2, t2, p);
      TailThreshold(n1 + s - 1, t1, p);
      TailThreshold(n2 + s - 1, t2, p);
      Association(p, Tail(n1 + s - 1, t1 - 1, p), Tail(n1 + s - 1, t1, p),
                  Tail(n2 + s - 1, t2 - 1, p), Tail(n2 + s - 1, t2, p),
                  Joint(s - 1, n1, t1 - 1, n2, t2 - 1, p), Joint(s - 1, n1, t1, n2, t2, p));
    }
  }

  lemma {:induction false} JointUnit(s: nat, n1: nat, t1: int, n2: nat, t2: int, p: real)
    requires Unit(p)
    ensures Unit(Joint(s, n1, t1, n2, t2, p))
    ensures s == 0 ==> Joint(s, n1, t1, n2, t2, p) == Times(Tail(n1, t1, p), Tail(n2, t2, p))
  {
    if s == 0 {
      TailUnit(n1, t1, p);
      TailUnit(n2, t2, p);
      ProductUnit(Tail(n1, t1, p), Tail(n2, t2, p));
    } else {
      JointUnit(s - 1, n1, t1 - 1, n2, t2 - 1, p);
      JointUnit(s - 1, n1, t1, n2, t2, p);
      MixUnit(p, Joint(s - 1, n1, t1 - 1, n2, t2 - 1, p), Joint(s - 1, n1, t1, n2, t2, p));
    }
  }

  // ---- A committee that cannot act: enough adversarial, or too few honest and online ----

  /** Members are adversarial with probability a, honest and online with probability h, neither with o. */
  function Block(n: nat, ta: int, th: int, a: real, h: real, o: real): real {
    if n == 0 then Indicator(ta <= 0 || th > 0)
    else Mix3(a, h, o, Block(n - 1, ta - 1, th, a, h, o), Block(n - 1, ta, th - 1, a, h, o),
              Block(n - 1, ta, th, a, h, o))
  }

  lemma {:induction false} BlockUnit(n: nat, ta: int, th: int, a: real, h: real, o: real)
    requires Split(a, h, o)
    ensures Unit(Block(n, ta, th, a, h, o))
  {
    if n > 0 {
      BlockUnit(n - 1, ta - 1, th, a, h, o);
      BlockUnit(n - 1, ta, th - 1, a, h, o);
      BlockUnit(n - 1, ta, th, a, h, o);
      Mix3Unit(a, h, o, Block(n - 1, ta - 1, th, a, h, o), Block(n - 1, ta, th - 1, a, h, o),
               Block(n - 1, ta, th, a, h, o));
    }
  }

  /**
   When every outcome blocks, as with no adversary needed or more honest members
   than there are, the masses sum to one.
   */
  lemma {:induction false} BlockCertain(n: nat, ta: int, th: int, a: real, h: real, o: real)
    requires (ta <= 0 || th > n) && a + h + o == 1.0
    ensures Block(n, ta, th, a, h, o) == 1.0
  {
    if n > 0 {
      BlockCertain(n - 1, ta - 1, th, a, h, o);
      BlockCertain(n - 1, ta, th - 1, a, h, o);
      BlockCertain(n - 1, ta, th, a, h, o);
      ForgetHonest(a, h, o, 1.0, 1.0);
    }
  }

  lemma {:induction false} BlockAtLeastAdversarial(n: nat, ta: int, th: int, a: real, h: real, o: real)
    requires Split(a, h, o)
    ensures Tail(n, ta, a) <= Block(n, ta, th, a, h, o)
  {
    if n > 0 {
      BlockAtLeastAdversarial(n - 1, ta - 1, th, a, h, o);
      BlockAtLeastAdversarial(n - 1, ta, th - 1, a, h, o);
      BlockAtLeastAdversarial(n - 1, ta, th, a, h, o);
      var x, y := Tail(n - 1, ta - 1, a), Tail(n - 1, ta, a);
      Mix3Monotone(a, h, o, x, y, y,
                   Block(n - 1, ta - 1, th, a, h, o), Block(n - 1, ta, th - 1, a, h, o), Block(n - 1, ta, th, a, h, o));
      ForgetHonest(a, h, o, x, y);
    }
  }

  lemma ForgetHonest(a: real, h: real, o: real, x: real, y: real)
    requires a + h + o == 1.0
    ensures Mix3(a, h, o, x, y, y) == Mix(a, x, y)
  {
  }

  lemma {:induction false} BlockAtLeastTooFew(n: nat, ta: int, th: int, a: real, h: real, o: real)
    requires Split(a, h, o)
    ensures 1.0 - Tail(n, th, h) <= Block(n, ta, th, a, h, o)
  {
    if n > 0 {
      BlockAtLeastTooFew(n - 1, ta - 1, th, a, h, o);
      BlockAtLeastTooFew(n - 1, ta, th - 1, a, h, o);
      BlockAtLeastTooFew(n - 1, ta, th, a, h, o);
      var x, y := Tail(n - 1, th - 1, h), Tail(n - 1, th, h);
      Mix3Monotone(a, h, o, 1.0 - y, 1.0 - x, 1.0 - y,
                   Block(n - 1, ta - 1, th, a, h, o), Block(n - 1, ta, th - 1, a, h, o), Block(n - 1, ta, th, a, h, o));
      ForgetAdversarial(a, h, o, x, y);
    }
  }

  lemma ForgetAdversarial(a: real, h: real, o: real, x: real, y: real)
    requires a + h + o == 1.0
    ensures Mix3(a, h, o, 1.0 - y, 1.0 - x, 1.0 - y) == 1.0 - Mix(h, x, y)
  {
  }

  lemma {:induction false} BlockAtMostSum(n: nat, ta: int, th: int, a: real, h: real, o: real)
    requires Split(a, h, o)
    ensures Block(n, ta, th, a, h, o) <= Tail(n, ta, a) + (1.0 - Tail(n, th, h))
  {
    if n > 0 {
      BlockAtMostSum(n - 1, ta - 1, th, a, h, o);
      BlockAtMostSum(n - 1, ta, th - 1, a, h, o);
      BlockAtMostSum(n - 1, ta, th, a, h, o);
      var x, y, u, v := Tail(n - 1, ta - 1, a), Tail(n - 1, ta, a), Tail(n - 1, th - 1, h), Tail(n - 1, th, h);
      Mix3Monotone(a, h, o, Block(n - 1, ta - 1, th, a, h, o), Block(n - 1, ta, th - 1, a, h, o),
                   Block(n - 1, ta, th, a, h, o),
                   x + (1.0 - v), y + (1.0 - u), y + (1.0 - v));
      UnionMean(a, h, o, x, y, u, v);
    }
  }

  lemma UnionMean(a: real, h: real, o: real, x: real, y: real, u: real, v: real)
    requires a + h + o == 1.0
    ensures Mix3(a, h, o, x + (1.0 - v), y + (1.0 - u), y + (1.0 - v)) == Mix(a, x, y) + (1.0 - Mix(h, u, v))
  {
    Mix3Plus(a, h, o, x, y, y, 1.0 - v, 1.0 - u, 1.0 - v);
    ForgetHonest(a, h, o, x, y);
    ForgetAdversarial(a, h, o, u, v);
  }

  lemma Mix3Plus(a: real, h: real, o: real, x: real, y: real, z: real, x': real, y': real, z': real)
    ensures Mix3(a, h, o, x + x', y + y', z + z') == Mix3(a, h, o, x, y, z) + Mix3(a, h, o, x', y', z')
  {
  }
}
