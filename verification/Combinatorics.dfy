/** Binomial coefficients, finite sums of reals, and Pascal's rule for whole sums. */
module Combinatorics {

  /** The number of k-element subsets of an n-element set. */
  function Choose(n: nat, k: nat): nat {
    if k == 0 then 1 else if n == 0 then 0 else Choose(n - 1, k - 1) + Choose(n - 1, k)
  }

  lemma {:induction false} ChooseBeyond(n: nat, k: nat)
    requires k > n
    ensures Choose(n, k) == 0
  {
    if n > 0 {
      ChooseBeyond(n - 1, k - 1);
      ChooseBeyond(n - 1, k);
    }
  }

  lemma {:induction false} ChooseAll(n: nat)
    ensures Choose(n, n) == 1
  {
    if n > 0 {
      ChooseAll(n - 1);
      ChooseBeyond(n - 1, n);
    }
  }

  lemma {:induction false} ChoosePositive(n: nat, k: nat)
    requires k <= n
    ensures Choose(n, k) > 0
  {
    if k > 0 {
      ChoosePositive(n - 1, k - 1);
    }
  }

  lemma {:induction false} ChooseSymmetric(n: nat, k: nat)
    requires k <= n
    ensures Choose(n, k) == Choose(n, n - k)
  {
    if k == 0 || k == n {
      ChooseAll(n);
    } else {
      ChooseSymmetric(n - 1, k - 1);
      ChooseSymmetric(n - 1, k);
    }
  }

  /** One step of the multiplicative formula divides exactly. */
  lemma {:induction false} ChooseStep(n: nat, k: nat)
    requires k < n
    ensures Choose(n, k) * (n - k) == Choose(n, k + 1) * (k + 1)
  {
    if k == 0 {
      ChooseOne(n);
    } else if k == n - 1 {
      ChooseAll(n);
      ChooseSymmetric(n, n - 1);
      ChooseOne(n);
    } else {
      ChooseStep(n - 1, k - 1);
      ChooseStep(n - 1, k);
      AbsorptionStep(Choose(n - 1, k - 1), Choose(n - 1, k), Choose(n - 1, k + 1), n, k);
    }
  }

  lemma AbsorptionStep(a: nat, b: nat, c: nat, n: nat, k: nat)
    requires 0 < k < n
    requires a * (n - 1 - (k - 1)) == b * (k - 1 + 1) && b * (n - 1 - k) == c * (k + 1)
    ensures (a + b) * (n - k) == (b + c) * (k + 1)
  {
    assert (a + b) * (n - k) == a * (n - k) + b * (n - 1 - k) + b;
    assert (b + c) * (k + 1) == b * k + b + c * (k + 1);
  }

  lemma {:induction false} ChooseOne(n: nat)
    ensures Choose(n, 1) == n
  {
    if n > 0 {
      ChooseOne(n - 1);
    }
  }

  // ---- Sums ----

  function Sum(f: nat -> real, lo: nat, hi: nat): real
    decreases hi
  {
    if hi <= lo then 0.0 else Sum(f, lo, hi - 1) + f(hi - 1)
  }

  lemma {:induction false} SumEqual(f: nat -> real, g: nat -> real, lo: nat, hi: nat)
    requires forall k: nat :: lo <= k < hi ==> f(k) == g(k)
    ensures Sum(f, lo, hi) == Sum(g, lo, hi)
    decreases hi
  {
    if lo < hi {
      SumEqual(f, g, lo, hi - 1);
    }
  }

  lemma {:induction false} SumNonNegative(f: nat -> real, lo: nat, hi: nat)
    requires forall k: nat :: lo <= k < hi ==> f(k) >= 0.0
    ensures Sum(f, lo, hi) >= 0.0
    decreases hi
  {
    if lo < hi {
      SumNonNegative(f, lo, hi - 1);
    }
  }

  lemma {:induction false} SumSplit(f: nat -> real, lo: nat, mid: nat, hi: nat)
    requires lo <= mid <= hi
    ensures Sum(f, lo, hi) == Sum(f, lo, mid) + Sum(f, mid, hi)
    decreases hi
  {
    if mid < hi {
      SumSplit(f, lo, mid, hi - 1);
    }
  }

  lemma {:induction false} SumZero(f: nat -> real, lo: nat, hi: nat)
    requires forall k: nat :: lo <= k < hi ==> f(k) == 0.0
    ensures Sum(f, lo, hi) == 0.0
    decreases hi
  {
    if lo < hi {
      SumZero(f, lo, hi - 1);
    }
  }

  /** g is c times f, term by term. */
  lemma {:induction false} SumScale(c: real, f: nat -> real, g: nat -> real, lo: nat, hi: nat)
    requires forall k: nat :: lo <= k < hi ==> g(k) == c * f(k)
    ensures Sum(g, lo, hi) == c * Sum(f, lo, hi)
    decreases hi
  {
    if lo < hi {
      SumScale(c, f, g, lo, hi - 1);
    }
  }

  /** h is f + g, term by term. */
  lemma {:induction false} SumPlus(f: nat -> real, g: nat -> real, h: nat -> real, lo: nat, hi: nat)
    requires forall k: nat :: lo <= k < hi ==> h(k) == f(k) + g(k)
    ensures Sum(h, lo, hi) == Sum(f, lo, hi) + Sum(g, lo, hi)
    decreases hi
  {
    if lo < hi {
      SumPlus(f, g, h, lo, hi - 1);
    }
  }

  function Scale(c: nat, x: real): real { c as real * x }

  lemma ScalePlus(a: nat, b: nat, x: real)
    ensures Scale(a + b, x) == Scale(a, x) + Scale(b, x)
  {
    assert (a + b) as real == a as real + b as real;
  }

  /** A sum weighted by the binomial coefficients of n. */
  function ChooseTerm(n: nat, f: nat -> real): nat -> real {
    (k: nat) => Scale(Choose(n, k), f(k))
  }

  function ChooseSum(n: nat, f: nat -> real): real { Sum(ChooseTerm(n, f), 0, n + 1) }

  function Shift(f: nat -> real): nat -> real { (k: nat) => f(k + 1) }

  lemma {:induction false} PascalPartial(n: nat, f: nat -> real, m: nat)
    ensures Sum(ChooseTerm(n + 1, f), 0, m + 1)
         == Sum(ChooseTerm(n, Shift(f)), 0, m) + Sum(ChooseTerm(n, f), 0, m + 1)
  {
    if m > 0 {
      PascalPartial(n, f, m - 1);
      ScalePlus(Choose(n, m - 1), Choose(n, m), f(m));
    } else {
      assert Choose(n + 1, 0) == 1 && Choose(n, 0) == 1;
      assert ChooseTerm(n + 1, f)(0) == Scale(1, f(0)) && ChooseTerm(n, f)(0) == Scale(1, f(0));
      assert Sum(ChooseTerm(n + 1, f), 0, 0) == Sum(ChooseTerm(n, f), 0, 0) == 0.0;
    }
  }

  /** Pascal's rule, summed: split on whether the last element is chosen. */
  lemma PascalSum(n: nat, f: nat -> real)
    ensures ChooseSum(n + 1, f) == ChooseSum(n, Shift(f)) + ChooseSum(n, f)
  {
    PascalPartial(n, f, n + 1);
    ChooseBeyond(n, n + 1);
    assert Scale(0, f(n + 1)) == 0.0;
    assert ChooseTerm(n, f)(n + 1) == 0.0;
  }
}
