/** Powers of two, little-endian bit strings, and bitwise XOR/OR on naturals. */
module Bits {
  import opened Arith

  function Pow2(n: nat): (p: nat)
    ensures p > 0
  {
    if n == 0 then 1 else 2 * Pow2(n - 1)
  }

  lemma {:induction false} Pow2Add(a: nat, b: nat)
    ensures Pow2(a + b) == Pow2(a) * Pow2(b)
  {
    if a > 0 {
      Pow2Add(a - 1, b);
      assert Pow2(a + b) == 2 * Pow2(a - 1 + b);
    }
  }

  lemma {:induction false} Pow2Monotone(a: nat, b: nat)
    requires a <= b
    ensures Pow2(a) <= Pow2(b)
  {
    if a < b {
      Pow2Monotone(a, b - 1);
    }
  }

  /** The number whose bits, least significant first, are `bits`. */
  function ToNat(bits: seq<bool>): nat {
    if bits == [] then 0 else (if bits[0] then 1 else 0) + 2 * ToNat(bits[1..])
  }

  lemma {:induction false} ToNatBound(bits: seq<bool>)
    ensures ToNat(bits) < Pow2(|bits|)
  {
    if bits != [] {
      ToNatBound(bits[1..]);
    }
  }

  lemma {:induction false} ToNatConcat(low: seq<bool>, high: seq<bool>)
    ensures ToNat(low + high) == ToNat(low) + Pow2(|low|) * ToNat(high)
  {
    if low == [] {
      assert low + high == high;
    } else {
      ToNatConcat(low[1..], high);
      assert (low + high)[1..] == low[1..] + high;
      assert Pow2(|low|) * ToNat(high) == 2 * (Pow2(|low[1..]|) * ToNat(high));
    }
  }

  lemma {:induction false} ToNatAppend(bits: seq<bool>, bit: bool)
    ensures ToNat(bits + [bit]) == ToNat(bits) + (if bit then Pow2(|bits|) else 0)
  {
    if bits != [] {
      ToNatAppend(bits[1..], bit);
      assert (bits + [bit])[1..] == bits[1..] + [bit];
    }
  }

  /** Bitwise exclusive or of the low `n` bits. */
  function Xor(a: nat, b: nat, n: nat): nat {
    if n == 0 then 0
    else (if a % 2 != b % 2 then 1 else 0) + 2 * Xor(a / 2, b / 2, n - 1)
  }

  /** Bitwise inclusive or of the low `n` bits. */
  function Or(a: nat, b: nat, n: nat): nat {
    if n == 0 then 0
    else (if a % 2 == 1 || b % 2 == 1 then 1 else 0) + 2 * Or(a / 2, b / 2, n - 1)
  }

  /** XOR of numbers is XOR of their bits. */
  lemma {:induction false} XorOfBits(a: seq<bool>, b: seq<bool>, c: seq<bool>)
    requires |a| == |b| == |c|
    requires forall i :: 0 <= i < |a| ==> c[i] == (a[i] != b[i])
    ensures ToNat(c) == Xor(ToNat(a), ToNat(b), |a|)
  {
    if a != [] {
      XorOfBits(a[1..], b[1..], c[1..]);
      assert ToNat(a) / 2 == ToNat(a[1..]) && ToNat(b) / 2 == ToNat(b[1..]);
    }
  }

  /** Bitwise and of the low `n` bits. */
  function And(a: nat, b: nat, n: nat): nat {
    if n == 0 then 0
    else (if a % 2 == 1 && b % 2 == 1 then 1 else 0) + 2 * And(a / 2, b / 2, n - 1)
  }

  /** Bitwise complement within `n` bits. */
  function Not(a: nat, n: nat): nat {
    if n == 0 then 0 else (if a % 2 == 1 then 0 else 1) + 2 * Not(a / 2, n - 1)
  }

  /** Bit `i` of a number. */
  predicate Bit(value: nat, i: nat) {
    if i == 0 then value % 2 == 1 else Bit(value / 2, i - 1)
  }

  lemma {:induction false} BitIsQuotient(value: nat, i: nat)
    ensures Bit(value, i) == (value / Pow2(i) % 2 == 1)
  {
    if i > 0 {
      BitIsQuotient(value / 2, i - 1);
      HalveThenShift(value, Pow2(i - 1));
    }
  }

  lemma HalveThenShift(value: nat, p: nat)
    requires p > 0
    ensures value / 2 / p == value / (2 * p)
  {
    var h, b := value / 2, value % 2;
    var q, r := h / p, h % p;
    assert value == 2 * p * q + (2 * r + b) by {
      assert 2 * (p * q) == 2 * p * q;
    }
    DivModUnique(value, 2 * p, q, 2 * r + b);
  }

  /** The three operators act on each bit separately. */
  lemma {:induction false} BitOfOperators(a: nat, b: nat, n: nat, i: nat)
    requires i < n
    ensures Bit(Xor(a, b, n), i) == (Bit(a, i) != Bit(b, i))
    ensures Bit(And(a, b, n), i) == (Bit(a, i) && Bit(b, i))
    ensures Bit(Not(a, n), i) == !Bit(a, i)
  {
    if i > 0 {
      BitOfOperators(a / 2, b / 2, n - 1, i - 1);
    }
  }

  lemma {:induction false} OrZero(a: nat, n: nat)
    requires a < Pow2(n)
    ensures Or(a, 0, n) == a
  {
    if n > 0 {
      OrZero(a / 2, n - 1);
    }
  }

  /** OR of fields that do not overlap is their sum. */
  lemma {:induction false} OrDisjoint(a: nat, b: nat, k: nat, n: nat)
    requires b < Pow2(k) && a * Pow2(k) + b < Pow2(n)
    ensures Or(a * Pow2(k), b, n) == a * Pow2(k) + b
    decreases k
  {
    if k == 0 {
      OrZero(a, n);
    } else if n > 0 {
      var half := a * Pow2(k - 1);
      assert a * Pow2(k) == 2 * half;
      OrDisjoint(a, b / 2, k - 1, n - 1);
    }
  }

  lemma {:induction false} XorInvolutive(a: nat, b: nat, n: nat)
    requires a < Pow2(n)
    ensures Xor(Xor(a, b, n), b, n) == a
  {
    if n > 0 {
      XorInvolutive(a / 2, b / 2, n - 1);
      var rest := Xor(a / 2, b / 2, n - 1);
      assert Xor(a, b, n) == (if a % 2 != b % 2 then 1 else 0) + 2 * rest;
      assert Xor(a, b, n) / 2 == rest;
    }
  }

  lemma {:induction false} XorBound(a: nat, b: nat, n: nat, k: nat)
    requires a < Pow2(k) && b < Pow2(k) && k <= n
    ensures Xor(a, b, n) < Pow2(k)
  {
    if k == 0 {
      XorOfZeros(n);
    } else {
      XorBound(a / 2, b / 2, n - 1, k - 1);
    }
  }

  lemma {:induction false} XorOfZeros(n: nat)
    ensures Xor(0, 0, n) == 0
  {
    if n > 0 {
      XorOfZeros(n - 1);
    }
  }

  /** The number of significant bits. */
  function BitLength(value: nat): nat { if value == 0 then 0 else 1 + BitLength(value / 2) }

  lemma {:induction false} BitLengthRange(value: nat, n: nat)
    ensures BitLength(value) <= n <==> value < Pow2(n)
  {
    if n == 0 {
    } else if value > 0 {
      BitLengthRange(value / 2, n - 1);
    }
  }
}
