/** Byte strings as big-endian integers, and their lexicographic order. */
module Bytes {
  import opened Arith
  import opened Bits

  type Byte = b: nat | b < 256

  function Pow256(n: nat): (p: nat)
    ensures p > 0
  {
    if n == 0 then 1 else 256 * Pow256(n - 1)
  }

  lemma {:induction false} Pow256IsPow2(n: nat)
    ensures Pow256(n) == Pow2(8 * n)
  {
    if n > 0 {
      Pow256IsPow2(n - 1);
      Pow2Add(8, 8 * (n - 1));
      assert Pow2(8) == 256;
      assert 8 + 8 * (n - 1) == 8 * n;
    }
  }

  lemma {:induction false} Pow256Add(a: nat, b: nat)
    ensures Pow256(a + b) == Pow256(a) * Pow256(b)
  {
    if a > 0 {
      Pow256Add(a - 1, b);
      assert a + b - 1 == a - 1 + b;
    }
  }

  lemma {:induction false} Pow256Monotone(a: nat, b: nat)
    requires a <= b
    ensures Pow256(a) <= Pow256(b)
  {
    if a < b {
      Pow256Monotone(a, b - 1);
    }
  }

  /** `BigUint::from_bytes_be`. */
  function BigEndian(bytes: seq<Byte>): nat {
    if bytes == [] then 0 else bytes[0] * Pow256(|bytes| - 1) + BigEndian(bytes[1..])
  }

  lemma {:induction false} BigEndianBound(bytes: seq<Byte>)
    ensures BigEndian(bytes) < Pow256(|bytes|)
  {
    if bytes != [] {
      BigEndianBound(bytes[1..]);
      MulMonotone(bytes[0], 255, Pow256(|bytes| - 1));
    }
  }

  lemma {:induction false} BigEndianConcat(high: seq<Byte>, low: seq<Byte>)
    ensures BigEndian(high + low) == BigEndian(high) * Pow256(|low|) + BigEndian(low)
  {
    if high == [] {
      assert high + low == low;
    } else {
      BigEndianConcat(high[1..], low);
      assert (high + low)[1..] == high[1..] + low;
      Pow256Add(|high| - 1, |low|);
      assert |high + low| - 1 == |high| - 1 + |low|;
      Distribute(high[0], Pow256(|high| - 1), BigEndian(high[1..]), Pow256(|low|));
    }
  }

  lemma Distribute(a: nat, p: nat, b: nat, q: nat)
    ensures a * (p * q) + b * q == (a * p + b) * q
  {
  }

  function Zeros(n: nat): (z: seq<Byte>)
    ensures |z| == n && forall i :: 0 <= i < n ==> z[i] == 0
  {
    seq(n, _ => 0)
  }

  lemma {:induction false} BigEndianZeros(bytes: seq<Byte>)
    requires forall i :: 0 <= i < |bytes| ==> bytes[i] == 0
    ensures BigEndian(bytes) == 0
  {
    if bytes != [] {
      BigEndianZeros(bytes[1..]);
    }
  }

  /** `BigUint::to_bytes_be` of a positive number: no leading zero byte. */
  function MinimalBytes(value: nat): (bytes: seq<Byte>) {
    if value == 0 then [] else MinimalBytes(value / 256) + [value % 256]
  }

  /** `BigUint::to_bytes_be`: zero is one zero byte. */
  function ToBytes(value: nat): seq<Byte> { if value == 0 then [0] else MinimalBytes(value) }

  lemma {:induction false} MinimalBytesValue(value: nat)
    ensures BigEndian(MinimalBytes(value)) == value
    ensures value > 0 ==> |MinimalBytes(value)| > 0 && Pow256(|MinimalBytes(value)| - 1) <= value
  {
    if value > 0 {
      MinimalBytesValue(value / 256);
      var high, low: seq<Byte> := MinimalBytes(value / 256), [value % 256];
      BigEndianConcat(high, low);
      assert BigEndian(low) == value % 256 by {
        assert low[1..] == [];
      }
      assert Pow256(1) == 256;
      assert MinimalBytes(value) == high + low;
    }
  }

  /** A number fits n bytes exactly when its minimal form has at most n bytes. */
  lemma ToBytesFits(value: nat, n: nat)
    requires n > 0
    ensures BigEndian(ToBytes(value)) == value
    ensures |ToBytes(value)| <= n <==> value < Pow256(n)
  {
    MinimalBytesValue(value);
    BigEndianBound(ToBytes(value));
    if value > 0 {
      if |ToBytes(value)| <= n {
        Pow256Monotone(|ToBytes(value)|, n);
      } else {
        Pow256Monotone(n, |ToBytes(value)| - 1);
      }
    } else {
      Pow256Monotone(0, n);
    }
  }

  lemma SmallerFits(value: nat, bound: nat)
    requires value <= bound
    ensures |ToBytes(value)| <= |ToBytes(bound)|
  {
    MinimalBytesValue(bound);
    BigEndianBound(ToBytes(bound));
    ToBytesFits(value, |ToBytes(bound)|);
  }

  lemma PaddedValue(n: nat, bytes: seq<Byte>)
    ensures BigEndian(Zeros(n) + bytes) == BigEndian(bytes)
  {
    BigEndianConcat(Zeros(n), bytes);
    BigEndianZeros(Zeros(n));
  }

  /** Rust's order on byte arrays of equal length. */
  predicate Less(a: seq<Byte>, b: seq<Byte>)
    requires |a| == |b|
  {
    a != [] && (a[0] < b[0] || (a[0] == b[0] && Less(a[1..], b[1..])))
  }

  predicate AtMost(a: seq<Byte>, b: seq<Byte>)
    requires |a| == |b|
  {
    a == b || Less(a, b)
  }

  /** Byte-array order is integer order. */
  lemma {:induction false} LessIsIntegerOrder(a: seq<Byte>, b: seq<Byte>)
    requires |a| == |b|
    ensures Less(a, b) <==> BigEndian(a) < BigEndian(b)
    ensures a == b <==> BigEndian(a) == BigEndian(b)
  {
    if a != [] {
      LessIsIntegerOrder(a[1..], b[1..]);
      BigEndianBound(a[1..]);
      BigEndianBound(b[1..]);
      LeadingDigit(a[0], b[0], Pow256(|a| - 1), BigEndian(a[1..]), BigEndian(b[1..]));
      assert a == [a[0]] + a[1..] && b == [b[0]] + b[1..];
    }
  }

  lemma LeadingDigit(x: nat, y: nat, p: nat, u: nat, v: nat)
    requires u < p && v < p
    ensures x * p + u < y * p + v <==> x < y || (x == y && u < v)
    ensures x * p + u == y * p + v <==> x == y && u == v
  {
    if x < y {
      MulMonotone(x + 1, y, p);
    } else if y < x {
      MulMonotone(y + 1, x, p);
    }
  }

  lemma Associate(a: seq<Byte>, b: seq<Byte>, c: seq<Byte>)
    ensures a + b + c == a + (b + c)
  {
  }
}
