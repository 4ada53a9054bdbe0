/**
 The public capture target (crates/meshmine-hns/src/target.rs), the masked
 proof hash (crates/meshmine-hns/src/header.rs) and the device target
 (crates/meshmine-gateway/src/lib.rs). The main result: a device that reports
 every share within its advertised target misses no winning share, whatever
 the hidden mask.
 */
module CaptureTarget {
  import opened Arith
  import opened Bits
  import opened Bytes
  import opened Target

  const MAX_HANDY_DIFFICULTY: nat := 0x03ff_ffff

  datatype CaptureError = InvalidTarget | InvalidBlindBand
  datatype GatewayError = InvalidDifficulty
  datatype Result<T, E> = Ok(value: T) | Err(error: E)

  datatype CaptureParameters = CaptureParameters(
    network: seq<Byte>, leadingZeros: nat, prefix: nat, blindBand: nat, capture: seq<Byte>)

  // ---- Leading zero bits ----

  /** The q most significant bits are zero. */
  predicate TopZero(bytes: seq<Byte>, q: nat)
    requires q <= 8 * |bytes|
  {
    if q == 0 then true
    else if q < 8 then bytes[0] < Pow2(8 - q)
    else bytes[0] == 0 && TopZero(bytes[1..], q - 8)
  }

  /** Leading zero bits bound the integer, and the bound shows the zero bits. */
  lemma {:induction false} TopZeroBound(bytes: seq<Byte>, q: nat)
    requires q <= 8 * |bytes|
    ensures TopZero(bytes, q) <==> BigEndian(bytes) < Pow2(8 * |bytes| - q)
  {
    var n := |bytes|;
    if q == 0 {
      BigEndianBound(bytes);
      Pow256IsPow2(n);
    } else if q < 8 {
      FirstBitsBound(bytes, q);
    } else {
      TopZeroBound(bytes[1..], q - 8);
      FirstByteBound(bytes, 8 * n - q);
    }
  }

  lemma FirstBitsBound(bytes: seq<Byte>, q: nat)
    requires bytes != [] && 0 < q < 8
    ensures bytes[0] < Pow2(8 - q) <==> BigEndian(bytes) < Pow2(8 * |bytes| - q)
  {
    var m := |bytes| - 1;
    BigEndianBound(bytes[1..]);
    Pow256IsPow2(m);
    Pow2Add(8 - q, 8 * m);
    assert 8 - q + 8 * m == 8 * |bytes| - q;
    LeadingDigit(bytes[0], Pow2(8 - q), Pow256(m), BigEndian(bytes[1..]), 0);
  }

  lemma FirstByteBound(bytes: seq<Byte>, k: nat)
    requires bytes != [] && k <= 8 * (|bytes| - 1)
    ensures BigEndian(bytes) < Pow2(k) <==> bytes[0] == 0 && BigEndian(bytes[1..]) < Pow2(k)
  {
    var m := |bytes| - 1;
    BigEndianBound(bytes[1..]);
    Pow256IsPow2(m);
    Pow2Monotone(k, 8 * m);
    FirstDigitZero(bytes[0], Pow256(m), BigEndian(bytes[1..]), Pow2(k));
  }

  lemma FirstDigitZero(x: nat, p: nat, u: nat, k: nat)
    requires k <= p
    ensures x * p + u < k <==> x == 0 && u < k
  {
    if x > 0 {
      MulMonotone(1, x, p);
    }
  }

  /** `u8::leading_zeros` for a width of `width` bits. */
  function LeadingZeros(b: nat, width: nat): (z: nat)
    requires b < Pow2(width)
    ensures z <= width
  {
    if width == 0 || b >= Pow2(width - 1) then 0 else 1 + LeadingZeros(b, width - 1)
  }

  lemma {:induction false} LeadingZerosRange(b: nat, width: nat)
    requires 0 < b < Pow2(width)
    ensures var z := LeadingZeros(b, width); z < width && Pow2(width - 1 - z) <= b < Pow2(width - z)
  {
    if b < Pow2(width - 1) {
      LeadingZerosRange(b, width - 1);
    }
  }

  method CountLeadingZeroBits(bytes: seq<Byte>) returns (count: nat)
    ensures count <= 8 * |bytes| && BigEndian(bytes) < Pow2(8 * |bytes| - count)
    ensures BigEndian(bytes) == 0 ==> count == 8 * |bytes|
    ensures BigEndian(bytes) > 0 ==> count < 8 * |bytes| && Pow2(8 * |bytes| - count - 1) <= BigEndian(bytes)
  {
    count := 0;
    for i := 0 to |bytes|
      invariant count == 8 * i && BigEndian(bytes) == BigEndian(bytes[i..])
    {
      assert bytes[i..][0] == bytes[i] && bytes[i..][1..] == bytes[i + 1..];
      if bytes[i] == 0 {
        count := count + 8;
      } else {
        assert Pow2(8) == 256;
        count := count + LeadingZeros(bytes[i], 8);
        LeadingByte(bytes[i..]);
        return;
      }
    }
  }

  lemma LeadingByte(bytes: seq<Byte>)
    requires bytes != [] && bytes[0] > 0
    ensures Pow2(8) == 256
    ensures var z := LeadingZeros(bytes[0], 8);
            z < 8 && Pow2(8 * |bytes| - z - 1) <= BigEndian(bytes) < Pow2(8 * |bytes| - z)
  {
    assert Pow2(8) == 256;
    var z, m := LeadingZeros(bytes[0], 8), 8 * (|bytes| - 1);
    LeadingZerosRange(bytes[0], 8);
    Pow256IsPow2(|bytes| - 1);
    BigEndianBound(bytes[1..]);
    Pow2Add(7 - z, m);
    Pow2Add(8 - z, m);
    assert 7 - z + m == 8 * |bytes| - z - 1 && 8 - z + m == 8 * |bytes| - z;
    LeadingDigit(bytes[0], Pow2(8 - z), Pow2(m), BigEndian(bytes[1..]), 0);
    MulMonotone(Pow2(7 - z), bytes[0], Pow2(m));
  }

  // ---- The capture target ----

  function Ones(n: nat): (r: seq<Byte>)
    ensures |r| == n
  {
    seq(n, _ => 255)
  }

  lemma {:induction false} OnesValue(n: nat)
    ensures BigEndian(Ones(n)) == Pow256(n) - 1
  {
    if n > 0 {
      OnesValue(n - 1);
      assert Ones(n)[1..] == Ones(n - 1);
    }
  }

  /** n bytes: q zero bits, then ones. */
  function CaptureBytes(n: nat, q: nat): (r: seq<Byte>)
    requires q < 8 * n
    ensures |r| == n
  {
    if q % 8 == 0 then Zeros(q / 8) + Ones(n - q / 8)
    else Zeros(q / 8) + ([Shifted(255, q % 8)] + Ones(n - 1 - q / 8))
  }

  /** Logical shift right of a byte. */
  function Shifted(b: Byte, r: nat): (s: Byte)
    ensures s <= b
  {
    MulMonotone(1, Pow2(r), b + 1);
    DivBounds(b, Pow2(r), 0, b + 1);
    b / Pow2(r)
  }

  lemma PartialByte(r: nat)
    requires 0 < r < 8
    ensures Shifted(255, r) == Pow2(8 - r) - 1
  {
    Pow2Add(r, 8 - r);
    assert Pow2(8) == 256;
    assert 255 == Pow2(r) * (Pow2(8 - r) - 1) + (Pow2(r) - 1);
    DivModUnique(255, Pow2(r), Pow2(8 - r) - 1, Pow2(r) - 1);
  }

  lemma CaptureBytesValue(n: nat, q: nat)
    requires q < 8 * n
    ensures BigEndian(CaptureBytes(n, q)) == Pow2(8 * n - q) - 1
  {
    var z, r := q / 8, q % 8;
    if r == 0 {
      PaddedValue(z, Ones(n - z));
      OnesValue(n - z);
      Pow256IsPow2(n - z);
    } else {
      PartialValue(r, n - 1 - z);
      PaddedValue(z, [Shifted(255, r)] + Ones(n - 1 - z));
      assert 8 - r + 8 * (n - 1 - z) == 8 * n - q;
    }
  }

  lemma PartialValue(r: nat, m: nat)
    requires 0 < r < 8
    ensures BigEndian([Shifted(255, r)] + Ones(m)) == Pow2(8 - r + 8 * m) - 1
  {
    assert ([Shifted(255, r)] + Ones(m))[1..] == Ones(m);
    OnesValue(m);
    PartialByte(r);
    Pow256IsPow2(m);
    Pow2Add(8 - r, 8 * m);
    OneLess(Pow2(8 - r), Pow256(m));
  }

  lemma OneLess(a: nat, p: nat)
    requires a > 0 && p > 0
    ensures (a - 1) * p + (p - 1) == a * p - 1
  {
  }

  /** Fill, clear the whole zero bytes, shift the partial one. */
  method FillCapture(q: nat) returns (capture: array<Byte>)
    requires q < 256
    ensures fresh(capture) && capture.Length == 32 && capture[..] == CaptureBytes(32, q)
  {
    capture := new Byte[32](_ => 255);
    var zeroBytes := q / 8;
    for i := 0 to zeroBytes
      invariant forall j :: 0 <= j < 32 ==> capture[j] == if j < i then 0 else 255
    {
      capture[i] := 0;
    }
    var partial := q % 8;
    if partial != 0 {
      capture[zeroBytes] := Shifted(capture[zeroBytes], partial);
    }
  }

  /** `copy_from_slice` of the minimal bytes to the end of a zero array. */
  method PadTo32(value: nat) returns (bytes: seq<Byte>)
    requires |ToBytes(value)| <= 32
    ensures |bytes| == 32 && BigEndian(bytes) == value
  {
    var minimal := ToBytes(value);
    MinimalBytesValue(value);
    var out := new Byte[32](_ => 0);
    var offset := 32 - |minimal|;
    for i := 0 to |minimal|
      invariant forall j :: 0 <= j < 32 ==> out[j] == if offset <= j < offset + i then minimal[j - offset] else 0
    {
      out[offset + i] := minimal[i];
    }
    bytes := out[..];
    assert bytes == Zeros(offset) + minimal;
    PaddedValue(offset, minimal);
  }

  lemma BytesOfBits(value: nat, n: nat)
    requires n > 0
    ensures BitLength(value) <= 8 * n <==> |ToBytes(value)| <= n
  {
    BitLengthRange(value, 8 * n);
    Pow256IsPow2(n);
    ToBytesFits(value, n);
  }

  lemma LeadingZerosAreMissingBits(value: nat, width: nat, p: nat)
    requires p < width && Pow2(width - p - 1) <= value < Pow2(width - p)
    ensures BitLength(value) == width - p
  {
    BitLengthRange(value, width - p);
    BitLengthRange(value, width - p - 1);
  }

  predicate ValidTarget(target: int) { 0 < target && BitLength(target) <= 256 }

  /** What the derived parameters mean. */
  predicate IsCapture(bits: nat, d: nat, c: CaptureParameters) {
    var target := CompactToTarget(bits);
    && ValidTarget(target) && |c.network| == 32 && BigEndian(c.network) == target
    && c.leadingZeros == 256 - BitLength(target)
    && 0 < d < c.leadingZeros && c.blindBand == d && c.prefix == c.leadingZeros - d
    && |c.capture| == 32 && BigEndian(c.capture) == Pow2(8 * |c.capture| - c.prefix) - 1
  }

  method DeriveCaptureParameters(bits: nat, d: nat) returns (r: Result<CaptureParameters, CaptureError>)
    ensures r.Ok? ==> IsCapture(bits, d, r.value)
    ensures r == Err(InvalidTarget) <==> !ValidTarget(CompactToTarget(bits))
    ensures r == Err(InvalidBlindBand) <==>
              ValidTarget(CompactToTarget(bits)) && (d == 0 || BitLength(CompactToTarget(bits)) + d >= 256)
  {
    var target := CompactToTarget(bits);
    if target <= 0 || BitLength(target) > 256 {
      return Err(InvalidTarget);
    }
    BytesOfBits(target, 32);
    var network := PadTo32(target);
    var p := CountLeadingZeroBits(network);
    LeadingZerosAreMissingBits(target, 8 * |network|, p);
    if d == 0 || d >= p {
      return Err(InvalidBlindBand);
    }
    var q := p - d;
    var capture := FillCapture(q);
    CaptureBytesValue(32, q);
    return Ok(CaptureParameters(network, p, q, d, capture[..]));
  }

  // ---- Masked hashes ----

  function XorBytes(a: seq<Byte>, b: seq<Byte>): (r: seq<Byte>)
    requires |a| == |b|
    ensures |r| == |a|
  {
    seq(|a|, i requires 0 <= i < |a| => XorByte(a[i], b[i]))
  }

  function XorByte(a: Byte, b: Byte): Byte {
    assert Pow2(8) == 256;
    XorBound(a, b, 8, 8);
    Xor(a, b, 8)
  }

  method XorHashes(left: seq<Byte>, right: seq<Byte>) returns (out: seq<Byte>)
    requires |left| == |right| == 32
    ensures out == XorBytes(left, right)
  {
    var bytes := new Byte[32](_ => 0);
    for i := 0 to 32
      invariant forall j :: 0 <= j < i ==> bytes[j] == XorByte(left[j], right[j])
    {
      bytes[i] := XorByte(left[i], right[i]);
    }
    out := bytes[..];
  }

  lemma UnmaskMask(share: seq<Byte>, mask: seq<Byte>)
    requires |share| == |mask|
    ensures XorBytes(XorBytes(share, mask), mask) == share
  {
    forall i | 0 <= i < |share| ensures XorByte(XorByte(share[i], mask[i]), mask[i]) == share[i] {
      assert Pow2(8) == 256;
      XorInvolutive(share[i], mask[i], 8);
    }
  }

  lemma {:induction false} XorTopZero(a: seq<Byte>, b: seq<Byte>, q: nat)
    requires |a| == |b| && q <= 8 * |a| && TopZero(a, q) && TopZero(b, q)
    ensures TopZero(XorBytes(a, b), q)
  {
    if 0 < q < 8 {
      XorBound(a[0], b[0], 8, 8 - q);
    } else if q >= 8 {
      XorBound(a[0], b[0], 8, 0);
      XorTopZero(a[1..], b[1..], q - 8);
      assert XorBytes(a, b)[1..] == XorBytes(a[1..], b[1..]);
    }
  }

  /**
   No winner is missed: if the unmasked share meets the network target and the
   mask's first q bits are zero, the raw share is within the capture target,
   and so within every advertised target the gateway accepts.
   */
  lemma NoWinnerMissed(
      bits: nat, d: nat, c: CaptureParameters, share: seq<Byte>, mask: seq<Byte>, advertised: seq<Byte>)
    requires IsCapture(bits, d, c) && |share| == |mask| == |advertised| == 32
    requires TopZero(mask, c.prefix)
    requires AtMost(XorBytes(share, mask), c.network)
    requires !Less(advertised, c.capture)
    ensures AtMost(share, c.capture) && AtMost(share, advertised)
  {
    var proof := XorBytes(share, mask);
    LessIsIntegerOrder(proof, c.network);
    NetworkBound(bits, d, c, |proof|);
    UnmaskedBound(share, mask, c.prefix);
    LessIsIntegerOrder(share, c.capture);
    LessIsIntegerOrder(advertised, c.capture);
    LessIsIntegerOrder(share, advertised);
  }

  lemma NetworkBound(bits: nat, d: nat, c: CaptureParameters, n: nat)
    requires IsCapture(bits, d, c) && n == 32
    ensures BigEndian(c.network) < Pow2(8 * n - c.prefix)
  {
    BitLengthRange(BigEndian(c.network), 8 * n - c.prefix);
  }

  /** A share whose masked form and mask both start with q zero bits starts with q zero bits. */
  lemma UnmaskedBound(share: seq<Byte>, mask: seq<Byte>, q: nat)
    requires |share| == |mask| && q <= 8 * |share| && TopZero(mask, q)
    requires BigEndian(XorBytes(share, mask)) < Pow2(8 * |share| - q)
    ensures BigEndian(share) < Pow2(8 * |share| - q)
  {
    TopZeroBound(XorBytes(share, mask), q);
    UnmaskedTopZero(share, mask, q);
    TopZeroBound(share, q);
  }

  lemma UnmaskedTopZero(share: seq<Byte>, mask: seq<Byte>, q: nat)
    requires |share| == |mask| && q <= 8 * |share| && TopZero(mask, q) && TopZero(XorBytes(share, mask), q)
    ensures TopZero(share, q)
  {
    XorTopZero(XorBytes(share, mask), mask, q);
    UnmaskMask(share, mask);
  }

  // ---- Device targets ----

  /** The difficulty-1 target: three zero bytes, then ones. */
  function Diff1(): nat { BigEndian(Zeros(3) + Ones(29)) }

  function HandyTarget(difficulty: nat): nat
    requires difficulty > 0
  {
    Rounded(Diff1() / difficulty)
  }

  lemma HandyTargetFits(difficulty: nat, t: nat)
    requires difficulty > 0 && t == Diff1() / difficulty
    ensures |ToBytes(t)| <= 32 && |ToBytes(Rounded(t))| <= 32
  {
    var bytes := Zeros(3) + Ones(29);
    BigEndianBound(bytes);
    ToBytesFits(Diff1(), |bytes|);
    SmallerQuotient(Diff1(), 1, difficulty);
    SmallerFits(t, Diff1());
    CompactRoundsDown(t);
    SmallerFits(Rounded(t), t);
  }

  /** A harder difficulty never gives an easier device target. */
  lemma HandyTargetMonotone(d: nat, e: nat)
    requires 0 < d <= e
    ensures HandyTarget(e) <= HandyTarget(d)
  {
    SmallerQuotient(Diff1(), d, e);
    CompactMonotone(Diff1() / e, Diff1() / d);
  }

  lemma SmallerQuotient(t: nat, d: nat, e: nat)
    requires 0 < d <= e
    ensures t / e <= t / d
  {
    var x, y := t / e, t / d;
    assert e * x <= t && t < d * y + d;
    if y < x {
      MulMonotone(d, e, x);
      MulMonotone(y + 1, x, d);
    }
  }

  /** The last two error paths of the program never fire: a valid difficulty always yields 32 bytes. */
  method HandyTargetFromDifficulty(difficulty: nat) returns (r: Result<seq<Byte>, GatewayError>)
    ensures r.Ok? <==> 0 < difficulty <= MAX_HANDY_DIFFICULTY
    ensures r.Ok? ==> |r.value| == 32 && BigEndian(r.value) == HandyTarget(difficulty)
  {
    if difficulty == 0 || difficulty > MAX_HANDY_DIFFICULTY {
      return Err(InvalidDifficulty);
    }
    var maximum: seq<Byte> := Zeros(3) + Ones(29);
    var target := BigEndian(maximum) / difficulty;
    HandyTargetFits(difficulty, target);
    CompactRoundsDown(target);
    var effective := CompactToTarget(TargetToCompact(target));
    if effective < 0 {
      return Err(InvalidDifficulty);
    }
    if |ToBytes(effective)| > 32 {
      return Err(InvalidDifficulty);
    }
    var bytes := PadTo32(effective);
    return Ok(bytes);
  }
}
