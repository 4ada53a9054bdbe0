/**
 Proof-of-work targets (crates/meshmine-hns/src/target.rs): the compact
 encoding, the mask-safe capture target, and the HandyStratum device target
 (crates/meshmine-gateway/src/lib.rs).
 */
module Target {
  import opened Arith
  import opened Bits
  import opened Bytes

  // ---- Compact encoding ----

  /** Bit 23, the sign of a compact word. */
  predicate SignSet(word: nat) { word / 0x80_0000 % 2 == 1 }

  /** Signed compact decoding of a 32-bit word. */
  function CompactToTarget(compact: nat): int {
    if compact == 0 then 0
    else
      var exponent := compact / 0x100_0000;
      var mantissa := compact % 0x80_0000;
      var target := if exponent <= 3 then mantissa / Pow256(3 - exponent) else mantissa * Pow256(exponent - 3);
      if SignSet(compact) then -target else target
  }

  function BytesUp(value: nat, n: nat): nat { value * Pow256(n) }

  function Quotient(value: nat, unit: nat): nat
    requires unit > 0
  {
    value / unit
  }

  function BytesDown(value: nat, n: nat): nat { Quotient(value, Pow256(n)) }

  /** The leading three bytes of a number of this length. */
  function Leading(target: nat, length: nat): nat {
    if length <= 3 then BytesUp(target, 3 - length) else BytesDown(target, length - 3)
  }

  /** The exponent and mantissa chosen for a positive target. */
  function Parts(target: nat): (nat, nat)
    requires target > 0
  {
    var exponent := |ToBytes(target)|;
    var mantissa := Leading(target, exponent);
    if SignSet(mantissa) then (exponent + 1, mantissa / 256) else (exponent, mantissa)
  }

  function TargetToCompact(target: nat): nat {
    if target == 0 then 0
    else
      var (exponent, mantissa) := Parts(target);
      Or(exponent * 0x100_0000 % 0x1_0000_0000, mantissa, 32)
  }

  function DropOf(exponent: nat): nat { if exponent <= 3 then 0 else exponent - 3 }

  /** The number of low bytes that compaction drops. */
  function Dropped(target: nat): nat
    requires target > 0
  {
    DropOf(Parts(target).0)
  }

  function Rounded(target: nat): nat {
    if target == 0 then 0 else FloorTo(target, Pow256(Dropped(target)))
  }

  /** The mantissa keeps at most 23 significant bits, and at least 15 of them when bytes are dropped. */
  predicate Kept(t: nat, e: nat, m: nat) {
    && 0 < e && m < 0x80_0000
    && (if e <= 3 then m == t * Pow256(3 - e) else m == t / Pow256(e - 3) && m >= 0x8000)
  }

  lemma SignBit(m: nat)
    requires m < 0x100_0000
    ensures SignSet(m) <==> m >= 0x80_0000
  {
  }

  lemma SmallPowers()
    ensures Pow256(0) == 1 && Pow256(1) == 0x100 && Pow256(2) == 0x1_0000 && Pow256(3) == 0x100_0000
  {
  }

  lemma WidePowers()
    ensures Pow2(15) == 0x8000 && Pow2(23) == 0x80_0000 && Pow2(24) == 0x100_0000 && Pow2(32) == 0x1_0000_0000
  {
    Pow2Add(15, 8);
    Pow2Add(24, 8);
    assert Pow2(8) == 256 && Pow2(15) == 0x8000;
  }

  lemma PartsMean(t: nat)
    requires t > 0
    ensures Kept(t, Parts(t).0, Parts(t).1) && Parts(t).0 <= |ToBytes(t)| + 1
  {
    SmallPowers();
    MinimalBytesValue(t);
    BigEndianBound(MinimalBytes(t));
    var n := |ToBytes(t)|;
    if n <= 3 {
      ShortParts(t, n);
    } else {
      LongParts(t, n);
    }
  }

  lemma ShortParts(t: nat, n: nat)
    requires 0 < n <= 3 && t < Pow256(n)
    ensures var m := t * Pow256(3 - n);
            && m < 0x100_0000 && (SignSet(m) <==> m >= 0x80_0000)
            && m / 256 == (if n < 3 then t * Pow256(2 - n) else t / Pow256(1))
  {
    SmallPowers();
    SignBit(t * Pow256(3 - n));
    if n < 3 {
      DivModUnique(t * Pow256(3 - n), 256, t * Pow256(2 - n), 0);
    }
  }

  lemma LongParts(t: nat, n: nat)
    requires n > 3 && Pow256(n - 1) <= t < Pow256(n)
    ensures var m := t / Pow256(n - 3);
            && 0x1_0000 <= m < 0x100_0000 && (SignSet(m) <==> m >= 0x80_0000) && m / 256 == t / Pow256(n - 2)
  {
    SmallPowers();
    var p := Pow256(n - 3);
    Pow256Add(2, n - 3);
    Pow256Add(3, n - 3);
    DivBounds(t, p, Pow256(2), Pow256(3));
    SignBit(t / p);
    DivDiv(t, p, 256);
    assert Pow256(n - 2) == 256 * p;
  }

  /** The packed word: exponent in the top byte, sign bit clear, mantissa below. */
  lemma CompactWord(t: nat)
    requires t > 0 && |ToBytes(t)| <= 32
    ensures var (e, m) := Parts(t); TargetToCompact(t) == e * 0x100_0000 + m && e <= 33
  {
    var (e, m) := Parts(t);
    PartsMean(t);
    WidePowers();
    DivModUnique(e * 0x100_0000, 0x1_0000_0000, 0, e * 0x100_0000);
    OrDisjoint(e, m, 24, 32);
  }

  lemma UnpackWord(e: nat, m: nat)
    requires m < 0x80_0000
    ensures var c := e * 0x100_0000 + m; c / 0x100_0000 == e && c % 0x80_0000 == m && !SignSet(c)
  {
    var c := e * 0x100_0000 + m;
    DivModUnique(c, 0x100_0000, e, m);
    DivModUnique(c, 0x80_0000, 2 * e, m);
  }

  lemma ExpandWord(e: nat, m: nat)
    requires 0 < e && m < 0x80_0000
    ensures CompactToTarget(e * 0x100_0000 + m) == if e <= 3 then m / Pow256(3 - e) else m * Pow256(e - 3)
  {
    UnpackWord(e, m);
  }

  /** Compact then expand rounds the target down to a multiple of the last kept byte. */
  lemma CompactRoundsDown(t: nat)
    requires |ToBytes(t)| <= 32
    ensures CompactToTarget(TargetToCompact(t)) == Rounded(t)
    ensures !SignSet(TargetToCompact(t))
    ensures Rounded(t) <= t && (t > 0 ==> t - Rounded(t) < Pow256(Dropped(t)))
  {
    if t > 0 {
      var (e, m) := Parts(t);
      PartsMean(t);
      CompactWord(t);
      UnpackWord(e, m);
      ExpandWord(e, m);
      ExpandParts(t, e, m);
    }
  }

  lemma ExpandParts(t: nat, e: nat, m: nat)
    requires Kept(t, e, m)
    ensures (if e <= 3 then m / Pow256(3 - e) else m * Pow256(e - 3)) == FloorTo(t, Pow256(DropOf(e)))
  {
    if e <= 3 {
      Scaled(t, Pow256(3 - e));
    } else {
      FloorToQuotient(t, Pow256(e - 3));
    }
  }

  lemma Scaled(t: nat, p: nat)
    requires p > 0
    ensures t * p / p == t
  {
    DivModUnique(t * p, p, t, 0);
  }

  /** Which targets drop k bytes. */
  lemma DroppedRange(t: nat)
    requires t > 0
    ensures var p := Pow256(Dropped(t));
            t < 0x80_0000 * p && (Dropped(t) > 0 ==> 0x8000 * p <= t)
  {
    PartsMean(t);
    KeptRange(t, Parts(t).0, Parts(t).1);
  }

  lemma KeptRange(t: nat, e: nat, m: nat)
    requires Kept(t, e, m)
    ensures var p := Pow256(DropOf(e));
            t < 0x80_0000 * p && (DropOf(e) > 0 ==> 0x8000 * p <= t)
  {
    if e <= 3 {
      MulMonotone(1, Pow256(3 - e), t);
    } else {
      QuotientRange(t, Pow256(e - 3), m);
    }
  }

  lemma QuotientRange(t: nat, p: nat, m: nat)
    requires p > 0 && m == t / p && 0x8000 <= m < 0x80_0000
    ensures 0x8000 * p <= t < 0x80_0000 * p
  {
    FloorToQuotient(t, p);
    MulMonotone(m + 1, 0x80_0000, p);
    MulMonotone(0x8000, m, p);
  }

  /** More dropped bytes means a larger target. */
  lemma DroppedSeparates(k: nat, j: nat)
    requires k < j
    ensures 0x80_0000 * Pow256(k) <= 0x8000 * Pow256(j)
  {
    Pow256Monotone(k + 1, j);
    assert Pow256(k + 1) == 256 * Pow256(k);
  }

  lemma RoundedIsLargeEnough(t: nat)
    requires t > 0 && Dropped(t) > 0
    ensures 0x8000 * Pow256(Dropped(t)) <= Rounded(t) < 0x80_0000 * Pow256(Dropped(t))
  {
    DroppedRange(t);
    FloorToBetween(t, Pow256(Dropped(t)), 0x8000, 0x80_0000);
  }

  /** A second compaction changes nothing. */
  lemma CompactIdempotent(t: nat)
    requires |ToBytes(t)| <= 32
    ensures Rounded(Rounded(t)) == Rounded(t)
    ensures TargetToCompact(Rounded(t)) == TargetToCompact(t)
  {
    if t > 0 && Dropped(t) > 0 {
      SameDropped(t);
      FloorToQuotient(t, Pow256(Dropped(t)));
      PartsMean(t);
      PartsMean(Rounded(t));
    } else if t > 0 {
      SmallPowers();
      assert Rounded(t) == t;
    }
  }

  lemma SameDropped(t: nat)
    requires t > 0 && Dropped(t) > 0
    ensures Rounded(t) > 0 && Dropped(Rounded(t)) == Dropped(t)
  {
    RoundedIsLargeEnough(t);
    var j, k := Dropped(Rounded(t)), Dropped(t);
    DroppedRange(Rounded(t));
    if j < k {
      DroppedSeparates(j, k);
    } else if k < j {
      DroppedSeparates(k, j);
    }
  }

  /** A larger target never compacts to a smaller one. */
  lemma CompactMonotone(t: nat, u: nat)
    requires t <= u
    ensures Rounded(t) <= Rounded(u)
  {
    if t > 0 {
      var k, j := Dropped(t), Dropped(u);
      DroppedRange(t);
      DroppedRange(u);
      if k == j {
        FloorToMonotone(t, u, Pow256(k));
      } else if k < j {
        DroppedSeparates(k, j);
        RoundedIsLargeEnough(u);
        assert Rounded(t) <= t;
      } else {
        DroppedSeparates(j, k);
        assert false;
      }
    }
  }
}
