/**
 The Boolean circuit compiler for the HNS mask commitment
 (crates/meshmine-mpc-api/src/mask_hash_circuit.rs): a builder that appends
 XOR/AND/INV gates, the word-level generators over it, and the 64-lane evaluator.
 Wires carry a Boolean per lane; a word is 64 wires, least significant first.
 */
module Circuit {
  import opened Wrappers
  import opened Bits
  import opened Arith
  import Blake2b

  const INPUT_BITS: nat := 512
  const OUTPUT_BITS: nat := 256

  datatype Gate =
    | Xor(left: nat, right: nat, output: nat)
    | And(left: nat, right: nat, output: nat)
    | Inv(input: nat, output: nat)

  /** Gate k drives wire inputs + k and reads only earlier wires. */
  predicate Topological(gates: seq<Gate>, inputs: nat) {
    forall k :: 0 <= k < |gates| ==> GateReads(gates[k], inputs + k) && gates[k].output == inputs + k
  }

  predicate GateReads(gate: Gate, bound: nat) {
    match gate
    case Xor(l, r, _) => l < bound && r < bound
    case And(l, r, _) => l < bound && r < bound
    case Inv(i, _) => i < bound
  }

  function GateValue(gate: Gate, wires: seq<bool>): bool
    requires GateReads(gate, |wires|)
  {
    match gate
    case Xor(l, r, _) => wires[l] != wires[r]
    case And(l, r, _) => wires[l] && wires[r]
    case Inv(i, _) => !wires[i]
  }

  /** The value on every wire for one lane. */
  function Wires(gates: seq<Gate>, input: seq<bool>): (ws: seq<bool>)
    requires Topological(gates, |input|)
    ensures |ws| == |input| + |gates|
  {
    if gates == [] then input
    else
      var ws := Wires(gates[..|gates| - 1], input);
      ws + [GateValue(gates[|gates| - 1], ws)]
  }

  /** Appended gates never change the value on an earlier wire. */
  lemma {:induction false} WiresStable(before: seq<Gate>, after: seq<Gate>, input: seq<bool>)
    requires before <= after && Topological(after, |input|)
    ensures Topological(before, |input|) && Wires(before, input) <= Wires(after, input)
  {
    if |before| < |after| {
      var prefix := after[..|after| - 1];
      WiresStable(before, prefix, input);
    } else {
      assert before == after;
    }
  }

  // ---- Words ----

  predicate IsWord(word: seq<nat>, bound: nat) {
    |word| == 64 && forall i :: 0 <= i < 64 ==> word[i] < bound
  }

  function Select(wires: seq<bool>, word: seq<nat>): (bits: seq<bool>)
    requires forall i :: 0 <= i < |word| ==> word[i] < |wires|
    ensures |bits| == |word| && forall i :: 0 <= i < |word| ==> bits[i] == wires[word[i]]
  {
    seq(|word|, i requires 0 <= i < |word| => wires[word[i]])
  }

  /** The number a word of wires carries in one lane. */
  function Value(gates: seq<Gate>, input: seq<bool>, word: seq<nat>): nat
    requires Topological(gates, |input|) && IsWord(word, |input| + |gates|)
  {
    ToNat(Select(Wires(gates, input), word))
  }

  lemma ValueStable(before: seq<Gate>, after: seq<Gate>, input: seq<bool>, word: seq<nat>)
    requires before <= after && Topological(after, |input|) && IsWord(word, |input| + |before|)
    ensures Topological(before, |input|)
    ensures Value(after, input, word) == Value(before, input, word)
  {
    WiresStable(before, after, input);
    assert Select(Wires(before, input), word) == Select(Wires(after, input), word);
  }

  lemma Pow2Of64()
    ensures Pow2(64) == Blake2b.MODULUS
  {
    assert Pow2(8) == 256;
    Pow2Add(8, 8);
    assert Pow2(16) == 0x1_0000;
    Pow2Add(16, 16);
    assert Pow2(32) == 0x1_0000_0000;
    Pow2Add(32, 32);
  }

  function RotateRight(word: seq<nat>, distance: nat): (r: seq<nat>)
    requires |word| == 64
    ensures |r| == 64
  {
    seq(64, bit requires 0 <= bit < 64 => word[(bit + distance) % 64])
  }

  /** Renaming wires rotates the number they carry. */
  lemma RotateRightValue(gates: seq<Gate>, input: seq<bool>, word: seq<nat>, distance: nat)
    requires Topological(gates, |input|) && IsWord(word, |input| + |gates|) && distance < 64
    ensures IsWord(RotateRight(word, distance), |input| + |gates|)
    ensures Value(gates, input, RotateRight(word, distance))
         == Blake2b.RotateRight64(Value(gates, input, word), distance)
  {
    var bits := Select(Wires(gates, input), word);
    var low, high := bits[..distance], bits[distance..];
    assert bits == low + high;
    assert Select(Wires(gates, input), RotateRight(word, distance)) == high + low;
    ToNatConcat(low, high);
    ToNatConcat(high, low);
    ToNatBound(low);
    SwapPartsOf(ToNat(low), ToNat(high), Pow2(distance), Pow2(64 - distance));
  }

  lemma SwapPartsOf(low: nat, high: nat, p: nat, q: nat)
    requires low < p
    ensures Blake2b.SwapParts(low + p * high, p, q) == high + q * low
  {
    assert (low + p * high) / p == high && (low + p * high) % p == low by {
      DivModUnique(low + p * high, p, high, low);
    }
  }

  // ---- The builder ----

  class CircuitBuilder {
    const inputs: nat
    var gates: seq<Gate>
    var nextWire: nat
    var zero: Option<nat>
    var one: Option<nat>

    ghost predicate Valid()
      reads this
    {
      && inputs > 0
      && nextWire == inputs + |gates|
      && Topological(gates, inputs)
      && (zero.Some? ==> inputs <= zero.value < nextWire && gates[zero.value - inputs] == Xor(0, 0, zero.value))
      && (one.Some? ==> zero.Some? && inputs <= one.value < nextWire
                        && gates[one.value - inputs] == Inv(zero.value, one.value))
    }

    constructor (inputWires: nat)
      requires inputWires > 0
      ensures Valid() && inputs == inputWires && gates == []
    {
      inputs := inputWires;
      gates := [];
      nextWire := inputWires;
      zero := None;
      one := None;
    }

    method Allocate() returns (wire: nat)
      modifies this`nextWire
      ensures wire == old(nextWire) && nextWire == old(nextWire) + 1
    {
      wire := nextWire;
      nextWire := nextWire + 1;
    }

    method XorWire(left: nat, right: nat) returns (output: nat)
      requires Valid() && left < nextWire && right < nextWire
      modifies this`gates, this`nextWire
      ensures Valid() && output == old(nextWire) && gates == old(gates) + [Xor(left, right, output)]
    {
      output := Allocate();
      gates := gates + [Xor(left, right, output)];
    }

    method AndWire(left: nat, right: nat) returns (output: nat)
      requires Valid() && left < nextWire && right < nextWire
      modifies this`gates, this`nextWire
      ensures Valid() && output == old(nextWire) && gates == old(gates) + [And(left, right, output)]
    {
      output := Allocate();
      gates := gates + [And(left, right, output)];
    }

    method NotWire(input: nat) returns (output: nat)
      requires Valid() && input < nextWire
      modifies this`gates, this`nextWire
      ensures Valid() && output == old(nextWire) && gates == old(gates) + [Inv(input, output)]
    {
      output := Allocate();
      gates := gates + [Inv(input, output)];
    }

    /** The shared constant wires: built on first use, reused afterwards. */
    method Constant(value: bool) returns (wire: nat)
      requires Valid()
      modifies this
      ensures Valid() && old(gates) <= gates && wire < nextWire
      ensures IsConstantWire(gates, inputs, wire, value)
      ensures if value then one == Some(wire) else zero == Some(wire)
      decreases value
    {
      if value {
        if one.Some? {
          wire := one.value;
        } else {
          var z := Constant(false);
          wire := NotWire(z);
          one := Some(wire);
        }
      } else if zero.Some? {
        wire := zero.value;
      } else {
        wire := XorWire(0, 0);
        zero := Some(wire);
      }
    }
  }

  /** A constant wire is driven by `0 XOR 0`, or by the inverse of such a wire. */
  predicate IsConstantWire(gates: seq<Gate>, inputs: nat, wire: nat, value: bool) {
    && inputs > 0
    && inputs <= wire < inputs + |gates|
    && (if value then gates[wire - inputs].Inv? && gates[wire - inputs].input < wire
                      && IsConstantWire(gates, inputs, gates[wire - inputs].input, false)
        else gates[wire - inputs] == Xor(0, 0, wire))
  }

  lemma ConstantWireValue(gates: seq<Gate>, input: seq<bool>, wire: nat, value: bool)
    requires Topological(gates, |input|) && IsConstantWire(gates, |input|, wire, value)
    ensures Wires(gates, input)[wire] == value
  {
    GateOutput(gates, input, wire - |input|);
    if value {
      GateOutput(gates, input, gates[wire - |input|].input - |input|);
    }
  }

  /** The wire a gate drives carries the gate's value over the final wires too. */
  lemma GateOutput(gates: seq<Gate>, input: seq<bool>, k: nat)
    requires Topological(gates, |input|) && k < |gates|
    ensures GateReads(gates[k], |Wires(gates, input)|)
    ensures Wires(gates, input)[|input| + k] == GateValue(gates[k], Wires(gates, input))
  {
    WiresStable(gates[..k + 1], gates, input);
    assert gates[..k + 1][..k] == gates[..k];
    WiresStable(gates[..k], gates, input);
  }

  // ---- Word generators ----

  /** The gate list contains exactly this gate at its output's position. */
  predicate Drives(gates: seq<Gate>, inputs: nat, gate: Gate) {
    inputs <= gate.output < inputs + |gates| && gates[gate.output - inputs] == gate
  }

  function LowBits(value: nat, n: nat): (bits: seq<bool>)
    ensures |bits| == n && forall i :: 0 <= i < n ==> bits[i] == Bit(value, i)
  {
    seq(n, i requires 0 <= i < n => Bit(value, i))
  }

  lemma {:induction false} LowBitsValue(value: nat, n: nat)
    requires value < Pow2(n)
    ensures ToNat(LowBits(value, n)) == value
  {
    if n > 0 {
      LowBitsValue(value / 2, n - 1);
      assert LowBits(value, n)[1..] == LowBits(value / 2, n - 1);
    }
  }

  method ConstantWord(b: CircuitBuilder, value: nat) returns (word: seq<nat>)
    requires b.Valid() && value < Blake2b.MODULUS
    modifies b
    ensures b.Valid() && old(b.gates) <= b.gates && IsWord(word, b.nextWire)
    ensures forall input: seq<bool> | |input| == b.inputs :: Value(b.gates, input, word) == value
  {
    word := [];
    for bit := 0 to 64
      invariant b.Valid() && old(b.gates) <= b.gates
      invariant |word| == bit
      invariant forall k :: 0 <= k < bit ==> IsConstantWire(b.gates, b.inputs, word[k], Bit(value, k))
    {
      ghost var before := b.gates;
      var wire := b.Constant(value / Pow2(bit) % 2 == 1);
      BitIsQuotient(value, bit);
      forall k | 0 <= k < bit ensures IsConstantWire(b.gates, b.inputs, word[k], Bit(value, k)) {
        ConstantWireStable(before, b.gates, b.inputs, word[k], Bit(value, k));
      }
      word := word + [wire];
    }
    forall input: seq<bool> | |input| == b.inputs ensures Value(b.gates, input, word) == value {
      forall k | 0 <= k < 64 ensures Wires(b.gates, input)[word[k]] == Bit(value, k) {
        ConstantWireValue(b.gates, input, word[k], Bit(value, k));
      }
      assert Select(Wires(b.gates, input), word) == LowBits(value, 64);
      Pow2Of64();
      LowBitsValue(value, 64);
    }
  }

  lemma ConstantWireStable(before: seq<Gate>, after: seq<Gate>, inputs: nat, wire: nat, value: bool)
    requires before <= after && IsConstantWire(before, inputs, wire, value)
    ensures IsConstantWire(after, inputs, wire, value)
  {
  }

  method XorWord(b: CircuitBuilder, left: seq<nat>, right: seq<nat>) returns (word: seq<nat>)
    requires b.Valid() && IsWord(left, b.nextWire) && IsWord(right, b.nextWire)
    modifies b
    ensures b.Valid() && old(b.gates) <= b.gates && IsWord(word, b.nextWire)
    ensures forall input: seq<bool> | |input| == b.inputs ::
              Value(b.gates, input, word)
              == Blake2b.Xor64(Value(old(b.gates), input, left), Value(old(b.gates), input, right))
  {
    word := [];
    for bit := 0 to 64
      invariant b.Valid() && old(b.gates) <= b.gates
      invariant |word| == bit
      invariant forall k :: 0 <= k < bit ==> Drives(b.gates, b.inputs, Xor(left[k], right[k], word[k]))
    {
      var wire := b.XorWire(left[bit], right[bit]);
      word := word + [wire];
    }
    forall input: seq<bool> | |input| == b.inputs
      ensures Value(b.gates, input, word)
           == Blake2b.Xor64(Value(old(b.gates), input, left), Value(old(b.gates), input, right))
    {
      var ws := Wires(b.gates, input);
      forall k | 0 <= k < 64 ensures ws[word[k]] == (ws[left[k]] != ws[right[k]]) {
        GateOutput(b.gates, input, word[k] - b.inputs);
      }
      XorOfBits(Select(ws, left), Select(ws, right), Select(ws, word));
      ValueStable(old(b.gates), b.gates, input, left);
      ValueStable(old(b.gates), b.gates, input, right);
    }
  }

  method NotWord(b: CircuitBuilder, operand: seq<nat>) returns (word: seq<nat>)
    requires b.Valid() && IsWord(operand, b.nextWire)
    modifies b
    ensures b.Valid() && old(b.gates) <= b.gates && IsWord(word, b.nextWire)
    ensures forall input: seq<bool> | |input| == b.inputs ::
              Value(b.gates, input, word)
              == Blake2b.Xor64(Value(old(b.gates), input, operand), Blake2b.ALL_ONES)
  {
    word := [];
    for bit := 0 to 64
      invariant b.Valid() && old(b.gates) <= b.gates
      invariant |word| == bit
      invariant forall k :: 0 <= k < bit ==> Drives(b.gates, b.inputs, Inv(operand[k], word[k]))
    {
      var wire := b.NotWire(operand[bit]);
      word := word + [wire];
    }
    forall input: seq<bool> | |input| == b.inputs
      ensures Value(b.gates, input, word)
           == Blake2b.Xor64(Value(old(b.gates), input, operand), Blake2b.ALL_ONES)
    {
      var ws := Wires(b.gates, input);
      forall k | 0 <= k < 64 ensures ws[word[k]] == !ws[operand[k]] {
        GateOutput(b.gates, input, word[k] - b.inputs);
      }
      var ones := seq(64, _ => true);
      OnesValue(ones);
      Pow2Of64();
      XorOfBits(Select(ws, operand), ones, Select(ws, word));
      ValueStable(old(b.gates), b.gates, input, operand);
    }
  }

  lemma {:induction false} OnesValue(bits: seq<bool>)
    requires forall i :: 0 <= i < |bits| ==> bits[i]
    ensures ToNat(bits) == Pow2(|bits|) - 1
  {
    if bits != [] {
      OnesValue(bits[1..]);
    }
  }

  /** The five gates of one full-adder position and the wires between them. */
  datatype AdderCell = AdderCell(left: nat, right: nat, carryIn: nat, pairXor: nat, sum: nat,
                                 both: nat, propagated: nat, carryOut: nat)

  predicate CellDriven(gates: seq<Gate>, inputs: nat, c: AdderCell) {
    && Drives(gates, inputs, Xor(c.left, c.right, c.pairXor))
    && Drives(gates, inputs, Xor(c.pairXor, c.carryIn, c.sum))
    && Drives(gates, inputs, And(c.left, c.right, c.both))
    && Drives(gates, inputs, And(c.carryIn, c.pairXor, c.propagated))
    && Drives(gates, inputs, Xor(c.both, c.propagated, c.carryOut))
  }

  function Count(bit: bool): nat { if bit then 1 else 0 }

  /** Every gate's output wire carries the gate's value. */
  predicate Settled(gates: seq<Gate>, inputs: nat, ws: seq<bool>)
    requires Topological(gates, inputs)
  {
    |ws| == inputs + |gates| && forall k :: 0 <= k < |gates| ==> ws[inputs + k] == GateValue(gates[k], ws)
  }

  lemma WiresSettled(gates: seq<Gate>, input: seq<bool>)
    requires Topological(gates, |input|)
    ensures Settled(gates, |input|, Wires(gates, input))
  {
    forall k | 0 <= k < |gates|
      ensures Wires(gates, input)[|input| + k] == GateValue(gates[k], Wires(gates, input))
    {
      GateOutput(gates, input, k);
    }
  }

  lemma DrivenValue(gates: seq<Gate>, inputs: nat, ws: seq<bool>, gate: Gate)
    requires Topological(gates, inputs) && Settled(gates, inputs, ws) && Drives(gates, inputs, gate)
    ensures GateReads(gate, |ws|) && gate.output < |ws| && ws[gate.output] == GateValue(gate, ws)
  {
    assert gates[gate.output - inputs] == gate;
  }

  lemma FullAdder(gates: seq<Gate>, inputs: nat, ws: seq<bool>, c: AdderCell)
    requires Topological(gates, inputs) && Settled(gates, inputs, ws) && CellDriven(gates, inputs, c)
    ensures c.left < |ws| && c.right < |ws| && c.carryIn < |ws| && c.sum < |ws| && c.carryOut < |ws|
    ensures Count(ws[c.left]) + Count(ws[c.right]) + Count(ws[c.carryIn])
         == Count(ws[c.sum]) + 2 * Count(ws[c.carryOut])
  {
    DrivenValue(gates, inputs, ws, Xor(c.left, c.right, c.pairXor));
    DrivenValue(gates, inputs, ws, Xor(c.pairXor, c.carryIn, c.sum));
    DrivenValue(gates, inputs, ws, And(c.left, c.right, c.both));
    DrivenValue(gates, inputs, ws, And(c.carryIn, c.pairXor, c.propagated));
    DrivenValue(gates, inputs, ws, Xor(c.both, c.propagated, c.carryOut));
  }

  /** Driven cells chained through their carries, reading the operands position by position. */
  ghost predicate AdderChain(gates: seq<Gate>, inputs: nat, cells: seq<AdderCell>, left: seq<nat>, right: seq<nat>,
                             carries: seq<nat>, sum: seq<nat>)
  {
    && |cells| == |sum| <= |left| == |right| && |carries| == |cells| + 1
    && IsConstantWire(gates, inputs, carries[0], false)
    && (forall k :: 0 <= k < |cells| ==> CellDriven(gates, inputs, cells[k]))
    && (forall k :: 0 <= k < |cells| ==>
          && cells[k].left == left[k] && cells[k].right == right[k] && cells[k].sum == sum[k]
          && cells[k].carryIn == carries[k] && cells[k].carryOut == carries[k + 1])
  }

  lemma AdderChainExtend(before: seq<Gate>, after: seq<Gate>, inputs: nat, cells: seq<AdderCell>, left: seq<nat>,
                         right: seq<nat>, carries: seq<nat>, sum: seq<nat>, cell: AdderCell)
    requires before <= after && AdderChain(before, inputs, cells, left, right, carries, sum)
    requires |sum| < |left| && CellDriven(after, inputs, cell) && cell.carryIn == carries[|sum|]
    requires cell.left == left[|sum|] && cell.right == right[|sum|]
    ensures AdderChain(after, inputs, cells + [cell], left, right, carries + [cell.carryOut], sum + [cell.sum])
  {
    forall k | 0 <= k < |cells| ensures CellDriven(after, inputs, cells[k]) {
      assert CellDriven(before, inputs, cells[k]);
    }
  }

  predicate AddsAt(left: seq<bool>, right: seq<bool>, carries: seq<bool>, sum: seq<bool>, k: nat)
    requires |left| == |right| == |sum| && |carries| == |sum| + 1 && k < |sum|
  {
    Count(left[k]) + Count(right[k]) + Count(carries[k]) == Count(sum[k]) + 2 * Count(carries[k + 1])
  }

  /** One-bit adders chained through their carries add the numbers the bits denote. */
  lemma {:induction false} RippleCarry(left: seq<bool>, right: seq<bool>, carries: seq<bool>, sum: seq<bool>, n: nat)
    requires |left| == |right| == |sum| && |carries| == |sum| + 1 && !carries[0] && n <= |sum|
    requires forall k :: 0 <= k < |sum| ==> AddsAt(left, right, carries, sum, k)
    ensures ToNat(sum[..n]) + Weigh(carries[n], n) == ToNat(left[..n]) + ToNat(right[..n])
  {
    if n > 0 {
      var m := n - 1;
      RippleCarry(left, right, carries, sum, m);
      ToNatPrefix(left, m);
      ToNatPrefix(right, m);
      ToNatPrefix(sum, m);
      assert AddsAt(left, right, carries, sum, m);
      CarryStep(left[m], right[m], carries[m], sum[m], carries[m + 1], m);
    }
  }

  function Weigh(bit: bool, n: nat): nat { if bit then Pow2(n) else 0 }

  lemma ToNatPrefix(bits: seq<bool>, m: nat)
    requires m < |bits|
    ensures ToNat(bits[..m + 1]) == ToNat(bits[..m]) + Weigh(bits[m], m)
  {
    assert bits[..m + 1] == bits[..m] + [bits[m]];
    ToNatAppend(bits[..m], bits[m]);
  }

  lemma CarryStep(l: bool, r: bool, carry: bool, s: bool, next: bool, m: nat)
    requires Count(l) + Count(r) + Count(carry) == Count(s) + 2 * Count(next)
    ensures Weigh(l, m) + Weigh(r, m) + Weigh(carry, m) == Weigh(s, m) + Weigh(next, m + 1)
  {
  }

  predicate CellAdds(ws: seq<bool>, left: nat, right: nat, carryIn: nat, sum: nat, carryOut: nat) {
    && left < |ws| && right < |ws| && carryIn < |ws| && sum < |ws| && carryOut < |ws|
    && Count(ws[left]) + Count(ws[right]) + Count(ws[carryIn]) == Count(ws[sum]) + 2 * Count(ws[carryOut])
  }

  lemma ChainCells(gates: seq<Gate>, inputs: nat, ws: seq<bool>, cells: seq<AdderCell>,
                   left: seq<nat>, right: seq<nat>, carries: seq<nat>, sum: seq<nat>)
    requires Topological(gates, inputs) && Settled(gates, inputs, ws)
    requires AdderChain(gates, inputs, cells, left, right, carries, sum)
    ensures forall k :: 0 <= k < |sum| ==> sum[k] < |ws|
    ensures forall k :: 0 <= k < |carries| ==> carries[k] < |ws|
    ensures forall k :: 0 <= k < |sum| ==> CellAdds(ws, left[k], right[k], carries[k], sum[k], carries[k + 1])
  {
    forall k | 0 <= k < |sum| ensures CellAdds(ws, left[k], right[k], carries[k], sum[k], carries[k + 1]) {
      FullAdder(gates, inputs, ws, cells[k]);
    }
    forall k | 0 <= k < |sum| ensures sum[k] < |ws| {
      assert CellAdds(ws, left[k], right[k], carries[k], sum[k], carries[k + 1]);
    }
    forall k | 0 <= k < |carries| ensures carries[k] < |ws| {
      if k > 0 {
        assert CellAdds(ws, left[k - 1], right[k - 1], carries[k - 1], sum[k - 1], carries[k - 1 + 1]);
      }
    }
  }

  lemma ChainAdds(ws: seq<bool>, left: seq<nat>, right: seq<nat>, carries: seq<nat>, sum: seq<nat>)
    requires IsWord(left, |ws|) && IsWord(right, |ws|) && IsWord(sum, |ws|) && |carries| == 65
    requires (forall k :: 0 <= k < |carries| ==> carries[k] < |ws|) && !ws[carries[0]]
    requires forall k :: 0 <= k < |sum| ==> CellAdds(ws, left[k], right[k], carries[k], sum[k], carries[k + 1])
    ensures ToNat(Select(ws, sum)) == (ToNat(Select(ws, left)) + ToNat(Select(ws, right))) % Blake2b.MODULUS
  {
    var l, r, s, c := Select(ws, left), Select(ws, right), Select(ws, sum), Select(ws, carries);
    forall k | 0 <= k < |s| ensures AddsAt(l, r, c, s, k) {
      assert CellAdds(ws, left[k], right[k], carries[k], sum[k], carries[k + 1]);
    }
    RippleCarry(l, r, c, s, 64);
    assert l[..64] == l && r[..64] == r && s[..64] == s;
    CarryOut(s, Count(c[64]), ToNat(l) + ToNat(r));
  }

  lemma AdderValue(before: seq<Gate>, gates: seq<Gate>, input: seq<bool>, cells: seq<AdderCell>,
                   left: seq<nat>, right: seq<nat>, carries: seq<nat>, sum: seq<nat>)
    requires before <= gates && Topological(gates, |input|)
    requires AdderChain(gates, |input|, cells, left, right, carries, sum)
    requires IsWord(left, |input| + |before|) && IsWord(right, |input| + |before|) && |sum| == 64
    ensures Topological(before, |input|) && IsWord(sum, |input| + |gates|)
    ensures Value(gates, input, sum)
         == (Value(before, input, left) + Value(before, input, right)) % Blake2b.MODULUS
  {
    ValueStable(before, gates, input, left);
    ValueStable(before, gates, input, right);
    ConstantWireValue(gates, input, carries[0], false);
    WiresSettled(gates, input);
    var ws := Wires(gates, input);
    ChainCells(gates, |input|, ws, cells, left, right, carries, sum);
    ChainAdds(ws, left, right, carries, sum);
  }

  lemma CarryOut(sum: seq<bool>, carry: nat, total: nat)
    requires |sum| == 64 && carry <= 1 && ToNat(sum) + (if carry == 1 then Pow2(64) else 0) == total
    ensures ToNat(sum) == total % Blake2b.MODULUS
  {
    ToNatBound(sum);
    Pow2Of64();
  }

  lemma AdderChainWord(gates: seq<Gate>, inputs: nat, cells: seq<AdderCell>,
                       left: seq<nat>, right: seq<nat>, carries: seq<nat>, sum: seq<nat>)
    requires AdderChain(gates, inputs, cells, left, right, carries, sum) && |sum| == 64
    ensures IsWord(sum, inputs + |gates|)
  {
    forall k | 0 <= k < 64 ensures sum[k] < inputs + |gates| {
      assert CellDriven(gates, inputs, cells[k]);
    }
  }

  method AddCell(b: CircuitBuilder, left: nat, right: nat, carry: nat)
    returns (sum: nat, next: nat, ghost cell: AdderCell)
    requires b.Valid() && left < b.nextWire && right < b.nextWire && carry < b.nextWire
    modifies b
    ensures b.Valid() && old(b.gates) <= b.gates && sum < b.nextWire && next < b.nextWire
    ensures CellDriven(b.gates, b.inputs, cell)
    ensures cell.left == left && cell.right == right && cell.carryIn == carry
    ensures cell.sum == sum && cell.carryOut == next
  {
    var pairXor := b.XorWire(left, right);
    sum := b.XorWire(pairXor, carry);
    var both := b.AndWire(left, right);
    var propagated := b.AndWire(carry, pairXor);
    next := b.XorWire(both, propagated);
    cell := AdderCell(left, right, carry, pairXor, sum, both, propagated, next);
  }

  /** Ripple-carry addition is addition modulo 2^64. */
  method AddWord(b: CircuitBuilder, left: seq<nat>, right: seq<nat>) returns (sum: seq<nat>)
    requires b.Valid() && IsWord(left, b.nextWire) && IsWord(right, b.nextWire)
    modifies b
    ensures b.Valid() && old(b.gates) <= b.gates && IsWord(sum, b.nextWire)
    ensures forall input: seq<bool> | |input| == b.inputs ::
              Value(b.gates, input, sum)
              == (Value(old(b.gates), input, left) + Value(old(b.gates), input, right)) % Blake2b.MODULUS
  {
    var carry := b.Constant(false);
    ghost var carries: seq<nat>, cells: seq<AdderCell> := [carry], [];
    sum := [];
    for bit := 0 to 64
      invariant b.Valid() && old(b.gates) <= b.gates && |sum| == bit
      invariant AdderChain(b.gates, b.inputs, cells, left, right, carries, sum)
      invariant carry == carries[bit] < b.nextWire
    {
      ghost var before := b.gates;
      var s, next; ghost var cell;
      s, next, cell := AddCell(b, left[bit], right[bit], carry);
      AdderChainExtend(before, b.gates, b.inputs, cells, left, right, carries, sum, cell);
      cells, carries := cells + [cell], carries + [next];
      sum := sum + [s];
      carry := next;
    }
    AdderChainWord(b.gates, b.inputs, cells, left, right, carries, sum);
    forall input: seq<bool> | |input| == b.inputs
      ensures Value(b.gates, input, sum)
           == (Value(old(b.gates), input, left) + Value(old(b.gates), input, right)) % Blake2b.MODULUS
    {
      AdderValue(old(b.gates), b.gates, input, cells, left, right, carries, sum);
    }
  }

  // ---- BLAKE2b as a circuit ----

  predicate AreWords(words: seq<seq<nat>>, bound: nat) {
    forall i :: 0 <= i < |words| ==> IsWord(words[i], bound)
  }

  /** The numbers a vector of words carries in one lane. */
  function Values(gates: seq<Gate>, input: seq<bool>, words: seq<seq<nat>>): (v: seq<nat>)
    requires Topological(gates, |input|) && AreWords(words, |input| + |gates|)
    ensures |v| == |words| && forall i :: 0 <= i < |words| ==> v[i] == Value(gates, input, words[i])
  {
    seq(|words|, i requires 0 <= i < |words| => Value(gates, input, words[i]))
  }

  lemma ValuesStable(before: seq<Gate>, after: seq<Gate>, input: seq<bool>, words: seq<seq<nat>>)
    requires before <= after && Topological(after, |input|) && AreWords(words, |input| + |before|)
    ensures Topological(before, |input|)
    ensures Values(after, input, words) == Values(before, input, words)
  {
    forall i | 0 <= i < |words| ensures Value(after, input, words[i]) == Value(before, input, words[i]) {
      ValueStable(before, after, input, words[i]);
    }
  }

  lemma AddTwice(v: seq<nat>, a: nat, y: nat, x: nat)
    requires |v| == 16 && a < 16
    ensures Blake2b.AddInto(Blake2b.AddInto(v, a, y), a, x) == Blake2b.AddInto(v, a, y + x)
  {
  }

  /** state[target] = state[target] + word. */
  method AddTo(b: CircuitBuilder, state: array<seq<nat>>, target: nat, word: seq<nat>)
    requires b.Valid() && state.Length == 16 && AreWords(state[..], b.nextWire) && target < 16
    requires IsWord(word, b.nextWire)
    modifies b, state
    ensures b.Valid() && old(b.gates) <= b.gates && AreWords(state[..], b.nextWire)
    ensures forall input: seq<bool> | |input| == b.inputs ::
              Values(b.gates, input, state[..])
              == Blake2b.AddInto(Values(old(b.gates), input, old(state[..])), target, Value(old(b.gates), input, word))
  {
    ghost var g0, s0 := b.gates, state[..];
    state[target] := AddWord(b, state[target], word);
    forall input: seq<bool> | |input| == b.inputs
      ensures Values(b.gates, input, state[..])
           == Blake2b.AddInto(Values(g0, input, s0), target, Value(g0, input, word))
    {
      ValuesStable(g0, b.gates, input, s0);
    }
  }

  /** state[target] = (state[target] ^ state[other]) >>> distance. */
  method XorTo(b: CircuitBuilder, state: array<seq<nat>>, target: nat, other: nat, distance: nat)
    requires b.Valid() && state.Length == 16 && AreWords(state[..], b.nextWire)
    requires target < 16 && other < 16 && distance < 64
    modifies b, state
    ensures b.Valid() && old(b.gates) <= b.gates && AreWords(state[..], b.nextWire)
    ensures forall input: seq<bool> | |input| == b.inputs ::
              Values(b.gates, input, state[..])
              == Blake2b.XorInto(Values(old(b.gates), input, old(state[..])), target, other, distance)
  {
    ghost var g0, s0 := b.gates, state[..];
    var word := XorWord(b, state[target], state[other]);
    state[target] := RotateRight(word, distance);
    forall input: seq<bool> | |input| == b.inputs
      ensures Values(b.gates, input, state[..])
           == Blake2b.XorInto(Values(g0, input, s0), target, other, distance)
    {
      ValuesStable(g0, b.gates, input, s0);
      RotateRightValue(b.gates, input, word, distance);
    }
  }

  /** state[target] = state[target] + state[other] + extra, where extra may be absent. */
  method AddBoth(b: CircuitBuilder, state: array<seq<nat>>, target: nat, other: nat, extra: Option<seq<nat>>)
    requires b.Valid() && state.Length == 16 && AreWords(state[..], b.nextWire) && target < 16 && other < 16
    requires extra.Some? ==> IsWord(extra.value, b.nextWire)
    modifies b, state
    ensures b.Valid() && old(b.gates) <= b.gates && AreWords(state[..], b.nextWire)
    ensures forall input: seq<bool> | |input| == b.inputs ::
              var v := Values(old(b.gates), input, old(state[..]));
              Values(b.gates, input, state[..])
              == Blake2b.AddInto(v, target, v[other] + OptionalValue(old(b.gates), input, extra))
  {
    ghost var g0, s0 := b.gates, state[..];
    AddTo(b, state, target, state[other]);
    if extra.Some? {
      ghost var g1 := b.gates;
      AddTo(b, state, target, extra.value);
      forall input: seq<bool> | |input| == b.inputs
        ensures var v := Values(g0, input, s0);
                Values(b.gates, input, state[..])
                == Blake2b.AddInto(v, target, v[other] + OptionalValue(g0, input, extra))
      {
        ValueStable(g0, g1, input, extra.value);
        var v := Values(g0, input, s0);
        AddTwice(v, target, v[other], Value(g0, input, extra.value));
      }
    }
  }

  function OptionalValue(gates: seq<Gate>, input: seq<bool>, word: Option<seq<nat>>): nat
    requires Topological(gates, |input|) && (word.Some? ==> IsWord(word.value, |input| + |gates|))
  {
    if word.Some? then Value(gates, input, word.value) else 0
  }

  method MixPair(b: CircuitBuilder, state: array<seq<nat>>, target: nat, other: nat, extra: Option<seq<nat>>,
                 rotated: nat, distance: nat)
    requires b.Valid() && state.Length == 16 && AreWords(state[..], b.nextWire)
    requires target < 16 && other < 16 && rotated < 16 && distance < 64
    requires extra.Some? ==> IsWord(extra.value, b.nextWire)
    modifies b, state
    ensures b.Valid() && old(b.gates) <= b.gates && AreWords(state[..], b.nextWire)
    ensures forall input: seq<bool> | |input| == b.inputs ::
              Values(b.gates, input, state[..])
              == Blake2b.MixPair(Values(old(b.gates), input, old(state[..])), target, other,
                                 OptionalValue(old(b.gates), input, extra), rotated, distance)
  {
    AddBoth(b, state, target, other, extra);
    XorTo(b, state, rotated, target, distance);
  }

  method MixHalf(b: CircuitBuilder, state: array<seq<nat>>, i: (nat, nat, nat, nat), x: seq<nat>, r1: nat, r2: nat)
    requires b.Valid() && state.Length == 16 && AreWords(state[..], b.nextWire) && IsWord(x, b.nextWire)
    requires i.0 < 16 && i.1 < 16 && i.2 < 16 && i.3 < 16 && r1 < 64 && r2 < 64
    modifies b, state
    ensures b.Valid() && old(b.gates) <= b.gates && AreWords(state[..], b.nextWire)
    ensures forall input: seq<bool> | |input| == b.inputs ::
              Values(b.gates, input, state[..])
              == Blake2b.MixHalf(Values(old(b.gates), input, old(state[..])), i.0, i.1, i.2, i.3,
                                 Value(old(b.gates), input, x), r1, r2)
  {
    MixPair(b, state, i.0, i.1, Some(x), i.3, r1);
    MixPair(b, state, i.2, i.3, None, i.1, r2);
  }

  method G(b: CircuitBuilder, state: array<seq<nat>>, indexes: (nat, nat, nat, nat), x: seq<nat>, y: seq<nat>)
    requires b.Valid() && state.Length == 16 && AreWords(state[..], b.nextWire)
    requires IsWord(x, b.nextWire) && IsWord(y, b.nextWire)
    requires indexes.0 < 16 && indexes.1 < 16 && indexes.2 < 16 && indexes.3 < 16
    modifies b, state
    ensures b.Valid() && old(b.gates) <= b.gates && AreWords(state[..], b.nextWire)
    ensures forall input: seq<bool> | |input| == b.inputs ::
              Values(b.gates, input, state[..])
              == Blake2b.G(Values(old(b.gates), input, old(state[..])), indexes.0, indexes.1, indexes.2, indexes.3,
                           Value(old(b.gates), input, x), Value(old(b.gates), input, y))
  {
    ghost var g0, s0 := b.gates, state[..];
    MixHalf(b, state, indexes, x, 32, 24);
    ghost var g1, s1 := b.gates, state[..];
    MixHalf(b, state, indexes, y, 16, 63);
    forall input: seq<bool> | |input| == b.inputs
      ensures Values(b.gates, input, state[..])
           == Blake2b.G(Values(g0, input, s0), indexes.0, indexes.1, indexes.2, indexes.3,
                        Value(g0, input, x), Value(g0, input, y))
    {
      ValueStable(g0, g1, input, y);
    }
  }

  /** The generator's own twelve-row schedule table. */
  function Schedule(round: nat): (r: seq<nat>)
    requires round < 12
    ensures |r| == 16
  {
    match round
    case 0 => [0, 1, 2, 3, 4, 5, 6, 7, 8, 9, 10, 11, 12, 13, 14, 15]
    case 1 => [14, 10, 4, 8, 9, 15, 13, 6, 1, 12, 0, 2, 11, 7, 5, 3]
    case 2 => [11, 8, 12, 0, 5, 2, 15, 13, 10, 14, 3, 6, 7, 1, 9, 4]
    case 3 => [7, 9, 3, 1, 13, 12, 11, 14, 2, 6, 5, 10, 4, 0, 15, 8]
    case 4 => [9, 0, 5, 7, 2, 4, 10, 15, 14, 1, 11, 12, 6, 8, 3, 13]
    case 5 => [2, 12, 6, 10, 0, 11, 8, 3, 4, 13, 7, 5, 15, 14, 1, 9]
    case 6 => [12, 5, 1, 15, 14, 13, 4, 10, 0, 7, 6, 3, 9, 2, 8, 11]
    case 7 => [13, 11, 7, 14, 12, 1, 3, 9, 5, 0, 15, 4, 8, 6, 2, 10]
    case 8 => [6, 15, 14, 9, 11, 3, 0, 8, 12, 2, 13, 7, 1, 4, 10, 5]
    case 9 => [10, 2, 8, 4, 7, 6, 1, 5, 15, 11, 9, 14, 3, 12, 13, 0]
    case 10 => [0, 1, 2, 3, 4, 5, 6, 7, 8, 9, 10, 11, 12, 13, 14, 15]
    case _ => [14, 10, 4, 8, 9, 15, 13, 6, 1, 12, 0, 2, 11, 7, 5, 3]
  }

  lemma ScheduleIsSigma(round: nat)
    requires round < 12
    ensures Schedule(round) == Blake2b.Sigma(round % 10)
  {
  }

  /** The generator's own list of the words mixed by the eight calls of a round. */
  function Mixed(k: nat): (nat, nat, nat, nat) {
    match k
    case 0 => (0, 4, 8, 12)
    case 1 => (1, 5, 9, 13)
    case 2 => (2, 6, 10, 14)
    case 3 => (3, 7, 11, 15)
    case 4 => (0, 5, 10, 15)
    case 5 => (1, 6, 11, 12)
    case 6 => (2, 7, 8, 13)
    case _ => (3, 4, 9, 14)
  }

  lemma MixedIsColumnsAndDiagonals(k: nat)
    requires k < 8
    ensures Mixed(k) == Blake2b.MixIndexes(k)
  {
  }

  method RoundStep(b: CircuitBuilder, state: array<seq<nat>>, message: seq<seq<nat>>, schedule: seq<nat>, k: nat)
    requires b.Valid() && state.Length == 16 && AreWords(state[..], b.nextWire)
    requires |message| == 16 && AreWords(message, b.nextWire) && k < 8
    requires |schedule| == 16 && forall i :: 0 <= i < 16 ==> schedule[i] < 16
    modifies b, state
    ensures b.Valid() && old(b.gates) <= b.gates && AreWords(state[..], b.nextWire)
    ensures forall input: seq<bool> | |input| == b.inputs ::
              Values(b.gates, input, state[..])
              == Blake2b.RoundStep(Values(old(b.gates), input, old(state[..])),
                                   Values(old(b.gates), input, message), schedule, k)
  {
    MixedIsColumnsAndDiagonals(k);
    G(b, state, Mixed(k), message[schedule[2 * k]], message[schedule[2 * k + 1]]);
  }

  method Round(b: CircuitBuilder, state: array<seq<nat>>, message: seq<seq<nat>>, schedule: seq<nat>)
    requires b.Valid() && state.Length == 16 && AreWords(state[..], b.nextWire)
    requires |message| == 16 && AreWords(message, b.nextWire)
    requires |schedule| == 16 && forall i :: 0 <= i < 16 ==> schedule[i] < 16
    modifies b, state
    ensures b.Valid() && old(b.gates) <= b.gates && AreWords(state[..], b.nextWire)
    ensures forall input: seq<bool> | |input| == b.inputs ::
              Values(b.gates, input, state[..])
              == Blake2b.RoundSteps(Values(old(b.gates), input, old(state[..])),
                                    Values(old(b.gates), input, message), schedule, 8)
  {
    ghost var g0, s0 := b.gates, state[..];
    for k := 0 to 8
      invariant b.Valid() && g0 <= b.gates && AreWords(state[..], b.nextWire)
      invariant forall input: seq<bool> | |input| == b.inputs ::
                  Values(b.gates, input, state[..])
                  == Blake2b.RoundSteps(Values(g0, input, s0), Values(g0, input, message), schedule, k)
    {
      ghost var g1, s1 := b.gates, state[..];
      RoundStep(b, state, message, schedule, k);
      forall input: seq<bool> | |input| == b.inputs
        ensures Values(b.gates, input, state[..])
             == Blake2b.RoundSteps(Values(g0, input, s0), Values(g0, input, message), schedule, k + 1)
      {
        ValuesStable(g0, g1, input, message);
      }
    }
  }

  method Rounds(b: CircuitBuilder, state: array<seq<nat>>, message: seq<seq<nat>>)
    requires b.Valid() && state.Length == 16 && AreWords(state[..], b.nextWire)
    requires |message| == 16 && AreWords(message, b.nextWire)
    modifies b, state
    ensures b.Valid() && old(b.gates) <= b.gates && AreWords(state[..], b.nextWire)
    ensures forall input: seq<bool> | |input| == b.inputs ::
              Values(b.gates, input, state[..])
              == Blake2b.Rounds(Values(old(b.gates), input, old(state[..])), Values(old(b.gates), input, message), 12)
  {
    ghost var g0, s0 := b.gates, state[..];
    for n := 0 to 12
      invariant b.Valid() && g0 <= b.gates && AreWords(state[..], b.nextWire)
      invariant forall input: seq<bool> | |input| == b.inputs ::
                  Values(b.gates, input, state[..])
                  == Blake2b.Rounds(Values(g0, input, s0), Values(g0, input, message), n)
    {
      ghost var g1 := b.gates;
      NumberedRound(b, state, message, n);
      forall input: seq<bool> | |input| == b.inputs
        ensures Values(b.gates, input, state[..])
             == Blake2b.Rounds(Values(g0, input, s0), Values(g0, input, message), n + 1)
      {
        ValuesStable(g0, g1, input, message);
      }
    }
  }

  method NumberedRound(b: CircuitBuilder, state: array<seq<nat>>, message: seq<seq<nat>>, n: nat)
    requires b.Valid() && state.Length == 16 && AreWords(state[..], b.nextWire) && n < 12
    requires |message| == 16 && AreWords(message, b.nextWire)
    modifies b, state
    ensures b.Valid() && old(b.gates) <= b.gates && AreWords(state[..], b.nextWire)
    ensures forall input: seq<bool> | |input| == b.inputs ::
              Values(b.gates, input, state[..])
              == Blake2b.RoundSteps(Values(old(b.gates), input, old(state[..])), Values(old(b.gates), input, message),
                                    Blake2b.Sigma(n % 10), 8)
  {
    ScheduleIsSigma(n);
    Round(b, state, message, Schedule(n));
  }

  /** The sixteen message words one lane's 512 input bits denote. */
  function LaneWords(bits: seq<bool>): (m: seq<nat>)
    requires |bits| == INPUT_BITS
    ensures |m| == 16
  {
    seq(16, i requires 0 <= i < 16 => LaneWord(bits, i))
  }

  function LaneWord(bits: seq<bool>, i: nat): nat
    requires |bits| == INPUT_BITS
  {
    if i < 8 then ToNat(bits[64 * i..64 * i + 64]) else 0
  }

  /** Constant words, one per entry. */
  method ConstantWords(b: CircuitBuilder, values: seq<nat>) returns (words: seq<seq<nat>>)
    requires b.Valid() && forall i :: 0 <= i < |values| ==> values[i] < Blake2b.MODULUS
    modifies b
    ensures b.Valid() && old(b.gates) <= b.gates && |words| == |values| && AreWords(words, b.nextWire)
    ensures forall lane: seq<bool> | |lane| == b.inputs :: Values(b.gates, lane, words) == values
  {
    words := [];
    for i := 0 to |values|
      invariant b.Valid() && old(b.gates) <= b.gates && |words| == i && AreWords(words, b.nextWire)
      invariant forall lane: seq<bool> | |lane| == b.inputs :: Values(b.gates, lane, words) == values[..i]
    {
      ghost var g1 := b.gates;
      var word := ConstantWord(b, values[i]);
      forall lane: seq<bool> | |lane| == b.inputs
        ensures Values(b.gates, lane, words + [word]) == values[..i + 1]
      {
        ValuesStable(g1, b.gates, lane, words);
        assert Values(b.gates, lane, words + [word]) == Values(b.gates, lane, words) + [Value(b.gates, lane, word)];
      }
      words := words + [word];
    }
  }

  lemma SliceValue(before: seq<Gate>, gates: seq<Gate>, lane: seq<bool>, input: seq<nat>, i: nat)
    requires before <= gates && Topological(gates, |lane|) && |input| == INPUT_BITS && i < 8
    requires forall k :: 0 <= k < |input| ==> input[k] < |lane| + |before|
    ensures Topological(before, |lane|) && IsWord(input[64 * i..64 * i + 64], |lane| + |gates|)
    ensures Value(gates, lane, input[64 * i..64 * i + 64]) == LaneWord(Select(Wires(before, lane), input), i)
  {
    WiresStable(before, gates, lane);
    assert Select(Wires(gates, lane), input[64 * i..64 * i + 64])
        == Select(Wires(before, lane), input)[64 * i..64 * i + 64];
  }

  /** The first eight message words are input wires; the other eight are zero. */
  method MessageWords(b: CircuitBuilder, input: seq<nat>) returns (message: seq<seq<nat>>)
    requires b.Valid() && |input| == INPUT_BITS && forall i :: 0 <= i < |input| ==> input[i] < b.nextWire
    modifies b
    ensures b.Valid() && old(b.gates) <= b.gates && |message| == 16 && AreWords(message, b.nextWire)
    ensures forall lane: seq<bool> | |lane| == b.inputs ::
              Values(b.gates, lane, message) == LaneWords(Select(Wires(old(b.gates), lane), input))
  {
    ghost var g0 := b.gates;
    var zeros := ConstantWords(b, seq(8, _ => 0));
    var words := seq(8, i requires 0 <= i < 8 => input[64 * i..64 * i + 64]);
    message := words + zeros;
    forall lane: seq<bool> | |lane| == b.inputs
      ensures Values(b.gates, lane, message) == LaneWords(Select(Wires(g0, lane), input))
    {
      var bits := Select(Wires(g0, lane), input);
      assert Values(b.gates, lane, zeros) == seq(8, _ => 0);
      forall i | 0 <= i < 16 ensures Value(b.gates, lane, message[i]) == LaneWord(bits, i) {
        if i < 8 {
          SliceValue(g0, b.gates, lane, input, i);
        } else {
          assert message[i] == zeros[i - 8];
          assert Values(b.gates, lane, zeros)[i - 8] == 0;
        }
      }
    }
  }

  /** hash = IV with the parameter word folded into entry 0. */
  method InitialHashWords(b: CircuitBuilder) returns (hash: seq<seq<nat>>)
    requires b.Valid()
    modifies b
    ensures b.Valid() && old(b.gates) <= b.gates && |hash| == 8 && AreWords(hash, b.nextWire)
    ensures forall lane: seq<bool> | |lane| == b.inputs :: Values(b.gates, lane, hash) == Blake2b.InitialHashes()
  {
    hash := ConstantWords(b, seq(8, i requires 0 <= i < 8 => Blake2b.Iv(i)));
    ghost var g1 := b.gates;
    var parameters := ConstantWord(b, 0x0101_0020);
    ghost var g2 := b.gates;
    var first := XorWord(b, hash[0], parameters);
    forall lane: seq<bool> | |lane| == b.inputs
      ensures Values(b.gates, lane, hash[0 := first]) == Blake2b.InitialHashes()
    {
      ValuesStable(g1, g2, lane, hash);
      ValuesStable(g1, b.gates, lane, hash);
    }
    hash := hash[0 := first];
  }

  /** The sixteen state words before the length and the final flag are folded in. */
  method InitialWords(b: CircuitBuilder, hash: seq<seq<nat>>) returns (words: seq<seq<nat>>)
    requires b.Valid() && |hash| == 8 && AreWords(hash, b.nextWire)
    requires forall lane: seq<bool> | |lane| == b.inputs :: Values(b.gates, lane, hash) == Blake2b.InitialHashes()
    modifies b
    ensures b.Valid() && old(b.gates) <= b.gates && |words| == 16 && AreWords(words, b.nextWire)
    ensures forall lane: seq<bool> | |lane| == b.inputs :: Values(b.gates, lane, words) == Blake2b.InitialWords()
  {
    ghost var g0 := b.gates;
    var ivs := ConstantWords(b, seq(8, i requires 0 <= i < 8 => Blake2b.Iv(i)));
    words := hash + ivs;
    forall lane: seq<bool> | |lane| == b.inputs
      ensures Values(b.gates, lane, words) == Blake2b.InitialWords()
    {
      ValuesStable(g0, b.gates, lane, hash);
      assert Values(b.gates, lane, words) == Values(b.gates, lane, hash) + Values(b.gates, lane, ivs);
    }
  }

  /** F's working vector for a final block of 64 message bytes. */
  method WorkingVector(b: CircuitBuilder, hash: seq<seq<nat>>) returns (words: seq<seq<nat>>)
    requires b.Valid() && |hash| == 8 && AreWords(hash, b.nextWire)
    requires forall lane: seq<bool> | |lane| == b.inputs :: Values(b.gates, lane, hash) == Blake2b.InitialHashes()
    modifies b
    ensures b.Valid() && old(b.gates) <= b.gates && |words| == 16 && AreWords(words, b.nextWire)
    ensures forall lane: seq<bool> | |lane| == b.inputs :: Values(b.gates, lane, words) == Blake2b.WorkingVector(64)
  {
    var initial := InitialWords(b, hash);
    ghost var g1 := b.gates;
    var length := ConstantWord(b, 64);
    ghost var g2 := b.gates;
    var counter := XorWord(b, initial[12], length);
    ghost var g3 := b.gates;
    var flag := NotWord(b, initial[14]);
    words := initial[12 := counter][14 := flag];
    forall lane: seq<bool> | |lane| == b.inputs
      ensures Values(b.gates, lane, words) == Blake2b.WorkingVector(64)
    {
      ValueStable(g1, g2, lane, initial[12]);
      ValueStable(g1, g3, lane, initial[14]);
      ValueStable(g3, b.gates, lane, counter);
      ValuesStable(g1, b.gates, lane, initial);
      assert Values(g1, lane, initial) == Blake2b.InitialWords();
    }
  }

  method FoldWord(b: CircuitBuilder, hash: seq<nat>, low: seq<nat>, high: seq<nat>) returns (word: seq<nat>)
    requires b.Valid() && IsWord(hash, b.nextWire) && IsWord(low, b.nextWire) && IsWord(high, b.nextWire)
    modifies b
    ensures b.Valid() && old(b.gates) <= b.gates && IsWord(word, b.nextWire)
    ensures forall lane: seq<bool> | |lane| == b.inputs ::
              Value(b.gates, lane, word)
              == Blake2b.Xor64(Blake2b.Xor64(Value(old(b.gates), lane, hash), Value(old(b.gates), lane, low)),
                               Value(old(b.gates), lane, high))
  {
    ghost var g0 := b.gates;
    var first := XorWord(b, hash, low);
    ghost var g1 := b.gates;
    word := XorWord(b, first, high);
    forall lane: seq<bool> | |lane| == b.inputs
      ensures Value(b.gates, lane, word)
           == Blake2b.Xor64(Blake2b.Xor64(Value(g0, lane, hash), Value(g0, lane, low)), Value(g0, lane, high))
    {
      ValueStable(g0, g1, lane, high);
    }
  }

  /** Digest word i is hash[i] ^ state[i] ^ state[i + 8]. */
  method DigestWords(b: CircuitBuilder, hash: seq<seq<nat>>, state: seq<seq<nat>>) returns (digest: seq<seq<nat>>)
    requires b.Valid() && |hash| == 8 && AreWords(hash, b.nextWire)
    requires |state| == 16 && AreWords(state, b.nextWire)
    modifies b
    ensures b.Valid() && old(b.gates) <= b.gates && |digest| == 4 && AreWords(digest, b.nextWire)
    ensures forall lane: seq<bool> | |lane| == b.inputs ::
              Values(b.gates, lane, digest)
              == Blake2b.FoldWords(Values(old(b.gates), lane, hash), Values(old(b.gates), lane, state), 4)
  {
    ghost var g0 := b.gates;
    digest := [];
    for word := 0 to 4
      invariant b.Valid() && g0 <= b.gates && |digest| == word && AreWords(digest, b.nextWire)
      invariant forall lane: seq<bool> | |lane| == b.inputs ::
                  Values(b.gates, lane, digest)
                  == Blake2b.FoldWords(Values(g0, lane, hash), Values(g0, lane, state), word)
    {
      ghost var g1 := b.gates;
      var next := FoldWord(b, hash[word], state[word], state[word + 8]);
      forall lane: seq<bool> | |lane| == b.inputs
        ensures Values(b.gates, lane, digest + [next])
             == Blake2b.FoldWords(Values(g0, lane, hash), Values(g0, lane, state), word + 1)
      {
        ValuesStable(g0, g1, lane, hash);
        ValuesStable(g0, g1, lane, state);
        ValuesStable(g1, b.gates, lane, digest);
        assert Values(b.gates, lane, digest + [next]) == Values(b.gates, lane, digest) + [Value(b.gates, lane, next)];
      }
      digest := digest + [next];
    }
  }

  method Blake2b256OneBlock(b: CircuitBuilder, input: seq<nat>) returns (digest: seq<seq<nat>>)
    requires b.Valid() && |input| == INPUT_BITS && forall i :: 0 <= i < |input| ==> input[i] < b.nextWire
    modifies b
    ensures b.Valid() && old(b.gates) <= b.gates && |digest| == 4 && AreWords(digest, b.nextWire)
    ensures forall lane: seq<bool> | |lane| == b.inputs ::
              Values(b.gates, lane, digest)
              == Blake2b.HashWords(LaneWords(Select(Wires(old(b.gates), lane), input)), 64, 4)
  {
    ghost var g0 := b.gates;
    var message := MessageWords(b, input);
    ghost var g1 := b.gates;
    var hash := InitialHashWords(b);
    ghost var g2 := b.gates;
    var words := WorkingVector(b, hash);
    ghost var g3 := b.gates;
    var state := new seq<nat>[16](i requires 0 <= i < 16 => words[i]);
    assert state[..] == words;
    Rounds(b, state, message);
    var final := state[..];
    ghost var g4 := b.gates;
    digest := DigestWords(b, hash, final);
    forall lane: seq<bool> | |lane| == b.inputs
      ensures Values(b.gates, lane, digest)
           == Blake2b.HashWords(LaneWords(Select(Wires(g0, lane), input)), 64, 4)
    {
      ValuesStable(g1, g3, lane, message);
      ValuesStable(g2, g4, lane, hash);
    }
  }

  // ---- The finished circuit ----

  datatype MaskHashCircuit = MaskHashCircuit(gates: seq<Gate>, wireCount: nat, outputWires: seq<nat>)

  /** What the consumers rely on: topological gates and a 256-wire output suffix. */
  predicate WellFormed(c: MaskHashCircuit) {
    && Topological(c.gates, INPUT_BITS)
    && c.wireCount == INPUT_BITS + |c.gates|
    && |c.outputWires| == OUTPUT_BITS <= c.wireCount
    && forall i :: 0 <= i < OUTPUT_BITS ==> c.outputWires[i] == c.wireCount - OUTPUT_BITS + i
  }

  /** The octets 8k .. 8k + 7 of a bit string denote, least significant bit first. */
  function OctetsOf(bits: seq<bool>): (octets: seq<nat>)
    ensures |octets| == |bits| / 8
  {
    seq(|bits| / 8, k requires 0 <= k < |bits| / 8 => ToNat(bits[8 * k..8 * k + 8]))
  }

  function Outputs(c: MaskHashCircuit, lane: seq<bool>): (bits: seq<bool>)
    requires WellFormed(c) && |lane| == INPUT_BITS
    ensures |bits| == OUTPUT_BITS
  {
    Select(Wires(c.gates, lane), c.outputWires)
  }

  method CopyOutputs(b: CircuitBuilder, digest: seq<seq<nat>>) returns (outputs: seq<nat>)
    requires b.Valid() && |digest| == 4 && AreWords(digest, b.nextWire)
    modifies b
    ensures b.Valid() && old(b.gates) <= b.gates
    ensures |outputs| == OUTPUT_BITS <= b.nextWire
    ensures forall k :: 0 <= k < OUTPUT_BITS ==> outputs[k] == b.nextWire - OUTPUT_BITS + k
    ensures forall lane: seq<bool>, k | |lane| == b.inputs && 0 <= k < OUTPUT_BITS ::
              Wires(b.gates, lane)[outputs[k]] == Wires(old(b.gates), lane)[digest[k / 64][k % 64]]
  {
    ghost var g0 := b.gates;
    var zero := b.Constant(false);
    outputs := [];
    ghost var first := b.nextWire;
    for k := 0 to OUTPUT_BITS
      invariant b.Valid() && g0 <= b.gates && |outputs| == k && b.nextWire == first + k
      invariant IsConstantWire(b.gates, b.inputs, zero, false)
      invariant forall i :: 0 <= i < k ==> outputs[i] == first + i
      invariant forall i :: 0 <= i < k ==> Drives(b.gates, b.inputs, Xor(digest[i / 64][i % 64], zero, outputs[i]))
    {
      var wire := b.XorWire(digest[k / 64][k % 64], zero);
      outputs := outputs + [wire];
    }
    forall lane: seq<bool>, k | |lane| == b.inputs && 0 <= k < OUTPUT_BITS
      ensures Wires(b.gates, lane)[outputs[k]] == Wires(g0, lane)[digest[k / 64][k % 64]]
    {
      WiresStable(g0, b.gates, lane);
      ConstantWireValue(b.gates, lane, zero, false);
      GateOutput(b.gates, lane, outputs[k] - b.inputs);
    }
  }

  lemma {:induction false} WordOctets(bits: seq<bool>)
    requires |bits| % 8 == 0
    ensures ToNat(bits) == Blake2b.FromOctets(OctetsOf(bits))
  {
    if bits != [] {
      WordOctets(bits[8..]);
      assert bits == bits[..8] + bits[8..];
      ToNatConcat(bits[..8], bits[8..]);
      assert Pow2(8) == 256;
      assert OctetsOf(bits)[1..] == OctetsOf(bits[8..]) by {
        forall k | 0 <= k < |bits| / 8 - 1 ensures OctetsOf(bits)[k + 1] == OctetsOf(bits[8..])[k] {
          assert bits[8 * (k + 1)..8 * (k + 1) + 8] == bits[8..][8 * k..8 * k + 8];
        }
      }
    }
  }

  lemma SubSlice(bits: seq<bool>, a: nat, b: nat, c: nat, d: nat)
    requires c <= d <= b - a && b <= |bits|
    ensures bits[a..b][c..d] == bits[a + c..a + d]
  {
    forall k | 0 <= k < d - c ensures bits[a..b][c..d][k] == bits[a + c..a + d][k] {
    }
  }

  /** Sixteen words of a lane are the zero-padded block of its 64 octets. */
  lemma LaneWordsAreBlockWords(bits: seq<bool>)
    requires |bits| == INPUT_BITS
    ensures LaneWords(bits) == Blake2b.BlockWords(OctetsOf(bits))
  {
    var octets := OctetsOf(bits);
    var block := octets + seq(64, _ => 0);
    forall i | 0 <= i < 16 ensures LaneWord(bits, i) == Blake2b.FromOctets(block[8 * i..8 * i + 8]) {
      if i < 8 {
        var word := bits[64 * i..64 * i + 64];
        WordOctets(word);
        forall k | 0 <= k < 8 ensures OctetsOf(word)[k] == block[8 * i + k] {
          SubSlice(bits, 64 * i, 64 * i + 64, 8 * k, 8 * k + 8);
        }
        assert OctetsOf(word) == block[8 * i..8 * i + 8];
      } else {
        ZeroOctets(block[8 * i..8 * i + 8]);
      }
    }
  }

  lemma {:induction false} ZeroOctets(octets: seq<nat>)
    requires forall k :: 0 <= k < |octets| ==> octets[k] == 0
    ensures Blake2b.FromOctets(octets) == 0
  {
    if octets != [] {
      ZeroOctets(octets[1..]);
    }
  }

  /** Octet k of a word is the number its bits 8k .. 8k + 7 denote. */
  lemma OctetOfBits(bits: seq<bool>, k: nat)
    requires |bits| == 64 && k < 8
    ensures ToNat(bits[8 * k..8 * k + 8]) == Blake2b.Octet(ToNat(bits), k)
  {
    var low, middle, high := bits[..8 * k], bits[8 * k..8 * k + 8], bits[8 * k + 8..];
    assert bits == low + (middle + high);
    ToNatConcat(low, middle + high);
    ToNatConcat(middle, high);
    ToNatBound(low);
    ToNatBound(middle);
    assert Pow2(8) == 256;
    DivModUnique(ToNat(bits), Pow2(8 * k), ToNat(middle + high), ToNat(low));
    DivModUnique(ToNat(middle + high), 256, ToNat(high), ToNat(middle));
  }

  /** Output octets follow from the four digest words. */
  lemma OutputOctets(outputs: seq<bool>, words: seq<nat>)
    requires |outputs| == OUTPUT_BITS && |words| == 4
    requires forall i :: 0 <= i < 4 ==> ToNat(outputs[64 * i..64 * i + 64]) == words[i]
    ensures OctetsOf(outputs) == Blake2b.DigestOctets(words)
  {
    forall k | 0 <= k < 32 ensures OctetsOf(outputs)[k] == Blake2b.Octet(words[k / 8], k % 8) {
      var i, j := k / 8, k % 8;
      SubSlice(outputs, 64 * i, 64 * i + 64, 8 * j, 8 * j + 8);
      OctetOfBits(outputs[64 * i..64 * i + 64], j);
    }
  }

  /**
   The compiled circuit: well formed, and on every lane its output octets are
   the BLAKE2b-256 digest of its 64 input octets.
   */
  method Build() returns (c: MaskHashCircuit)
    ensures WellFormed(c)
    ensures forall lane: seq<bool> | |lane| == INPUT_BITS ::
              OctetsOf(Outputs(c, lane)) == Blake2b.Hash(OctetsOf(lane))
  {
    var b := new CircuitBuilder(INPUT_BITS);
    var digest := HashInputs(b);
    ghost var g1 := b.gates;
    var outputWires := CopyOutputs(b, digest);
    c := MaskHashCircuit(b.gates, b.nextWire, outputWires);
    forall lane: seq<bool> | |lane| == INPUT_BITS
      ensures OctetsOf(Outputs(c, lane)) == Blake2b.Hash(OctetsOf(lane))
    {
      OutputsAreDigest(Wires(g1, lane), digest, Values(g1, lane, digest), Outputs(c, lane));
    }
  }

  method HashInputs(b: CircuitBuilder) returns (digest: seq<seq<nat>>)
    requires b.Valid() && b.gates == [] && b.inputs == INPUT_BITS
    modifies b
    ensures b.Valid() && |digest| == 4 && AreWords(digest, b.nextWire)
    ensures forall lane: seq<bool> | |lane| == INPUT_BITS ::
              Blake2b.DigestOctets(Values(b.gates, lane, digest)) == Blake2b.Hash(OctetsOf(lane))
  {
    var inputWires := seq(INPUT_BITS, i requires 0 <= i < INPUT_BITS => i);
    digest := HashWires(b, inputWires);
    forall lane: seq<bool> | |lane| == INPUT_BITS
      ensures Blake2b.DigestOctets(Values(b.gates, lane, digest)) == Blake2b.Hash(OctetsOf(lane))
    {
      InputLane(lane, inputWires);
    }
  }

  method HashWires(b: CircuitBuilder, input: seq<nat>) returns (digest: seq<seq<nat>>)
    requires b.Valid() && |input| == INPUT_BITS && forall i :: 0 <= i < |input| ==> input[i] < b.nextWire
    modifies b
    ensures b.Valid() && |digest| == 4 && AreWords(digest, b.nextWire)
    ensures forall lane: seq<bool> | |lane| == b.inputs ::
              Blake2b.DigestOctets(Values(b.gates, lane, digest))
              == Blake2b.Hash(OctetsOf(Select(Wires(old(b.gates), lane), input)))
  {
    ghost var g0 := b.gates;
    digest := Blake2b256OneBlock(b, input);
    forall lane: seq<bool> | |lane| == b.inputs
      ensures Blake2b.DigestOctets(Values(b.gates, lane, digest)) ==
              Blake2b.Hash(OctetsOf(Select(Wires(g0, lane), input)))
    {
      var bits := Select(Wires(g0, lane), input);
      LaneHashes(bits, LaneWords(bits), 64, Values(b.gates, lane, digest));
    }
  }

  lemma InputLane(lane: seq<bool>, inputWires: seq<nat>)
    requires |inputWires| == |lane| && forall i :: 0 <= i < |lane| ==> inputWires[i] == i
    ensures Topological([], |lane|) && Select(Wires([], lane), inputWires) == lane
  {
  }

  lemma LaneHashes(lane: seq<bool>, m: seq<nat>, t: nat, words: seq<nat>)
    requires |lane| == INPUT_BITS && m == LaneWords(lane) && t == 64 && words == Blake2b.HashWords(m, t, 4)
    ensures Blake2b.DigestOctets(words) == Blake2b.Hash(OctetsOf(lane))
  {
    LaneWordsAreBlockWords(lane);
    Blake2b.HashOfWords(OctetsOf(lane), m, t, words);
  }

  lemma OutputsAreDigest(wires: seq<bool>, digest: seq<seq<nat>>, words: seq<nat>, outputs: seq<bool>)
    requires |outputs| == OUTPUT_BITS && |digest| == 4 && AreWords(digest, |wires|) && |words| == 4
    requires forall i :: 0 <= i < 4 ==> words[i] == ToNat(Select(wires, digest[i]))
    requires forall k :: 0 <= k < OUTPUT_BITS ==> outputs[k] == wires[digest[k / 64][k % 64]]
    ensures OctetsOf(outputs) == Blake2b.DigestOctets(words)
  {
    forall i | 0 <= i < 4 ensures ToNat(outputs[64 * i..64 * i + 64]) == words[i] {
      DigestSlice(outputs, wires, digest, i);
    }
    OutputOctets(outputs, words);
  }

  lemma DigestSlice(outputs: seq<bool>, wires: seq<bool>, digest: seq<seq<nat>>, i: nat)
    requires |outputs| == OUTPUT_BITS && |digest| == 4 && AreWords(digest, |wires|) && i < 4
    requires forall k :: 0 <= k < OUTPUT_BITS ==> outputs[k] == wires[digest[k / 64][k % 64]]
    ensures outputs[64 * i..64 * i + 64] == Select(wires, digest[i])
  {
    forall j | 0 <= j < 64 ensures outputs[64 * i + j] == wires[digest[i][j]] {
      assert (64 * i + j) / 64 == i && (64 * i + j) % 64 == j;
    }
  }

  // ---- Packed evaluation ----

  datatype CircuitError = WrongInputCount
  datatype Result<T> = Ok(value: T) | Err(error: CircuitError)

  /** A packed wire: bit l belongs to lane l. */
  type u64 = x: nat | x < Blake2b.MODULUS

  const LANES: nat := 64

  function Lane(packed: seq<nat>, lane: nat): (bits: seq<bool>)
    ensures |bits| == |packed| && forall i :: 0 <= i < |packed| ==> bits[i] == Bit(packed[i], lane)
  {
    seq(|packed|, i requires 0 <= i < |packed| => Bit(packed[i], lane))
  }

  function PackedValue(gate: Gate, wires: seq<nat>): nat
    requires GateReads(gate, |wires|)
  {
    match gate
    case Xor(l, r, _) => Bits.Xor(wires[l], wires[r], LANES)
    case And(l, r, _) => Bits.And(wires[l], wires[r], LANES)
    case Inv(i, _) => Bits.Not(wires[i], LANES)
  }

  lemma StepLane(gate: Gate, wires: seq<nat>, lane: nat)
    requires GateReads(gate, |wires|) && lane < LANES
    ensures Bit(PackedValue(gate, wires), lane) == GateValue(gate, Lane(wires, lane))
  {
    match gate
    case Xor(l, r, _) => BitOfOperators(wires[l], wires[r], LANES, lane);
    case And(l, r, _) => BitOfOperators(wires[l], wires[r], LANES, lane);
    case Inv(i, _) => BitOfOperators(wires[i], wires[i], LANES, lane);
  }

  lemma StepLanes(gates: seq<Gate>, k: nat, wires: seq<nat>, inputs: seq<nat>)
    requires Topological(gates, |inputs|) && k < |gates| && |wires| == |inputs| + k
    requires forall lane :: 0 <= lane < LANES ==> Lane(wires, lane) == Wires(gates[..k], Lane(inputs, lane))
    ensures forall lane :: 0 <= lane < LANES ==>
              Lane(wires + [PackedValue(gates[k], wires)], lane) == Wires(gates[..k + 1], Lane(inputs, lane))
  {
    forall lane | 0 <= lane < LANES
      ensures Lane(wires + [PackedValue(gates[k], wires)], lane) == Wires(gates[..k + 1], Lane(inputs, lane))
    {
      StepLane(gates[k], wires, lane);
      assert gates[..k + 1][..k] == gates[..k];
    }
  }

  method EvaluateGate(wires: array<nat>, next: nat, gate: Gate)
    requires next < wires.Length && GateReads(gate, next) && gate.output == next
    modifies wires
    ensures wires[..next + 1] == old(wires[..next]) + [PackedValue(gate, old(wires[..next]))]
  {
    match gate {
      case Xor(left, right, output) => wires[output] := Bits.Xor(wires[left], wires[right], LANES);
      case And(left, right, output) => wires[output] := Bits.And(wires[left], wires[right], LANES);
      case Inv(input, output) => wires[output] := Bits.Not(wires[input], LANES);
    }
  }

  /** All 64 lanes at once: every lane sees exactly the one-lane semantics. */
  method EvaluatePacked(c: MaskHashCircuit, inputs: seq<u64>) returns (r: Result<seq<nat>>)
    requires WellFormed(c)
    ensures |inputs| != INPUT_BITS ==> r == Err(WrongInputCount)
    ensures |inputs| == INPUT_BITS ==>
              r.Ok? && |r.value| == OUTPUT_BITS
              && forall lane :: 0 <= lane < LANES ==> Lane(r.value, lane) == Outputs(c, Lane(inputs, lane))
  {
    if |inputs| != INPUT_BITS {
      return Err(WrongInputCount);
    }
    var wires := new nat[c.wireCount](i => if 0 <= i < INPUT_BITS then inputs[i] else 0);
    assert wires[..INPUT_BITS] == inputs;
    for k := 0 to |c.gates|
      invariant forall lane :: 0 <= lane < LANES ==>
                  Lane(wires[..INPUT_BITS + k], lane) == Wires(c.gates[..k], Lane(inputs, lane))
    {
      ghost var before := wires[..INPUT_BITS + k];
      EvaluateGate(wires, INPUT_BITS + k, c.gates[k]);
      StepLanes(c.gates, k, before, inputs);
    }
    assert c.gates[..|c.gates|] == c.gates && wires[..c.wireCount] == wires[..];
    r := Ok(seq(OUTPUT_BITS, i requires 0 <= i < OUTPUT_BITS reads wires => wires[c.outputWires[i]]));
  }

  /** End to end: each lane of the built circuit's packed run is BLAKE2b-256. */
  method MaskHashLanes(inputs: seq<u64>) returns (outputs: seq<nat>)
    requires |inputs| == INPUT_BITS
    ensures |outputs| == OUTPUT_BITS
    ensures forall lane :: 0 <= lane < LANES ==>
              OctetsOf(Lane(outputs, lane)) == Blake2b.Hash(OctetsOf(Lane(inputs, lane)))
  {
    var c := Build();
    var r := EvaluatePacked(c, inputs);
    outputs := r.value;
  }
}
