/**
 The canonical binary codec (crates/meshmine-codec/src/lib.rs). The encoder
 appends to a byte vector and the decoder advances an offset; both are proved
 against functions on byte strings, and those functions undo each other in
 both directions.
 */
module Codec {
  import opened Arith
  import opened Bits
  import opened Bytes

  const U64_LIMIT: nat := 0x1_0000_0000_0000_0000

  datatype CodecError =
    | ObjectTooLarge(actual: nat, maximum: nat)
    | UnexpectedEof(needed: nat)
    | NonCanonicalVarint
    | VarintOverflow
    | LengthLimit(actual: nat, maximum: nat)
    | TrailingBytes(count: nat)
    | InvalidField

  datatype Result<+T> = Ok(value: T) | Err(error: CodecError) {
    predicate IsFailure() { Err? }
    function PropagateFailure<U>(): Result<U>
      requires Err?
    {
      Err(error)
    }
    function Extract(): T
      requires Ok?
    {
      value
    }
  }

  /** A parsed value and the bytes after it. */
  type Parsed<T> = Result<(T, seq<Byte>)>

  datatype Limits = Limits(maxObjectBytes: nat, maxVectorItems: nat)

  // ---- What the formats are ----

  function EncodeVarint(value: nat): (r: seq<Byte>)
    ensures r != []
  {
    if value < 128 then [value] else [128 + value % 128] + EncodeVarint(value / 128)
  }

  /** Byte number `index` of a varint and the ones after it. */
  function ParseVarintFrom(s: seq<Byte>, index: nat): Parsed<nat>
    requires index <= 9
    decreases |s|
  {
    if s == [] then Err(UnexpectedEof(1))
    else
      var payload := s[0] % 128;
      if index == 9 && (payload > 1 || s[0] >= 128) then Err(VarintOverflow)
      else if s[0] < 128 then
        if index > 0 && payload == 0 then Err(NonCanonicalVarint) else Ok((payload, s[1..]))
      else
        match ParseVarintFrom(s[1..], index + 1)
        case Ok((high, rest)) => Ok((payload + 128 * high, rest))
        case Err(e) => Err(e)
  }

  function ParseVarint(s: seq<Byte>): Parsed<nat> { ParseVarintFrom(s, 0) }

  /** Values whose encoding may start at byte `index` of a varint. */
  predicate FitsAt(value: nat, index: nat)
    requires index <= 9
  {
    value < Pow2(64 - 7 * index) && (index > 0 ==> value > 0)
  }

  lemma FitsHigh(value: nat, index: nat)
    requires index < 9 && value >= 128 && FitsAt(value, index)
    ensures FitsAt(value / 128, index + 1)
  {
    GroupWeight(index);
  }

  lemma FitsLow(low: nat, high: nat, index: nat)
    requires index < 9 && low < 128 && FitsAt(high, index + 1)
    ensures FitsAt(low + 128 * high, index)
  {
    GroupWeight(index);
  }

  lemma GroupWeight(index: nat)
    requires index < 9
    ensures Pow2(64 - 7 * index) == 128 * Pow2(64 - 7 * (index + 1))
  {
    Pow2Add(7, 64 - 7 * (index + 1));
    assert Pow2(7) == 128;
  }

  lemma LastByte(value: nat)
    ensures FitsAt(value, 9) <==> value == 1
  {
    assert Pow2(1) == 2;
  }

  /** Decoding an encoding gives the value back and stops exactly behind it. */
  lemma {:induction false} VarintDecodes(value: nat, index: nat, rest: seq<Byte>)
    requires index <= 9 && FitsAt(value, index)
    ensures ParseVarintFrom(EncodeVarint(value) + rest, index) == Ok((value, rest))
    decreases value
  {
    var s := EncodeVarint(value) + rest;
    if index == 9 {
      LastByte(value);
      assert s[1..] == rest;
    } else if value < 128 {
      assert s[1..] == rest;
    } else {
      FitsHigh(value, index);
      VarintDecodes(value / 128, index + 1, rest);
      assert s[1..] == EncodeVarint(value / 128) + rest;
    }
  }

  /** Whatever decodes is the encoding of what it decodes to, and fits 64 bits. */
  lemma {:induction false} VarintCanonical(s: seq<Byte>, index: nat)
    requires index <= 9 && ParseVarintFrom(s, index).Ok?
    ensures var (value, rest) := ParseVarintFrom(s, index).value;
            FitsAt(value, index) && s == EncodeVarint(value) + rest
    decreases |s|
  {
    assert s == [s[0]] + s[1..];
    if s[0] < 128 {
      if index == 9 {
        LastByte(s[0]);
      } else {
        SmallFits(s[0], index);
      }
    } else {
      VarintCanonical(s[1..], index + 1);
      FitsLow(s[0] % 128, ParseVarintFrom(s[1..], index + 1).value.0, index);
      VarintHead(s[0], ParseVarintFrom(s[1..], index + 1).value.0);
    }
  }

  lemma VarintHead(byte: Byte, high: nat)
    requires byte >= 128 && high > 0
    ensures EncodeVarint(byte % 128 + 128 * high) == [byte] + EncodeVarint(high)
  {
    var value := byte % 128 + 128 * high;
    DivModUnique(value, 128, high, byte % 128);
  }

  lemma SmallFits(value: nat, index: nat)
    requires index < 9 && value < 128 && (index > 0 ==> value > 0)
    ensures FitsAt(value, index)
  {
    Pow2Monotone(7, 64 - 7 * index);
    assert Pow2(7) == 128;
  }

  lemma Pow2Of64()
    ensures Pow2(64) == U64_LIMIT
  {
    Pow2Add(8, 8);
    Pow2Add(16, 16);
    Pow2Add(32, 32);
    assert Pow2(8) == 256;
  }

  lemma FitsIsU64(value: nat)
    ensures FitsAt(value, 0) <==> value < U64_LIMIT
  {
    Pow2Of64();
  }

  function ParseFixed(s: seq<Byte>, length: nat): Parsed<seq<Byte>> {
    if length > |s| then Err(UnexpectedEof(length - |s|)) else Ok((s[..length], s[length..]))
  }

  function EncodeBytes(value: seq<Byte>): seq<Byte> { EncodeVarint(|value|) + value }

  function Minimum(a: nat, b: nat): nat { if a <= b then a else b }

  function ParseBounded(s: seq<Byte>, maximum: nat, cap: nat): Parsed<nat> {
    match ParseVarint(s)
    case Err(e) => Err(e)
    case Ok((length, rest)) =>
      if length > maximum || length > cap then Err(LengthLimit(length, Minimum(maximum, cap))) else Ok((length, rest))
  }

  function ParseLength(s: seq<Byte>, maximum: nat, limits: Limits): Parsed<nat> {
    ParseBounded(s, maximum, limits.maxVectorItems)
  }

  function ParseBytes(s: seq<Byte>, maximum: nat, limits: Limits): Parsed<seq<Byte>> {
    match ParseBounded(s, maximum, limits.maxObjectBytes)
    case Err(e) => Err(e)
    case Ok((length, rest)) => ParseFixed(rest, length)
  }

  function LittleEndian(bytes: seq<Byte>): nat {
    if bytes == [] then 0 else bytes[0] + 256 * LittleEndian(bytes[1..])
  }

  function EncodeLittle(value: nat, width: nat): (r: seq<Byte>)
    ensures |r| == width
  {
    if width == 0 then [] else [value % 256] + EncodeLittle(value / 256, width - 1)
  }

  lemma {:induction false} LittleRoundTrip(value: nat, width: nat)
    requires value < Pow256(width)
    ensures LittleEndian(EncodeLittle(value, width)) == value
  {
    if width > 0 {
      LittleRoundTrip(value / 256, width - 1);
      assert EncodeLittle(value, width)[1..] == EncodeLittle(value / 256, width - 1);
    }
  }

  lemma {:induction false} LittleCanonical(bytes: seq<Byte>)
    ensures LittleEndian(bytes) < Pow256(|bytes|) && EncodeLittle(LittleEndian(bytes), |bytes|) == bytes
  {
    if bytes != [] {
      LittleCanonical(bytes[1..]);
      DivModUnique(LittleEndian(bytes), 256, LittleEndian(bytes[1..]), bytes[0]);
      assert bytes == [bytes[0]] + bytes[1..];
    }
  }

  function ParseLittle(s: seq<Byte>, width: nat): Parsed<nat> {
    match ParseFixed(s, width)
    case Err(e) => Err(e)
    case Ok((bytes, rest)) => Ok((LittleEndian(bytes), rest))
  }

  lemma FixedDecodes(value: seq<Byte>, rest: seq<Byte>)
    ensures ParseFixed(value + rest, |value|) == Ok((value, rest))
  {
  }

  lemma FixedCanonical(s: seq<Byte>, length: nat)
    requires ParseFixed(s, length).Ok?
    ensures var (value, rest) := ParseFixed(s, length).value; |value| == length && s == value + rest
  {
  }

  lemma LittleDecodes(value: nat, width: nat, rest: seq<Byte>)
    requires value < Pow256(width)
    ensures ParseLittle(EncodeLittle(value, width) + rest, width) == Ok((value, rest))
  {
    FixedDecodes(EncodeLittle(value, width), rest);
    LittleRoundTrip(value, width);
  }

  lemma LittleParsed(s: seq<Byte>, width: nat)
    requires ParseLittle(s, width).Ok?
    ensures var (value, rest) := ParseLittle(s, width).value;
            value < Pow256(width) && s == EncodeLittle(value, width) + rest
  {
    FixedCanonical(s, width);
    LittleCanonical(s[..width]);
  }

  /** A length prefix decodes back exactly when it respects both bounds. */
  lemma BoundedDecodes(length: nat, maximum: nat, cap: nat, rest: seq<Byte>)
    requires length < U64_LIMIT
    ensures ParseBounded(EncodeVarint(length) + rest, maximum, cap)
         == if length <= maximum && length <= cap then Ok((length, rest))
           else Err(LengthLimit(length, Minimum(maximum, cap)))
  {
    FitsIsU64(length);
    VarintDecodes(length, 0, rest);
  }

  lemma BoundedParsed(s: seq<Byte>, maximum: nat, cap: nat)
    requires ParseBounded(s, maximum, cap).Ok?
    ensures var (length, rest) := ParseBounded(s, maximum, cap).value;
            length < U64_LIMIT && length <= maximum && length <= cap && s == EncodeVarint(length) + rest
  {
    VarintCanonical(s, 0);
    FitsIsU64(ParseVarint(s).value.0);
  }

  lemma BytesDecode(value: seq<Byte>, maximum: nat, limits: Limits, rest: seq<Byte>)
    requires |value| <= maximum && |value| <= limits.maxObjectBytes && |value| < U64_LIMIT
    ensures ParseBytes(EncodeBytes(value) + rest, maximum, limits) == Ok((value, rest))
  {
    assert EncodeBytes(value) + rest == EncodeVarint(|value|) + (value + rest);
    BoundedDecodes(|value|, maximum, limits.maxObjectBytes, value + rest);
    FixedDecodes(value, rest);
  }

  lemma BytesParsed(s: seq<Byte>, maximum: nat, limits: Limits)
    requires ParseBytes(s, maximum, limits).Ok?
    ensures var (value, rest) := ParseBytes(s, maximum, limits).value;
            |value| <= maximum && |value| <= limits.maxObjectBytes && |value| < U64_LIMIT
              && s == EncodeBytes(value) + rest
  {
    BoundedParsed(s, maximum, limits.maxObjectBytes);
    var (length, rest) := ParseBounded(s, maximum, limits.maxObjectBytes).value;
    FixedCanonical(rest, length);
    assert EncodeVarint(length) + (rest[..length] + rest[length..]) == EncodeBytes(rest[..length]) + rest[length..];
  }

  // ---- Writing ----

  class Encoder {
    var bytes: seq<Byte>

    constructor ()
      ensures bytes == []
    {
      bytes := [];
    }

    method U8(value: Byte)
      modifies this
      ensures bytes == old(bytes) + [value]
    {
      bytes := bytes + [value];
    }

    method Fixed(value: seq<Byte>)
      modifies this
      ensures bytes == old(bytes) + value
    {
      bytes := bytes + value;
    }

    method Varint(value: nat)
      modifies this
      ensures bytes == old(bytes) + EncodeVarint(value)
    {
      var left := value;
      while true
        invariant old(bytes) + EncodeVarint(value) == bytes + EncodeVarint(left)
        decreases left
      {
        var low := left % 128;
        left := left / 128;
        var byte := if left != 0 then Bits.Or(128, low, 8) else low;
        WithContinuation(low);
        U8(byte);
        if left == 0 {
          break;
        }
      }
    }

    method Bytes(value: seq<Byte>)
      modifies this
      ensures bytes == old(bytes) + EncodeBytes(value)
    {
      Varint(|value|);
      Fixed(value);
    }
  }

  lemma WithContinuation(low: nat)
    requires low < 128
    ensures Bits.Or(128, low, 8) == 128 + low
  {
    assert Pow2(7) == 128 && Pow2(8) == 256;
    OrDisjoint(1, low, 7, 8);
  }

  // ---- Reading ----

  class Decoder {
    const bytes: seq<Byte>
    const limits: Limits
    var offset: nat

    ghost predicate Valid()
      reads this
    {
      offset <= |bytes|
    }

    ghost function Rest(): seq<Byte>
      requires Valid()
      reads this
    {
      bytes[offset..]
    }

    /** A step that succeeds consumes what the format describes; a failing one reports the format's error. */
    ghost predicate Consumes<T(!new)>(parsed: Parsed<T>, r: Result<T>)
      requires Valid()
      reads this
    {
      match parsed
      case Ok((value, rest)) => r == Ok(value) && Rest() == rest
      case Err(e) => r == Err(e)
    }

    constructor (input: seq<Byte>, limits: Limits)
      requires |input| <= limits.maxObjectBytes
      ensures Valid() && bytes == input && this.limits == limits && Rest() == input
    {
      bytes := input;
      this.limits := limits;
      offset := 0;
    }

    method Take(length: nat) returns (r: Result<seq<Byte>>)
      requires Valid()
      modifies this
      ensures Valid() && Consumes(ParseFixed(old(Rest()), length), r)
      ensures r.Err? ==> offset == old(offset)
    {
      var end := offset + length;
      if end > |bytes| {
        return Err(UnexpectedEof(end - |bytes|));
      }
      r := Ok(bytes[offset..end]);
      assert bytes[offset..][..length] == bytes[offset..end] && bytes[offset..][length..] == bytes[end..];
      offset := end;
    }

    method U8() returns (r: Result<Byte>)
      requires Valid()
      modifies this
      ensures Valid()
      ensures old(Rest()) == [] ==> r == Err(UnexpectedEof(1))
      ensures old(Rest()) != [] ==> r == Ok(old(Rest())[0]) && Rest() == old(Rest())[1..]
    {
      var one := Take(1);
      match one {
        case Err(e) => r := Err(e);
        case Ok(value) => r := Ok(value[0]);
      }
    }

    method Little(width: nat) returns (r: Result<nat>)
      requires Valid()
      modifies this
      ensures Valid() && Consumes(ParseLittle(old(Rest()), width), r)
    {
      var taken := Take(width);
      match taken {
        case Err(e) => r := Err(e);
        case Ok(value) => r := Ok(LittleEndian(value));
      }
    }

    method Varint() returns (r: Result<nat>)
      requires Valid()
      modifies this
      ensures Valid() && Consumes(ParseVarint(old(Rest())), r)
    {
      ghost var start := Rest();
      var value: nat, index: nat := 0, 0;
      // The tenth byte always returns, so no eleventh is read.
      while true
        invariant Valid() && index <= 9 && value < Pow2(7 * index)
        invariant ParseVarint(start) == Shift(ParseVarintFrom(Rest(), index), value, index)
        decreases 9 - index
      {
        ghost var here := Rest();
        var next := U8();
        if next.Err? {
          return Err(next.error);
        }
        var byte := next.value;
        var payload := byte % 128;
        if index == 9 && (payload > 1 || byte >= 128) {
          return Err(VarintOverflow);
        }
        ShiftAndOr(value, payload, index);
        ghost var before := value;
        value := Bits.Or(payload * Pow2(7 * index) % U64_LIMIT, value, 64);
        if byte < 128 {
          if index > 0 && payload == 0 {
            return Err(NonCanonicalVarint);
          }
          return Ok(value);
        }
        ShiftStep(here, before, index);
        index := index + 1;
      }
    }

    method Bounded(maximum: nat, cap: nat) returns (r: Result<nat>)
      requires Valid()
      modifies this
      ensures Valid() && Consumes(ParseBounded(old(Rest()), maximum, cap), r)
    {
      r := Varint();
      if r.Ok? && (r.value > maximum || r.value > cap) {
        r := Err(LengthLimit(r.value, Minimum(maximum, cap)));
      }
    }

    method Length(maximum: nat) returns (r: Result<nat>)
      requires Valid()
      modifies this
      ensures Valid() && Consumes(ParseLength(old(Rest()), maximum, limits), r)
    {
      r := Bounded(maximum, limits.maxVectorItems);
    }

    method Bytes(maximum: nat) returns (r: Result<seq<Byte>>)
      requires Valid()
      modifies this
      ensures Valid() && Consumes(ParseBytes(old(Rest()), maximum, limits), r)
    {
      var length := Bounded(maximum, limits.maxObjectBytes);
      if length.Err? {
        return Err(length.error);
      }
      r := Take(length.value);
    }

    method Finish() returns (r: Result<()>)
      requires Valid()
      ensures r == if Rest() == [] then Ok(()) else Err(TrailingBytes(|Rest()|))
    {
      var remaining := |bytes| - offset;
      r := if remaining != 0 then Err(TrailingBytes(remaining)) else Ok(());
    }
  }

  method NewDecoder(bytes: seq<Byte>, limits: Limits) returns (r: Result<Decoder>)
    ensures |bytes| > limits.maxObjectBytes ==> r == Err(ObjectTooLarge(|bytes|, limits.maxObjectBytes))
    ensures |bytes| <= limits.maxObjectBytes ==>
              r.Ok? && fresh(r.value) && r.value.Valid() && r.value.Rest() == bytes && r.value.limits == limits
  {
    if |bytes| > limits.maxObjectBytes {
      return Err(ObjectTooLarge(|bytes|, limits.maxObjectBytes));
    }
    var decoder := new Decoder(bytes, limits);
    r := Ok(decoder);
  }

  /** The value so far, plus the remaining bytes moved `index` groups of seven bits up. */
  function Shift(parsed: Parsed<nat>, value: nat, index: nat): Parsed<nat> {
    match parsed
    case Ok((high, rest)) => Ok((value + Pow2(7 * index) * high, rest))
    case Err(e) => Err(e)
  }

  /** A continuation byte moves its seven bits from the rest to the value. */
  lemma ShiftStep(s: seq<Byte>, value: nat, index: nat)
    requires index < 9 && s != [] && s[0] >= 128
    ensures Shift(ParseVarintFrom(s, index), value, index)
         == Shift(ParseVarintFrom(s[1..], index + 1), value + Pow2(7 * index) * (s[0] % 128), index + 1)
  {
    Pow2Add(7, 7 * index);
    assert Pow2(7) == 128;
    assert Pow2(7 * (index + 1)) == 128 * Pow2(7 * index);
    var tail := ParseVarintFrom(s[1..], index + 1);
    if tail.Ok? {
      Regroup(value, Pow2(7 * index), s[0] % 128, tail.value.0);
    }
  }

  lemma Regroup(value: nat, p: nat, low: nat, high: nat)
    ensures value + p * (low + 128 * high) == value + p * low + 128 * p * high
  {
  }

  /** The shift loses no bit and the OR adds. */
  lemma ShiftAndOr(value: nat, payload: nat, index: nat)
    requires value < Pow2(7 * index) && index <= 9 && payload < 128 && (index == 9 ==> payload <= 1)
    ensures Bits.Or(payload * Pow2(7 * index) % U64_LIMIT, value, 64) == value + Pow2(7 * index) * payload
    ensures value + Pow2(7 * index) * payload < Pow2(7 * (index + 1))
  {
    var p := Pow2(7 * index);
    Pow2Add(7, 7 * index);
    assert Pow2(7) == 128;
    assert Pow2(7 * (index + 1)) == 128 * p;
    MulMonotone(payload + 1, 128, p);
    Pow2Of64();
    assert payload * p + value < Pow2(64) by {
      if index == 9 {
        MulMonotone(payload + 1, 2, p);
        Pow2Add(1, 63);
      } else {
        Pow2Monotone(7 * (index + 1), 64);
      }
    }
    DivModUnique(payload * p, U64_LIMIT, 0, payload * p);
    OrDisjoint(payload, value, 7 * index, 64);
  }
}
