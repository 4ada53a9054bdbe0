/**
 The durable block-publication intent (crates/meshmine-fast-path/src/lib.rs):
 its canonical bytes determine it, and it determines its canonical bytes.
 */
module PublicationIntent {
  import opened Bytes
  import opened Codec

  const MAX_PUBLICATION_PAYLOAD_BYTES: nat := 4 * 1024 * 1024
  const MAX_PUBLICATION_TARGETS: nat := 32
  const MAX_PUBLICATION_TARGET_ID_BYTES: nat := 64

  /** Target identifiers are UTF-8 strings, kept as their bytes. */
  datatype Intent = Intent(
    version: nat,
    networkId: nat,
    winnerShareId: seq<Byte>,
    blockHash: seq<Byte>,
    payloadHash: seq<Byte>,
    payload: seq<Byte>,
    targetIds: seq<seq<Byte>>)

  predicate Continuation(b: Byte) { 0x80 <= b <= 0xbf }

  /** Well-formed UTF-8, section 4 of RFC 3629. */
  predicate Utf8(s: seq<Byte>) {
    if s == [] then true
    else if s[0] <= 0x7f then Utf8(s[1..])
    else if 0xc2 <= s[0] <= 0xdf then |s| >= 2 && Continuation(s[1]) && Utf8(s[2..])
    else if 0xe0 <= s[0] <= 0xef then
      && |s| >= 3 && Continuation(s[1]) && Continuation(s[2])
      && (s[0] == 0xe0 ==> s[1] >= 0xa0) && (s[0] == 0xed ==> s[1] <= 0x9f)
      && Utf8(s[3..])
    else if 0xf0 <= s[0] <= 0xf4 then
      && |s| >= 4 && Continuation(s[1]) && Continuation(s[2]) && Continuation(s[3])
      && (s[0] == 0xf0 ==> s[1] >= 0x90) && (s[0] == 0xf4 ==> s[1] <= 0x8f)
      && Utf8(s[4..])
    else false
  }

  // ---- The format ----

  function EncodeIds(ids: seq<seq<Byte>>): seq<Byte> {
    if ids == [] then [] else EncodeBytes(ids[0]) + EncodeIds(ids[1..])
  }

  function EncodeIntent(x: Intent): seq<Byte> {
    EncodeLittle(x.version, 2) + (EncodeLittle(x.networkId, 1) + (x.winnerShareId + (x.blockHash + (x.payloadHash
    + (EncodeBytes(x.payload) + (EncodeVarint(|x.targetIds|) + EncodeIds(x.targetIds)))))))
  }

  function ParseId(s: seq<Byte>, limits: Limits): Parsed<seq<Byte>> {
    var (id, rest) :- ParseBytes(s, MAX_PUBLICATION_TARGET_ID_BYTES, limits);
    if Utf8(id) then Ok((id, rest)) else Err(InvalidField)
  }

  function ParseIds(s: seq<Byte>, count: nat, limits: Limits): Parsed<seq<seq<Byte>>>
    decreases count
  {
    if count == 0 then Ok(([], s))
    else
      var (id, s1) :- ParseId(s, limits);
      var (ids, s2) :- ParseIds(s1, count - 1, limits);
      Ok(([id] + ids, s2))
  }

  function ParseTargets(s: seq<Byte>, limits: Limits): Parsed<seq<seq<Byte>>> {
    var (count, s1) :- ParseLength(s, MAX_PUBLICATION_TARGETS, limits);
    ParseIds(s1, count, limits)
  }

  function ParseIntent(s: seq<Byte>, limits: Limits): Parsed<Intent> {
    var (version, s1) :- ParseLittle(s, 2);
    var (networkId, s2) :- ParseLittle(s1, 1);
    var (winnerShareId, s3) :- ParseFixed(s2, 32);
    var (blockHash, s4) :- ParseFixed(s3, 32);
    var (payloadHash, s5) :- ParseFixed(s4, 32);
    var (payload, s6) :- ParseBytes(s5, MAX_PUBLICATION_PAYLOAD_BYTES, limits);
    var (targetIds, s7) :- ParseTargets(s6, limits);
    Ok((Intent(version, networkId, winnerShareId, blockHash, payloadHash, payload, targetIds), s7))
  }

  /** `from_canonical_bytes`: the whole input, and nothing after it. */
  function DecodeIntent(bytes: seq<Byte>, limits: Limits): Result<Intent> {
    if |bytes| > limits.maxObjectBytes then Err(ObjectTooLarge(|bytes|, limits.maxObjectBytes))
    else
      var (x, rest) :- ParseIntent(bytes, limits);
      if rest == [] then Ok(x) else Err(TrailingBytes(|rest|))
  }

  // ---- Which intents the format can carry ----

  predicate FitsId(id: seq<Byte>, limits: Limits) {
    |id| <= MAX_PUBLICATION_TARGET_ID_BYTES && |id| <= limits.maxObjectBytes && Utf8(id)
  }

  predicate FitsIds(ids: seq<seq<Byte>>, limits: Limits) { forall i :: 0 <= i < |ids| ==> FitsId(ids[i], limits) }

  predicate Fits(x: Intent, limits: Limits) {
    && x.version < Pow256(2) && x.networkId < Pow256(1)
    && |x.winnerShareId| == 32 && |x.blockHash| == 32 && |x.payloadHash| == 32
    && |x.payload| <= MAX_PUBLICATION_PAYLOAD_BYTES && |x.payload| <= limits.maxObjectBytes
    && |x.targetIds| <= MAX_PUBLICATION_TARGETS && |x.targetIds| <= limits.maxVectorItems
    && FitsIds(x.targetIds, limits)
  }

  // ---- Round trips ----

  lemma {:induction false} IdsDecode(ids: seq<seq<Byte>>, limits: Limits, rest: seq<Byte>)
    requires FitsIds(ids, limits)
    ensures ParseIds(EncodeIds(ids) + rest, |ids|, limits) == Ok((ids, rest))
  {
    var s := EncodeIds(ids) + rest;
    if ids == [] {
      assert s == rest;
    } else {
      var tail := EncodeIds(ids[1..]) + rest;
      assert s == EncodeBytes(ids[0]) + tail;
      BytesDecode(ids[0], MAX_PUBLICATION_TARGET_ID_BYTES, limits, tail);
      IdsDecode(ids[1..], limits, rest);
      assert ids == [ids[0]] + ids[1..];
    }
  }

  lemma TargetsDecode(ids: seq<seq<Byte>>, limits: Limits, rest: seq<Byte>)
    requires FitsIds(ids, limits) && |ids| <= MAX_PUBLICATION_TARGETS && |ids| <= limits.maxVectorItems
    ensures ParseTargets(EncodeVarint(|ids|) + EncodeIds(ids) + rest, limits) == Ok((ids, rest))
  {
    var tail := EncodeIds(ids) + rest;
    Associate(EncodeVarint(|ids|), EncodeIds(ids), rest);
    BoundedDecodes(|ids|, MAX_PUBLICATION_TARGETS, limits.maxVectorItems, tail);
    IdsDecode(ids, limits, rest);
  }

  lemma IntentDecodes(x: Intent, limits: Limits, rest: seq<Byte>)
    requires Fits(x, limits)
    ensures ParseIntent(EncodeIntent(x) + rest, limits) == Ok((x, rest))
  {
    var s7 := EncodeVarint(|x.targetIds|) + EncodeIds(x.targetIds) + rest;
    var s6 := EncodeBytes(x.payload) + s7;
    var s5 := x.payloadHash + s6;
    var s4 := x.blockHash + s5;
    var s3 := x.winnerShareId + s4;
    var s2 := EncodeLittle(x.networkId, 1) + s3;
    assert EncodeIntent(x) + rest == EncodeLittle(x.version, 2) + s2;
    LittleDecodes(x.version, 2, s2);
    LittleDecodes(x.networkId, 1, s3);
    FixedDecodes(x.winnerShareId, s4);
    FixedDecodes(x.blockHash, s5);
    FixedDecodes(x.payloadHash, s6);
    BytesDecode(x.payload, MAX_PUBLICATION_PAYLOAD_BYTES, limits, s7);
    TargetsDecode(x.targetIds, limits, rest);
  }

  lemma {:induction false} IdsParsed(s: seq<Byte>, count: nat, limits: Limits)
    requires ParseIds(s, count, limits).Ok?
    ensures var (ids, rest) := ParseIds(s, count, limits).value;
            |ids| == count && FitsIds(ids, limits) && s == EncodeIds(ids) + rest
    decreases count
  {
    if count > 0 {
      IdParsed(s, limits);
      var (id, s1) := ParseId(s, limits).value;
      IdsParsed(s1, count - 1, limits);
      var (ids, rest) := ParseIds(s1, count - 1, limits).value;
      IdsCons(s, id, s1, ids, rest, limits);
    }
  }

  lemma IdParsed(s: seq<Byte>, limits: Limits)
    requires ParseId(s, limits).Ok?
    ensures var (id, rest) := ParseId(s, limits).value; FitsId(id, limits) && s == EncodeBytes(id) + rest
  {
    BytesParsed(s, MAX_PUBLICATION_TARGET_ID_BYTES, limits);
  }

  lemma IdsCons(s: seq<Byte>, id: seq<Byte>, s1: seq<Byte>, ids: seq<seq<Byte>>, rest: seq<Byte>, limits: Limits)
    requires FitsId(id, limits) && FitsIds(ids, limits)
    requires s == EncodeBytes(id) + s1 && s1 == EncodeIds(ids) + rest
    ensures FitsIds([id] + ids, limits) && s == EncodeIds([id] + ids) + rest
  {
    assert ([id] + ids)[1..] == ids;
    assert EncodeBytes(id) + (EncodeIds(ids) + rest) == EncodeBytes(id) + EncodeIds(ids) + rest;
  }

  lemma TargetsParsed(s: seq<Byte>, limits: Limits)
    requires ParseTargets(s, limits).Ok?
    ensures var (ids, rest) := ParseTargets(s, limits).value;
            && FitsIds(ids, limits) && |ids| <= MAX_PUBLICATION_TARGETS && |ids| <= limits.maxVectorItems
            && s == EncodeVarint(|ids|) + EncodeIds(ids) + rest
  {
    BoundedParsed(s, MAX_PUBLICATION_TARGETS, limits.maxVectorItems);
    var (count, s1) := ParseLength(s, MAX_PUBLICATION_TARGETS, limits).value;
    IdsParsed(s1, count, limits);
    var (ids, rest) := ParseIds(s1, count, limits).value;
    Associate(EncodeVarint(count), EncodeIds(ids), rest);
  }

  /** Bytes that decode are exactly the canonical bytes of the result. */
  lemma IntentParsed(s: seq<Byte>, limits: Limits)
    requires ParseIntent(s, limits).Ok?
    ensures var (x, rest) := ParseIntent(s, limits).value; Fits(x, limits) && s == EncodeIntent(x) + rest
  {
    var (version, s1) := ParseLittle(s, 2).value;
    var (networkId, s2) := ParseLittle(s1, 1).value;
    var (winnerShareId, s3) := ParseFixed(s2, 32).value;
    var (blockHash, s4) := ParseFixed(s3, 32).value;
    var (payloadHash, s5) := ParseFixed(s4, 32).value;
    var (payload, s6) := ParseBytes(s5, MAX_PUBLICATION_PAYLOAD_BYTES, limits).value;
    LittleParsed(s, 2);
    LittleParsed(s1, 1);
    FixedCanonical(s2, 32);
    FixedCanonical(s3, 32);
    FixedCanonical(s4, 32);
    BytesParsed(s5, MAX_PUBLICATION_PAYLOAD_BYTES, limits);
    TargetsParsed(s6, limits);
    var (targetIds, rest) := ParseTargets(s6, limits).value;
    Unfold(s, EncodeLittle(version, 2), s1, EncodeLittle(networkId, 1), s2, winnerShareId, s3, blockHash, s4,
           payloadHash, s5, EncodeBytes(payload), s6, EncodeVarint(|targetIds|) + EncodeIds(targetIds), rest);
  }

  lemma Unfold(s: seq<Byte>, a: seq<Byte>, s1: seq<Byte>, b: seq<Byte>, s2: seq<Byte>, c: seq<Byte>, s3: seq<Byte>,
               d: seq<Byte>, s4: seq<Byte>, e: seq<Byte>, s5: seq<Byte>, f: seq<Byte>, s6: seq<Byte>, g: seq<Byte>,
               rest: seq<Byte>)
    requires s == a + s1 && s1 == b + s2 && s2 == c + s3 && s3 == d + s4 && s4 == e + s5 && s5 == f + s6
             && s6 == g + rest
    ensures s == a + (b + (c + (d + (e + (f + g))))) + rest
  {
    Associate(f, g, rest);
    Associate(e, f + g, rest);
    Associate(d, e + (f + g), rest);
    Associate(c, d + (e + (f + g)), rest);
    Associate(b, c + (d + (e + (f + g))), rest);
    Associate(a, b + (c + (d + (e + (f + g)))), rest);
  }

  /** Decoding undoes encoding for exactly the intents the limits allow. */
  lemma DecodeEncoded(x: Intent, limits: Limits)
    ensures DecodeIntent(EncodeIntent(x), limits) == Ok(x)
       <==> Fits(x, limits) && |EncodeIntent(x)| <= limits.maxObjectBytes
  {
    var s := EncodeIntent(x);
    assert s + [] == s;
    if Fits(x, limits) {
      IntentDecodes(x, limits, []);
    }
    if DecodeIntent(s, limits) == Ok(x) {
      IntentParsed(s, limits);
    }
  }

  /** Encoding undoes decoding: at most one byte string decodes to an intent. */
  lemma EncodeDecoded(bytes: seq<Byte>, limits: Limits)
    requires DecodeIntent(bytes, limits).Ok?
    ensures EncodeIntent(DecodeIntent(bytes, limits).value) == bytes
  {
    IntentParsed(bytes, limits);
  }

  // ---- The writer and the reader ----

  method Encode(x: Intent) returns (bytes: seq<Byte>)
    requires x.version < Pow256(2) && x.networkId < Pow256(1)
    ensures bytes == EncodeIntent(x)
  {
    var encoder := new Encoder();
    encoder.Fixed(EncodeLittle(x.version, 2));
    encoder.Fixed(EncodeLittle(x.networkId, 1));
    encoder.Fixed(x.winnerShareId);
    encoder.Fixed(x.blockHash);
    encoder.Fixed(x.payloadHash);
    encoder.Bytes(x.payload);
    encoder.Varint(|x.targetIds|);
    ghost var head := encoder.bytes;
    for i := 0 to |x.targetIds|
      invariant head + EncodeIds(x.targetIds) == encoder.bytes + EncodeIds(x.targetIds[i..])
    {
      ghost var left := x.targetIds[i..];
      encoder.Bytes(x.targetIds[i]);
      assert left[1..] == x.targetIds[i + 1..];
    }
    bytes := encoder.bytes;
    Nest(EncodeLittle(x.version, 2), EncodeLittle(x.networkId, 1), x.winnerShareId, x.blockHash, x.payloadHash,
         EncodeBytes(x.payload), EncodeVarint(|x.targetIds|), EncodeIds(x.targetIds));
  }

  lemma Nest(
      a: seq<Byte>, b: seq<Byte>, c: seq<Byte>, d: seq<Byte>, e: seq<Byte>, f: seq<Byte>, g: seq<Byte>, h: seq<Byte>)
    ensures [] + a + b + c + d + e + f + g + h == a + (b + (c + (d + (e + (f + (g + h))))))
  {
  }

  /** What reading the remaining ids adds to the ones already read. */
  function Prepend(ids: seq<seq<Byte>>, parsed: Parsed<seq<seq<Byte>>>): Parsed<seq<seq<Byte>>> {
    var (more, rest) :- parsed;
    Ok((ids + more, rest))
  }

  method DecodeTargets(decoder: Decoder) returns (r: Result<seq<seq<Byte>>>)
    requires decoder.Valid()
    modifies decoder
    ensures decoder.Valid() && decoder.Consumes(ParseTargets(old(decoder.Rest()), decoder.limits), r)
  {
    var count :- decoder.Length(MAX_PUBLICATION_TARGETS);
    r := DecodeIds(decoder, count);
  }

  method DecodeIds(decoder: Decoder, count: nat) returns (r: Result<seq<seq<Byte>>>)
    requires decoder.Valid()
    modifies decoder
    ensures decoder.Valid() && decoder.Consumes(ParseIds(old(decoder.Rest()), count, decoder.limits), r)
  {
    ghost var whole := ParseIds(decoder.Rest(), count, decoder.limits);
    PrependNothing(whole);
    var ids := [];
    for i := 0 to count
      invariant decoder.Valid()
      invariant whole == Prepend(ids, ParseIds(decoder.Rest(), count - i, decoder.limits))
    {
      var id :- decoder.Bytes(MAX_PUBLICATION_TARGET_ID_BYTES);
      if !Utf8(id) {
        return Err(InvalidField);
      }
      PrependOne(ids, id, ParseIds(decoder.Rest(), count - i - 1, decoder.limits));
      ids := ids + [id];
    }
    assert ids + [] == ids;
    r := Ok(ids);
  }

  lemma PrependNothing(parsed: Parsed<seq<seq<Byte>>>)
    ensures Prepend([], parsed) == parsed
  {
    assert parsed.Ok? ==> [] + parsed.value.0 == parsed.value.0;
  }

  lemma PrependOne(ids: seq<seq<Byte>>, id: seq<Byte>, parsed: Parsed<seq<seq<Byte>>>)
    ensures Prepend(ids, Prepend([id], parsed)) == Prepend(ids + [id], parsed)
  {
    assert parsed.Ok? ==> ids + ([id] + parsed.value.0) == ids + [id] + parsed.value.0;
  }

  method Decode(bytes: seq<Byte>, limits: Limits) returns (r: Result<Intent>)
    ensures r == DecodeIntent(bytes, limits)
  {
    var decoder :- NewDecoder(bytes, limits);
    var version :- decoder.Little(2);
    var networkId :- decoder.Little(1);
    var winnerShareId :- decoder.Take(32);
    var blockHash :- decoder.Take(32);
    var payloadHash :- decoder.Take(32);
    var payload :- decoder.Bytes(MAX_PUBLICATION_PAYLOAD_BYTES);
    var targetIds :- DecodeTargets(decoder);
    var _ :- decoder.Finish();
    r := Ok(Intent(version, networkId, winnerShareId, blockHash, payloadHash, payload, targetIds));
  }
}
