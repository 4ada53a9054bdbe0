/**
 The operator's client (crates/meshmine-core-link/src/client.rs) over its spool
 (crates/meshmine-core-link/src/spool.rs). Incoming messages are a parameter;
 signatures and object identities are functions.
 */
module Client {
  import opened Wrappers
  import opened Bytes
  import opened GatewayStore
  import opened Spool
  import S = Spool
  import GatewayRecords
  import Pipeline

  datatype Error =
    | Assignment | Conflict | SequenceRace | InvalidReceipt | Full
    | Transport | Signature | Request | Remote | Disposition | PendingCaptures

  datatype Result<+T> = Ok(value: T) | Err(error: Error)

  datatype Replacement = Replacement(previous: Id, creditCutoffMs: nat, reason: nat)

  /** The parts of a signed bundle that the client uses. */
  datatype Bundle = Bundle(
    id: Hash, assignment: Id, sequence: nat, manifest: nat, session: nat, body: nat, ntime: nat,
    profile: bool, prefix: Text, nonce2Start: nat, nonce2End: nat, nonceStart: nat, nonceEnd: nat, nonceStride: nat,
    telemetry: nat, captureTarget: nat, startMs: nat, endMs: nat,
    previousBlock: nat, maskHash: nat, merkleRoot: nat, witnessRoot: nat, treeRoot: nat, reservedRoot: nat,
    version: nat, bits: nat,
    previousBundle: Option<Hash>, replacement: Option<Replacement>)

  /** How a submission begins: answered before, or an envelope to send. */
  datatype Begun = Recorded(id: Hash) | Sent(envelope: Envelope)

  /** An ideal hash of its parts. */
  datatype RequestId = RequestId(connection: Hash, first: Hash, second: Text)

  datatype DrainRequired = DrainRequired(current: Id, nextBundle: Hash, next: Id)

  datatype DrainReceipt = DrainReceipt(assignment: Id, manifest: nat, drainId: Hash, through: nat, sequence: nat,
                                       outcome: nat)

  const DRAIN_COMPLETE: nat := 1
  const DRAIN_REJECTED: nat := 2

  datatype Message =
    | Offer(bundle: Bundle) | Drains(required: DrainRequired) | Heartbeat
    | CaptureDisposition(request: RequestId, receipt: Receipt)
    | DrainDisposition(request: RequestId, drainReceipt: DrainReceipt)
    | Failure(about: Option<RequestId>) | Other

  /** Signatures, identities and hashes of one link. */
  datatype Link = Link(
    authentic: Bundle -> bool, signed: Receipt -> bool, drainSigned: DrainReceipt -> bool,
    receiptId: Receipt -> Hash, drainId: Drain -> Hash, shareHash: Header -> Text, codec: Codec)

  /** Messages that may come at any time. */
  predicate Quiet(m: Message) { m.Offer? || m.Drains? || m.Heartbeat? }

  // ---- The checks on captures ----

  /** Prefix, a counter within the assigned range, and sixteen zero bytes. */
  predicate AcceptsExtraNonce(b: Bundle, extra: seq<Byte>) {
    && b.profile && |extra| == 24 && extra[..4] == b.prefix.bytes
       && b.nonce2Start <= BigEndian(extra[4..8]) <= b.nonce2End
    && forall i :: 8 <= i < 24 ==> extra[i] == 0
  }

  predicate AcceptsNonce(b: Bundle, nonce: nat) {
    b.nonceStart <= nonce <= b.nonceEnd && b.nonceStride != 0 && (nonce - b.nonceStart) % b.nonceStride == 0
  }

  predicate FitsAssignment(c: Capture, b: Bundle, shareHash: Header -> Text) {
    && c.sequence == b.sequence && c.jobId == b.assignment && c.header.time == b.ntime
    && AcceptsExtraNonce(b, c.header.extraNonce.bytes) && AcceptsNonce(b, c.header.nonce) && c.telemetry == b.telemetry
    && shareHash(c.header) == c.shareHash && BigEndian(c.shareHash.bytes) <= b.captureTarget
  }

  predicate FitsContext(c: Capture, b: Bundle) {
    && b.startMs <= c.receivedMs <= b.endMs && c.header.previousBlock == b.previousBlock
       && c.header.maskHash == b.maskHash
    && c.header.merkleRoot == b.merkleRoot && c.header.witnessRoot == b.witnessRoot && c.header.treeRoot == b.treeRoot
    && c.header.reservedRoot == b.reservedRoot && c.header.version == b.version && c.header.bits == b.bits
  }

  /** The envelope is for the same work. */
  predicate SameWork(c: Capture, e: Envelope) {
    e.ntime == c.header.time && e.extraNonce == c.header.extraNonce && e.nonce == c.header.nonce
      && e.shareHash == c.shareHash
  }

  /** The work key of an envelope's share. */
  function EnvelopeKey(e: Envelope): Key {
    Text(e.assignment.bytes + (e.extraNonce.bytes + GatewayRecords.Little32(e.ntime) +
                               GatewayRecords.Little32(e.nonce) + e.shareHash.bytes))
  }

  lemma CarriedKey(e: Envelope, c: Capture)
    requires Pipeline.Carries(e, c)
    ensures EnvelopeKey(e) == GatewayRecords.WorkKey(c)
  {
  }

  /** The capture that an envelope stands for, next to another capture. */
  function AsCapture(e: Envelope, c: Capture): Capture {
    c.(jobId := e.assignment, shareHash := e.shareHash,
       header := c.header.(nonce := e.nonce, time := e.ntime, extraNonce := e.extraNonce))
  }

  lemma KeyOfEnvelope(e: Envelope, c: Capture)
    ensures EnvelopeKey(e) == GatewayRecords.WorkKey(AsCapture(e, c))
  {
  }

  /** An envelope under the key of a capture is for its work, and conversely; so a stored one never conflicts. */
  lemma SameKeySameWork(e: Envelope, c: Capture)
    requires GatewayRecords.Shaped(c) && GatewayRecords.Shaped(AsCapture(e, c))
    requires GatewayRecords.Fits32(c) && GatewayRecords.Fits32(AsCapture(e, c))
    ensures EnvelopeKey(e) == GatewayRecords.WorkKey(c) <==> e.assignment == c.jobId && SameWork(c, e)
  {
    var d := AsCapture(e, c);
    KeyOfEnvelope(e, c);
    GatewayRecords.SameKeySameProof(c, d);
    GatewayRecords.SameProofExact(c, d);
  }

  // ---- The sound spool as one fact ----

  ghost predicate Kept(s: S.Spool, log: seq<Issued>, codec: Codec) {
    forall i: int {:trigger Opened(i)} :: Opened(i) && i == 21 ==> SpoolOk(s, log, codec)
  }

  lemma KeptMeans(s: S.Spool, log: seq<Issued>, codec: Codec)
    ensures Kept(s, log, codec) <==> SpoolOk(s, log, codec)
  {
    assert Opened(21);
  }

  lemma KeptWrite(s: S.Spool, log: seq<Issued>, w: S.Write, codec: Codec)
    requires Kept(s, log, codec) && S.Enabled(s, w, codec)
    ensures Kept(S.Apply(s, w, codec), S.LogAfter(log, w), codec)
  {
    assert Opened(21);
    WriteKeepsSpool(s, log, w, codec);
  }

  /** A key has an envelope or a receipt, not both. */
  lemma KeptEither(s: S.Spool, log: seq<Issued>, codec: Codec, key: Key)
    requires Kept(s, log, codec)
    ensures key in s.receipts ==> key !in s.envelopes && Terminal(s.receipts[key])
  {
    assert Opened(21);
    if key in s.receipts {
      var i :| 0 <= i < |log| && log[i].key == key;
      assert Held(s.envelopes, s.receipts, log[i], codec);
    }
  }

  /** A waiting envelope is within the capacity record. */
  lemma KeptCapacity(s: S.Spool, log: seq<Issued>, codec: Codec, key: Key)
    requires Kept(s, log, codec) && key in s.envelopes
    ensures s.capacity.Some? && s.capacity.value.records >= 1 && s.capacity.value.bytes >= codec.size(s.envelopes[key])
  {
    assert Opened(21);
    TotalWithout(s.envelopes, codec.size, key);
    SmallerWithout(s.envelopes, key);
  }

  /** A new envelope keeps the spool sound exactly if its key has no receipt. */
  lemma KeptEnvelope(s: S.Spool, log: seq<Issued>, key: Key, e: Envelope, codec: Codec)
    requires Kept(s, log, codec) && key !in s.envelopes && key == codec.key(e)
    requires e.sequence == HeadOf(s.heads, e.assignment).sequence + 1 && e.sequence < U64_LIMIT
    requires CapacityOf(s.capacity).records + 1 <= MAX_RECORDS
             && CapacityOf(s.capacity).bytes + codec.size(e) <= MAX_BYTES
    ensures Kept(WithEnvelope(s, key, e, codec), LogAfter(log, PutEnvelope(key, e)), codec) <==> key !in s.receipts
    ensures key !in s.receipts ==> S.Enabled(s, PutEnvelope(key, e), codec)
  {
    assert Opened(21);
    EnvelopeKeepsExactly(s, log, key, e, codec);
  }

  /** A new drain keeps the spool sound exactly if everything up to its last number is answered. */
  lemma KeptNewDrain(s: S.Spool, log: seq<Issued>, d: Drain, codec: Codec)
    requires Kept(s, log, codec) && d.assignment !in s.drains
    ensures Kept(s.(drains := s.drains[d.assignment := d]), log, codec) <==> DrainOk(d, d.assignment, s.receipts, log)
    ensures S.Enabled(s, PutDrain(d), codec) ==> DrainOk(d, d.assignment, s.receipts, log)
  {
    assert Opened(21);
    var drains := s.drains[d.assignment := d];
    if S.Enabled(s, PutDrain(d), codec) {
      DrainCovers(s, log, d, codec);
    }
    if DrainOk(d, d.assignment, s.receipts, log) {
      forall a | a in drains ensures DrainOk(drains[a], a, s.receipts, log) {
        assert a in s.drains ==> DrainOk(s.drains[a], a, s.receipts, log);
      }
    } else {
      assert !DrainOk(drains[d.assignment], d.assignment, s.receipts, log);
    }
  }

  /** Every number names the stored bundle of that number. */
  predicate Indexed(bundles: map<Hash, Bundle>, index: map<nat, Hash>) {
    forall q :: q in index ==> index[q] in bundles && bundles[index[q]].id == index[q]
                               && bundles[index[q]].sequence == q
  }

  class OperatorClient {
    const link: Link
    const connection: Hash

    var bundles: map<Hash, Bundle>
    var index: map<nat, Hash>
    var spool: S.Spool
    var offers: seq<Bundle>
    var drainRequired: Option<DrainRequired>

    /** Every envelope ever made, and the writes since the client was created. */
    ghost var log: seq<Issued>
    ghost var writes: seq<S.Write>

    ghost predicate Valid()
      reads this
    {
      Indexed(bundles, index) && Kept(spool, log, link.codec)
    }

    /** Envelopes are keyed by their work. */
    ghost predicate Configured()
    {
      forall e :: link.codec.key(e) == EnvelopeKey(e)
    }

    /** The client over a stored spool, for instance after a restart. */
    constructor (
        link: Link, connection: Hash, bundles: map<Hash, Bundle>, index: map<nat, Hash>, spool: S.Spool,
        ghost log: seq<Issued>)
      requires SpoolOk(spool, log, link.codec)
      requires Indexed(bundles, index)
      ensures Valid() && this.link == link && this.connection == connection && this.bundles == bundles
              && this.index == index
      ensures this.spool == spool && this.log == log && writes == [] && offers == [] && drainRequired == None
    {
      this.link, this.connection, this.bundles, this.index, this.spool, this.log :=
        link, connection, bundles, index, spool, log;
      writes, offers, drainRequired := [], [], None;
    }

    method Put(w: S.Write)
      requires Kept(spool, log, link.codec) && S.Enabled(spool, w, link.codec)
      modifies this`spool, this`log, this`writes
      ensures Kept(spool, log, link.codec)
      ensures S.Enabled(old(spool), w, link.codec) && spool == S.Apply(old(spool), w, link.codec)
      ensures log == S.LogAfter(old(log), w) && writes == old(writes) + [w]
    {
      KeptWrite(spool, log, w, link.codec);
      spool := S.Apply(spool, w, link.codec);
      log := S.LogAfter(log, w);
      writes := writes + [w];
    }

    // ---- Bundles ----

    /** Installs an authentic bundle once; one bundle per identity and per assignment number. */
    method PersistBundle(b: Bundle) returns (r: Result<()>)
      requires Valid()
      modifies this`bundles, this`index
      ensures Valid()
      ensures r.Ok? <==>
              && link.authentic(b)
              && (|| (b.id !in old(bundles) && b.sequence !in old(index))
                  || (b.id in old(bundles) && old(bundles)[b.id] == b && b.sequence in old(index)
                      && old(index)[b.sequence] == b.id))
      ensures r.Ok? ==> bundles == old(bundles)[b.id := b] && index == old(index)[b.sequence := b.id]
      ensures r.Err? ==> bundles == old(bundles) && index == old(index)
    {
      if !link.authentic(b) {
        return Err(Assignment);
      }
      if b.id in bundles && bundles[b.id] == b && b.sequence in index && index[b.sequence] == b.id {
        assert bundles == bundles[b.id := b] && index == index[b.sequence := b.id];
        return Ok(());
      }
      if b.id in bundles || b.sequence in index {
        return Err(Conflict);
      }
      bundles, index := bundles[b.id := b], index[b.sequence := b.id];
      r := Ok(());
    }

    predicate Installed(q: nat)
      reads this
    {
      q in index && index[q] in bundles && link.authentic(bundles[index[q]])
    }

    method BundleForSequence(q: nat) returns (r: Result<Bundle>)
      requires Valid()
      ensures r.Ok? <==> Installed(q)
      ensures r.Ok? ==> r.value == bundles[index[q]] && r.value.sequence == q
    {
      if q !in index {
        return Err(Assignment);
      }
      var b := bundles[index[q]];
      if b.id != index[q] || b.sequence != q || !link.authentic(b) {
        return Err(Conflict);
      }
      r := Ok(b);
    }

    // ---- Envelopes and receipts ----

    /** The capture belongs to an installed bundle. */
    predicate Sendable(c: Capture)
      reads this
    {
      Installed(c.sequence) &&
      var b := bundles[index[c.sequence]];
      FitsAssignment(c, b, link.shareHash) && FitsContext(c, b)
    }

    function NewEnvelope(c: Capture, b: Bundle, sequence: nat): Envelope {
      Envelope(b.manifest, b.assignment, b.session, sequence, connection, c.receivedMs, c.header.time,
               c.header.extraNonce, c.header.nonce, c.shareHash)
    }

    predicate HasRoom(e: Envelope)
      reads this
    {
      && CapacityOf(spool.capacity).records + 1 <= MAX_RECORDS
      && CapacityOf(spool.capacity).bytes + link.codec.size(e) <= MAX_BYTES && e.sequence < U64_LIMIT
    }

    /** An envelope for the capture is stored, or can be made. */
    predicate Ready(c: Capture)
      reads this
    {
      && Sendable(c) && var key := GatewayRecords.WorkKey(c); var b := bundles[index[c.sequence]];
      if key in spool.envelopes then SameWork(c, spool.envelopes[key])
      else HasRoom(NewEnvelope(c, b, HeadOf(spool.heads, b.assignment).sequence + 1))
    }

    function EnvelopeFor(c: Capture): Envelope
      reads this
      requires Sendable(c)
    {
      var b := bundles[index[c.sequence]];
      NewEnvelope(c, b, HeadOf(spool.heads, b.assignment).sequence + 1)
    }

    /**
     The stored envelope of a capture, or a new one with the assignment's next number. Receipts are not looked at here:
     the spool stays sound exactly if the capture had none, which the caller checks first.
     */
    method PrepareEnvelope(c: Capture) returns (r: Result<Envelope>)
      requires Valid() && Configured()
      modifies this`spool, this`log, this`writes
      ensures spool.receipts == old(spool.receipts)
      ensures GatewayRecords.WorkKey(c) !in old(spool.receipts) || r.Err? ==> Valid()
      ensures r.Ok? ==> (Valid() <==> GatewayRecords.WorkKey(c) !in old(spool.receipts))
      ensures var key := GatewayRecords.WorkKey(c);
              if !old(Sendable(c)) then r.Err? && writes == old(writes)
              else if key in old(spool.envelopes) then
                && writes == old(writes)
                && r == if SameWork(c, old(spool.envelopes)[key]) then Ok(old(spool.envelopes)[key]) else Err(Conflict)
              else if old(HasRoom(EnvelopeFor(c))) then
                && r == Ok(old(EnvelopeFor(c))) && writes == old(writes) + [PutEnvelope(key, r.value)]
                && log == S.LogAfter(old(log), PutEnvelope(key, r.value))
                && spool == S.WithEnvelope(old(spool), key, r.value, link.codec)
                && (key !in old(spool.receipts) ==> S.Enabled(old(spool), PutEnvelope(key, r.value), link.codec))
              else r == Err(Full) && writes == old(writes)
      ensures writes == old(writes) ==> spool == old(spool) && log == old(log)
      ensures r.Ok? ==> GatewayRecords.WorkKey(c) in spool.envelopes
                        && spool.envelopes[GatewayRecords.WorkKey(c)] == r.value
      ensures r.Ok? && writes != old(writes) ==>
                && Pipeline.Carries(r.value, c) && c.sequence in old(index) && old(index)[c.sequence] in old(bundles)
                && var b := old(bundles)[old(index)[c.sequence]];
                   && r.value.manifest == b.manifest && r.value.session == b.session
                   && r.value.sequence == HeadOf(old(spool.heads), b.assignment).sequence + 1
    {
      var key := GatewayRecords.WorkKey(c);
      var installed := BundleForSequence(c.sequence);
      if installed.Err? {
        return Err(installed.error);
      }
      var b := installed.value;
      if !FitsAssignment(c, b, link.shareHash) || !FitsContext(c, b) {
        return Err(Assignment);
      }
      KeptEither(spool, log, link.codec, key);
      if key in spool.envelopes {
        if !SameWork(c, spool.envelopes[key]) {
          return Err(Conflict);
        }
        return Ok(spool.envelopes[key]);
      }
      var e := NewEnvelope(c, b, HeadOf(spool.heads, b.assignment).sequence + 1);
      if !HasRoom(e) {
        return Err(Full);
      }
      CarriedKey(e, c);
      KeptEnvelope(spool, log, key, e, link.codec);
      spool := S.WithEnvelope(spool, key, e, link.codec);
      log, writes := S.LogAfter(log, PutEnvelope(key, e)), writes + [PutEnvelope(key, e)];
      r := Ok(e);
    }

    /** Replaces a waiting envelope by Core's receipt; recording the same receipt again changes nothing. */
    method RecordReceipt(key: Key, e: Envelope, receipt: Receipt) returns (r: Result<()>)
      requires Valid()
      modifies this`spool, this`log, this`writes
      ensures Valid() && log == old(log)
      ensures r.Ok? <==>
              && Answers(e, receipt, link.codec) && link.signed(receipt)
              && (|| (key in old(spool.receipts) && old(spool.receipts)[key] == receipt)
                  || (key in old(spool.envelopes) && old(spool.envelopes)[key] == e))
      ensures r.Ok? ==> key in spool.receipts && spool.receipts[key] == receipt
      ensures if r.Ok? && key !in old(spool.receipts)
              then
                && writes == old(writes) + [PutReceipt(key, receipt)]
                   && spool.receipts == old(spool.receipts)[key := receipt]
                && S.Enabled(old(spool), PutReceipt(key, receipt), link.codec)
                && spool == S.Apply(old(spool), PutReceipt(key, receipt), link.codec)
              else writes == old(writes) && spool == old(spool)
    {
      if !Answers(e, receipt, link.codec) || !link.signed(receipt) {
        return Err(InvalidReceipt);
      }
      KeptEither(spool, log, link.codec, key);
      if key in spool.receipts && spool.receipts[key] == receipt {
        return Ok(());
      }
      if key !in spool.envelopes || spool.envelopes[key] != e {
        return Err(Conflict);
      }
      KeptCapacity(spool, log, link.codec, key);
      Put(PutReceipt(key, receipt));
      r := Ok(());
    }

    /** How many envelopes of an assignment wait for their receipt. */
    method PendingForAssignment(a: Id) returns (pending: nat)
      ensures pending == |WaitingFor(spool, a)|
    {
      pending := 0;
      var todo := spool.envelopes.Keys;
      while todo != {}
        invariant todo <= spool.envelopes.Keys && pending == |WaitingFor(spool, a) - todo|
        decreases |todo|
      {
        var k :| k in todo;
        CountOn(WaitingFor(spool, a), todo, k);
        if k !in spool.receipts && spool.envelopes[k].assignment == a {
          pending := pending + 1;
        }
        todo := todo - {k};
      }
      assert WaitingFor(spool, a) - {} == WaitingFor(spool, a);
    }

    // ---- Messages ----

    method HandleUnsolicited(m: Message) returns (r: Result<()>)
      modifies this`offers, this`drainRequired
      ensures r.Ok? <==> Quiet(m)
      ensures offers == if m.Offer? then old(offers) + [m.bundle] else old(offers)
      ensures drainRequired == if m.Drains? then Some(m.required) else old(drainRequired)
    {
      match m {
        case Offer(b) => offers := offers + [b]; r := Ok(());
        case Drains(required) => drainRequired := Some(required); r := Ok(());
        case Heartbeat => r := Ok(());
        case Failure(None) => r := Err(Remote);
        case _ => r := Err(Request);
      }
    }

    /** The recorded receipt of a capture, or the envelope to send for it. */
    method BeginSubmit(c: Capture) returns (r: Result<Begun>)
      requires Valid() && Configured()
      modifies this`spool, this`log, this`writes
      ensures Valid() && spool.receipts == old(spool.receipts)
      ensures var key := GatewayRecords.WorkKey(c);
              && (key in old(spool.receipts) <==> r.Ok? && r.value.Recorded?)
              && (key in old(spool.receipts) ==>
                  r.value.id == link.receiptId(spool.receipts[key]) && writes == old(writes))
              && (r.Ok? && r.value.Sent? <==> key !in old(spool.receipts) && old(Ready(c)))
              && (r.Ok? && r.value.Sent? ==>
                    && key in spool.envelopes && spool.envelopes[key] == r.value.envelope
                       && SameWork(c, r.value.envelope)
                    && if key in old(spool.envelopes)
                       then writes == old(writes) && r.value.envelope == old(spool.envelopes)[key]
                       else Made(old(spool), old(log), old(writes), key, r.value.envelope)
                            && Pipeline.Carries(r.value.envelope, c))
              && (r.Err? ==> writes == old(writes))
      ensures writes == old(writes) ==> spool == old(spool) && log == old(log)
    {
      var key := GatewayRecords.WorkKey(c);
      KeptEither(spool, log, link.codec, key);
      if key in spool.receipts {
        return Ok(Recorded(link.receiptId(spool.receipts[key])));
      }
      var prepared := PrepareEnvelope(c);
      if prepared.Err? {
        return Err(prepared.error);
      }
      r := Ok(Sent(prepared.value));
    }

    /** One new envelope was stored. */
    ghost predicate Made(before: S.Spool, log': seq<Issued>, writes': seq<S.Write>, key: Key, e: Envelope)
      reads this
    {
      && writes == writes' + [PutEnvelope(key, e)] && log == S.LogAfter(log', PutEnvelope(key, e))
      && S.Enabled(before, PutEnvelope(key, e), link.codec) && spool == S.Apply(before, PutEnvelope(key, e), link.codec)
    }

    /**
     Sends a capture and waits for its receipt. A capture with a recorded receipt is answered from the spool;
     success always means that the receipt is recorded.
     */
    method SubmitCapture(c: Capture, inbox: seq<Message>) returns (r: Result<Hash>, sent: Option<Envelope>)
      requires Valid() && Configured()
      modifies this`spool, this`log, this`writes, this`offers, this`drainRequired
      ensures Valid()
      ensures var key := GatewayRecords.WorkKey(c);
              && (r.Ok? ==> key in spool.receipts && r.value == link.receiptId(spool.receipts[key]))
              && (key in old(spool.receipts) ==> r.Ok? && sent == None && writes == old(writes) && spool == old(spool))
              && (key !in old(spool.receipts) ==>
                    && Prepared(old(writes), old(spool.envelopes), writes, key, c, sent)
                    && (r.Ok? <==> key in spool.receipts)
                    && (r.Ok? <==> sent.Some? && exists i :: 0 <= i < |inbox| && Decisive(inbox, i, key, sent.value))
                    && (r.Ok? ==> exists m :: m in inbox && m.CaptureDisposition? && m.receipt == spool.receipts[key])
                    && (sent.Some? <==> old(Ready(c))))
    {
      var begun := BeginSubmit(c);
      match begun {
        case Err(error) => return Err(error), None;
        case Ok(Recorded(id)) => return Ok(id), None;
        case Ok(Sent(e)) =>
          KeptEither(spool, log, link.codec, GatewayRecords.WorkKey(c));
          sent := Some(e);
          r := AwaitReceipt(GatewayRecords.WorkKey(c), e, inbox);
      }
    }

    /** Waits for the disposition of an envelope that waits in the spool. */
    method AwaitReceipt(key: Key, e: Envelope, inbox: seq<Message>) returns (r: Result<Hash>)
      requires Valid() && key in spool.envelopes && spool.envelopes[key] == e && key !in spool.receipts
      modifies this`spool, this`log, this`writes, this`offers, this`drainRequired
      ensures Valid() && log == old(log)
      ensures r.Ok? <==> exists i :: 0 <= i < |inbox| && Decisive(inbox, i, key, e)
      ensures if r.Ok? then exists i :: 0 <= i < |inbox|
                                        && DecidedAt(inbox, i, key, e, r.value, old(writes), old(spool))
              else writes == old(writes) && spool == old(spool)
    {
      var request := RequestId(connection, link.codec.id(e), key);
      for i := 0 to |inbox|
        invariant Valid() && log == old(log) && writes == old(writes) && spool == old(spool)
        invariant forall j :: 0 <= j < i ==> Quiet(inbox[j])
      {
        match inbox[i] {
          case CaptureDisposition(about, receipt) =>
            if about == request {
              if receipt.envelopeId != link.codec.id(e) {
                return Err(Request);
              }
              if !link.signed(receipt) {
                return Err(Signature);
              }
              var recorded := RecordReceipt(key, e, receipt);
              if recorded.Err? {
                return Err(recorded.error);
              }
              assert DecidedAt(inbox, i, key, e, link.receiptId(receipt), old(writes), old(spool));
              return Ok(link.receiptId(receipt));
            }
          case Failure(Some(about)) =>
            if about == request {
              return Err(Remote);
            }
          case _ =>
        }
        var handled := HandleUnsolicited(inbox[i]);
        if handled.Err? {
          return Err(handled.error);
        }
      }
      r := Err(Transport);
    }

    // ---- Drains ----

    /** Everything the drain of one assignment and the move to the next must agree on. */
    predicate Drainable(current: Bundle, next: Bundle, drainedMs: nat)
      reads this
    {
      && drainRequired == Some(DrainRequired(current.assignment, next.id, next.assignment))
      && WaitingFor(spool, current.assignment) == {}
      && next.replacement.Some? && next.replacement.value.previous == current.assignment
      && (current.assignment in spool.drains ==> spool.drains[current.assignment] == DrainOf(current, next, drainedMs))
    }

    function DrainOf(current: Bundle, next: Bundle, drainedMs: nat): Drain
      reads this
    {
      var head := HeadOf(spool.heads, current.assignment);
      var (cutoff, reason) := if next.replacement.Some?
                              then (next.replacement.value.creditCutoffMs, next.replacement.value.reason) else (0, 0);
      Drain(current.assignment, current.manifest, head.sequence, head.last, drainedMs, next.assignment, next.manifest,
            next.sequence,
            cutoff, reason)
    }

    /**
     Stores a drain with its transition once. What waits is not looked at here: the spool stays sound exactly if
     everything up to the drain's last number is answered, as it is when nothing waits and the head is the drain's.
     */
    method PersistDrain(d: Drain) returns (r: Result<()>)
      requires Valid()
      modifies this`spool, this`log, this`writes
      ensures log == old(log) && spool.receipts == old(spool.receipts)
      ensures r.Ok? <==> d.assignment !in old(spool.drains) || old(spool.drains)[d.assignment] == d
      ensures r.Ok? ==> spool == old(spool).(drains := old(spool.drains)[d.assignment := d])
      ensures r.Ok? ==> (Valid() <==> DrainOk(d, d.assignment, spool.receipts, log))
      ensures r.Err? ==> Valid()
      ensures WaitingFor(old(spool), d.assignment) == {}
              && Head(d.last, d.final) == HeadOf(old(spool.heads), d.assignment) ==>
                Valid() && (r.Ok? ==> DrainOk(d, d.assignment, spool.receipts, log))
      ensures writes == old(writes) ==> spool == old(spool)
      ensures writes != old(writes) ==>
                && writes == old(writes) + [PutDrain(d)] && d.assignment !in old(spool.drains)
                && spool == old(spool).(drains := old(spool.drains)[d.assignment := d])
    {
      if d.assignment in spool.drains {
        if spool.drains[d.assignment] != d {
          return Err(Conflict);
        }
        assert spool.drains == spool.drains[d.assignment := d];
        KeptDrain(spool, log, link.codec, d.assignment);
        return Ok(());
      }
      KeptNewDrain(spool, log, d, link.codec);
      NoneWaiting(spool, d.assignment);
      spool, writes := spool.(drains := spool.drains[d.assignment := d]), writes + [PutDrain(d)];
      r := Ok(());
    }

    /**
     Success means the drain is stored, and with it that every number up to its last is answered. Core's receipt is
     checked for its signature and its drain, not for its outcome.
     */
    method CompleteDrain(current: Bundle, next: Bundle, drainedMs: nat, inbox: seq<Message>) returns (r: Result<()>)
      requires Valid()
      modifies this`spool, this`log, this`writes, this`offers, this`drainRequired
      ensures Valid() && log == old(log) && spool.receipts == old(spool.receipts)
      ensures r.Ok? ==> drainRequired == None
      ensures r.Ok? <==>
              && old(Drainable(current, next, drainedMs))
              && exists i :: 0 <= i < |inbox| && DrainDecisive(inbox, i, old(DrainOf(current, next, drainedMs)), next)
      ensures r.Ok? ==> spool.drains == old(spool.drains)[current.assignment := old(DrainOf(current, next, drainedMs))]
                        && DrainOk(spool.drains[current.assignment], current.assignment, spool.receipts, log)
      ensures writes == old(writes) ==> spool == old(spool)
      ensures writes != old(writes) ==> exists d ::
                && writes == old(writes) + [PutDrain(d)] && S.Enabled(old(spool), PutDrain(d), link.codec)
                && spool == S.Apply(old(spool), PutDrain(d), link.codec)
    {
      if drainRequired != Some(DrainRequired(current.assignment, next.id, next.assignment)) {
        return Err(Request);
      }
      var pending := PendingForAssignment(current.assignment);
      if pending != 0 {
        return Err(PendingCaptures);
      }
      if next.replacement.None? || next.replacement.value.previous != current.assignment {
        return Err(Assignment);
      }
      var d := DrainOf(current, next, drainedMs);
      NoneWaiting(spool, current.assignment);
      var stored := PersistDrain(d);
      if stored.Err? {
        return Err(stored.error);
      }
      assert writes != old(writes) ==> S.Enabled(old(spool), PutDrain(d), link.codec)
                                       && spool == S.Apply(old(spool), PutDrain(d), link.codec);
      r := AwaitDrain(d, next, inbox);
    }

    method AwaitDrain(d: Drain, next: Bundle, inbox: seq<Message>) returns (r: Result<()>)
      modifies this`offers, this`drainRequired
      ensures r.Ok? ==> drainRequired == None
      ensures r.Ok? <==> exists i :: 0 <= i < |inbox| && DrainDecisive(inbox, i, d, next)
      ensures r.Ok? ==> exists m :: m in inbox && m.DrainDisposition? && link.drainSigned(m.drainReceipt)
                                    && m.drainReceipt.assignment == d.assignment && m.drainReceipt.through == d.last
                                    && m.drainReceipt.drainId == link.drainId(d)
    {
      var request := RequestId(connection, link.drainId(d), next.id);
      for i := 0 to |inbox|
        invariant forall j :: 0 <= j < i ==> Quiet(inbox[j])
      {
        match inbox[i] {
          case DrainDisposition(about, receipt) =>
            if about == request {
              if !DrainAnswers(d, receipt, link.drainId) || !link.drainSigned(receipt) {
                return Err(Signature);
              }
              assert DrainDecisive(inbox, i, d, next) && inbox[i] in inbox;
              drainRequired := None;
              return Ok(());
            }
          case Failure(Some(about)) =>
            if about == request {
              return Err(Remote);
            }
          case _ =>
        }
        var handled := HandleUnsolicited(inbox[i]);
        if handled.Err? {
          return Err(handled.error);
        }
      }
      r := Err(Transport);
    }

    /** After messages that may come at any time, this one answers the drain. */
    predicate DrainDecisive(inbox: seq<Message>, i: nat, d: Drain, next: Bundle)
      requires i < |inbox|
    {
      && (forall j :: 0 <= j < i ==> Quiet(inbox[j]))
      && inbox[i].DrainDisposition? && inbox[i].request == RequestId(connection, link.drainId(d), next.id)
      && DrainAnswers(d, inbox[i].drainReceipt, link.drainId) && link.drainSigned(inbox[i].drainReceipt)
    }

    /** After messages that may come at any time, this one decides the envelope. */
    predicate Decisive(inbox: seq<Message>, i: nat, key: Key, e: Envelope)
      requires i < |inbox|
    {
      && (forall j :: 0 <= j < i ==> Quiet(inbox[j]))
      && inbox[i].CaptureDisposition? && inbox[i].request == RequestId(connection, link.codec.id(e), key)
      && Answers(e, inbox[i].receipt, link.codec) && link.signed(inbox[i].receipt)
    }

    /** The message at this place decided the envelope, and was recorded. */
    ghost predicate DecidedAt(
        inbox: seq<Message>, i: nat, key: Key, e: Envelope, id: Hash, before: seq<S.Write>, was: S.Spool)
      reads this
      requires i < |inbox|
    {
      && Decisive(inbox, i, key, e) && id == link.receiptId(inbox[i].receipt)
      && key in spool.receipts && spool.receipts[key] == inbox[i].receipt
         && writes == before + [PutReceipt(key, inbox[i].receipt)]
      && S.Enabled(was, PutReceipt(key, inbox[i].receipt), link.codec)
      && spool == S.Apply(was, PutReceipt(key, inbox[i].receipt), link.codec)
    }
  }

  predicate DrainAnswers(d: Drain, r: DrainReceipt, drainId: Drain -> Hash) {
    && r.manifest == d.manifest && r.assignment == d.assignment && r.drainId == drainId(d) && r.sequence != 0
    && r.through == d.last && r.outcome in {DRAIN_COMPLETE, DRAIN_REJECTED}
  }

  /**
   A receipt with outcome "rejected" answers a drain like one with outcome
   "complete": the outcome is not examined.
   */
  lemma RejectedDrainAnswers(d: Drain, r: DrainReceipt, drainId: Drain -> Hash)
    requires r.outcome == DRAIN_REJECTED
    ensures DrainAnswers(d, r, drainId) <==> DrainAnswers(d, r.(outcome := DRAIN_COMPLETE), drainId)
    ensures DrainAnswers(d, DrainReceipt(d.assignment, d.manifest, drainId(d), d.last, 1, DRAIN_REJECTED), drainId)
  {
  }

  lemma NoneWaiting(s: S.Spool, a: Id)
    ensures WaitingFor(s, a) == {} <==> !Waiting(s, a)
  {
    forall k | k in s.envelopes && k !in s.receipts ensures s.envelopes[k].assignment == a <==> k in WaitingFor(s, a) {
    }
  }

  lemma KeptDrain(s: S.Spool, log: seq<Issued>, codec: Codec, a: Id)
    requires Kept(s, log, codec) && a in s.drains
    ensures DrainOk(s.drains[a], a, s.receipts, log)
  {
    assert Opened(21);
  }

  function WaitingFor(s: S.Spool, a: Id): set<Key> {
    set k | k in s.envelopes && k !in s.receipts && s.envelopes[k].assignment == a
  }

  lemma CountOn<T>(all: set<T>, todo: set<T>, k: T)
    requires k in todo
    ensures |all - (todo - {k})| == |all - todo| + if k in all then 1 else 0
  {
    assert all - (todo - {k}) == if k in all then all - todo + {k} else all - todo;
  }

  /** What a submission wrote: nothing, or at most a new envelope that carries the capture and then its receipt. */
  ghost predicate Prepared(
      before: seq<S.Write>, envelopes: map<Key, Envelope>, after: seq<S.Write>, key: Key, c: Capture,
      sent: Option<Envelope>) {
    if sent.None? then after == before
    else
      && SameWork(c, sent.value) && (key !in envelopes ==> Pipeline.Carries(sent.value, c))
      && (key in envelopes ==> sent.value == envelopes[key])
      && var made := if key in envelopes then before else before + [PutEnvelope(key, sent.value)];
         after == made || exists receipt :: after == made + [PutReceipt(key, receipt)]
  }
}
