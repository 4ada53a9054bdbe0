/**
 The operator's capture spool (crates/meshmine-core-link/src/spool.rs): the
 durable records between the gateway and Core. Captures wait as numbered
 envelopes until Core's receipt replaces them. The log lists every envelope
 ever made; it is not stored, and every claim about numbering is about it.

 The program reads the receipt of a capture (client.rs:169) before it writes the
 batch with the envelope (spool.rs:277-311). MayPutEnvelope joins the two, so it
 describes submit calls that do not overlap; the operator process drains under
 the gateway's lock (bins/meshmine-corelink-operatord/src/main.rs:521-526), one
 capture at a time.
 */
module Spool {
  import opened Wrappers
  import opened GatewayStore

  const MAX_RECORDS: nat := 100_000
  const MAX_BYTES: nat := 536_870_912

  type Hash = Text

  datatype Envelope = Envelope(
    manifest: nat, assignment: Id, session: nat, sequence: nat, connection: Hash,
    receivedMs: nat, ntime: nat, extraNonce: Text, nonce: nat, shareHash: Text)

  datatype Receipt = Receipt(
    manifest: nat, assignment: Id, envelopeId: Hash, sequence: nat, receivedMs: nat, outcome: nat, reason: nat,
    shareId: nat)

  const ACCEPTED: nat := 1
  const REJECTED: nat := 2
  const GRACE_NONCREDIT: nat := 3
  const DUPLICATE: nat := 4

  datatype Head = Head(sequence: nat, last: Option<Hash>)

  datatype Capacity = Capacity(records: nat, bytes: nat)

  /** A drain and the transition to the next assignment, which are one write. */
  datatype Drain = Drain(
    assignment: Id, manifest: nat, last: nat, final: Option<Hash>, drainedMs: nat,
    next: Id, nextManifest: nat, nextSequence: nat, transitionMs: nat, reason: nat)

  /** Object identity, encoded length and the work key of an envelope. */
  datatype Codec = Codec(id: Envelope -> Hash, size: Envelope -> nat, key: Envelope -> Key)

  datatype Issued = Issued(key: Key, envelope: Envelope)

  /** One map per namespace. */
  datatype Spool = Spool(
    envelopes: map<Key, Envelope>, receipts: map<Key, Receipt>, heads: map<Id, Head>,
    capacity: Option<Capacity>, drains: map<Id, Drain>)

  const FRESH: Spool := Spool(map[], map[], map[], None, map[])

  function HeadOf(heads: map<Id, Head>, a: Id): Head { if a in heads then heads[a] else Head(0, None) }

  function CapacityOf(capacity: Option<Capacity>): Capacity {
    if capacity.Some? then capacity.value else Capacity(0, 0)
  }

  predicate Terminal(r: Receipt) { r.outcome in {ACCEPTED, REJECTED, GRACE_NONCREDIT, DUPLICATE} }

  /** The receipt answers this envelope. */
  predicate Answers(e: Envelope, r: Receipt, codec: Codec) {
    && r.manifest == e.manifest && r.assignment == e.assignment && r.envelopeId == codec.id(e)
    && r.sequence == e.sequence && r.sequence != 0 && Terminal(r) && (r.outcome == ACCEPTED <==> r.shareId != 0)
  }

  // ---- Byte totals ----

  ghost function Total(envelopes: map<Key, Envelope>, size: Envelope -> nat): nat {
    if envelopes == map[] then 0 else
      var k :| k in envelopes;
      size(envelopes[k]) + Total(envelopes - {k}, size)
  }

  /** Any envelope can be counted first. */
  lemma {:induction false} TotalWithout(envelopes: map<Key, Envelope>, size: Envelope -> nat, k: Key)
    requires k in envelopes
    ensures Total(envelopes, size) == size(envelopes[k]) + Total(envelopes - {k}, size)
    decreases |envelopes|
  {
    var j :| j in envelopes && Total(envelopes, size) == size(envelopes[j]) + Total(envelopes - {j}, size);
    if j != k {
      SmallerWithout(envelopes, j);
      SmallerWithout(envelopes, k);
      TotalWithout(envelopes - {j}, size, k);
      TotalWithout(envelopes - {k}, size, j);
      assert envelopes - {j} - {k} == envelopes - {k} - {j};
    }
  }

  lemma SmallerWithout(envelopes: map<Key, Envelope>, k: Key)
    requires k in envelopes
    ensures |envelopes - {k}| == |envelopes| - 1
  {
    assert (envelopes - {k}).Keys == envelopes.Keys - {k};
  }

  lemma TotalWith(envelopes: map<Key, Envelope>, size: Envelope -> nat, k: Key, e: Envelope)
    requires k !in envelopes
    ensures Total(envelopes[k := e], size) == size(e) + Total(envelopes, size) && |envelopes[k := e]| == |envelopes| + 1
  {
    TotalWithout(envelopes[k := e], size, k);
    assert envelopes[k := e] - {k} == envelopes;
    SmallerWithout(envelopes[k := e], k);
  }

  /** The capacity record counts the waiting envelopes and their bytes, within both bounds. */
  ghost predicate CapacityOk(envelopes: map<Key, Envelope>, capacity: Option<Capacity>, size: Envelope -> nat) {
    && CapacityOf(capacity) == Capacity(|envelopes|, Total(envelopes, size))
    && |envelopes| <= MAX_RECORDS && Total(envelopes, size) <= MAX_BYTES
  }

  // ---- The log ----

  /** How many envelopes were made for an assignment. */
  function CountFor(log: seq<Issued>, a: Id): nat {
    if log == [] then 0 else CountFor(log[..|log| - 1], a) + if log[|log| - 1].envelope.assignment == a then 1 else 0
  }

  lemma CountAppend(log: seq<Issued>, entry: Issued, a: Id)
    ensures CountFor(log + [entry], a) == CountFor(log, a) + if entry.envelope.assignment == a then 1 else 0
  {
    assert (log + [entry])[..|log|] == log;
  }

  lemma {:induction false} CountGrows(log: seq<Issued>, i: nat, j: nat, a: Id)
    requires i <= j <= |log|
    ensures CountFor(log[..i], a) <= CountFor(log[..j], a)
    ensures i < j && log[i].envelope.assignment == a ==> CountFor(log[..i], a) < CountFor(log[..j], a)
    decreases j
  {
    if i < j {
      assert log[..j][..j - 1] == log[..j - 1];
      CountGrows(log, i, j - 1, a);
    }
  }

  /** Each envelope has the next number of its assignment. */
  predicate NumberedAt(log: seq<Issued>, i: nat)
    requires i < |log|
  {
    log[i].envelope.sequence == CountFor(log[..i], log[i].envelope.assignment) + 1
  }

  predicate Numbered(log: seq<Issued>) { forall i :: 0 <= i < |log| ==> NumberedAt(log, i) }

  /** The numbers of an assignment are exactly 1 to its count, each used once. */
  lemma {:induction false} NumberUsed(log: seq<Issued>, a: Id, n: nat) returns (i: nat)
    requires Numbered(log) && 1 <= n <= CountFor(log, a)
    ensures i < |log| && log[i].envelope.assignment == a && log[i].envelope.sequence == n
    decreases |log|
  {
    var last := |log| - 1;
    if log[last].envelope.assignment == a && CountFor(log, a) == n {
      assert NumberedAt(log, last);
      return last;
    }
    NumberedFront(log);
    i := NumberUsed(log[..last], a, n);
  }

  lemma NumberedFront(log: seq<Issued>)
    requires Numbered(log) && log != []
    ensures Numbered(log[..|log| - 1])
  {
    var front := log[..|log| - 1];
    forall i | 0 <= i < |front| ensures NumberedAt(front, i) {
      assert NumberedAt(log, i) && front[..i] == log[..i];
    }
  }

  lemma NumberUnique(log: seq<Issued>, i: nat, j: nat)
    requires Numbered(log) && i < |log| && j < |log|
    requires log[i].envelope.assignment == log[j].envelope.assignment
             && log[i].envelope.sequence == log[j].envelope.sequence
    ensures i == j
  {
    var a := log[i].envelope.assignment;
    assert NumberedAt(log, i) && NumberedAt(log, j);
    if i < j {
      CountGrows(log, i, j, a);
    } else if j < i {
      CountGrows(log, j, i, a);
    }
  }

  lemma NumberBound(log: seq<Issued>, i: nat)
    requires Numbered(log) && i < |log|
    ensures 1 <= log[i].envelope.sequence <= CountFor(log, log[i].envelope.assignment)
  {
    assert NumberedAt(log, i) && log[..|log|] == log;
    CountGrows(log, i, |log|, log[i].envelope.assignment);
  }

  lemma NumberedNext(log: seq<Issued>, entry: Issued)
    requires Numbered(log) && entry.envelope.sequence == CountFor(log, entry.envelope.assignment) + 1
    ensures Numbered(log + [entry])
  {
    var longer := log + [entry];
    forall i | 0 <= i < |longer| ensures NumberedAt(longer, i) {
      assert longer[..i] == if i < |log| then log[..i] else log;
      assert i < |log| ==> NumberedAt(log, i);
    }
  }

  // ---- What every spool satisfies ----

  predicate OneEach(log: seq<Issued>) { forall i, j :: 0 <= i < j < |log| ==> log[i].key != log[j].key }

  /** An envelope is waiting, or its receipt replaced it. */
  predicate Held(envelopes: map<Key, Envelope>, receipts: map<Key, Receipt>, entry: Issued, codec: Codec) {
    if entry.key in receipts
    then entry.key !in envelopes && Answers(entry.envelope, receipts[entry.key], codec)
    else entry.key in envelopes && envelopes[entry.key] == entry.envelope
  }

  predicate Logged(log: seq<Issued>, key: Key) { exists i :: 0 <= i < |log| && log[i].key == key }

  predicate EntriesOk(envelopes: map<Key, Envelope>, receipts: map<Key, Receipt>, log: seq<Issued>, codec: Codec) {
    && (forall i :: 0 <= i < |log| ==> Held(envelopes, receipts, log[i], codec)
                                       && codec.key(log[i].envelope) == log[i].key)
    && (forall k :: k in envelopes ==> Logged(log, k))
    && (forall k :: k in receipts ==> Logged(log, k))
  }

  /** The head of an assignment: how many envelopes it has, and which is the last. */
  predicate HeadAt(heads: map<Id, Head>, log: seq<Issued>, a: Id, codec: Codec) {
    && HeadOf(heads, a).sequence == CountFor(log, a)
    && (CountFor(log, a) == 0 ==> HeadOf(heads, a).last == None)
    && (forall i :: 0 <= i < |log| && log[i].envelope.assignment == a
                     && log[i].envelope.sequence == CountFor(log, a) ==>
          HeadOf(heads, a).last == Some(codec.id(log[i].envelope)))
  }

  ghost predicate HeadsOk(heads: map<Id, Head>, log: seq<Issued>, codec: Codec) {
    forall a: Id :: HeadAt(heads, log, a, codec)
  }

  /** Everything up to a drain's last number has been answered. */
  predicate DrainOk(drain: Drain, a: Id, receipts: map<Key, Receipt>, log: seq<Issued>) {
    && drain.assignment == a && drain.last <= CountFor(log, a)
    && (forall i :: 0 <= i < |log| && log[i].envelope.assignment == a && log[i].envelope.sequence <= drain.last ==>
        log[i].key in receipts)
  }

  predicate DrainsOk(drains: map<Id, Drain>, receipts: map<Key, Receipt>, log: seq<Issued>) {
    forall a :: a in drains ==> DrainOk(drains[a], a, receipts, log)
  }

  ghost predicate SpoolOk(s: Spool, log: seq<Issued>, codec: Codec) {
    && CapacityOk(s.envelopes, s.capacity, codec.size) && OneEach(log) && Numbered(log)
    && EntriesOk(s.envelopes, s.receipts, log, codec) && HeadsOk(s.heads, log, codec)
       && DrainsOk(s.drains, s.receipts, log)
  }

  lemma FreshOk(codec: Codec)
    ensures SpoolOk(FRESH, [], codec)
  {
  }

  // ---- The atomic writes ----

  datatype Write =
    | PutEnvelope(key: Key, envelope: Envelope)
    | PutReceipt(key: Key, receipt: Receipt)
    | PutDrain(drain: Drain)

  predicate MayPutEnvelope(s: Spool, key: Key, e: Envelope, codec: Codec) {
    && key !in s.envelopes && key !in s.receipts && key == codec.key(e)
    && e.sequence == HeadOf(s.heads, e.assignment).sequence + 1 && e.sequence < U64_LIMIT
    && CapacityOf(s.capacity).records + 1 <= MAX_RECORDS && CapacityOf(s.capacity).bytes + codec.size(e) <= MAX_BYTES
  }

  predicate MayPutReceipt(s: Spool, key: Key, r: Receipt, codec: Codec) {
    && key in s.envelopes && key !in s.receipts && Answers(s.envelopes[key], r, codec) && s.capacity.Some?
    && s.capacity.value.records >= 1 && s.capacity.value.bytes >= codec.size(s.envelopes[key])
  }

  predicate Waiting(s: Spool, a: Id) {
    exists k :: k in s.envelopes && k !in s.receipts && s.envelopes[k].assignment == a
  }

  predicate MayPutDrain(s: Spool, d: Drain) {
    d.assignment !in s.drains && !Waiting(s, d.assignment) && Head(d.last, d.final) == HeadOf(s.heads, d.assignment)
  }

  predicate Enabled(s: Spool, w: Write, codec: Codec) {
    match w
    case PutEnvelope(key, e) => MayPutEnvelope(s, key, e, codec)
    case PutReceipt(key, r) => MayPutReceipt(s, key, r, codec)
    case PutDrain(d) => MayPutDrain(s, d)
  }

  function WithEnvelope(s: Spool, key: Key, e: Envelope, codec: Codec): Spool {
    var c := CapacityOf(s.capacity);
    s.(envelopes := s.envelopes[key := e], heads := s.heads[e.assignment := Head(e.sequence, Some(codec.id(e)))],
       capacity := Some(Capacity(c.records + 1, c.bytes + codec.size(e))))
  }

  function WithReceipt(s: Spool, key: Key, r: Receipt, codec: Codec): Spool
    requires MayPutReceipt(s, key, r, codec)
  {
    var c := s.capacity.value;
    s.(receipts := s.receipts[key := r], envelopes := s.envelopes - {key},
       capacity := Some(Capacity(c.records - 1, c.bytes - codec.size(s.envelopes[key]))))
  }

  function Apply(s: Spool, w: Write, codec: Codec): Spool
    requires Enabled(s, w, codec)
  {
    match w
    case PutEnvelope(key, e) => WithEnvelope(s, key, e, codec)
    case PutReceipt(key, r) => WithReceipt(s, key, r, codec)
    case PutDrain(d) => s.(drains := s.drains[d.assignment := d])
  }

  function LogAfter(log: seq<Issued>, w: Write): seq<Issued> {
    if w.PutEnvelope? then log + [Issued(w.key, w.envelope)] else log
  }

  // ---- Every write keeps the spool sound ----

  lemma EnvelopeEntries(s: Spool, log: seq<Issued>, key: Key, e: Envelope, codec: Codec)
    requires EntriesOk(s.envelopes, s.receipts, log, codec) && OneEach(log)
    requires key !in s.envelopes && key !in s.receipts && key == codec.key(e)
    ensures EntriesOk(s.envelopes[key := e], s.receipts, log + [Issued(key, e)], codec)
            && OneEach(log + [Issued(key, e)])
  {
    var envelopes, longer := s.envelopes[key := e], log + [Issued(key, e)];
    forall i | 0 <= i < |log| ensures log[i].key != key {
      assert Held(s.envelopes, s.receipts, log[i], codec);
    }
    forall i | 0 <= i < |longer|
      ensures Held(envelopes, s.receipts, longer[i], codec) && codec.key(longer[i].envelope) == longer[i].key
    {
      assert i < |log| ==> Held(s.envelopes, s.receipts, log[i], codec);
    }
    forall k ensures Logged(log, k) || k == key ==> Logged(longer, k) {
      LoggedLonger(log, Issued(key, e), k);
    }
  }

  lemma LoggedLonger(log: seq<Issued>, entry: Issued, k: Key)
    ensures Logged(log, k) || k == entry.key ==> Logged(log + [entry], k)
  {
    var longer := log + [entry];
    if k == entry.key {
      assert longer[|log|].key == k;
    } else if Logged(log, k) {
      var i :| 0 <= i < |log| && log[i].key == k;
      assert longer[i].key == k;
    }
  }

  lemma EnvelopeHeads(heads: map<Id, Head>, log: seq<Issued>, key: Key, e: Envelope, codec: Codec)
    requires HeadsOk(heads, log, codec) && Numbered(log) && e.sequence == HeadOf(heads, e.assignment).sequence + 1
    ensures HeadsOk(heads[e.assignment := Head(e.sequence, Some(codec.id(e)))], log + [Issued(key, e)], codec)
    ensures Numbered(log + [Issued(key, e)])
  {
    var heads', longer := heads[e.assignment := Head(e.sequence, Some(codec.id(e)))], log + [Issued(key, e)];
    assert HeadAt(heads, log, e.assignment, codec);
    NumberedNext(log, Issued(key, e));
    forall a: Id ensures HeadAt(heads', longer, a, codec) {
      assert HeadAt(heads, log, a, codec);
      CountAppend(log, Issued(key, e), a);
      if a == e.assignment {
        forall i | 0 <= i < |longer| && longer[i].envelope.assignment == a && longer[i].envelope.sequence == e.sequence
          ensures i == |log|
        {
          NumberUnique(longer, i, |log|);
        }
      }
    }
  }

  lemma EnvelopeDrains(drains: map<Id, Drain>, receipts: map<Key, Receipt>, log: seq<Issued>, entry: Issued)
    requires DrainsOk(drains, receipts, log) && entry.envelope.sequence == CountFor(log, entry.envelope.assignment) + 1
    ensures DrainsOk(drains, receipts, log + [entry])
  {
    forall a | a in drains ensures DrainOk(drains[a], a, receipts, log + [entry]) {
      assert DrainOk(drains[a], a, receipts, log);
      CountAppend(log, entry, a);
    }
  }

  lemma EnvelopeKeeps(s: Spool, log: seq<Issued>, key: Key, e: Envelope, codec: Codec)
    requires SpoolOk(s, log, codec) && MayPutEnvelope(s, key, e, codec)
    ensures SpoolOk(WithEnvelope(s, key, e, codec), log + [Issued(key, e)], codec)
  {
    TotalWith(s.envelopes, codec.size, key, e);
    EnvelopeEntries(s, log, key, e, codec);
    EnvelopeHeads(s.heads, log, key, e, codec);
    assert HeadAt(s.heads, log, e.assignment, codec);
    EnvelopeDrains(s.drains, s.receipts, log, Issued(key, e));
  }

  /**
   Making an envelope for a key that already has a receipt would be a second envelope for it:
   with room and the right number, the spool stays sound exactly if there is no receipt yet.
   */
  lemma EnvelopeKeepsExactly(s: Spool, log: seq<Issued>, key: Key, e: Envelope, codec: Codec)
    requires SpoolOk(s, log, codec) && key !in s.envelopes && key == codec.key(e)
    requires e.sequence == HeadOf(s.heads, e.assignment).sequence + 1 && e.sequence < U64_LIMIT
    requires CapacityOf(s.capacity).records + 1 <= MAX_RECORDS
             && CapacityOf(s.capacity).bytes + codec.size(e) <= MAX_BYTES
    ensures SpoolOk(WithEnvelope(s, key, e, codec), log + [Issued(key, e)], codec) <==> key !in s.receipts
  {
    if key in s.receipts {
      var i :| 0 <= i < |log| && log[i].key == key;
      assert (log + [Issued(key, e)])[i].key == (log + [Issued(key, e)])[|log|].key;
    } else {
      EnvelopeKeeps(s, log, key, e, codec);
    }
  }

  lemma ReceiptEntries(s: Spool, log: seq<Issued>, key: Key, r: Receipt, codec: Codec)
    requires EntriesOk(s.envelopes, s.receipts, log, codec) && OneEach(log)
    requires key in s.envelopes && key !in s.receipts && Answers(s.envelopes[key], r, codec)
    ensures EntriesOk(s.envelopes - {key}, s.receipts[key := r], log, codec)
  {
    forall i | 0 <= i < |log| ensures Held(s.envelopes - {key}, s.receipts[key := r], log[i], codec) {
      assert Held(s.envelopes, s.receipts, log[i], codec);
    }
  }

  lemma ReceiptDrains(drains: map<Id, Drain>, receipts: map<Key, Receipt>, log: seq<Issued>, key: Key, r: Receipt)
    requires DrainsOk(drains, receipts, log)
    ensures DrainsOk(drains, receipts[key := r], log)
  {
    forall a | a in drains ensures DrainOk(drains[a], a, receipts[key := r], log) {
      assert DrainOk(drains[a], a, receipts, log);
    }
  }

  lemma ReceiptKeeps(s: Spool, log: seq<Issued>, key: Key, r: Receipt, codec: Codec)
    requires SpoolOk(s, log, codec) && MayPutReceipt(s, key, r, codec)
    ensures SpoolOk(WithReceipt(s, key, r, codec), log, codec)
  {
    TotalWithout(s.envelopes, codec.size, key);
    SmallerWithout(s.envelopes, key);
    ReceiptEntries(s, log, key, r, codec);
    ReceiptDrains(s.drains, s.receipts, log, key, r);
  }

  /** A drain that finds nothing waiting covers every number of the assignment. */
  lemma DrainCovers(s: Spool, log: seq<Issued>, d: Drain, codec: Codec)
    requires SpoolOk(s, log, codec) && MayPutDrain(s, d)
    ensures DrainOk(d, d.assignment, s.receipts, log)
  {
    assert HeadAt(s.heads, log, d.assignment, codec);
    forall i | 0 <= i < |log| && log[i].envelope.assignment == d.assignment ensures log[i].key in s.receipts {
      assert Held(s.envelopes, s.receipts, log[i], codec);
    }
  }

  lemma DrainKeeps(s: Spool, log: seq<Issued>, d: Drain, codec: Codec)
    requires SpoolOk(s, log, codec) && MayPutDrain(s, d)
    ensures SpoolOk(s.(drains := s.drains[d.assignment := d]), log, codec)
  {
    DrainCovers(s, log, d, codec);
    var drains := s.drains[d.assignment := d];
    forall a | a in drains ensures DrainOk(drains[a], a, s.receipts, log) {
      assert a in s.drains ==> DrainOk(s.drains[a], a, s.receipts, log);
    }
  }

  lemma WriteKeepsSpool(s: Spool, log: seq<Issued>, w: Write, codec: Codec)
    requires SpoolOk(s, log, codec) && Enabled(s, w, codec)
    ensures SpoolOk(Apply(s, w, codec), LogAfter(log, w), codec)
  {
    match w {
      case PutEnvelope(key, e) => EnvelopeKeeps(s, log, key, e, codec);
      case PutReceipt(key, r) => ReceiptKeeps(s, log, key, r, codec);
      case PutDrain(d) => DrainKeeps(s, log, d, codec);
    }
  }

  /** A recorded receipt is never replaced, and an envelope waits until its receipt comes. */
  lemma WriteStable(s: Spool, w: Write, codec: Codec, key: Key)
    requires Enabled(s, w, codec)
    ensures key in s.receipts ==> key in Apply(s, w, codec).receipts
                                  && Apply(s, w, codec).receipts[key] == s.receipts[key]
    ensures key in s.envelopes ==>
              || (key in Apply(s, w, codec).envelopes && Apply(s, w, codec).envelopes[key] == s.envelopes[key])
              || (key in Apply(s, w, codec).receipts
                  && Answers(s.envelopes[key], Apply(s, w, codec).receipts[key], codec))
  {
  }

  /** In every sound spool a drained assignment has an answered envelope for each number up to the drain's last. */
  lemma DrainedIsAnswered(s: Spool, log: seq<Issued>, a: Id, n: nat, codec: Codec) returns (i: nat)
    requires SpoolOk(s, log, codec) && a in s.drains && 1 <= n <= s.drains[a].last
    ensures i < |log| && log[i].envelope.assignment == a && log[i].envelope.sequence == n
    ensures log[i].key in s.receipts && Answers(log[i].envelope, s.receipts[log[i].key], codec)
  {
    assert DrainOk(s.drains[a], a, s.receipts, log);
    i := NumberUsed(log, a, n);
    assert Held(s.envelopes, s.receipts, log[i], codec);
  }

  /** An assignment's numbers are exactly 1 to its head. */
  lemma NumbersAreHead(s: Spool, log: seq<Issued>, a: Id, n: nat, codec: Codec)
    requires SpoolOk(s, log, codec)
    ensures 1 <= n <= HeadOf(s.heads, a).sequence <==>
            exists i :: 0 <= i < |log| && log[i].envelope.assignment == a && log[i].envelope.sequence == n
  {
    assert HeadAt(s.heads, log, a, codec);
    if 1 <= n <= HeadOf(s.heads, a).sequence {
      var i := NumberUsed(log, a, n);
    }
    forall i | 0 <= i < |log| && log[i].envelope.assignment == a && log[i].envelope.sequence == n
      ensures 1 <= n <= HeadOf(s.heads, a).sequence
    {
      NumberBound(log, i);
    }
  }
}
