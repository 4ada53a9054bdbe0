/**
 The operator's spool and Core's ledger, which are written by different
 processes (crates/meshmine-core-link/src/spool.rs,
 crates/meshmine-handoff/src/lib.rs): once nothing of an assignment waits in the
 spool, the two agree about how many captures it had and which was the last, so
 the drain the operator sends is the one Core accepts.
 */
module Agreement {
  import opened Wrappers
  import opened GatewayStore
  import opened Spool
  import opened Handoff
  import Pipeline
  import Client

  /** Object identities are ideal hashes. */
  ghost predicate Ideal(codec: Codec) { forall e, f :: codec.id(e) == codec.id(f) ==> e == f }

  /** Core knows every receipt in the spool, and the spool made every envelope Core knows. */
  ghost predicate Joined(s: Spool, log: seq<Issued>, l: Ledger, codec: Codec) {
    && SpoolOk(s, log, codec) && LedgerOk(l, codec) && Ideal(codec)
    && Pipeline.ReceiptsOk(l.journal, s.receipts) && Pipeline.AllMade(l.journal, log, codec)
  }

  /** The same as one fact. */
  ghost predicate Meet(s: Spool, log: seq<Issued>, l: Ledger, codec: Codec) {
    forall i: int {:trigger Opened(i)} :: Opened(i) && i == 32 ==> Joined(s, log, l, codec)
  }

  /** A made envelope whose assignment waits for nothing is disposed of under its number. */
  lemma MadeIsDisposed(s: Spool, log: seq<Issued>, l: Ledger, i: nat, codec: Codec)
    requires Meet(s, log, l, codec) && i < |log| && !Waiting(s, log[i].envelope.assignment)
    ensures Numbers(l.envelopes, codec.id(log[i].envelope), log[i].envelope.assignment, log[i].envelope.sequence)
  {
    assert Opened(32);
    assert Held(s.envelopes, s.receipts, log[i], codec);
    assert Entered(l, codec.id(log[i].envelope), codec);
  }

  /** A disposed capture was made. */
  lemma DisposedWasMade(s: Spool, log: seq<Issued>, l: Ledger, h: Hash, codec: Codec) returns (i: nat)
    requires Meet(s, log, l, codec) && h in l.envelopes
    ensures i < |log| && log[i].envelope == l.envelopes[h] && codec.id(log[i].envelope) == h
  {
    assert Opened(32);
    i := JournaledMade(log, l, h, codec);
  }

  lemma JournaledMade(log: seq<Issued>, l: Ledger, h: Hash, codec: Codec) returns (i: nat)
    requires JournalPart(l, codec) && Pipeline.AllMade(l.journal, log, codec) && Ideal(codec) && h in l.envelopes
    ensures i < |log| && log[i].envelope == l.envelopes[h] && codec.id(log[i].envelope) == h
  {
    assert Entered(l, h, codec) && Pipeline.MadeAs(log, h, codec);
    i :| 0 <= i < |log| && codec.id(log[i].envelope) == h;
  }

  /** The number of a made envelope is at most the head, and the head's own is the last. */
  lemma MadeUpToHead(s: Spool, log: seq<Issued>, l: Ledger, i: nat, codec: Codec)
    requires Meet(s, log, l, codec) && i < |log|
    ensures var (a, n) := (log[i].envelope.assignment, log[i].envelope.sequence);
            && 1 <= n <= HeadOf(s.heads, a).sequence
            && (n == HeadOf(s.heads, a).sequence ==> HeadOf(s.heads, a).last == Some(codec.id(log[i].envelope)))
  {
    assert Opened(32);
    NumbersAreHead(s, log, log[i].envelope.assignment, log[i].envelope.sequence, codec);
    assert HeadAt(s.heads, log, log[i].envelope.assignment, codec);
  }

  lemma HeadWasMade(s: Spool, log: seq<Issued>, l: Ledger, a: Id, codec: Codec) returns (i: nat)
    requires Meet(s, log, l, codec) && HeadOf(s.heads, a).sequence > 0
    ensures i < |log| && log[i].envelope.assignment == a && log[i].envelope.sequence == HeadOf(s.heads, a).sequence
  {
    assert Opened(32);
    NumbersAreHead(s, log, a, HeadOf(s.heads, a).sequence, codec);
    i :| 0 <= i < |log| && log[i].envelope.assignment == a && log[i].envelope.sequence == HeadOf(s.heads, a).sequence;
  }

  lemma EmptyHead(s: Spool, log: seq<Issued>, l: Ledger, a: Id, codec: Codec)
    requires Meet(s, log, l, codec)
    ensures HeadOf(s.heads, a).sequence == 0 ==> HeadOf(s.heads, a).last == None
  {
    assert Opened(32);
    assert HeadAt(s.heads, log, a, codec);
  }

  lemma CursorFacts(s: Spool, log: seq<Issued>, l: Ledger, a: Id, codec: Codec)
    requires Meet(s, log, l, codec)
    ensures var c := CursorAt(l.cursors, a);
            && c.next >= 1 && (c.last == None <==> c.next == 1)
            && (c.last.Some? ==> Numbers(l.envelopes, c.last.value, a, c.next - 1))
  {
    assert Opened(32);
    assert InOrder(l, a);
  }

  lemma BeforeCursor(s: Spool, log: seq<Issued>, l: Ledger, a: Id, h: Hash, n: nat, codec: Codec)
    requires Meet(s, log, l, codec) && Numbers(l.envelopes, h, a, n)
    ensures n < CursorAt(l.cursors, a).next
  {
    assert Opened(32);
    assert InOrder(l, a);
  }

  /** When nothing waits, the cursor of Core stands right after the head of the spool. */
  lemma HeadsMeet(s: Spool, log: seq<Issued>, l: Ledger, a: Id, codec: Codec)
    requires Meet(s, log, l, codec) && !Waiting(s, a)
    ensures CursorAt(l.cursors, a).next == HeadOf(s.heads, a).sequence + 1
    ensures CursorAt(l.cursors, a).last == HeadOf(s.heads, a).last
  {
    var (c, head) := (CursorAt(l.cursors, a), HeadOf(s.heads, a));
    CursorFacts(s, log, l, a, codec);
    EmptyHead(s, log, l, a, codec);
    if head.sequence > 0 {
      var i := HeadWasMade(s, log, l, a, codec);
      MadeIsDisposed(s, log, l, i, codec);
      BeforeCursor(s, log, l, a, codec.id(log[i].envelope), head.sequence, codec);
    }
    if c.next > 1 {
      var j := DisposedWasMade(s, log, l, c.last.value, codec);
      MadeUpToHead(s, log, l, j, codec);
    }
  }

  /** The drain and the transition that the operator's record stands for. */
  function ClosingOf(d: Drain): Closing { Closing(d.assignment, d.manifest, d.last, d.final, d.drainedMs) }

  function SuccessionOf(d: Drain): Succession {
    Succession(d.assignment, d.next, d.nextManifest, d.nextSequence, d.last, d.transitionMs, d.reason)
  }

  /** The receipt by which Core answers a drain. */
  function DrainReceiptOf(answer: DrainAnswer, drainId: Hash): Client.DrainReceipt {
    var d := answer.closing;
    Client.DrainReceipt(d.assignment, d.manifest, drainId, d.last, answer.sequence, Client.DRAIN_COMPLETE)
  }

  /** Core's answer to a drain is accepted by the operator that sent it, and by no other drain's. */
  lemma AnswerIsAccepted(d: Drain, f: Drain, sequence: nat, now: nat, drainId: Drain -> Hash)
    requires sequence > 0
    ensures Client.DrainAnswers(d, DrainReceiptOf(DrainAnswer(ClosingOf(d), sequence, now), drainId(d)), drainId)
    ensures Client.DrainAnswers(f, DrainReceiptOf(DrainAnswer(ClosingOf(d), sequence, now), drainId(d)), drainId) ==>
            drainId(f) == drainId(d) && f.assignment == d.assignment && f.last == d.last && f.manifest == d.manifest
  {
  }

  /** The drain of a spool in which nothing waits ends where Core's cursor stands. */
  lemma DrainMeetsCursor(s: Spool, log: seq<Issued>, l: Ledger, d: Drain, codec: Codec)
    requires Meet(s, log, l, codec) && !Waiting(s, d.assignment)
    requires Head(d.last, d.final) == HeadOf(s.heads, d.assignment)
    requires CursorAt(l.cursors, d.assignment).drained == None
    ensures Ends(CursorAt(l.cursors, d.assignment), ClosingOf(d))
  {
    HeadsMeet(s, log, l, d.assignment, codec);
    EmptyHead(s, log, l, d.assignment, codec);
  }
}
