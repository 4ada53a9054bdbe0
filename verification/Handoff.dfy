/**
 Core's records of the handoff from a gateway (crates/meshmine-handoff/src/lib.rs,
 crates/meshmine-share/src/lib.rs:796-866): the assignment that may send
 captures, a cursor over its captures, one disposition per capture envelope, one
 credit per work, and the drains by which an assignment ends. Every posting is
 one atomic batch together with its conditions.
 */
module Handoff {
  import opened Wrappers
  import opened GatewayStore
  import opened Spool
  import opened Traces

  datatype Status = Open | Sealed

  /** The captures of an assignment are disposed of in their order; the cursor stands at the next one. */
  datatype Cursor = Cursor(next: nat, last: Option<Hash>, lastMs: nat, drained: Option<nat>)

  const START_CURSOR: Cursor := Cursor(1, None, 0, None)

  /** What is credited once: an ideal hash of its parts. */
  datatype Work = Work(session: nat, body: nat, ntime: nat, extraNonce: Text, nonce: nat, shareHash: Text)

  /** An accepted share names its work and its capture envelope. */
  datatype Share = Share(work: Work, envelope: Hash)

  /** The drain of an assignment, Core's answer to it, and the transition to the next assignment. */
  datatype Closing = Closing(assignment: Id, manifest: nat, last: nat, final: Option<Hash>, drainedMs: nat)
  datatype DrainAnswer = DrainAnswer(closing: Closing, sequence: nat, receivedMs: nat)
  datatype Succession = Succession(
    previous: Id, next: Id, manifest: nat, sequence: nat, last: nat, transitionMs: nat, reason: nat)

  /** One map per namespace. */
  datatype Ledger = Ledger(
    head: Option<Id>, states: map<Id, Status>, cursors: map<Id, Cursor>,
    envelopes: map<Hash, Envelope>, journal: map<Hash, Receipt>,
    credits: map<Work, nat>, shares: map<nat, Share>,
    closings: map<Id, Closing>, answers: map<Id, DrainAnswer>, successions: map<Id, Succession>)

  const BLANK: Ledger := Ledger(None, map[], map[], map[], map[], map[], map[], map[], map[], map[])

  function CursorAt(cursors: map<Id, Cursor>, a: Id): Cursor { if a in cursors then cursors[a] else START_CURSOR }

  // ---- The postings and their conditions ----

  datatype Posting =
    | Authorize(assignment: Id)
    | Dispose(envelope: Envelope, receipt: Receipt, share: Option<Share>)
    | Seal(closing: Closing)
    | AnswerDrain(answer: DrainAnswer)
    | Succeed(succession: Succession)

  /** The assignment at the head, not yet drained. */
  predicate Current(l: Ledger, a: Id) { l.head == Some(a) && a in l.states && l.states[a] == Open }

  /** The next capture in order, not received before the one before it, and not after a drain. */
  predicate NextUp(c: Cursor, e: Envelope) {
    && e.sequence == c.next && c.drained == None && c.next + 1 < U64_LIMIT
    && (c.next > 1 ==> c.lastMs <= e.receivedMs)
  }

  function Advanced(c: Cursor, e: Envelope, id: Hash): Cursor { Cursor(c.next + 1, Some(id), e.receivedMs, c.drained) }

  /** The drain ends where the cursor stands. */
  predicate Ends(c: Cursor, d: Closing) {
    && d.last + 1 == c.next && d.final == (if d.last == 0 then None else c.last)
    && (c.drained == None || c.drained == Some(d.last))
  }

  /** The work is not credited to another share, and the share is not another one. */
  predicate Creditable(l: Ledger, share: Share, shareId: nat) {
    && (share.work in l.credits ==> l.credits[share.work] == shareId)
    && (shareId in l.shares ==> l.shares[shareId] == share)
  }

  predicate MayDispose(l: Ledger, e: Envelope, r: Receipt, share: Option<Share>, codec: Codec) {
    && codec.id(e) !in l.journal && codec.id(e) !in l.envelopes && Current(l, e.assignment)
    && NextUp(CursorAt(l.cursors, e.assignment), e) && Answers(e, r, codec) && (r.outcome == ACCEPTED <==> share.Some?)
    && (share.Some? ==> share.value.envelope == codec.id(e) && Creditable(l, share.value, r.shareId))
  }

  predicate MaySucceed(l: Ledger, s: Succession) {
    && l.head == Some(s.previous) && s.previous in l.states && l.states[s.previous] == Sealed
    && CursorAt(l.cursors, s.previous).drained == Some(s.last) && s.next !in l.states && s.previous !in l.successions
  }

  predicate MayPost(l: Ledger, p: Posting, codec: Codec) {
    match p
    case Authorize(a) => (l.head == None || l.head == Some(a)) && (a in l.states ==> l.states[a] == Open)
    case Dispose(e, r, share) => MayDispose(l, e, r, share, codec)
    case Seal(d) =>
      Current(l, d.assignment) && Ends(CursorAt(l.cursors, d.assignment), d) && d.assignment !in l.closings
    case AnswerDrain(d) =>
      && d.closing.assignment in l.closings && l.closings[d.closing.assignment] == d.closing
      && d.closing.assignment !in l.answers
    case Succeed(s) => MaySucceed(l, s)
  }

  function Disposed(l: Ledger, e: Envelope, r: Receipt, share: Option<Share>, codec: Codec): Ledger {
    var (id, a) := (codec.id(e), e.assignment);
    l.(envelopes := l.envelopes[id := e], journal := l.journal[id := r],
       cursors := l.cursors[a := Advanced(CursorAt(l.cursors, a), e, id)],
       credits := if share.Some? then l.credits[share.value.work := r.shareId] else l.credits,
       shares := if share.Some? then l.shares[r.shareId := share.value] else l.shares)
  }

  function SealedBy(l: Ledger, d: Closing): Ledger {
    var a := d.assignment;
    l.(states := l.states[a := Sealed], closings := l.closings[a := d],
       cursors := l.cursors[a := CursorAt(l.cursors, a).(drained := Some(d.last))])
  }

  function Posted(l: Ledger, p: Posting, codec: Codec): Ledger {
    match p
    case Authorize(a) => l.(head := Some(a), states := l.states[a := Open])
    case Dispose(e, r, share) => Disposed(l, e, r, share, codec)
    case Seal(d) => SealedBy(l, d)
    case AnswerDrain(d) => l.(answers := l.answers[d.closing.assignment := d])
    case Succeed(s) =>
      l.(head := Some(s.next), states := l.states[s.next := Open], successions := l.successions[s.previous := s])
  }

  // ---- What every ledger satisfies ----

  /** Only the assignment at the head may be open; the others are drained and have a successor. */
  predicate HeadPart(l: Ledger) {
    && (l.head == None ==> l.states == map[]) && (l.head.Some? ==> l.head.value in l.states)
    && (forall a :: a in l.states && l.head != Some(a) ==> l.states[a] == Sealed)
    && (forall a :: a in l.successions ==> a in l.states && l.head != Some(a))
  }

  predicate JournalPart(l: Ledger, codec: Codec) {
    && l.journal.Keys == l.envelopes.Keys
    && forall h :: h in l.journal ==> Entered(l, h, codec)
  }

  predicate Entered(l: Ledger, h: Hash, codec: Codec) {
    && h in l.journal && h in l.envelopes && codec.id(l.envelopes[h]) == h
       && Answers(l.envelopes[h], l.journal[h], codec)
    && l.envelopes[h].assignment in l.states
  }

  /** Envelope h is capture n of the assignment. */
  predicate Numbers(envelopes: map<Hash, Envelope>, h: Hash, a: Id, n: nat) {
    h in envelopes && envelopes[h].assignment == a && envelopes[h].sequence == n
  }

  ghost predicate Taken(envelopes: map<Hash, Envelope>, a: Id, n: nat) { exists h :: Numbers(envelopes, h, a, n) }

  /** The disposed captures of an assignment are exactly those before the cursor, one each, in order of arrival. */
  ghost predicate Consecutive(envelopes: map<Hash, Envelope>, a: Id, c: Cursor) {
    && c.next >= 1 && (c.last == None <==> c.next == 1)
    && (forall h :: h in envelopes && envelopes[h].assignment == a ==> 1 <= envelopes[h].sequence < c.next)
    && (forall n: nat :: 1 <= n < c.next ==> Taken(envelopes, a, n))
    && (forall h, k, n: nat :: Numbers(envelopes, h, a, n) && Numbers(envelopes, k, a, n) ==> h == k)
    && (c.last.Some? ==> Numbers(envelopes, c.last.value, a, c.next - 1))
    && (c.last.Some? ==> envelopes[c.last.value].receivedMs == c.lastMs)
    && (forall h :: h in envelopes && envelopes[h].assignment == a ==> envelopes[h].receivedMs <= c.lastMs)
    && InTime(envelopes, a)
  }

  predicate InTime(envelopes: map<Hash, Envelope>, a: Id) {
    forall h, k :: h in envelopes && k in envelopes && envelopes[h].assignment == a == envelopes[k].assignment
                   && envelopes[h].sequence <= envelopes[k].sequence ==>
      envelopes[h].receivedMs <= envelopes[k].receivedMs
  }

  ghost predicate InOrder(l: Ledger, a: Id) { Consecutive(l.envelopes, a, CursorAt(l.cursors, a)) }

  ghost predicate NumberPart(l: Ledger) { forall a :: InOrder(l, a) }

  /** A drained assignment ends where its cursor stands. */
  predicate SealPart(l: Ledger) {
    && l.cursors.Keys <= l.states.Keys && l.closings.Keys <= l.states.Keys && l.answers.Keys <= l.closings.Keys
    && (forall a :: a in l.states ==> SealAt(l, a))
    && (forall a :: a in l.answers ==> l.answers[a].closing == l.closings[a])
  }

  predicate SealAt(l: Ledger, a: Id) { a in l.states && SealFits(l.states[a], a, CursorAt(l.cursors, a), l.closings) }

  predicate SealFits(status: Status, a: Id, c: Cursor, closings: map<Id, Closing>) {
    && (status == Sealed <==> a in closings) && (status == Open <==> c.drained == None)
    && (a in closings ==> closings[a].assignment == a && Ends(c, closings[a]) && c.drained == Some(closings[a].last))
  }

  /** Accepted dispositions, accepted shares and credited works are in one to one correspondence. */
  predicate CreditPart(l: Ledger) {
    && (forall w :: w in l.credits ==> l.credits[w] in l.shares && l.shares[l.credits[w]].work == w)
    && (forall s :: s in l.shares ==> ShareAt(l, s))
    && (forall h :: h in l.journal && l.journal[h].outcome == ACCEPTED ==> Credited(l, h))
  }

  predicate ShareAt(l: Ledger, s: nat) {
    && s in l.shares && l.shares[s].work in l.credits && l.credits[l.shares[s].work] == s
    && l.shares[s].envelope in l.journal && l.journal[l.shares[s].envelope].outcome == ACCEPTED
    && l.journal[l.shares[s].envelope].shareId == s
  }

  predicate Credited(l: Ledger, h: Hash) {
    h in l.journal && l.journal[h].shareId in l.shares && l.shares[l.journal[h].shareId].envelope == h
  }

  ghost predicate LedgerOk(l: Ledger, codec: Codec) {
    HeadPart(l) && JournalPart(l, codec) && NumberPart(l) && SealPart(l) && CreditPart(l)
  }

  lemma BlankOk(codec: Codec)
    ensures LedgerOk(BLANK, codec)
  {
  }

  // ---- A disposition ----

  lemma DisposeConsecutive(envelopes: map<Hash, Envelope>, e: Envelope, id: Hash, c: Cursor)
    requires Consecutive(envelopes, e.assignment, c) && NextUp(c, e) && id !in envelopes
    ensures Consecutive(envelopes[id := e], e.assignment, Advanced(c, e, id))
  {
    var (a, after, d) := (e.assignment, envelopes[id := e], Advanced(c, e, id));
    assert Numbers(after, id, a, c.next);
    forall n: nat | 1 <= n < d.next ensures Taken(after, a, n) {
      if n < c.next {
        assert Taken(envelopes, a, n);
        var h :| Numbers(envelopes, h, a, n);
        assert Numbers(after, h, a, n);
      }
    }
    forall h, k, n: nat | Numbers(after, h, a, n) && Numbers(after, k, a, n) ensures h == k {
      if h != id && k != id {
        assert Numbers(envelopes, h, a, n) && Numbers(envelopes, k, a, n);
      }
    }
  }

  lemma OtherConsecutive(envelopes: map<Hash, Envelope>, e: Envelope, id: Hash, a: Id, c: Cursor)
    requires Consecutive(envelopes, a, c) && a != e.assignment && id !in envelopes
    ensures Consecutive(envelopes[id := e], a, c)
  {
    var after := envelopes[id := e];
    forall n: nat | 1 <= n < c.next ensures Taken(after, a, n) {
      assert Taken(envelopes, a, n);
      var h :| Numbers(envelopes, h, a, n);
      assert Numbers(after, h, a, n);
    }
    forall h, k, n: nat | Numbers(after, h, a, n) && Numbers(after, k, a, n) ensures h == k {
      assert Numbers(envelopes, h, a, n) && Numbers(envelopes, k, a, n);
    }
  }

  lemma DisposeNumbers(l: Ledger, e: Envelope, r: Receipt, share: Option<Share>, codec: Codec)
    requires NumberPart(l) && MayDispose(l, e, r, share, codec)
    ensures NumberPart(Disposed(l, e, r, share, codec))
  {
    var m := Disposed(l, e, r, share, codec);
    forall a ensures InOrder(m, a) {
      assert InOrder(l, a);
      if a == e.assignment {
        DisposeConsecutive(l.envelopes, e, codec.id(e), CursorAt(l.cursors, a));
      } else {
        assert CursorAt(m.cursors, a) == CursorAt(l.cursors, a);
        OtherConsecutive(l.envelopes, e, codec.id(e), a, CursorAt(l.cursors, a));
      }
    }
  }

  lemma DisposeJournal(l: Ledger, e: Envelope, r: Receipt, share: Option<Share>, codec: Codec)
    requires JournalPart(l, codec) && MayDispose(l, e, r, share, codec)
    ensures JournalPart(Disposed(l, e, r, share, codec), codec)
  {
    var m := Disposed(l, e, r, share, codec);
    forall h | h in m.journal ensures Entered(m, h, codec) {
      if h != codec.id(e) {
        assert Entered(l, h, codec);
      }
    }
  }

  /** A share that may be credited is new, and so is its work. */
  lemma CreditIsNew(l: Ledger, share: Share, shareId: nat)
    requires CreditPart(l) && Creditable(l, share, shareId) && share.envelope !in l.journal
    ensures share.work !in l.credits && shareId !in l.shares
  {
    assert shareId !in l.shares by {
      if shareId in l.shares && ShareAt(l, shareId) {
        assert false;
      }
    }
  }

  lemma DisposeCredits(l: Ledger, e: Envelope, r: Receipt, share: Option<Share>, codec: Codec)
    requires CreditPart(l) && MayDispose(l, e, r, share, codec)
    ensures CreditPart(Disposed(l, e, r, share, codec))
  {
    var (m, id) := (Disposed(l, e, r, share, codec), codec.id(e));
    if share.Some? {
      CreditIsNew(l, share.value, r.shareId);
    }
    forall s | s in m.shares ensures ShareAt(m, s) {
      if s in l.shares {
        assert ShareAt(l, s);
      }
    }
    forall h | h in m.journal && m.journal[h].outcome == ACCEPTED ensures Credited(m, h) {
      if h != id {
        assert Credited(l, h);
      }
    }
  }

  lemma DisposeSeals(l: Ledger, e: Envelope, r: Receipt, share: Option<Share>, codec: Codec)
    requires SealPart(l) && MayDispose(l, e, r, share, codec)
    ensures SealPart(Disposed(l, e, r, share, codec))
  {
    var m := Disposed(l, e, r, share, codec);
    forall a | a in m.states ensures SealAt(m, a) {
      assert SealAt(l, a);
    }
  }

  lemma DisposeKeeps(l: Ledger, e: Envelope, r: Receipt, share: Option<Share>, codec: Codec)
    requires LedgerOk(l, codec) && MayDispose(l, e, r, share, codec)
    ensures LedgerOk(Disposed(l, e, r, share, codec), codec)
  {
    DisposeNumbers(l, e, r, share, codec);
    DisposeJournal(l, e, r, share, codec);
    DisposeCredits(l, e, r, share, codec);
    DisposeSeals(l, e, r, share, codec);
  }

  // ---- The other postings ----

  predicate SameCursor(l: Ledger, m: Ledger, a: Id) {
    CursorAt(m.cursors, a).(drained := None) == CursorAt(l.cursors, a).(drained := None)
  }

  lemma SamePlace(envelopes: map<Hash, Envelope>, a: Id, c: Cursor, d: Cursor)
    requires Consecutive(envelopes, a, c) && d.(drained := None) == c.(drained := None)
    ensures Consecutive(envelopes, a, d)
  {
  }

  /** Where envelopes and cursor positions stay, captures stay consecutive. */
  lemma SameNumbers(l: Ledger, m: Ledger)
    requires NumberPart(l) && m.envelopes == l.envelopes
    requires forall a :: SameCursor(l, m, a)
    ensures NumberPart(m)
  {
    forall a ensures InOrder(m, a) {
      assert InOrder(l, a) && SameCursor(l, m, a);
      SamePlace(l.envelopes, a, CursorAt(l.cursors, a), CursorAt(m.cursors, a));
    }
  }

  lemma SameJournal(l: Ledger, m: Ledger, codec: Codec)
    requires JournalPart(l, codec) && m.envelopes == l.envelopes && m.journal == l.journal
    requires l.states.Keys <= m.states.Keys
    ensures JournalPart(m, codec)
  {
    forall h | h in m.journal ensures Entered(m, h, codec) {
      assert Entered(l, h, codec);
    }
  }

  lemma SameCredits(l: Ledger, m: Ledger)
    requires CreditPart(l) && m.journal == l.journal && m.credits == l.credits && m.shares == l.shares
    ensures CreditPart(m)
  {
    forall s | s in m.shares ensures ShareAt(m, s) {
      assert ShareAt(l, s);
    }
    forall h | h in m.journal && m.journal[h].outcome == ACCEPTED ensures Credited(m, h) {
      assert Credited(l, h);
    }
  }

  lemma SealSeals(l: Ledger, d: Closing)
    requires SealPart(l) && Current(l, d.assignment) && Ends(CursorAt(l.cursors, d.assignment), d)
    ensures SealPart(SealedBy(l, d))
  {
    var m := SealedBy(l, d);
    forall a | a in m.states ensures SealAt(m, a) {
      assert SealAt(l, a);
    }
    forall a | a in m.answers ensures m.answers[a].closing == m.closings[a] {
      assert SealAt(l, a);
    }
  }

  lemma SealKeeps(l: Ledger, d: Closing, codec: Codec)
    requires LedgerOk(l, codec) && MayPost(l, Seal(d), codec)
    ensures LedgerOk(SealedBy(l, d), codec)
  {
    var m := SealedBy(l, d);
    forall a ensures SameCursor(l, m, a) {
    }
    SameNumbers(l, m);
    SameJournal(l, m, codec);
    SameCredits(l, m);
    SealSeals(l, d);
  }

  lemma OpenKeeps(l: Ledger, m: Ledger, a: Id, codec: Codec)
    requires LedgerOk(l, codec) && (a in l.states ==> l.states[a] == Open)
    requires m == l.(head := m.head, states := l.states[a := Open], successions := m.successions)
    ensures NumberPart(m) && JournalPart(m, codec) && CreditPart(m) && SealPart(m)
  {
    SameNumbers(l, m);
    SameJournal(l, m, codec);
    SameCredits(l, m);
    OpenSeals(l, m, a);
  }

  lemma OpenSeals(l: Ledger, m: Ledger, a: Id)
    requires SealPart(l) && (a in l.states ==> l.states[a] == Open)
    requires m == l.(head := m.head, states := l.states[a := Open], successions := m.successions)
    ensures SealPart(m)
  {
    forall b | b in m.states ensures SealAt(m, b) {
      if b in l.states {
        assert SealAt(l, b);
      }
    }
  }

  lemma PostKeepsLedger(l: Ledger, p: Posting, codec: Codec)
    requires LedgerOk(l, codec) && MayPost(l, p, codec)
    ensures LedgerOk(Posted(l, p, codec), codec)
  {
    match p {
      case Authorize(a) => AuthorizeKeeps(l, a, codec);
      case Dispose(e, r, share) => DisposeKeeps(l, e, r, share, codec);
      case Seal(d) => SealKeeps(l, d, codec);
      case AnswerDrain(d) => AnswerKeeps(l, d, codec);
      case Succeed(s) => SucceedKeeps(l, s, codec);
    }
  }

  lemma AuthorizeKeeps(l: Ledger, a: Id, codec: Codec)
    requires LedgerOk(l, codec) && MayPost(l, Authorize(a), codec)
    ensures LedgerOk(Posted(l, Authorize(a), codec), codec)
  {
    OpenKeeps(l, Posted(l, Authorize(a), codec), a, codec);
  }

  lemma SucceedKeeps(l: Ledger, s: Succession, codec: Codec)
    requires LedgerOk(l, codec) && MayPost(l, Succeed(s), codec)
    ensures LedgerOk(Posted(l, Succeed(s), codec), codec)
  {
    OpenKeeps(l, Posted(l, Succeed(s), codec), s.next, codec);
  }

  lemma AnswerKeeps(l: Ledger, d: DrainAnswer, codec: Codec)
    requires LedgerOk(l, codec) && MayPost(l, AnswerDrain(d), codec)
    ensures LedgerOk(Posted(l, AnswerDrain(d), codec), codec)
  {
    var m := Posted(l, AnswerDrain(d), codec);
    SameNumbers(l, m);
    SameJournal(l, m, codec);
    SameCredits(l, m);
    forall a | a in m.states ensures SealAt(m, a) {
      assert SealAt(l, a);
    }
  }

  // ---- What follows ----

  /** One credit per work: two accepted dispositions of the same work are the same. */
  lemma CreditedOnce(l: Ledger, h: Hash, k: Hash, codec: Codec)
    requires LedgerOk(l, codec) && h in l.journal && k in l.journal
    requires l.journal[h].outcome == ACCEPTED && l.journal[k].outcome == ACCEPTED
    ensures l.journal[h].shareId in l.shares && l.journal[k].shareId in l.shares
    ensures l.shares[l.journal[h].shareId].work == l.shares[l.journal[k].shareId].work ==> h == k
  {
    assert Credited(l, h) && Credited(l, k);
    assert ShareAt(l, l.journal[h].shareId) && ShareAt(l, l.journal[k].shareId);
  }

  /** The captures of a drained assignment that Core disposed of are exactly those the drain covers. */
  lemma SealedIsDisposed(l: Ledger, a: Id, n: nat, codec: Codec)
    requires LedgerOk(l, codec) && a in l.states && l.states[a] == Sealed
    ensures a in l.closings
    ensures 1 <= n <= l.closings[a].last <==> exists h :: h in l.journal && Numbers(l.envelopes, h, a, n)
    ensures n == l.closings[a].last > 0 ==>
            l.closings[a].final.Some? && Numbers(l.envelopes, l.closings[a].final.value, a, n)
  {
    assert SealAt(l, a) && InOrder(l, a);
    if 1 <= n <= l.closings[a].last {
      assert Taken(l.envelopes, a, n);
      var h :| Numbers(l.envelopes, h, a, n);
      assert h in l.journal;
    }
  }

  // ---- Whole runs ----

  predicate LedgerStep(l: Ledger, p: Posting, m: Ledger, codec: Codec) {
    MayPost(l, p, codec) && m == Posted(l, p, codec)
  }

  function StepIn(codec: Codec): (Ledger, Posting, Ledger) -> bool {
    (l: Ledger, p: Posting, m: Ledger) => LedgerStep(l, p, m, codec)
  }

  /** Postings from a blank ledger; a crash posts nothing. */
  ghost predicate Posts(ledgers: seq<Ledger>, ps: seq<Posting>, codec: Codec) {
    IsTrace(ledgers, ps, StepIn(codec)) && ledgers[0] == BLANK
  }

  ghost function OkIn(codec: Codec): Ledger -> bool { (l: Ledger) => LedgerOk(l, codec) }

  lemma PostsKeepLedger(ledgers: seq<Ledger>, ps: seq<Posting>, k: nat, codec: Codec)
    requires Posts(ledgers, ps, codec) && k < |ledgers|
    ensures LedgerOk(ledgers[k], codec)
  {
    BlankOk(codec);
    assert Preserved(StepIn(codec), OkIn(codec)) by {
      forall l, p, m | OkIn(codec)(l) && StepIn(codec)(l, p, m) ensures OkIn(codec)(m) {
        PostKeepsLedger(l, p, codec);
      }
    }
    Forever(ledgers, ps, StepIn(codec), OkIn(codec), 0, k);
  }

  /** What an assignment has come to. */
  predicate ClosedAs(l: Ledger, a: Id, closing: Closing, captures: set<Hash>) {
    && a in l.states && l.states[a] == Sealed && a in l.closings && l.closings[a] == closing
    && captures == CapturesOf(l, a)
  }

  function CapturesOf(l: Ledger, a: Id): set<Hash> { set h | h in l.envelopes && l.envelopes[h].assignment == a }

  lemma ClosedStays(l: Ledger, p: Posting, m: Ledger, a: Id, closing: Closing, captures: set<Hash>, codec: Codec)
    requires HeadPart(l) && LedgerStep(l, p, m, codec) && ClosedAs(l, a, closing, captures)
    ensures ClosedAs(m, a, closing, captures)
  {
    match p {
      case Dispose(e, _, _) => assert CapturesOf(m, a) == CapturesOf(l, a);
      case _ =>
    }
  }

  ghost function ClosedIn(codec: Codec, a: Id, closing: Closing, captures: set<Hash>): Ledger -> bool {
    (l: Ledger) => LedgerOk(l, codec) && ClosedAs(l, a, closing, captures)
  }

  /** Once drained, an assignment stays drained, and no capture of it is disposed of any more. */
  lemma SealedForever(ledgers: seq<Ledger>, ps: seq<Posting>, i: nat, k: nat, a: Id, codec: Codec)
    requires Posts(ledgers, ps, codec) && i <= k < |ledgers| && a in ledgers[i].states && ledgers[i].states[a] == Sealed
    ensures a in ledgers[i].closings
    ensures ClosedAs(ledgers[k], a, ledgers[i].closings[a], CapturesOf(ledgers[i], a))
  {
    PostsKeepLedger(ledgers, ps, i, codec);
    assert SealAt(ledgers[i], a);
    var inv := ClosedIn(codec, a, ledgers[i].closings[a], CapturesOf(ledgers[i], a));
    assert Preserved(StepIn(codec), inv) by {
      forall l, p, m | inv(l) && StepIn(codec)(l, p, m) ensures inv(m) {
        PostKeepsLedger(l, p, codec);
        ClosedStays(l, p, m, a, ledgers[i].closings[a], CapturesOf(ledgers[i], a), codec);
      }
    }
    Forever(ledgers, ps, StepIn(codec), inv, i, k);
  }
}
