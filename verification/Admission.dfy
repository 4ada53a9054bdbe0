/**
 Core's assignment activation and capture admission
 (crates/meshmine-core-link/src/admission.rs, bundle.rs) over the records of
 module Handoff. Calls do not overlap, but a crash may come between any two
 writes of a call. The history lists the bundles that were ever active; it is
 not stored.
 */
module Admission {
  import opened Wrappers
  import opened GatewayStore
  import opened Spool
  import opened Client
  import opened Handoff
  import opened Traces

  datatype Core = Core(bundles: map<Hash, Bundle>, index: map<Id, Hash>, active: Option<Hash>, pending: Option<Hash>)

  const UNUSED: Core := Core(map[], map[], None, None)

  /** What bundle validation promises about the links between bundles. */
  predicate Linked(b: Bundle) {
    match b.replacement
    case None => b.sequence == 1 && b.previousBundle == None
    case Some(replacement) => b.sequence > 1 && b.previousBundle.Some? && replacement.previous != b.assignment
  }

  /** The next bundle by identity, assignment and number. */
  predicate Successor(a: Bundle, b: Bundle) {
    && b.replacement.Some? && b.replacement.value.previous == a.assignment
    && b.previousBundle == Some(a.id) && b.sequence == a.sequence + 1
  }

  predicate First(b: Bundle) { b.sequence == 1 && b.replacement == None }

  // ---- What every state satisfies ----

  predicate StoredOk(bundles: map<Hash, Bundle>, index: map<Id, Hash>) {
    && (forall id :: id in bundles ==> bundles[id].id == id && Linked(bundles[id]) && bundles[id].assignment in index
                                       && index[bundles[id].assignment] == id)
    && (forall a :: a in index ==> index[a] in bundles && bundles[index[a]].assignment == a)
  }

  predicate PointersOk(c: Core) {
    match c.active
    case None => c.pending == None
    case Some(id) => id in c.bundles && (c.pending.Some? ==>
                                         c.pending.value in c.bundles
                                           && Successor(c.bundles[id], c.bundles[c.pending.value]))
  }

  /** The active bundles so far: from the first, each the successor of the one before. */
  predicate Chain(bundles: map<Hash, Bundle>, history: seq<Hash>) {
    && (forall i :: 0 <= i < |history| ==> history[i] in bundles && bundles[history[i]].sequence == i + 1)
    && (history != [] ==> First(bundles[history[0]]))
    && (forall i :: 0 < i < |history| ==> Successor(bundles[history[i - 1]], bundles[history[i]]))
  }

  predicate EndsIn(history: seq<Hash>, active: Option<Hash>) {
    active == if history == [] then None else Some(history[|history| - 1])
  }

  predicate CoreOk(c: Core, history: seq<Hash>) {
    StoredOk(c.bundles, c.index) && PointersOk(c) && Chain(c.bundles, history) && EndsIn(history, c.active)
  }

  // ---- Verdicts on shares ----

  datatype ShareError =
    | DuplicateWork | MissedTarget | RawShareHash | ParentOracleRejected | SessionNotOpen | OperatorSignature
    | GatewayHandoff | Linkage | OtherError

  /** Share validation: the identity of a valid share, or what is wrong with it. */
  datatype Verdict = Validated(shareId: nat) | Failed(error: ShareError)

  const REASON_VALIDATED: nat := 0
  const REASON_DUPLICATE_WORK: nat := 1

  function ShareReason(error: ShareError): nat {
    match error
    case DuplicateWork => REASON_DUPLICATE_WORK
    case Linkage => 2
    case MissedTarget => 3
    case RawShareHash => 3
    case ParentOracleRejected => 4
    case SessionNotOpen => 5
    case OperatorSignature => 6
    case GatewayHandoff => 7
    case OtherError => 0xffff
  }

  /** Reasons tell the errors apart, but for the two ways to miss the target, and none reads as valid. */
  lemma ReasonsTellApart(first: ShareError, second: ShareError)
    ensures ShareReason(first) == ShareReason(second) <==>
            first == second || (first in {MissedTarget, RawShareHash} && second in {MissedTarget, RawShareHash})
    ensures ShareReason(first) != REASON_VALIDATED
  {
  }

  function WorkOf(b: Bundle, e: Envelope): Work {
    Work(b.session, b.body, e.ntime, e.extraNonce, e.nonce, e.shareHash)
  }

  /** Shares have the same work exactly if they are the same proof for the same block. */
  lemma SameWorkSameProof(b: Bundle, e: Envelope, c: Bundle, f: Envelope)
    ensures WorkOf(b, e) == WorkOf(c, f) <==>
            && b.session == c.session && b.body == c.body && e.ntime == f.ntime && e.extraNonce == f.extraNonce
            && e.nonce == f.nonce && e.shareHash == f.shareHash
  {
  }

  /**
   The parts of Core that are parameters: bundle validation with the parent oracle, share validation, the checks on an
   envelope at the time of writing, the manifest sequence, and the checks on drains and transitions.
   */
  datatype Rulings = Rulings(
    valid: (Bundle, nat) -> bool, judge: (Bundle, Envelope, nat) -> Verdict, fits: (Bundle, Envelope, nat) -> bool,
    manifest: (Bundle, nat) -> bool, closes: (Bundle, Closing) -> bool, succeeds: (Bundle, Succession) -> bool,
    codec: Codec)

  /** A disposition that is about to be written follows the verdict. */
  predicate Follows(l: Ledger, b: Bundle, e: Envelope, r: Receipt, share: Option<Share>, rulings: Rulings) {
    match rulings.judge(b, e, r.receivedMs)
    case Failed(error) =>
      && share == None && r.outcome == (if error.DuplicateWork? then DUPLICATE else REJECTED)
      && r.reason == ShareReason(error) && r.shareId == 0
    case Validated(s) =>
      if share.Some?
      then
        && share.value == Share(WorkOf(b, e), rulings.codec.id(e))
        && r.outcome == ACCEPTED && r.reason == REASON_VALIDATED && r.shareId == s
      else
        && WorkOf(b, e) in l.credits && l.credits[WorkOf(b, e)] != s
        && r.outcome == DUPLICATE && r.reason == REASON_DUPLICATE_WORK && r.shareId == 0
  }

  /**
   What a receipt means: a share that is not valid is rejected for its reason; a valid one is credited, or its work is
   already credited to another share.
   */
  predicate Decided(l: Ledger, b: Bundle, e: Envelope, r: Receipt, rulings: Rulings) {
    match rulings.judge(b, e, r.receivedMs)
    case Failed(error) =>
      && r.outcome == (if error.DuplicateWork? then DUPLICATE else REJECTED)
      && r.reason == ShareReason(error) && r.shareId == 0
    case Validated(s) =>
      && WorkOf(b, e) in l.credits
      && if l.credits[WorkOf(b, e)] == s
         then r.outcome == ACCEPTED && r.shareId == s && s in l.shares && l.shares[s].envelope == r.envelopeId
         else r.outcome == DUPLICATE && r.shareId == 0
  }

  predicate Ruled(c: Core, l: Ledger, h: Hash, rulings: Rulings) {
    && h in l.journal && h in l.envelopes && l.envelopes[h].assignment in c.index
    && c.index[l.envelopes[h].assignment] in c.bundles
    && Decided(l, c.bundles[c.index[l.envelopes[h].assignment]], l.envelopes[h], l.journal[h], rulings)
  }

  predicate AllRuled(c: Core, l: Ledger, rulings: Rulings) { forall h :: h in l.journal ==> Ruled(c, l, h, rulings) }

  // ---- Pointers and records agree ----

  /** The head is the active assignment, or the pending one once the active one is drained. */
  predicate HeadsAgree(c: Core, l: Ledger) {
    match c.active
    case None => l.head.Some? ==> Current(l, l.head.value)
    case Some(id) =>
      && id in c.bundles && c.bundles[id].assignment in l.states
      && (|| l.head == Some(c.bundles[id].assignment)
          || (c.pending.Some? && c.pending.value in c.bundles
              && l.head == Some(c.bundles[c.pending.value].assignment)))
  }

  /** Every bundle that was replaced is drained. */
  predicate ReplacedSealed(bundles: map<Hash, Bundle>, history: seq<Hash>, states: map<Id, Status>) {
    forall i :: 0 <= i < |history| - 1 ==>
      history[i] in bundles && bundles[history[i]].assignment in states
        && states[bundles[history[i]].assignment] == Sealed
  }

  datatype Book = Book(core: Core, ledger: Ledger, history: seq<Hash>)

  ghost predicate LedgerSound(l: Ledger, codec: Codec) {
    forall i: int {:trigger Opened(i)} :: Opened(i) && i == 29 ==> LedgerOk(l, codec)
  }

  ghost predicate RulingsKept(c: Core, l: Ledger, rulings: Rulings) {
    forall i: int {:trigger Opened(i)} :: Opened(i) && i == 30 ==> AllRuled(c, l, rulings)
  }

  ghost predicate BookOk(b: Book, rulings: Rulings) {
    && CoreOk(b.core, b.history) && HeadsAgree(b.core, b.ledger)
    && ReplacedSealed(b.core.bundles, b.history, b.ledger.states)
    && LedgerSound(b.ledger, rulings.codec) && RulingsKept(b.core, b.ledger, rulings)
  }

  lemma BookMeans(b: Book, rulings: Rulings)
    requires BookOk(b, rulings)
    ensures LedgerOk(b.ledger, rulings.codec) && AllRuled(b.core, b.ledger, rulings)
  {
    assert Opened(29) && Opened(30);
  }

  // ---- The atomic writes ----

  datatype CoreWrite =
    | StoreBundle(bundle: Bundle) | Activate(first: Hash) | MarkPending(next: Hash) | Advance | Post(posting: Posting)

  predicate ActiveIs(c: Core, a: Id) {
    c.active.Some? && c.active.value in c.bundles && c.bundles[c.active.value].assignment == a
  }

  predicate PendingIs(c: Core, a: Id) {
    c.pending.Some? && c.pending.value in c.bundles && c.bundles[c.pending.value].assignment == a
  }

  /** When Core makes a posting, beyond the posting's own conditions. */
  predicate PostFits(c: Core, l: Ledger, p: Posting, rulings: Rulings) {
    match p
    case Authorize(_) => c.active == None
    case Dispose(e, r, share) =>
      && e.assignment in c.index && c.index[e.assignment] in c.bundles
      && Follows(l, c.bundles[c.index[e.assignment]], e, r, share, rulings)
    case Seal(d) => ActiveIs(c, d.assignment)
    case AnswerDrain(_) => true
    case Succeed(s) => ActiveIs(c, s.previous) && PendingIs(c, s.next)
  }

  predicate MayWrite(b: Book, w: CoreWrite, rulings: Rulings) {
    var c := b.core;
    match w
    case StoreBundle(bundle) => bundle.id !in c.bundles && bundle.assignment !in c.index && Linked(bundle)
    case Activate(id) =>
      c.active == None && id in c.bundles && First(c.bundles[id]) && b.ledger.head == Some(c.bundles[id].assignment)
    case MarkPending(id) =>
      && c.active.Some? && c.pending == None && id in c.bundles && c.active.value in c.bundles
      && Successor(c.bundles[c.active.value], c.bundles[id])
    case Advance => c.active.Some? && c.pending.Some? && b.ledger.head.Some? && PendingIs(c, b.ledger.head.value)
    case Post(p) => MayPost(b.ledger, p, rulings.codec) && PostFits(c, b.ledger, p, rulings)
  }

  function CoreAfter(c: Core, w: CoreWrite): Core {
    match w
    case StoreBundle(b) => c.(bundles := c.bundles[b.id := b], index := c.index[b.assignment := b.id])
    case Activate(id) => c.(active := Some(id))
    case MarkPending(id) => c.(pending := Some(id))
    case Advance => c.(active := c.pending, pending := None)
    case Post(_) => c
  }

  function HistoryAfter(history: seq<Hash>, c: Core, w: CoreWrite): seq<Hash> {
    match w
    case Activate(id) => history + [id]
    case Advance => if c.pending.Some? then history + [c.pending.value] else history
    case _ => history
  }

  function After(b: Book, w: CoreWrite, codec: Codec): Book {
    Book(CoreAfter(b.core, w), if w.Post? then Posted(b.ledger, w.posting, codec) else b.ledger,
         HistoryAfter(b.history, b.core, w))
  }

  // ---- Every write keeps the book ----

  lemma StoreKeeps(c: Core, history: seq<Hash>, b: Bundle)
    requires CoreOk(c, history) && b.id !in c.bundles && b.assignment !in c.index && Linked(b)
    ensures CoreOk(CoreAfter(c, StoreBundle(b)), history)
  {
    StoredAdd(c.bundles, c.index, b);
    ChainGrows(c.bundles, history, b);
  }

  lemma StoredAdd(bundles: map<Hash, Bundle>, index: map<Id, Hash>, b: Bundle)
    requires StoredOk(bundles, index) && b.id !in bundles && b.assignment !in index && Linked(b)
    ensures StoredOk(bundles[b.id := b], index[b.assignment := b.id])
  {
  }

  lemma ChainGrows(bundles: map<Hash, Bundle>, history: seq<Hash>, b: Bundle)
    requires Chain(bundles, history) && b.id !in bundles
    ensures Chain(bundles[b.id := b], history)
  {
  }

  lemma ActivateKeeps(c: Core, history: seq<Hash>, id: Hash)
    requires CoreOk(c, history) && c.active == None && id in c.bundles && First(c.bundles[id])
    ensures CoreOk(CoreAfter(c, Activate(id)), history + [id])
  {
  }

  lemma AdvanceKeeps(c: Core, history: seq<Hash>)
    requires CoreOk(c, history) && c.active.Some? && c.pending.Some?
    ensures CoreOk(CoreAfter(c, Advance), history + [c.pending.value])
  {
  }

  lemma PointersKept(b: Book, w: CoreWrite, rulings: Rulings)
    requires CoreOk(b.core, b.history) && MayWrite(b, w, rulings)
    ensures var t := After(b, w, rulings.codec); CoreOk(t.core, t.history)
  {
    match w {
      case StoreBundle(bundle) => StoreKeeps(b.core, b.history, bundle);
      case Activate(id) => ActivateKeeps(b.core, b.history, id);
      case MarkPending(id) =>
      case Advance => AdvanceKeeps(b.core, b.history);
      case Post(_) =>
    }
  }

  lemma LedgerKept(b: Book, w: CoreWrite, rulings: Rulings)
    requires LedgerSound(b.ledger, rulings.codec) && MayWrite(b, w, rulings)
    ensures LedgerSound(After(b, w, rulings.codec).ledger, rulings.codec)
  {
    if w.Post? {
      assert Opened(29);
      PostKeepsLedger(b.ledger, w.posting, rulings.codec);
    }
  }

  /** The successor of a bundle has another assignment. */
  lemma SuccessorDiffers(bundles: map<Hash, Bundle>, index: map<Id, Hash>, a: Hash, b: Hash)
    requires StoredOk(bundles, index) && a in bundles && b in bundles && Successor(bundles[a], bundles[b])
    ensures bundles[a].assignment != bundles[b].assignment
  {
    assert Linked(bundles[b]);
  }

  lemma PostHeads(c: Core, l: Ledger, p: Posting, rulings: Rulings)
    requires HeadsAgree(c, l) && HeadPart(l) && MayPost(l, p, rulings.codec) && PostFits(c, l, p, rulings)
    ensures HeadsAgree(c, Posted(l, p, rulings.codec))
  {
    match p {
      case Authorize(a) =>
      case Dispose(e, r, share) =>
      case Seal(d) =>
      case AnswerDrain(d) =>
      case Succeed(s) =>
    }
  }

  lemma PointerHeads(b: Book, w: CoreWrite, rulings: Rulings)
    requires CoreOk(b.core, b.history) && HeadsAgree(b.core, b.ledger) && MayWrite(b, w, rulings) && !w.Post?
    requires HeadPart(b.ledger)
    ensures HeadsAgree(CoreAfter(b.core, w), b.ledger)
  {
    match w {
      case StoreBundle(bundle) =>
      case Activate(id) =>
      case MarkPending(id) =>
      case Advance =>
    }
  }

  lemma HeadsKept(b: Book, w: CoreWrite, rulings: Rulings)
    requires CoreOk(b.core, b.history) && HeadsAgree(b.core, b.ledger) && HeadPart(b.ledger) && MayWrite(b, w, rulings)
    ensures var t := After(b, w, rulings.codec); HeadsAgree(t.core, t.ledger)
  {
    if w.Post? {
      PostHeads(b.core, b.ledger, w.posting, rulings);
    } else {
      PointerHeads(b, w, rulings);
    }
  }

  lemma ReplacedKept(b: Book, w: CoreWrite, rulings: Rulings)
    requires BookOk(b, rulings) && MayWrite(b, w, rulings)
    ensures var t := After(b, w, rulings.codec); ReplacedSealed(t.core.bundles, t.history, t.ledger.states)
  {
    BookMeans(b, rulings);
    match w {
      case Advance => AdvanceSeals(b, rulings);
      case Post(p) => SealedStay(b.ledger, p, rulings.codec);
      case _ =>
    }
  }

  lemma SealedStay(l: Ledger, p: Posting, codec: Codec)
    requires HeadPart(l) && MayPost(l, p, codec)
    ensures forall a :: a in l.states && l.states[a] == Sealed ==>
              a in Posted(l, p, codec).states && Posted(l, p, codec).states[a] == Sealed
  {
  }

  lemma AdvanceSeals(b: Book, rulings: Rulings)
    requires BookOk(b, rulings) && HeadPart(b.ledger) && MayWrite(b, Advance, rulings)
    ensures ReplacedSealed(b.core.bundles, b.history + [b.core.pending.value], b.ledger.states)
  {
    var (c, h) := (b.core, b.history);
    SuccessorDiffers(c.bundles, c.index, c.active.value, c.pending.value);
    forall i | 0 <= i < |h|
      ensures h[i] in c.bundles && c.bundles[h[i]].assignment in b.ledger.states
              && b.ledger.states[c.bundles[h[i]].assignment] == Sealed
    {
      if i == |h| - 1 {
        assert h[i] == c.active.value;
      }
    }
  }

  lemma SameRuling(c: Core, l: Ledger, d: Core, m: Ledger, rulings: Rulings, h: Hash)
    requires Ruled(c, l, h, rulings) && m.journal == l.journal && m.envelopes == l.envelopes
    requires m.credits == l.credits && m.shares == l.shares
    requires forall a :: a in c.index ==> a in d.index && d.index[a] == c.index[a]
    requires forall id :: id in c.bundles ==> id in d.bundles && d.bundles[id] == c.bundles[id]
    ensures Ruled(d, m, h, rulings)
  {
  }

  lemma PostLeaves(l: Ledger, p: Posting, codec: Codec)
    requires !p.Dispose?
    ensures var m := Posted(l, p, codec);
            m.journal == l.journal && m.envelopes == l.envelopes && m.credits == l.credits && m.shares == l.shares
  {
  }

  lemma PointersLeave(c: Core, w: CoreWrite)
    requires w.StoreBundle? ==> w.bundle.id !in c.bundles && w.bundle.assignment !in c.index
    ensures var d := CoreAfter(c, w);
            && (forall a :: a in c.index ==> a in d.index && d.index[a] == c.index[a])
            && (forall id :: id in c.bundles ==> id in d.bundles && d.bundles[id] == c.bundles[id])
  {
  }

  lemma RulingKept(b: Book, w: CoreWrite, rulings: Rulings, h: Hash)
    requires w.StoreBundle? ==> w.bundle.id !in b.core.bundles && w.bundle.assignment !in b.core.index
    requires Ruled(b.core, b.ledger, h, rulings) && !(w.Post? && w.posting.Dispose?)
    ensures var t := After(b, w, rulings.codec); Ruled(t.core, t.ledger, h, rulings)
  {
    var t := After(b, w, rulings.codec);
    PointersLeave(b.core, w);
    if w.Post? {
      PostLeaves(b.ledger, w.posting, rulings.codec);
    }
    SameRuling(b.core, b.ledger, t.core, t.ledger, rulings, h);
  }

  lemma RulingStays(b: Book, e: Envelope, r: Receipt, share: Option<Share>, rulings: Rulings, h: Hash)
    requires MayWrite(b, Post(Dispose(e, r, share)), rulings) && Ruled(b.core, b.ledger, h, rulings)
    requires CreditPart(b.ledger)
    ensures Ruled(b.core, Disposed(b.ledger, e, r, share, rulings.codec), h, rulings)
  {
    if share.Some? {
      CreditIsNew(b.ledger, share.value, r.shareId);
    }
  }

  lemma RulingNew(b: Book, e: Envelope, r: Receipt, share: Option<Share>, rulings: Rulings)
    requires MayWrite(b, Post(Dispose(e, r, share)), rulings)
    ensures Ruled(b.core, Disposed(b.ledger, e, r, share, rulings.codec), rulings.codec.id(e), rulings)
  {
  }

  lemma DisposeRules(b: Book, e: Envelope, r: Receipt, share: Option<Share>, rulings: Rulings)
    requires AllRuled(b.core, b.ledger, rulings) && CreditPart(b.ledger)
    requires MayWrite(b, Post(Dispose(e, r, share)), rulings)
    ensures AllRuled(b.core, Disposed(b.ledger, e, r, share, rulings.codec), rulings)
  {
    var m := Disposed(b.ledger, e, r, share, rulings.codec);
    forall h | h in m.journal ensures Ruled(b.core, m, h, rulings) {
      if h == rulings.codec.id(e) {
        RulingNew(b, e, r, share, rulings);
      } else {
        assert Ruled(b.core, b.ledger, h, rulings);
        RulingStays(b, e, r, share, rulings, h);
      }
    }
  }

  lemma OtherRules(b: Book, w: CoreWrite, rulings: Rulings)
    requires w.StoreBundle? ==> w.bundle.id !in b.core.bundles && w.bundle.assignment !in b.core.index
    requires AllRuled(b.core, b.ledger, rulings) && !(w.Post? && w.posting.Dispose?)
    ensures var t := After(b, w, rulings.codec); AllRuled(t.core, t.ledger, rulings)
  {
    var t := After(b, w, rulings.codec);
    if w.Post? {
      PostLeaves(b.ledger, w.posting, rulings.codec);
    }
    forall h | h in t.ledger.journal ensures Ruled(t.core, t.ledger, h, rulings) {
      assert Ruled(b.core, b.ledger, h, rulings);
      RulingKept(b, w, rulings, h);
    }
  }

  lemma AllRulingsKept(b: Book, w: CoreWrite, rulings: Rulings)
    requires BookOk(b, rulings) && MayWrite(b, w, rulings)
    ensures var t := After(b, w, rulings.codec); RulingsKept(t.core, t.ledger, rulings)
  {
    BookMeans(b, rulings);
    if w.Post? && w.posting.Dispose? {
      DisposeRules(b, w.posting.envelope, w.posting.receipt, w.posting.share, rulings);
    } else {
      OtherRules(b, w, rulings);
    }
  }

  lemma WriteKeepsBook(b: Book, w: CoreWrite, rulings: Rulings)
    requires BookOk(b, rulings) && MayWrite(b, w, rulings)
    ensures BookOk(After(b, w, rulings.codec), rulings)
  {
    PointersKept(b, w, rulings);
    LedgerKept(b, w, rulings);
    BookMeans(b, rulings);
    HeadsKept(b, w, rulings);
    ReplacedKept(b, w, rulings);
    AllRulingsKept(b, w, rulings);
  }

  // ---- Whole runs ----

  const NO_BOOK: Book := Book(UNUSED, BLANK, [])

  predicate CoreStep(b: Book, w: CoreWrite, t: Book, rulings: Rulings) {
    MayWrite(b, w, rulings) && t == After(b, w, rulings.codec)
  }

  function CoreSteps(rulings: Rulings): (Book, CoreWrite, Book) -> bool {
    (b: Book, w: CoreWrite, t: Book) => CoreStep(b, w, t, rulings)
  }

  ghost predicate Run(books: seq<Book>, ws: seq<CoreWrite>, rulings: Rulings) {
    IsTrace(books, ws, CoreSteps(rulings)) && books[0] == NO_BOOK
  }

  ghost function OkBook(rulings: Rulings): Book -> bool { (b: Book) => BookOk(b, rulings) }

  lemma EmptyBookOk(rulings: Rulings)
    ensures BookOk(NO_BOOK, rulings)
  {
    BlankOk(rulings.codec);
  }

  lemma RunKeepsBook(books: seq<Book>, ws: seq<CoreWrite>, k: nat, rulings: Rulings)
    requires Run(books, ws, rulings) && k < |books|
    ensures BookOk(books[k], rulings)
  {
    EmptyBookOk(rulings);
    assert Preserved(CoreSteps(rulings), OkBook(rulings)) by {
      forall b, w, t | OkBook(rulings)(b) && CoreSteps(rulings)(b, w, t) ensures OkBook(rulings)(t) {
        WriteKeepsBook(b, w, rulings);
      }
    }
    Forever(books, ws, CoreSteps(rulings), OkBook(rulings), 0, k);
  }

  function Extends(before: seq<Hash>): Book -> bool { (b: Book) => before <= b.history }

  /** The history of active bundles only grows. */
  lemma HistoryGrows(books: seq<Book>, ws: seq<CoreWrite>, i: nat, k: nat, rulings: Rulings)
    requires Run(books, ws, rulings) && i <= k < |books|
    ensures books[i].history <= books[k].history
  {
    var inv := Extends(books[i].history);
    assert Preserved(CoreSteps(rulings), inv);
    Forever(books, ws, CoreSteps(rulings), inv, i, k);
  }

  /** The active assignment number never goes down, and an assignment once replaced is never active again. */
  lemma NeverGoesBack(books: seq<Book>, ws: seq<CoreWrite>, i: nat, k: nat, rulings: Rulings)
    requires Run(books, ws, rulings) && i <= k < |books| && books[i].core.active.Some?
    ensures var before, now := books[i].core, books[k].core;
            && now.active.Some? && before.active.value in before.bundles && now.active.value in now.bundles
            && before.bundles[before.active.value].sequence <= now.bundles[now.active.value].sequence
            && (now.active == before.active <==>
                before.bundles[before.active.value].sequence == now.bundles[now.active.value].sequence)
  {
    RunKeepsBook(books, ws, i, rulings);
    RunKeepsBook(books, ws, k, rulings);
    HistoryGrows(books, ws, i, k, rulings);
    var before, now := books[i].history, books[k].history;
    assert before[|before| - 1] == now[|before| - 1];
  }

  /** When an assignment has been replaced, Core has disposed of exactly the captures that its drain covers. */
  lemma ReplacedIsDisposed(books: seq<Book>, ws: seq<CoreWrite>, k: nat, i: nat, n: nat, rulings: Rulings)
    requires Run(books, ws, rulings) && k < |books| && i + 1 < |books[k].history|
    ensures var b := books[k];
            && b.history[i] in b.core.bundles && b.core.bundles[b.history[i]].assignment in b.ledger.closings
            && var a := b.core.bundles[b.history[i]].assignment;
               1 <= n <= b.ledger.closings[a].last <==>
               exists h :: h in b.ledger.journal && Numbers(b.ledger.envelopes, h, a, n)
  {
    RunKeepsBook(books, ws, k, rulings);
    var b := books[k];
    BookMeans(b, rulings);
    SealedIsDisposed(b.ledger, b.core.bundles[b.history[i]].assignment, n, rulings.codec);
  }

  // ---- The engine ----

  datatype AdmissionError =
    | InvalidBundle | Identity | NoActiveBundle | NoPendingBundle | UnknownAssignment | StateRace | HandoffFailed

  datatype Admitted<+T> = Yes(value: T) | No(error: AdmissionError)

  class CoreEngine {
    const rulings: Rulings

    var core: Core
    var ledger: Ledger

    ghost var history: seq<Hash>
    ghost var writes: seq<CoreWrite>

    ghost predicate Valid()
      reads this
    {
      BookOk(Book(core, ledger, history), rulings)
    }

    /** Validation checks the links between bundles, and object identities are ideal hashes. */
    ghost predicate Configured()
    {
      && (forall b, now :: rulings.valid(b, now) ==> Linked(b))
      && (forall e, f :: rulings.codec.id(e) == rulings.codec.id(f) ==> e == f)
    }

    /** The engine over stored state, for instance after a restart. */
    constructor (rulings: Rulings, core: Core, ledger: Ledger, ghost history: seq<Hash>)
      requires BookOk(Book(core, ledger, history), rulings)
      ensures Valid() && this.rulings == rulings && this.core == core && this.ledger == ledger
      ensures this.history == history && writes == []
    {
      this.rulings, this.core, this.ledger, this.history := rulings, core, ledger, history;
      writes := [];
    }

    method Put(w: CoreWrite)
      requires Valid() && MayWrite(Book(core, ledger, history), w, rulings)
      modifies this`core, this`ledger, this`history, this`writes
      ensures Valid() && writes == old(writes) + [w]
      ensures Book(core, ledger, history) == After(old(Book(core, ledger, history)), w, rulings.codec)
    {
      WriteKeepsBook(Book(core, ledger, history), w, rulings);
      history := HistoryAfter(history, core, w);
      core := CoreAfter(core, w);
      if w.Post? {
        ledger := Posted(ledger, w.posting, rulings.codec);
      }
      writes := writes + [w];
    }

    // ---- Bundles ----

    /** The bundle is already stored, or neither its identity nor its assignment is taken. */
    predicate Storable(b: Bundle)
      reads this
    {
      || (b.id !in core.bundles && b.assignment !in core.index)
      || (b.id in core.bundles && core.bundles[b.id] == b && b.assignment in core.index
          && core.index[b.assignment] == b.id)
    }

    /** The bundle can be active or pending next to the current pointers. */
    predicate Placeable(b: Bundle, now: nat)
      reads this
    {
      match core.active
      case None => First(b) && rulings.manifest(b, now) && (ledger.head == None || ledger.head == Some(b.assignment))
      case Some(id) =>
        || id == b.id
        || (id in core.bundles && Successor(core.bundles[id], b)
            && (core.pending == None || core.pending == Some(b.id)))
    }

    /** Stores a bundle and makes it active or pending; a repeated call completes an interrupted one. */
    method StageBundle(b: Bundle, now: nat) returns (r: Admitted<()>)
      requires Valid() && Configured()
      modifies this`core, this`ledger, this`history, this`writes
      ensures Valid() && old(history) <= history && ledger.journal == old(ledger.journal)
      ensures r.Yes? <==> rulings.valid(b, now) && old(Storable(b)) && old(Placeable(b, now))
      ensures r.Yes? ==> b.id in core.bundles && core.bundles[b.id] == b
                         && (core.active == Some(b.id) || core.pending == Some(b.id))
      ensures r.Yes? && old(core.active) == None ==> core.active == Some(b.id) && Current(ledger, b.assignment)
      ensures old(core.active).Some? ==> core.active == old(core.active) && ledger == old(ledger)
      ensures old(core.pending).Some? ==> core.pending == old(core.pending)
    {
      if !rulings.valid(b, now) {
        return No(InvalidBundle);
      }
      if !(b.id in core.bundles && core.bundles[b.id] == b && b.assignment in core.index
           && core.index[b.assignment] == b.id) {
        if b.id in core.bundles || b.assignment in core.index {
          return No(Identity);
        }
        Put(StoreBundle(b));
      }
      r := InstallOrMarkPending(b, now);
    }

    method InstallOrMarkPending(b: Bundle, now: nat) returns (r: Admitted<()>)
      requires Valid() && b.id in core.bundles && core.bundles[b.id] == b
      modifies this`core, this`ledger, this`history, this`writes
      ensures Valid() && old(history) <= history && core.bundles == old(core.bundles) && core.index == old(core.index)
      ensures r.Yes? <==> old(Placeable(b, now))
      ensures r.Yes? ==> core.active == Some(b.id) || core.pending == Some(b.id)
      ensures r.Yes? && old(core.active) == None ==>
                && core.active == Some(b.id) && ledger == Posted(old(ledger), Authorize(b.assignment), rulings.codec)
                && Current(ledger, b.assignment)
      ensures r.No? ==> core == old(core)
      ensures r.No? || old(core.active).Some? ==> ledger == old(ledger)
      ensures old(core.active).Some? ==> core.active == old(core.active)
      ensures old(core.pending).Some? ==> core.pending == old(core.pending)
    {
      if core.active == None {
        if b.sequence != 1 || b.replacement.Some? {
          return No(Identity);
        }
        if !rulings.manifest(b, now) || (ledger.head.Some? && ledger.head.value != b.assignment) {
          return No(HandoffFailed);
        }
        OpenIfHeaded(b.assignment);
        Put(Post(Authorize(b.assignment)));
        Put(Activate(b.id));
        return Yes(());
      }
      var active := core.bundles[core.active.value];
      if active.id == b.id {
        return Yes(());
      }
      if b.replacement.None? || b.replacement.value.previous != active.assignment || b.previousBundle != Some(active.id)
         || b.sequence != active.sequence + 1
      {
        return No(Identity);
      }
      if core.pending.Some? {
        if core.pending.value == b.id {
          return Yes(());
        }
        return No(Identity);
      }
      Put(MarkPending(b.id));
      r := Yes(());
    }

    /** Before the first activation the head, if there is one, is open. */
    lemma OpenIfHeaded(a: Id)
      requires Valid() && core.active == None && (ledger.head == None || ledger.head == Some(a))
      ensures a in ledger.states ==> ledger.states[a] == Open
    {
      BookMeans(Book(core, ledger, history), rulings);
    }

    // ---- The end of an assignment ----

    /** The drain ends the assignment where its cursor stands, now or in an interrupted call before. */
    predicate MayClose(active: Bundle, d: Closing)
      reads this
    {
      && rulings.closes(active, d) && Ends(CursorAt(ledger.cursors, d.assignment), d) && d.assignment in ledger.states
      && if ledger.states[d.assignment] == Sealed
         then d.assignment in ledger.closings && ledger.closings[d.assignment] == d
         else ledger.head == Some(d.assignment)
    }

    method CloseActive(active: Bundle, d: Closing) returns (ok: bool)
      requires Valid() && ActiveIs(core, d.assignment)
      modifies this`core, this`ledger, this`history, this`writes
      ensures Valid() && core == old(core) && history == old(history)
      ensures ok <==> old(MayClose(active, d))
      ensures ledger == if ok && old(ledger.states)[d.assignment] == Open then SealedBy(old(ledger), d) else old(ledger)
      ensures ok ==> && d.assignment in ledger.states && ledger.states[d.assignment] == Sealed
                     && d.assignment in ledger.closings && ledger.closings[d.assignment] == d
                     && CursorAt(ledger.cursors, d.assignment).drained == Some(d.last)
    {
      SealFacts(d.assignment);
      if !rulings.closes(active, d) || !Ends(CursorAt(ledger.cursors, d.assignment), d) {
        return false;
      }
      if d.assignment !in ledger.states {
        return false;
      }
      if ledger.states[d.assignment] == Sealed {
        return ledger.closings[d.assignment] == d;
      }
      if ledger.head != Some(d.assignment) {
        return false;
      }
      Put(Post(Seal(d)));
      ok := true;
    }

    lemma SealFacts(a: Id)
      requires Valid()
      ensures a in ledger.states ==>
                && (ledger.states[a] == Sealed <==> a in ledger.closings)
                && (a in ledger.closings ==>
                      CursorAt(ledger.cursors, a).drained == Some(ledger.closings[a].last))
      ensures a !in ledger.states ==> a !in ledger.closings
      ensures a in ledger.successions ==> ledger.head != Some(a)
      ensures a in ledger.answers ==> a in ledger.closings
    {
      BookMeans(Book(core, ledger, history), rulings);
      if a in ledger.states {
        assert SealAt(ledger, a);
      }
    }

    /** The answer to a drain is journaled once; it carries its time, so a later call answers only at the same time. */
    method AnswerClosing(answer: DrainAnswer) returns (ok: bool)
      requires Valid()
      requires answer.closing.assignment in ledger.closings
      requires ledger.closings[answer.closing.assignment] == answer.closing
      modifies this`core, this`ledger, this`history, this`writes
      ensures Valid() && core == old(core) && history == old(history)
      ensures ok <==> answer.closing.assignment !in old(ledger.answers)
                      || old(ledger.answers)[answer.closing.assignment] == answer
      ensures ledger == if ok then old(ledger).(answers := old(ledger.answers)[answer.closing.assignment := answer])
                        else old(ledger)
    {
      var a := answer.closing.assignment;
      if a in ledger.answers {
        ok := ledger.answers[a] == answer;
        if ok {
          assert ledger.answers[a := answer] == ledger.answers;
        }
        return;
      }
      Put(Post(AnswerDrain(answer)));
      ok := true;
    }

    /** The transition, from a drained assignment to one that is new, now or in an interrupted call before. */
    predicate MaySwitch(pending: Bundle, s: Succession)
      reads this
    {
      && rulings.succeeds(pending, s) && s.sequence == pending.sequence
      && if ledger.head == Some(s.next) then s.previous in ledger.successions && ledger.successions[s.previous] == s
         else
           && ledger.head == Some(s.previous) && s.previous in ledger.states && ledger.states[s.previous] == Sealed
           && CursorAt(ledger.cursors, s.previous).drained == Some(s.last) && s.next !in ledger.states
    }

    method SwitchAssignment(pending: Bundle, s: Succession) returns (ok: bool)
      requires Valid() && ActiveIs(core, s.previous) && PendingIs(core, s.next)
      modifies this`core, this`ledger, this`history, this`writes
      ensures Valid() && core == old(core) && history == old(history)
      ensures ok <==> old(MaySwitch(pending, s))
      ensures ok ==> ledger.head == Some(s.next)
      ensures ledger.journal == old(ledger.journal) && ledger.envelopes == old(ledger.envelopes)
              && ledger.credits == old(ledger.credits) && ledger.answers == old(ledger.answers)
              && ledger.closings == old(ledger.closings)
    {
      SealFacts(s.previous);
      if !rulings.succeeds(pending, s) || s.sequence != pending.sequence {
        return false;
      }
      if ledger.head == Some(s.next) {
        return s.previous in ledger.successions && ledger.successions[s.previous] == s;
      }
      if ledger.head != Some(s.previous) || s.previous !in ledger.states || ledger.states[s.previous] != Sealed
         || CursorAt(ledger.cursors, s.previous).drained != Some(s.last) || s.next in ledger.states
      {
        return false;
      }
      Put(Post(Succeed(s)));
      ok := true;
    }

    /** The drain and the transition are of the active and the pending assignment. */
    predicate Between(d: Closing, s: Succession)
      reads this
    {
      ActiveIs(core, d.assignment) && s.previous == d.assignment && PendingIs(core, s.next)
    }

    /** What completing needs, from the state before it or an interrupted one. */
    predicate Completable(d: Closing, s: Succession, now: nat)
      reads this
    {
      && Between(d, s)
      && var (active, pending) := (core.bundles[core.active.value], core.bundles[core.pending.value]);
         && MayClose(active, d) && rulings.manifest(pending, now)
         && (d.assignment in ledger.answers ==>
               ledger.answers[d.assignment] == DrainAnswer(d, pending.sequence, now))
         && rulings.succeeds(pending, s) && s.sequence == pending.sequence
         && if ledger.head == Some(s.next) then s.previous in ledger.successions && ledger.successions[s.previous] == s
            else s.last == d.last && s.next !in ledger.states
    }

    /** Makes the pending bundle active once the active assignment is drained and its drain answered. */
    method CompletePendingTransition(d: Closing, s: Succession, now: nat) returns (r: Admitted<DrainAnswer>)
      requires Valid()
      modifies this`core, this`ledger, this`history, this`writes
      ensures Valid() && ledger.journal == old(ledger.journal) && ledger.envelopes == old(ledger.envelopes)
              && ledger.credits == old(ledger.credits)
      ensures r.Yes? <==> old(Completable(d, s, now))
      ensures r.Yes? ==> && core == old(core).(active := old(core).pending, pending := None)
                         && history == old(history) + [old(core).pending.value]
                         && ledger.head == Some(s.next) && d.assignment in ledger.closings
                         && ledger.closings[d.assignment] == d && d.assignment in ledger.answers
                         && ledger.answers[d.assignment] == r.value && r.value.closing == d && r.value.receivedMs == now
      ensures r.No? ==> core == old(core) && history == old(history)
    {
      if core.active == None {
        return No(NoActiveBundle);
      }
      if core.pending == None {
        return No(NoPendingBundle);
      }
      var active, pending := core.bundles[core.active.value], core.bundles[core.pending.value];
      if pending.replacement.None? {
        return No(Identity);
      }
      if d.assignment != active.assignment || pending.replacement.value.previous != active.assignment
         || s.previous != active.assignment || s.next != pending.assignment
      {
        return No(Identity);
      }
      r := Transit(active, pending, d, s, now);
    }

    method Transit(active: Bundle, pending: Bundle, d: Closing, s: Succession, now: nat)
      returns (r: Admitted<DrainAnswer>)
      requires Valid() && Between(d, s)
      requires active == core.bundles[core.active.value] && pending == core.bundles[core.pending.value]
      modifies this`core, this`ledger, this`history, this`writes
      ensures Valid() && ledger.journal == old(ledger.journal) && ledger.envelopes == old(ledger.envelopes)
              && ledger.credits == old(ledger.credits)
      ensures r.Yes? <==> old(Completable(d, s, now))
      ensures r.Yes? ==> && core == old(core).(active := old(core).pending, pending := None)
                         && history == old(history) + [old(core).pending.value]
                         && ledger.head == Some(s.next) && d.assignment in ledger.closings
                         && ledger.closings[d.assignment] == d && d.assignment in ledger.answers
                         && ledger.answers[d.assignment] == r.value && r.value.closing == d && r.value.receivedMs == now
      ensures r.No? ==> core == old(core) && history == old(history)
    {
      HeadFacts();
      var closed := CloseActive(active, d);
      if !closed {
        return No(HandoffFailed);
      }
      var answer := DrainAnswer(d, pending.sequence, now);
      var answered := AnswerClosing(answer);
      if !answered || !rulings.manifest(pending, now) {
        return No(HandoffFailed);
      }
      var switched := SwitchAssignment(pending, s);
      if !switched {
        return No(HandoffFailed);
      }
      Put(Advance);
      r := Yes(answer);
    }

    /** The active assignment is at the head, or drained with the pending one at the head. */
    lemma HeadFacts()
      requires Valid() && core.active.Some? && core.pending.Some?
      ensures core.active.value in core.bundles && core.pending.value in core.bundles
      ensures var (a, b) := (core.bundles[core.active.value].assignment, core.bundles[core.pending.value].assignment);
              && a != b && a in ledger.states
              && (ledger.head == Some(a) || (ledger.head == Some(b) && ledger.states[a] == Sealed))
    {
      BookMeans(Book(core, ledger, history), rulings);
      SuccessorDiffers(core.bundles, core.index, core.active.value, core.pending.value);
    }

    // ---- Captures ----

    /** The receipt Core signs for an envelope. */
    function ReceiptFor(b: Bundle, e: Envelope, now: nat, outcome: nat, reason: nat, shareId: nat): Receipt {
      Receipt(b.manifest, b.assignment, rulings.codec.id(e), e.sequence, now, outcome, reason, shareId)
    }

    /** What Core decides about an envelope it has not seen. */
    function Disposition(b: Bundle, e: Envelope, now: nat): Receipt
      reads this
    {
      match rulings.judge(b, e, now)
      case Failed(error) =>
        ReceiptFor(b, e, now, if error.DuplicateWork? then DUPLICATE else REJECTED, ShareReason(error), 0)
      case Validated(s) =>
        if WorkOf(b, e) in ledger.credits && ledger.credits[WorkOf(b, e)] != s
        then ReceiptFor(b, e, now, DUPLICATE, REASON_DUPLICATE_WORK, 0)
        else ReceiptFor(b, e, now, ACCEPTED, REASON_VALIDATED, s)
    }

    /** Core can dispose of a new envelope: its assignment is current and it is the next in order. */
    predicate Disposable(e: Envelope, now: nat)
      reads this
    {
      && e.assignment in core.index && core.index[e.assignment] in core.bundles
      && var b := core.bundles[core.index[e.assignment]];
         && rulings.valid(b, now) && Writable(b, e, now, Disposition(b, e, now))
         && (rulings.judge(b, e, now).Validated? ==> rulings.judge(b, e, now).shareId != 0)
         && (Disposition(b, e, now).outcome == ACCEPTED ==>
               Creditable(ledger, Share(WorkOf(b, e), rulings.codec.id(e)), Disposition(b, e, now).shareId))
    }

    function Decision(e: Envelope, now: nat): Receipt
      requires Disposable(e, now)
      reads this
    {
      Disposition(core.bundles[core.index[e.assignment]], e, now)
    }

    /** The decision that is due on an envelope, if there is one. */
    function Due(e: Envelope, now: nat): Option<Receipt>
      reads this
    {
      if rulings.codec.id(e) !in ledger.journal && Disposable(e, now) then Some(Decision(e, now)) else None
    }

    predicate Writable(b: Bundle, e: Envelope, now: nat, r: Receipt)
      reads this
    {
      && rulings.fits(b, e, now) && Answers(e, r, rulings.codec) && Current(ledger, e.assignment)
      && NextUp(CursorAt(ledger.cursors, e.assignment), e)
    }

    /** An accepted share credits its work, which was not credited; any other disposition credits nothing. */
    predicate Credits(before: map<Work, nat>, after: map<Work, nat>, e: Envelope, r: Receipt)
      reads this
    {
      if r.outcome != ACCEPTED then after == before
      else
        && e.assignment in core.index && core.index[e.assignment] in core.bundles
        && var work := WorkOf(core.bundles[core.index[e.assignment]], e);
           work !in before && after == before[work := r.shareId]
    }

    /** One disposition per envelope: a journaled receipt is returned again, and otherwise the verdict is journaled. */
    method AdmitCapture(e: Envelope, now: nat) returns (r: Admitted<Receipt>)
      requires Valid()
      modifies this`core, this`ledger, this`history, this`writes
      ensures Valid() && core == old(core) && history == old(history)
      ensures r.Yes? ==> Answers(e, r.value, rulings.codec)
                         && ledger.journal == old(ledger.journal)[rulings.codec.id(e) := r.value]
      ensures r.No? ==> ledger == old(ledger)
      ensures rulings.codec.id(e) in old(ledger.journal) ==>
                && ledger == old(ledger) && (r.Yes? <==> Answers(e, ledger.journal[rulings.codec.id(e)], rulings.codec))
                && (r.Yes? ==> r.value == ledger.journal[rulings.codec.id(e)])
      ensures rulings.codec.id(e) !in old(ledger.journal) ==>
                && (r.Yes? <==> old(Disposable(e, now)))
                && (r.Yes? ==> r.value == old(Decision(e, now))
                               && Credits(old(ledger.credits), ledger.credits, e, r.value))
    {
      var id := rulings.codec.id(e);
      if id in ledger.journal {
        if !Answers(e, ledger.journal[id], rulings.codec) {
          return No(HandoffFailed);
        }
        assert ledger.journal[id := ledger.journal[id]] == ledger.journal;
        return Yes(ledger.journal[id]);
      }
      r := AdmitNew(e, now);
    }

    method AdmitNew(e: Envelope, now: nat) returns (r: Admitted<Receipt>)
      requires Valid() && rulings.codec.id(e) !in ledger.journal
      modifies this`core, this`ledger, this`history, this`writes
      ensures Valid() && core == old(core) && history == old(history)
      ensures r.No? ==> ledger == old(ledger)
      ensures r.Yes? <==> old(Disposable(e, now))
      ensures r.Yes? ==> && Answers(e, r.value, rulings.codec)
                         && ledger.journal == old(ledger.journal)[rulings.codec.id(e) := r.value]
                         && r.value == old(Decision(e, now))
                         && Credits(old(ledger.credits), ledger.credits, e, r.value)
    {
      if e.assignment !in core.index {
        return No(UnknownAssignment);
      }
      IndexFacts(e.assignment);
      var b := core.bundles[core.index[e.assignment]];
      if !rulings.valid(b, now) {
        return No(InvalidBundle);
      }
      r := Rule(b, e, now);
    }

    /** The disposition that follows the verdict. */
    method Rule(b: Bundle, e: Envelope, now: nat) returns (r: Admitted<Receipt>)
      requires Valid() && rulings.codec.id(e) !in ledger.journal && e.assignment in core.index
      requires core.index[e.assignment] in core.bundles && b == core.bundles[core.index[e.assignment]]
      requires rulings.valid(b, now)
      modifies this`core, this`ledger, this`history, this`writes
      ensures Valid() && core == old(core) && history == old(history)
      ensures r.No? ==> ledger == old(ledger)
      ensures r.Yes? <==> old(Disposable(e, now))
      ensures r.Yes? ==> && r.value == old(Disposition(b, e, now)) && Answers(e, r.value, rulings.codec)
                         && ledger.journal == old(ledger.journal)[rulings.codec.id(e) := r.value]
                         && Credits(old(ledger.credits), ledger.credits, e, r.value)
    {
      match rulings.judge(b, e, now) {
        case Failed(error) =>
          r := Decline(b, e, now, if error.DuplicateWork? then DUPLICATE else REJECTED, ShareReason(error));
        case Validated(shareId) => r := Credit(b, e, now, shareId);
      }
    }

    lemma IndexFacts(a: Id)
      requires Valid() && a in core.index
      ensures core.index[a] in core.bundles && core.bundles[core.index[a]].assignment == a
    {
    }

    /** An envelope without a receipt is not journaled either. */
    lemma Unjournaled(id: Hash)
      requires Valid() && id !in ledger.journal
      ensures id !in ledger.envelopes
    {
      BookMeans(Book(core, ledger, history), rulings);
    }

    /** A disposition without credit. */
    method Decline(b: Bundle, e: Envelope, now: nat, outcome: nat, reason: nat) returns (r: Admitted<Receipt>)
      requires Valid() && rulings.codec.id(e) !in ledger.journal && outcome != ACCEPTED
      requires e.assignment in core.index && core.index[e.assignment] in core.bundles
      requires b == core.bundles[core.index[e.assignment]]
      requires Follows(ledger, b, e, ReceiptFor(b, e, now, outcome, reason, 0), None, rulings)
      modifies this`core, this`ledger, this`history, this`writes
      ensures Valid() && core == old(core) && history == old(history)
      ensures r.Yes? <==> old(Writable(b, e, now, ReceiptFor(b, e, now, outcome, reason, 0)))
      ensures r.Yes? ==> r.value == ReceiptFor(b, e, now, outcome, reason, 0)
                         && ledger == Disposed(old(ledger), e, r.value, None, rulings.codec)
      ensures r.No? ==> ledger == old(ledger)
    {
      var receipt := ReceiptFor(b, e, now, outcome, reason, 0);
      if !Writable(b, e, now, receipt) {
        return No(HandoffFailed);
      }
      Unjournaled(rulings.codec.id(e));
      Put(Post(Dispose(e, receipt, None)));
      r := Yes(receipt);
    }

    /** A valid share is credited; if its work is credited to another share, the disposition says so. */
    method Credit(b: Bundle, e: Envelope, now: nat, shareId: nat) returns (r: Admitted<Receipt>)
      requires Valid() && rulings.codec.id(e) !in ledger.journal && rulings.judge(b, e, now) == Validated(shareId)
      requires e.assignment in core.index && core.index[e.assignment] in core.bundles
      requires b == core.bundles[core.index[e.assignment]]
      modifies this`core, this`ledger, this`history, this`writes
      ensures Valid() && core == old(core) && history == old(history)
      ensures r.No? ==> ledger == old(ledger)
      ensures r.Yes? ==> r.value == old(Disposition(b, e, now))
                         && ledger.journal == old(ledger.journal)[rulings.codec.id(e) := r.value]
      ensures r.Yes? <==> && old(Writable(b, e, now, Disposition(b, e, now))) && shareId != 0
                          && (old(Disposition(b, e, now)).outcome == ACCEPTED ==>
                                Creditable(old(ledger), Share(WorkOf(b, e), rulings.codec.id(e)), shareId))
      ensures r.Yes? && r.value.outcome == ACCEPTED ==>
              WorkOf(b, e) !in old(ledger.credits) && ledger.credits == old(ledger.credits)[WorkOf(b, e) := shareId]
      ensures r.Yes? && r.value.outcome != ACCEPTED ==> ledger.credits == old(ledger.credits)
    {
      var (work, id) := (WorkOf(b, e), rulings.codec.id(e));
      var accepted := ReceiptFor(b, e, now, ACCEPTED, REASON_VALIDATED, shareId);
      if !Writable(b, e, now, accepted) {
        return No(HandoffFailed);
      }
      if work in ledger.credits && ledger.credits[work] != shareId {
        r := Decline(b, e, now, DUPLICATE, REASON_DUPLICATE_WORK);
        return;
      }
      if !Creditable(ledger, Share(work, id), shareId) {
        return No(HandoffFailed);
      }
      AcceptShare(b, e, accepted, Share(work, id));
      r := Yes(accepted);
    }

    method AcceptShare(b: Bundle, e: Envelope, receipt: Receipt, share: Share)
      requires Valid() && rulings.codec.id(e) !in ledger.journal && share == Share(WorkOf(b, e), rulings.codec.id(e))
      requires e.assignment in core.index && core.index[e.assignment] in core.bundles
      requires b == core.bundles[core.index[e.assignment]] && rulings.fits(b, e, receipt.receivedMs)
      requires Writable(b, e, receipt.receivedMs, receipt) && Creditable(ledger, share, receipt.shareId)
      requires Follows(ledger, b, e, receipt, Some(share), rulings)
      modifies this`core, this`ledger, this`history, this`writes
      ensures Valid() && core == old(core) && history == old(history) && share.work !in old(ledger.credits)
      ensures ledger.journal == old(ledger.journal)[rulings.codec.id(e) := receipt]
      ensures ledger.credits == old(ledger.credits)[share.work := receipt.shareId]
    {
      Unjournaled(rulings.codec.id(e));
      NewCredit(share, receipt.shareId);
      Put(Post(Dispose(e, receipt, Some(share))));
    }

    lemma NewCredit(share: Share, shareId: nat)
      requires Valid() && Creditable(ledger, share, shareId) && share.envelope !in ledger.journal
      ensures share.work !in ledger.credits
    {
      BookMeans(Book(core, ledger, history), rulings);
      CreditIsNew(ledger, share, shareId);
    }
  }

  /** A transition interrupted after its answer completes only at the time the answer was made for. */
  lemma RetryNeedsSameTime(engine: CoreEngine, d: Closing, s: Succession, now: nat)
    requires engine.Valid() && d.assignment in engine.ledger.answers
    ensures engine.Completable(d, s, now) ==> now == engine.ledger.answers[d.assignment].receivedMs
  {
  }
}
